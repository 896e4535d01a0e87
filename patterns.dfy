/**
 * The two ways the services use a regular expression: `s.match(re)`, which
 * finds the leftmost position where the pattern matches, and
 * `s.replace(/re/g, rep)`, which replaces the left-to-right, non-overlapping
 * matches. A pattern is given as a function of the text from a position on:
 * what it captures there, or how many characters it matches there (0 for none).
 */
module Patterns {
  import opened Wrappers

  /** `s.match(re)`: the capture of the pattern at the leftmost position where it matches. */
  function FirstMatch(s: string, at: string -> Option<string>): Option<string>
    decreases |s|
  {
    if at(s).Some? then at(s)
    else if s == [] then None
    else FirstMatch(s[1..], at)
  }

  /**
   * `FirstMatch` finds nothing exactly when the pattern matches at no
   * position, and otherwise returns the capture at the leftmost position
   * where it matches.
   */
  lemma {:induction false} FirstMatchLeftmost(s: string, at: string -> Option<string>)
    ensures FirstMatch(s, at).None? ==> forall i :: 0 <= i <= |s| ==> at(s[i..]).None?
    ensures FirstMatch(s, at).Some? ==>
      exists i :: 0 <= i <= |s| && at(s[i..]) == FirstMatch(s, at) && forall j :: 0 <= j < i ==> at(s[j..]).None?
    decreases |s|
  {
    assert s[0..] == s;
    if at(s).None? && s != [] {
      FirstMatchLeftmost(s[1..], at);
      assert forall i :: 1 <= i <= |s| ==> s[i..] == s[1..][i - 1..];
      if FirstMatch(s[1..], at).Some? {
        var k :| 0 <= k <= |s[1..]| && at(s[1..][k..]) == FirstMatch(s[1..], at)
                 && forall j :: 0 <= j < k ==> at(s[1..][j..]).None?;
        assert at(s[k + 1..]) == FirstMatch(s, at);
      }
    }
  }

  /** A match of `width` characters at the start of `s`, when `width(s)` is a match length that fits. */
  predicate MatchesAt(s: string, width: string -> nat) {
    0 < width(s) <= |s|
  }

  /** `s.replace(/re/g, rep)`: every left-to-right, non-overlapping match is replaced by `rep`. */
  function ReplaceEach(s: string, width: string -> nat, rep: string): string
    decreases |s|
  {
    if s == [] then s
    else if MatchesAt(s, width) then rep + ReplaceEach(s[width(s)..], width, rep)
    else [s[0]] + ReplaceEach(s[1..], width, rep)
  }

  /** A pattern that matches at no position leaves the text unchanged. */
  lemma {:induction false} ReplaceEachAbsent(s: string, width: string -> nat, rep: string)
    requires forall i :: 0 <= i < |s| ==> !MatchesAt(s[i..], width)
    ensures ReplaceEach(s, width, rep) == s
    decreases |s|
  {
    if s != [] {
      assert s[0..] == s;
      forall i | 0 <= i < |s| - 1
        ensures !MatchesAt(s[1..][i..], width)
      {
        assert s[1..][i..] == s[i + 1..];
      }
      ReplaceEachAbsent(s[1..], width, rep);
    }
  }

  /**
   * Replacement scans left to right: the text before the leftmost match is
   * kept, the match becomes `rep`, and the scan goes on after the match.
   */
  lemma {:induction false} ReplaceEachFirstMatch(s: string, width: string -> nat, rep: string, i: nat)
    requires i < |s| && MatchesAt(s[i..], width)
    requires forall j :: 0 <= j < i ==> !MatchesAt(s[j..], width)
    ensures ReplaceEach(s, width, rep) == s[..i] + rep + ReplaceEach(s[i + width(s[i..])..], width, rep)
    decreases i
  {
    assert s[0..] == s;
    if i > 0 {
      assert !MatchesAt(s, width);
      forall j | 0 <= j < i - 1
        ensures !MatchesAt(s[1..][j..], width)
      {
        assert s[1..][j..] == s[j + 1..];
      }
      assert s[1..][i - 1..] == s[i..];
      ReplaceEachFirstMatch(s[1..], width, rep, i - 1);
      assert s[1..][i - 1 + width(s[i..])..] == s[i + width(s[i..])..];
      assert [s[0]] + s[1..][..i - 1] == s[..i];
    }
  }
}
