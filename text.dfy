/**
 * The JavaScript string operations the services rely on, on `seq<char>`:
 * `trim`, ASCII case mapping, `includes`/`startsWith`/`endsWith`, global
 * replacement of a literal pattern, `split`/`join`, and decimal rendering
 * of a non-negative number.
 */
module Text {
  import opened Wrappers

  /** JavaScript's WhiteSpace and LineTerminator characters: the set `trim` removes and `\s` matches. */
  predicate IsSpace(c: char) {
    c == ' ' || c == '\t' || c == '\n' || c == '\r' || c == '\U{B}' || c == '\U{C}'
    || c == '\U{A0}' || c == '\U{1680}' || ('\U{2000}' <= c <= '\U{200A}')
    || c == '\U{2028}' || c == '\U{2029}' || c == '\U{202F}' || c == '\U{205F}'
    || c == '\U{3000}' || c == '\U{FEFF}'
  }

  predicate AllSpace(s: string) {
    forall i :: 0 <= i < |s| ==> IsSpace(s[i])
  }

  /** Drops leading white space. */
  function TrimStart(s: string): (r: string)
    ensures |r| <= |s| && r == s[|s| - |r|..]
    ensures AllSpace(s[..|s| - |r|])
    ensures r == [] || !IsSpace(r[0])
    decreases |s|
  {
    if |s| > 0 && IsSpace(s[0]) then
      var r := TrimStart(s[1..]);
      assert s[..|s| - |r|] == [s[0]] + s[1..][..|s| - 1 - |r|];
      r
    else s
  }

  /** Drops trailing white space. */
  function TrimEnd(s: string): (r: string)
    ensures |r| <= |s| && r == s[..|r|]
    ensures AllSpace(s[|r|..])
    ensures r == [] || !IsSpace(r[|r| - 1])
    decreases |s|
  {
    if |s| > 0 && IsSpace(s[|s| - 1]) then
      var r := TrimEnd(s[..|s| - 1]);
      assert s[|r|..] == s[..|s| - 1][|r|..] + [s[|s| - 1]];
      r
    else s
  }

  /** `String.prototype.trim`. */
  function Trim(s: string): string {
    TrimEnd(TrimStart(s))
  }

  /** A JavaScript string `s` with `s.trim()` falsy: nothing but white space (see `BlankIsEmptyTrim`). */
  predicate IsBlank(s: string) {
    AllSpace(s)
  }

  /** Trimming leaves a string alone exactly when it has no white space at either end. */
  lemma TrimUnpadded(s: string)
    ensures Trim(s) == s <==> (s == [] || (!IsSpace(s[0]) && !IsSpace(s[|s| - 1])))
  {
    var t := TrimStart(s);
    if s != [] && !IsSpace(s[0]) && !IsSpace(s[|s| - 1]) {
      assert t == s;
      assert TrimEnd(s) == s;
    }
    if Trim(s) == s && s != [] {
      assert |t| <= |s| && TrimEnd(t) == t[..|s|];
      assert t == s;
    }
  }

  /** Regrouping a concatenation; stated once so that proofs need not rediscover it. */
  lemma AppendAssoc<T>(a: seq<T>, b: seq<T>, c: seq<T>)
    ensures a + b + c == a + (b + c)
  {
  }

  lemma StartsWithAppend(a: string, b: string)
    ensures StartsWith(a + b, a)
  {
    assert (a + b)[..|a|] == a;
  }

  lemma EndsWithAppend(a: string, b: string)
    ensures EndsWith(a + b, b)
  {
    assert (a + b)[|a + b| - |b|..] == b;
  }

  /** Leading white space does not survive trimming. */
  lemma {:induction false} TrimStartSkipsSpace(w: string, s: string)
    requires AllSpace(w)
    ensures TrimStart(w + s) == TrimStart(s)
    decreases |w|
  {
    if w != [] {
      assert IsSpace(w[0]) && (w + s)[0] == w[0];
      assert (w + s)[1..] == w[1..] + s;
      assert AllSpace(w[1..]);
      TrimStartSkipsSpace(w[1..], s);
      assert TrimStart(w + s) == TrimStart(w[1..] + s);
    } else {
      assert w + s == s;
    }
  }

  /** Trailing white space does not survive trimming. */
  lemma {:induction false} TrimEndSkipsSpace(s: string, w: string)
    requires AllSpace(w)
    ensures TrimEnd(s + w) == TrimEnd(s)
    decreases |w|
  {
    if w != [] {
      assert (s + w)[..|s + w| - 1] == s + w[..|w| - 1];
      TrimEndSkipsSpace(s, w[..|w| - 1]);
    } else {
      assert s + w == s;
    }
  }

  /** Trimming a trimmed string changes nothing. */
  lemma TrimTwice(s: string)
    ensures Trim(Trim(s)) == Trim(s)
  {
    var t := Trim(s);
    if t != [] {
      assert t == TrimStart(s)[..|t|];
      TrimUnpadded(t);
    }
  }

  /** Blank strings are exactly those that trim to the empty string. */
  lemma BlankIsEmptyTrim(s: string)
    ensures IsBlank(s) <==> Trim(s) == ""
  {
    var t := TrimStart(s);
    if Trim(s) == "" {
      forall i | 0 <= i < |s|
        ensures IsSpace(s[i])
      {
        assert s[i] == s[..|s| - |t|][i];
      }
    }
  }

  /** Trimming keeps a string blank or not blank. */
  lemma TrimmedBlank(s: string)
    ensures IsBlank(Trim(s)) <==> IsBlank(s)
  {
    BlankIsEmptyTrim(s);
    BlankIsEmptyTrim(Trim(s));
    TrimTwice(s);
  }

  /** The markers that open and close a complete HTML document. */
  const Doctype: string := "<!DOCTYPE html>"
  const ClosingTag: string := "</html>"

  /** Leading white space before a string with no white space at its ends is all that trimming removes. */
  lemma TrimPadded(w: string, d: string)
    requires AllSpace(w) && d != [] && !IsSpace(d[0]) && !IsSpace(d[|d| - 1])
    ensures Trim(w + d) == d
  {
    TrimStartSkipsSpace(w, d);
    TrimUnpadded(d);
  }

  /** A complete document opens with `<` and closes with `>`. */
  lemma DocumentEdges(d: string)
    requires StartsWith(d, Doctype) && EndsWith(d, ClosingTag)
    ensures d != [] && d[0] == '<' && d[|d| - 1] == '>'
  {
    assert d[0] == d[..|Doctype|][0];
    assert d[|d| - 1] == d[|d| - |ClosingTag|..][|ClosingTag| - 1];
  }

  /** `String.prototype.toLowerCase` on ASCII letters; every other character is kept. */
  function LowerChar(c: char): char {
    if 'A' <= c <= 'Z' then (c as int + 32) as char else c
  }

  /** `String.prototype.toUpperCase` on ASCII letters; every other character is kept. */
  function UpperChar(c: char): char {
    if 'a' <= c <= 'z' then (c as int - 32) as char else c
  }

  function Lower(s: string): (r: string)
    ensures |r| == |s| && forall i :: 0 <= i < |s| ==> r[i] == LowerChar(s[i])
  {
    seq(|s|, i requires 0 <= i < |s| => LowerChar(s[i]))
  }

  function Upper(s: string): (r: string)
    ensures |r| == |s| && forall i :: 0 <= i < |s| ==> r[i] == UpperChar(s[i])
  {
    seq(|s|, i requires 0 <= i < |s| => UpperChar(s[i]))
  }

  /** Lower-casing forgets what upper-casing did: the two spellings lower to the same text. */
  lemma LowerOfUpper(s: string)
    ensures Lower(Upper(s)) == Lower(s)
  {
    forall i | 0 <= i < |s|
      ensures Lower(Upper(s))[i] == Lower(s)[i]
    {
      var c := s[i];
      if 'a' <= c <= 'z' {
        assert UpperChar(c) == (c as int - 32) as char;
        assert 'A' <= UpperChar(c) <= 'Z';
      }
    }
  }

  predicate StartsWith(s: string, p: string) {
    |p| <= |s| && s[..|p|] == p
  }

  predicate EndsWith(s: string, p: string) {
    |p| <= |s| && s[|s| - |p|..] == p
  }

  /** `p` occurs in `s` starting at index `i`. */
  predicate OccursAt(s: string, p: string, i: int) {
    0 <= i <= |s| - |p| && s[i..i + |p|] == p
  }

  /** `s.includes(p)`. */
  predicate Contains(s: string, p: string) {
    exists i :: 0 <= i <= |s| - |p| && OccursAt(s, p, i)
  }

  lemma ContainsInfix(x: string, p: string, y: string)
    ensures Contains(x + p + y, p)
  {
    assert OccursAt(x + p + y, p, |x|);
  }

  /** `a`, `x`, `b`, `y`, `c` in that order: a text with two strings embedded in it. */
  function Splice(a: string, x: string, b: string, y: string, c: string): (p: string)
    ensures Contains(p, x) && Contains(p, y)
  {
    ContainsInfix(a, x, b + y + c);
    assert a + x + b + y + c == a + x + (b + y + c);
    ContainsInfix(a + x + b, y, c);
    a + x + b + y + c
  }

  /** A splice starts with its first part and ends with its last. */
  lemma SpliceEdges(a: string, x: string, b: string, y: string, c: string)
    ensures StartsWith(Splice(a, x, b, y, c), a) && EndsWith(Splice(a, x, b, y, c), c)
  {
    AppendAssoc(a, x, b);
    assert a + x + b + y + c == a + (x + b + y + c);
    StartsWithAppend(a, x + b + y + c);
    EndsWithAppend(a + x + b + y, c);
  }

  lemma StartsWithTrans(s: string, a: string, p: string)
    requires StartsWith(s, a) && StartsWith(a, p)
    ensures StartsWith(s, p)
  {
    assert s[..|p|] == s[..|a|][..|p|];
  }

  lemma EndsWithTrans(s: string, c: string, p: string)
    requires EndsWith(s, c) && EndsWith(c, p)
    ensures EndsWith(s, p)
  {
    assert s[|s| - |p|..] == s[|s| - |c|..][|c| - |p|..];
  }

  lemma StartsWithContains(s: string, p: string)
    requires StartsWith(s, p)
    ensures Contains(s, p)
  {
    assert OccursAt(s, p, 0);
  }

  /** Containment is transitive. */
  lemma ContainsTrans(s: string, t: string, p: string)
    requires Contains(s, t) && Contains(t, p)
    ensures Contains(s, p)
  {
    var i :| 0 <= i <= |s| - |t| && OccursAt(s, t, i);
    var j :| 0 <= j <= |t| - |p| && OccursAt(t, p, j);
    assert s[i..i + |t|] == t;
    forall k | 0 <= k < |p|
      ensures s[i + j + k] == p[k]
    {
      assert s[i + j + k] == s[i..i + |t|][j + k] == t[j + k];
      assert t[j + k] == t[j..j + |p|][k];
    }
    assert s[i + j..i + j + |p|] == p;
    assert OccursAt(s, p, i + j);
  }

  /** An occurrence in the tail of a string is an occurrence in the string. */
  lemma ContainsTail(s: string, p: string)
    requires |s| > 0 && Contains(s[1..], p)
    ensures Contains(s, p)
  {
    var i :| OccursAt(s[1..], p, i);
    assert OccursAt(s[1..], p, i);
    assert s[1..][i..i + |p|] == s[i + 1..i + 1 + |p|];
    assert OccursAt(s, p, i + 1);
  }

  /** The index of the first `c` in `s`, if there is one. */
  function IndexOf(s: string, c: char): (r: Option<nat>)
    ensures r.None? <==> c !in s
    ensures r.Some? ==> r.value < |s| && s[r.value] == c && c !in s[..r.value]
  {
    if c !in s then None
    else if s[0] == c then Some(0)
    else
      var k := IndexOf(s[1..], c).value;
      assert s[..k + 1] == [s[0]] + s[1..][..k];
      Some(k + 1)
  }

  /** The prefix of `s` before its first `c`: `s.split(c)[0]`. */
  function Before(s: string, c: char): (r: string)
    ensures StartsWith(s, r) && c !in r
    ensures |r| < |s| ==> s[|r|] == c
  {
    match IndexOf(s, c)
    case None => s
    case Some(k) => s[..k]
  }

  /** The index of the last `c` in `s`, if there is one: `s.lastIndexOf(c)`, with `None` for -1. */
  function LastIndexOf(s: string, c: char): (r: Option<nat>)
    ensures r.None? <==> c !in s
    ensures r.Some? ==> r.value < |s| && s[r.value] == c && c !in s[r.value + 1..]
    decreases |s|
  {
    if s == [] then None
    else if s[|s| - 1] == c then Some(|s| - 1)
    else
      var r := LastIndexOf(s[..|s| - 1], c);
      assert s == s[..|s| - 1] + [s[|s| - 1]];
      assert r.Some? ==> s[r.value + 1..] == s[..|s| - 1][r.value + 1..] + [s[|s| - 1]];
      r
  }

  /** Strings with `c` at the same positions have it last at the same position. */
  lemma {:induction false} LastIndexOfSamePositions(s1: string, s2: string, c: char)
    requires |s1| == |s2|
    requires forall i :: 0 <= i < |s1| ==> (s1[i] == c <==> s2[i] == c)
    ensures LastIndexOf(s1, c) == LastIndexOf(s2, c)
    decreases |s1|
  {
    if s1 != [] && s1[|s1| - 1] != c {
      LastIndexOfSamePositions(s1[..|s1| - 1], s2[..|s2| - 1], c);
    }
  }

  /**
   * `s.replace(/pat/g, rep)` for a literal `pat`: occurrences are found left to
   * right, do not overlap, and the inserted text is not searched again.
   */
  function ReplaceAll(s: string, pat: string, rep: string): string
    requires |pat| > 0
    decreases |s|
  {
    if |s| < |pat| then s
    else if s[..|pat|] == pat then rep + ReplaceAll(s[|pat|..], pat, rep)
    else [s[0]] + ReplaceAll(s[1..], pat, rep)
  }

  /**
   * `s.split(pat)` for a literal non-empty `pat`: the pieces between the
   * left-to-right, non-overlapping occurrences of `pat`.
   */
  function SplitOn(s: string, pat: string): (r: seq<string>)
    requires |pat| > 0
    ensures |r| >= 1 && StartsWith(s, r[0])
    decreases |s|
  {
    if |s| < |pat| then [s]
    else if s[..|pat|] == pat then [""] + SplitOn(s[|pat|..], pat)
    else
      var rest := SplitOn(s[1..], pat);
      [[s[0]] + rest[0]] + rest[1..]
  }

  /** `pieces.join(sep)`. */
  function Join(pieces: seq<string>, sep: string): string
    decreases |pieces|
  {
    if |pieces| == 0 then ""
    else if |pieces| == 1 then pieces[0]
    else pieces[0] + sep + Join(pieces[1..], sep)
  }

  /** The pieces one after the other: `pieces.join('')`, or the text a `+=` loop builds. */
  function Concat(pieces: seq<string>): string
    decreases |pieces|
  {
    if pieces == [] then "" else Concat(pieces[..|pieces| - 1]) + pieces[|pieces| - 1]
  }

  /** One more piece is appended at the end. */
  lemma ConcatSnoc(pieces: seq<string>, x: string)
    ensures Concat(pieces + [x]) == Concat(pieces) + x
  {
    assert (pieces + [x])[..|pieces|] == pieces;
  }

  /** Concatenating two runs of pieces concatenates their texts. */
  lemma {:induction false} ConcatAppend(a: seq<string>, b: seq<string>)
    ensures Concat(a + b) == Concat(a) + Concat(b)
    decreases |b|
  {
    if b == [] {
      assert a + b == a;
    } else {
      var b' := b[..|b| - 1];
      assert (a + b)[..|a + b| - 1] == a + b';
      ConcatAppend(a, b');
      AppendAssoc(Concat(a), Concat(b'), b[|b| - 1]);
    }
  }

  /** Every piece appears in the concatenation. */
  lemma {:induction false} ConcatContains(pieces: seq<string>, i: nat)
    requires i < |pieces|
    ensures Contains(Concat(pieces), pieces[i])
    decreases |pieces|
  {
    var init, last := pieces[..|pieces| - 1], pieces[|pieces| - 1];
    assert Concat(pieces) == Concat(init) + last;
    ContainsInfix("", Concat(init), last);
    assert "" + Concat(init) + last == Concat(pieces);
    if i == |pieces| - 1 {
      ContainsInfix(Concat(init), last, "");
      assert Concat(init) + last + "" == Concat(pieces);
    } else {
      ConcatContains(init, i);
      ContainsTrans(Concat(pieces), Concat(init), pieces[i]);
    }
  }

  /** The first `n` elements of `xs`, or all of them: `xs.slice(0, n)`. */
  function Take<T>(xs: seq<T>, n: nat): (r: seq<T>)
    ensures |r| == if n < |xs| then n else |xs|
    ensures r == xs[..|r|]
  {
    if n < |xs| then xs[..n] else xs
  }

  /**
   * The pieces of `s` joined with successive entries of `points`, starting at
   * entry `k` and wrapping around: the i-th gap receives `points[(k + i) % |points|]`.
   */
  function Weave(pieces: seq<string>, points: seq<string>, k: nat): string
    requires |points| > 0
    decreases |pieces|
  {
    if |pieces| == 0 then ""
    else if |pieces| == 1 then pieces[0]
    else pieces[0] + points[k % |points|] + Weave(pieces[1..], points, k + 1)
  }

  /**
   * `s.replace(/pat/g, () => points[count++ % points.length])` with the counter
   * starting at `k`: each occurrence consumes the next entry of `points`.
   */
  function FillCyclic(s: string, pat: string, points: seq<string>, k: nat): string
    requires |pat| > 0 && |points| > 0
    decreases |s|
  {
    if |s| < |pat| then s
    else if s[..|pat|] == pat then points[k % |points|] + FillCyclic(s[|pat|..], pat, points, k + 1)
    else [s[0]] + FillCyclic(s[1..], pat, points, k)
  }

  lemma JoinEmptyHead(pieces: seq<string>, sep: string)
    requires |pieces| >= 1
    ensures Join([""] + pieces, sep) == sep + Join(pieces, sep)
  {
    assert ([""] + pieces)[1..] == pieces;
    assert "" + sep == sep;
  }

  lemma JoinConsHead(x: string, pieces: seq<string>, sep: string)
    requires |pieces| >= 1
    ensures Join([x + pieces[0]] + pieces[1..], sep) == x + Join(pieces, sep)
  {
    var ps := [x + pieces[0]] + pieces[1..];
    if |pieces| > 1 {
      assert ps[1..] == pieces[1..];
    }
  }

  lemma WeaveConsHead(x: string, pieces: seq<string>, points: seq<string>, k: nat)
    requires |pieces| >= 1 && |points| > 0
    ensures Weave([x + pieces[0]] + pieces[1..], points, k) == x + Weave(pieces, points, k)
  {
    var ps := [x + pieces[0]] + pieces[1..];
    if |pieces| > 1 {
      assert ps[1..] == pieces[1..];
    }
  }

  /** Literal global replacement is splitting on the pattern and joining with the replacement. */
  lemma {:induction false} ReplaceAllIsSplitJoin(s: string, pat: string, rep: string)
    requires |pat| > 0
    ensures ReplaceAll(s, pat, rep) == Join(SplitOn(s, pat), rep)
    decreases |s|
  {
    if |s| < |pat| {
    } else if s[..|pat|] == pat {
      ReplaceAllIsSplitJoin(s[|pat|..], pat, rep);
      var rest := SplitOn(s[|pat|..], pat);
      assert ([""] + rest)[1..] == rest;
    } else {
      ReplaceAllIsSplitJoin(s[1..], pat, rep);
      JoinConsHead([s[0]], SplitOn(s[1..], pat), rep);
    }
  }

  /** Cyclic filling puts the successive entries of `points` into the successive gaps between pieces. */
  lemma {:induction false} FillCyclicIsWeave(s: string, pat: string, points: seq<string>, k: nat)
    requires |pat| > 0 && |points| > 0
    ensures FillCyclic(s, pat, points, k) == Weave(SplitOn(s, pat), points, k)
    decreases |s|
  {
    if |s| < |pat| {
    } else if s[..|pat|] == pat {
      FillCyclicIsWeave(s[|pat|..], pat, points, k + 1);
      var rest := SplitOn(s[|pat|..], pat);
      assert ([""] + rest)[1..] == rest;
    } else {
      FillCyclicIsWeave(s[1..], pat, points, k);
      WeaveConsHead([s[0]], SplitOn(s[1..], pat), points, k);
    }
  }

  /** Joining the pieces with the pattern restores the string. */
  lemma {:induction false} SplitJoinRoundTrip(s: string, pat: string)
    requires |pat| > 0
    ensures Join(SplitOn(s, pat), pat) == s
    decreases |s|
  {
    if |s| < |pat| {
    } else if s[..|pat|] == pat {
      var rest := SplitOn(s[|pat|..], pat);
      SplitJoinRoundTrip(s[|pat|..], pat);
      JoinEmptyHead(rest, pat);
      assert SplitOn(s, pat) == [""] + rest;
      assert s == pat + s[|pat|..];
    } else {
      var rest := SplitOn(s[1..], pat);
      SplitJoinRoundTrip(s[1..], pat);
      JoinConsHead([s[0]], rest, pat);
      assert SplitOn(s, pat) == [[s[0]] + rest[0]] + rest[1..];
      assert s == [s[0]] + s[1..];
    }
  }

  /** No piece of a split contains the pattern: the pieces are exactly the text between occurrences. */
  lemma {:induction false} SplitPiecesAvoidPattern(s: string, pat: string)
    requires |pat| > 0
    ensures forall i :: 0 <= i < |SplitOn(s, pat)| ==> !Contains(SplitOn(s, pat)[i], pat)
    decreases |s|
  {
    if |s| < |pat| {
    } else if s[..|pat|] == pat {
      SplitPiecesAvoidPattern(s[|pat|..], pat);
      var rest := SplitOn(s[|pat|..], pat);
      assert SplitOn(s, pat) == [""] + rest;
    } else {
      SplitPiecesAvoidPattern(s[1..], pat);
      var rest := SplitOn(s[1..], pat);
      var head := [s[0]] + rest[0];
      assert SplitOn(s, pat) == [head] + rest[1..];
      if Contains(head, pat) {
        var j :| OccursAt(head, pat, j);
        assert OccursAt(head, pat, j);
        assert j != 0;
        assert head[j..j + |pat|] == rest[0][j - 1..j - 1 + |pat|];
        assert OccursAt(rest[0], pat, j - 1);
        assert false;
      }
    }
  }

  /** Where the pattern does not occur, replacement changes nothing. */
  lemma {:induction false} ReplaceAllAbsent(s: string, pat: string, rep: string)
    requires |pat| > 0 && !Contains(s, pat)
    ensures ReplaceAll(s, pat, rep) == s
    decreases |s|
  {
    if |s| >= |pat| {
      assert !OccursAt(s, pat, 0);
      if Contains(s[1..], pat) {
        ContainsTail(s, pat);
      }
      ReplaceAllAbsent(s[1..], pat, rep);
    }
  }

  /** One differing character rules out an occurrence. */
  lemma MismatchAt(s: string, pat: string, i: nat, m: nat)
    requires m < |pat| && i + m < |s| && s[i + m] != pat[m]
    ensures !OccursAt(s, pat, i)
  {
    if i + |pat| <= |s| {
      assert s[i..i + |pat|][m] == s[i + m];
    }
  }

  /** No occurrence at `i + k` means none at `i` in the text from `k` on. */
  lemma NoOccurrenceShifted(s: string, k: nat, pat: string, i: nat)
    requires k <= |s| && !OccursAt(s, pat, i + k)
    ensures !OccursAt(s[k..], pat, i)
  {
    if i <= |s[k..]| - |pat| {
      assert s[k..][i..i + |pat|] == s[i + k..i + k + |pat|];
    }
  }

  /** A text that no occurrence of the pattern starts in is copied as it is, and the scan goes on after it. */
  lemma {:induction false} ReplaceAllSkip(y: string, q: string, pat: string, rep: string)
    requires |pat| > 0
    requires forall i :: 0 <= i < |y| ==> !OccursAt(y + q, pat, i)
    ensures ReplaceAll(y + q, pat, rep) == y + ReplaceAll(q, pat, rep)
    decreases |y|
  {
    if y == [] {
      assert y + q == q;
    } else if |y + q| >= |pat| {
      var s := y + q;
      assert !OccursAt(s, pat, 0);
      assert s[1..] == y[1..] + q;
      forall i | 0 <= i < |y| - 1
        ensures !OccursAt(y[1..] + q, pat, i)
      {
        NoOccurrenceShifted(s, 1, pat, i);
      }
      ReplaceAllSkip(y[1..], q, pat, rep);
    }
  }

  /**
   * Replacement leaves a piece `y` of the text in place when no occurrence
   * of the pattern overlaps it: the text before and the text after are
   * replaced on their own.
   */
  lemma {:induction false} ReplaceAllAcross(p: string, y: string, q: string, pat: string, rep: string)
    requires |pat| > 0
    requires forall i :: 0 <= i < |p| + |y| && i + |pat| > |p| ==> !OccursAt(p + y + q, pat, i)
    ensures ReplaceAll(p + y + q, pat, rep) == ReplaceAll(p, pat, rep) + y + ReplaceAll(q, pat, rep)
    decreases |p|
  {
    var s := p + y + q;
    if p == [] {
      assert s == y + q;
      ReplaceAllSkip(y, q, pat, rep);
    } else if |s| >= |pat| {
      assert 0 + |pat| > |p| ==> !OccursAt(s, pat, 0);
      var k, head := ScanStep(p, y, q, pat, rep);
      AcrossShifted(p, y, q, pat, k);
      ReplaceAllAcross(p[k..], y, q, pat, rep);
      AppendAssoc(head, ReplaceAll(p[k..], pat, rep) + y, ReplaceAll(q, pat, rep));
    }
  }

  /** No occurrence overlaps `y` in what is left after the first `k` characters either. */
  lemma AcrossShifted(p: string, y: string, q: string, pat: string, k: nat)
    requires k <= |p|
    requires forall i :: 0 <= i < |p| + |y| && i + |pat| > |p| ==> !OccursAt(p + y + q, pat, i)
    ensures forall i :: 0 <= i < |p[k..]| + |y| && i + |pat| > |p[k..]| ==> !OccursAt(p[k..] + y + q, pat, i)
  {
    var s := p + y + q;
    assert s[k..] == p[k..] + y + q;
    forall i | 0 <= i < |p[k..]| + |y| && i + |pat| > |p[k..]|
      ensures !OccursAt(p[k..] + y + q, pat, i)
    {
      NoOccurrenceShifted(s, k, pat, i);
    }
  }

  /**
   * One step of the scan over `p + y + q` that starts inside `p`: it consumes
   * the same `k` characters of `p`, with the same output `head`, as the scan
   * over `p` alone.
   */
  lemma ScanStep(p: string, y: string, q: string, pat: string, rep: string) returns (k: nat, head: string)
    requires |pat| > 0 && p != [] && |p + y + q| >= |pat|
    requires !OccursAt(p + y + q, pat, 0) || |pat| <= |p|
    ensures 1 <= k <= |p|
    ensures ReplaceAll(p + y + q, pat, rep) == head + ReplaceAll(p[k..] + y + q, pat, rep)
    ensures ReplaceAll(p, pat, rep) == head + ReplaceAll(p[k..], pat, rep)
  {
    var s := p + y + q;
    if OccursAt(s, pat, 0) {
      k, head := |pat|, rep;
      assert p[..|pat|] == s[..|pat|];
    } else {
      k, head := 1, [p[0]];
      if |p| >= |pat| {
        assert p[..|pat|] == s[..|pat|];
      }
    }
    assert s[k..] == p[k..] + y + q;
  }

  /** Where the pattern does not occur, cyclic filling changes nothing. */
  lemma {:induction false} FillCyclicAbsent(s: string, pat: string, points: seq<string>, k: nat)
    requires |pat| > 0 && |points| > 0 && !Contains(s, pat)
    ensures FillCyclic(s, pat, points, k) == s
    decreases |s|
  {
    if |s| >= |pat| {
      assert !OccursAt(s, pat, 0);
      if Contains(s[1..], pat) {
        ContainsTail(s, pat);
      }
      FillCyclicAbsent(s[1..], pat, points, k);
    }
  }

  /** The decimal digit of `d`. */
  function DigitChar(d: nat): (c: char)
    requires d < 10
    ensures '0' <= c <= '9' && c as int - '0' as int == d
  {
    ('0' as int + d) as char
  }

  /** `String(n)` for a non-negative integer: its decimal digits, most significant first. */
  function NatToString(n: nat): (r: string)
    ensures |r| >= 1
    ensures forall i :: 0 <= i < |r| ==> '0' <= r[i] <= '9'
    decreases n
  {
    if n < 10 then [DigitChar(n)] else NatToString(n / 10) + [DigitChar(n % 10)]
  }

  /** The value of a string of decimal digits. */
  function ParseDecimal(s: string): nat
    requires forall i :: 0 <= i < |s| ==> '0' <= s[i] <= '9'
    decreases |s|
  {
    if s == [] then 0 else 10 * ParseDecimal(s[..|s| - 1]) + (s[|s| - 1] as int - '0' as int)
  }

  /** Reading back the rendered digits gives the number. */
  lemma {:induction false} NatToStringRoundTrip(n: nat)
    ensures ParseDecimal(NatToString(n)) == n
    decreases n
  {
    if n >= 10 {
      NatToStringRoundTrip(n / 10);
      var r := NatToString(n);
      assert r[..|r| - 1] == NatToString(n / 10);
      assert r[|r| - 1] == DigitChar(n % 10);
    }
  }
}
