/**
 * The model-fallback orchestrator of backend/src/services/ai.service.js:
 * a fixed, priority-ordered list of model names is tried one at a time
 * against a provider, the primary model gets one retry on a rate limit, the
 * first generated response is cleaned of a code fence and returned, and when
 * the key is unusable or every model fails the caller's template is filled
 * in by plain text substitution. The module-level `currentModel` slot is the
 * field of class `AiService`.
 */
module Ai {
  import opened Wrappers
  import opened Text
  import opened Seqs
  import opened Patterns

  // ---------------------------------------------------------------- models

  datatype ModelInfo = ModelInfo(name: string, priority: nat)

  /** The fallback chain, in the order the models are tried. */
  const Models: seq<ModelInfo> := [
    ModelInfo("gemini-2.5-flash-lite", 1),
    ModelInfo("gemini-2.5-flash", 2),
    ModelInfo("gemini-3-flash", 3),
    ModelInfo("gemini-robotics-er-1.5-preview", 4),
    ModelInfo("gemma-3-12b", 5),
    ModelInfo("gemma-3-1b", 6),
    ModelInfo("gemma-3-27b", 7),
    ModelInfo("gemma-3-2b", 8),
    ModelInfo("gemma-3-4b", 9)
  ]

  const InitialModel: string := "gemini-2.5-flash-lite"

  /** What `currentModel` holds once the template-filling fallback has been used. */
  const FallbackModel: string := "text-based-fallback"

  /** The wait before the one retry of the primary model, in milliseconds. */
  const RetryDelayMs: nat := 2000

  /** The status a provider error carries when the request was rate limited. */
  const RateLimited: int := 429

  /** A rate-limit figure of the table: a number, or a tag such as `250K` or `N/A`. */
  datatype LimitValue = Count(n: nat) | Label(text: string)

  datatype Limits = Limits(rpm: LimitValue, tpm: LimitValue, rpd: LimitValue)

  /** The published limits of each model of the chain. */
  const ModelLimits: map<string, Limits> := map[
    "gemini-2.5-flash-lite" := Limits(Count(10), Label("250K"), Count(20)),
    "gemini-2.5-flash" := Limits(Count(5), Label("250K"), Count(20)),
    "gemini-3-flash" := Limits(Count(5), Label("250K"), Count(20)),
    "gemini-robotics-er-1.5-preview" := Limits(Count(10), Label("250K"), Count(20)),
    "gemma-3-12b" := Limits(Count(30), Label("15K"), Label("14.4K")),
    "gemma-3-1b" := Limits(Count(30), Label("15K"), Label("14.4K")),
    "gemma-3-27b" := Limits(Count(30), Label("15K"), Label("14.4K")),
    "gemma-3-2b" := Limits(Count(30), Label("15K"), Label("14.4K")),
    "gemma-3-4b" := Limits(Count(30), Label("15K"), Label("14.4K"))
  ]

  const NoLimits: Limits := Limits(Label("N/A"), Label("N/A"), Label("N/A"))

  datatype LimitsReport = LimitsReport(model: string, limits: Limits)

  /** The table entry for `name`, or `N/A` throughout for a name the table does not know. */
  function LimitsFor(name: string): (l: Limits)
    ensures name in ModelLimits ==> l == ModelLimits[name]
    ensures name !in ModelLimits ==> l == NoLimits
  {
    if name in ModelLimits then ModelLimits[name] else NoLimits
  }

  /** Every model of the chain has a real entry in the table; the fallback sentinel has none. */
  lemma LimitsCoverChain()
    ensures forall i :: 0 <= i < |Models| ==> Models[i].name in ModelLimits && LimitsFor(Models[i].name) != NoLimits
    ensures LimitsFor(FallbackModel) == NoLimits
  {
  }

  // -------------------------------------------------------------- provider

  /** What one provider request produces: generated text, or an error with its status if it has one. */
  datatype Reply = Generated(text: string) | Failed(status: Option<int>)

  /** The generative provider: (model name, prompt, attempt number for that model) to reply. */
  type Provider = (string, string, nat) -> Reply

  /** One provider request: the model asked, its attempt number, and the wait before it. */
  datatype Call = Call(model: string, attempt: nat, delayMs: nat)

  /** A usable key is present, non-empty and starts with `AIza`. */
  predicate KeyValid(apiKey: Option<string>) {
    apiKey.Some? && apiKey.value != "" && StartsWith(apiKey.value, "AIza")
  }

  // The prompt's wording is not part of this model; only the places where
  // it embeds the extracted text and the template are.
  const PromptHead: string := "\n<formatting instructions>\n\nEXTRACTED CONTENT:\n"
  const PromptMiddle: string := "\n\nOUTPUT FORMAT REQUIREMENTS:\n"
  const PromptTail: string := "\n\n<structure, styling and accessibility rules>\n"

  /** The single prompt sent to every model: it embeds the text and the template verbatim. */
  function Prompt(text: string, template: string): (p: string)
    ensures Contains(p, text) && Contains(p, template)
  {
    Splice(PromptHead, text, PromptMiddle, template, PromptTail)
  }

  // ------------------------------------------------------ response cleanup

  const Fence: string := "```"

  /** Removes a trailing fence together with the white space before it: `.replace(/\s*```$/, '')`. */
  function DropClosingFence(u: string): (r: string)
    ensures |r| <= |u|
  {
    if EndsWith(u, Fence) then TrimEnd(u[..|u| - |Fence|]) else u
  }

  /**
   * The cleanup of a generated response: trim it; if it starts with a fence
   * labelled `html` or a bare fence, drop that fence and the white space
   * after it, then a closing fence and the white space before it.
   * Anything else is returned trimmed and otherwise as it is.
   */
  function Cleanup(response: string): (r: string)
    ensures !StartsWith(Trim(response), Fence) ==> r == Trim(response)
    ensures StartsWith(Trim(response), Fence) ==> |r| <= |Trim(response)| - |Fence|
  {
    Unfence(Trim(response))
  }

  /** The fence removal applied to the trimmed response. */
  function Unfence(t: string): (r: string)
    ensures !StartsWith(t, Fence) ==> r == t
    ensures StartsWith(t, Fence) ==> |r| <= |t| - |Fence|
  {
    if StartsWith(t, Fence) then
      var u := if StartsWith(t[|Fence|..], "html") then t[|Fence| + 4..] else t[|Fence|..];
      DropClosingFence(TrimStart(u))
    else t
  }

  /** White space around a string with no white space at its ends is exactly what `trim` removes. */
  lemma TrimPadding(w1: string, core: string, w4: string)
    requires AllSpace(w1) && AllSpace(w4) && (core == [] || (!IsSpace(core[0]) && !IsSpace(core[|core| - 1])))
    ensures Trim(w1 + core + w4) == core
  {
    AppendAssoc(w1, core, w4);
    TrimStartSkipsSpace(w1, core + w4);
    if core == [] {
      assert core + w4 == w4;
      TrimStartSkipsSpace(w4, []);
      assert w4 + [] == w4;
    } else {
      assert (core + w4)[0] == core[0];
      TrimEndSkipsSpace(core, w4);
    }
  }

  lemma DropClosingFenceOf(x: string)
    ensures DropClosingFence(x + Fence) == TrimEnd(x)
  {
    assert EndsWith(x + Fence, Fence);
    assert (x + Fence)[..|x + Fence| - |Fence|] == x;
  }

  lemma FenceUntrimmed()
    ensures TrimStart(Fence) == Fence
  {
    assert Fence[0] == '`';
  }

  lemma BareFenceDropped()
    ensures DropClosingFence(Fence) == []
  {
    assert EndsWith(Fence, Fence) && Fence[..|Fence| - |Fence|] == [];
  }

  /** An empty fenced body: white space and the closing fence. */
  lemma EmptyFenceBody(c: string, w3: string)
    requires AllSpace(w3) && c == []
    ensures DropClosingFence(TrimStart(c + w3 + Fence)) == []
  {
    assert c + w3 == w3;
    TrimStartSkipsSpace(w3, Fence);
    FenceUntrimmed();
    BareFenceDropped();
  }

  /** A non-empty fenced body without white space at its ends, more white space, the closing fence. */
  lemma ContentFenceBody(c: string, w3: string)
    requires AllSpace(w3) && c != [] && !IsSpace(c[0]) && !IsSpace(c[|c| - 1])
    ensures DropClosingFence(TrimStart(c + w3 + Fence)) == c
  {
    assert (c + w3 + Fence)[0] == c[0];
    assert TrimStart(c + w3 + Fence) == c + w3 + Fence;
    DropClosingFenceOf(c + w3);
    TrimEndSkipsSpace(c, w3);
    assert TrimEnd(c) == c;
  }

  /** What follows the opening fence: white space, the content, white space and the closing fence. */
  lemma FenceBodyUnwraps(w2: string, c: string, w3: string)
    requires AllSpace(w2) && AllSpace(w3) && (c == [] || (!IsSpace(c[0]) && !IsSpace(c[|c| - 1])))
    ensures DropClosingFence(TrimStart(w2 + (c + w3 + Fence))) == c
  {
    TrimStartSkipsSpace(w2, c + w3 + Fence);
    if c == [] {
      EmptyFenceBody(c, w3);
    } else {
      ContentFenceBody(c, w3);
    }
  }

  /** A fenced text has a fence character at both ends. */
  lemma FencedEnds(x: string)
    ensures (Fence + (x + Fence))[0] == '`' && !IsSpace((Fence + (x + Fence))[0])
    ensures (Fence + (x + Fence))[|Fence + (x + Fence)| - 1] == '`'
  {
  }

  /** The opening fence and its optional `html` tag are dropped. */
  lemma OpeningFenceDropped(tag: string, body: string)
    requires tag == "html" || (tag == "" && !StartsWith(body, "html"))
    ensures Unfence(Fence + (tag + body)) == DropClosingFence(TrimStart(body))
  {
    var t := Fence + (tag + body);
    assert StartsWith(t, Fence) && t[|Fence|..] == tag + body;
    if tag == "html" {
      HtmlTagDropped(body);
    } else {
      assert tag + body == body;
    }
  }

  /** Text that does not start with `html`, then white space or a fence, does not start with `html`. */
  lemma NotHtmlLed(x: string, rest: string)
    requires !StartsWith(x, "html") && rest != [] && (IsSpace(rest[0]) || rest[0] == '`')
    ensures !StartsWith(x + rest, "html")
  {
    var h := "html";
    if |x| >= |h| {
      assert (x + rest)[..|h|] == x[..|h|];
    } else if StartsWith(h, x) {
      MismatchAt(x + rest, h, 0, |x|);
    } else {
      var m :| 0 <= m < |x| && x[m] != h[m];
      MismatchAt(x + rest, h, 0, m);
    }
  }

  lemma HtmlTagDropped(body: string)
    ensures StartsWith("html" + body, "html") && ("html" + body)[4..] == body
  {
  }

  /** Content wrapped in a fence, labelled `html` or not, comes back exactly as it was. */
  lemma CleanupUnwrapsFence(tag: string, c: string, w1: string, w2: string, w3: string, w4: string)
    requires tag == "html" || tag == ""
    requires AllSpace(w1) && AllSpace(w2) && AllSpace(w3) && AllSpace(w4)
    requires tag == "html" || |w2| > 0 || !StartsWith(c, "html")
    requires Trim(c) == c
    ensures Cleanup(w1 + Fence + tag + w2 + c + w3 + Fence + w4) == c
  {
    TrimUnpadded(c);
    var body := w2 + (c + w3);
    AppendAssoc(w2, c + w3, Fence);
    AppendAssoc(tag, body, Fence);
    var core := Fence + (tag + body + Fence);
    Regroup(w1, tag, w2, c, w3, w4);
    FencedEnds(tag + body);
    TrimPadding(w1, core, w4);
    if tag == "" {
      BareFenceBody(w2, c, w3);
    }
    OpeningFenceDropped(tag, w2 + (c + w3 + Fence));
    FenceBodyUnwraps(w2, c, w3);
  }

  /** After a bare fence, white space or content that does not start with `html` is not read as the tag. */
  lemma BareFenceBody(w2: string, c: string, w3: string)
    requires AllSpace(w2) && AllSpace(w3) && (|w2| > 0 || !StartsWith(c, "html"))
    ensures !StartsWith(w2 + (c + w3 + Fence), "html")
  {
    var body := w2 + (c + w3 + Fence);
    if w2 == [] {
      assert (w3 + Fence)[0] == if w3 == [] then '`' else w3[0];
      assert body == c + (w3 + Fence);
      NotHtmlLed(c, w3 + Fence);
    } else {
      assert [] + body == body;
      NotHtmlLed([], body);
    }
  }

  lemma Regroup(w1: string, tag: string, w2: string, c: string, w3: string, w4: string)
    ensures w1 + Fence + tag + w2 + c + w3 + Fence + w4
         == w1 + (Fence + (tag + (w2 + (c + w3 + Fence)))) + w4
  {
  }

  // ------------------------------------------------------ one model, the chain

  /** The requests made for one model and the reply that settles it. */
  datatype Attempt = Attempt(calls: seq<Call>, reply: Reply)

  /**
   * Tries one model: a rate-limit error (status 429) on a priority-1 model is
   * followed, after the fixed wait, by exactly one retry whose reply settles
   * the model; every other reply settles it at once.
   */
  function TryModel(m: ModelInfo, prompt: string, provider: Provider): Attempt
  {
    var first := provider(m.name, prompt, 0);
    if first.Failed? && first.status == Some(RateLimited) && m.priority == 1 then
      Attempt([Call(m.name, 0, 0), Call(m.name, 1, RetryDelayMs)], provider(m.name, prompt, 1))
    else
      Attempt([Call(m.name, 0, 0)], first)
  }

  /**
   * The retry rule: one or two requests, the first at once; the second, after
   * the fixed wait, exactly when the first was rate limited on a priority-1
   * model; the last reply settles the model.
   */
  lemma RetryOnlyRateLimitedPrimary(m: ModelInfo, prompt: string, provider: Provider)
    ensures var a := TryModel(m, prompt, provider);
      && 1 <= |a.calls| <= 2 && a.calls[0] == Call(m.name, 0, 0)
      && (|a.calls| == 2 <==> provider(m.name, prompt, 0) == Failed(Some(RateLimited)) && m.priority == 1)
      && (|a.calls| == 2 ==> a.calls[1] == Call(m.name, 1, RetryDelayMs) && a.reply == provider(m.name, prompt, 1))
      && (|a.calls| == 1 ==> a.reply == provider(m.name, prompt, 0))
  {
  }

  predicate Fails(m: ModelInfo, prompt: string, provider: Provider) {
    TryModel(m, prompt, provider).reply.Failed?
  }

  /** How the walk along the chain ends, with every request it made. */
  datatype RunResult =
    | Succeeded(reply: string, model: string, calls: seq<Call>)
    | Exhausted(calls: seq<Call>)

  function Prepend(calls: seq<Call>, r: RunResult): RunResult {
    match r
    case Succeeded(h, m, c) => Succeeded(h, m, calls + c)
    case Exhausted(c) => Exhausted(calls + c)
  }

  lemma AssocPrepend(a: seq<Call>, b: seq<Call>, r: RunResult)
    ensures Prepend(a, Prepend(b, r)) == Prepend(a + b, r)
  {
    AppendAssoc(a, b, r.calls);
  }

  /** The walk along `ms`: models are tried in order and the first generated reply, uncleaned, ends it. */
  function Run(ms: seq<ModelInfo>, prompt: string, provider: Provider): RunResult
    decreases |ms|
  {
    if ms == [] then Exhausted([])
    else
      var a := TryModel(ms[0], prompt, provider);
      if a.reply.Generated? then Succeeded(a.reply.text, ms[0].name, a.calls)
      else Prepend(a.calls, Run(ms[1..], prompt, provider))
  }

  /** The requests made for the first `n` models of `ms`, in order. */
  function CallsThrough(ms: seq<ModelInfo>, prompt: string, provider: Provider, n: nat): seq<Call>
    requires n <= |ms|
    decreases n
  {
    if n == 0 then [] else CallsThrough(ms, prompt, provider, n - 1) + TryModel(ms[n - 1], prompt, provider).calls
  }

  lemma {:induction false} CallsThroughCons(ms: seq<ModelInfo>, prompt: string, provider: Provider, n: nat)
    requires 1 <= n <= |ms|
    ensures CallsThrough(ms, prompt, provider, n)
         == TryModel(ms[0], prompt, provider).calls + CallsThrough(ms[1..], prompt, provider, n - 1)
    decreases n
  {
    if n > 1 {
      CallsThroughCons(ms, prompt, provider, n - 1);
      assert ms[1..][n - 2] == ms[n - 1];
    }
  }

  /** The position of the first model of `ms` whose attempt does not fail, if any. */
  function FirstAnswering(ms: seq<ModelInfo>, prompt: string, provider: Provider): (r: Option<nat>)
    ensures r.None? ==> forall i :: 0 <= i < |ms| ==> Fails(ms[i], prompt, provider)
    ensures r.Some? ==> (r.value < |ms| && !Fails(ms[r.value], prompt, provider)
                         && forall i :: 0 <= i < r.value ==> Fails(ms[i], prompt, provider))
    decreases |ms|
  {
    if ms == [] then None
    else if !Fails(ms[0], prompt, provider) then Some(0)
    else
      var rest := FirstAnswering(ms[1..], prompt, provider);
      assert forall i :: 1 <= i < |ms| ==> ms[i] == ms[1..][i - 1];
      match rest
      case None => None
      case Some(k) => Some(k + 1)
  }

  /** The walk is exhausted, having made every model's requests in order, when no model answers. */
  lemma {:induction false} RunExhaustsChain(ms: seq<ModelInfo>, prompt: string, provider: Provider)
    requires FirstAnswering(ms, prompt, provider).None?
    ensures Run(ms, prompt, provider) == Exhausted(CallsThrough(ms, prompt, provider, |ms|))
    decreases |ms|
  {
    if ms != [] {
      assert Fails(ms[0], prompt, provider);
      RunExhaustsChain(ms[1..], prompt, provider);
      CallsThroughCons(ms, prompt, provider, |ms|);
    }
  }

  /**
   * The walk ends with the first model that generates, returning that reply,
   * having made the requests of that model and of the ones before
   * it, and no later one.
   */
  lemma {:induction false} RunStopsAtFirstAnswer(ms: seq<ModelInfo>, prompt: string, provider: Provider)
    requires FirstAnswering(ms, prompt, provider).Some?
    ensures var j := FirstAnswering(ms, prompt, provider).value;
      Run(ms, prompt, provider) == Succeeded(TryModel(ms[j], prompt, provider).reply.text, ms[j].name,
                                             CallsThrough(ms, prompt, provider, j + 1))
    decreases |ms|
  {
    if !Fails(ms[0], prompt, provider) {
      assert CallsThrough(ms, prompt, provider, 1) == [] + TryModel(ms[0], prompt, provider).calls;
    } else {
      var k := FirstAnswering(ms[1..], prompt, provider).value;
      RunStopsAtFirstAnswer(ms[1..], prompt, provider);
      CallsThroughCons(ms, prompt, provider, k + 2);
      assert ms[k + 1] == ms[1..][k];
    }
  }

  /** When every model fails the walk finds none that answers. */
  lemma {:induction false} NoneAnswerWhenAllFail(ms: seq<ModelInfo>, prompt: string, provider: Provider)
    requires forall i :: 0 <= i < |ms| ==> Fails(ms[i], prompt, provider)
    ensures FirstAnswering(ms, prompt, provider) == None
    decreases |ms|
  {
    if ms != [] {
      assert Fails(ms[0], prompt, provider);
      assert forall i :: 0 <= i < |ms| - 1 ==> ms[1..][i] == ms[i + 1];
      NoneAnswerWhenAllFail(ms[1..], prompt, provider);
    }
  }

  /** A model that is not priority 1 is asked exactly once. */
  lemma {:induction false} RunCallsWithoutPrimary(ms: seq<ModelInfo>, prompt: string, provider: Provider)
    requires forall i :: 0 <= i < |ms| ==> ms[i].priority != 1
    ensures |Run(ms, prompt, provider).calls| <= |ms|
    decreases |ms|
  {
    if ms != [] {
      RunCallsWithoutPrimary(ms[1..], prompt, provider);
    }
  }

  /** With only the head of the chain at priority 1, at most one request more than there are models. */
  lemma {:induction false} RunCallBound(ms: seq<ModelInfo>, prompt: string, provider: Provider)
    requires forall i :: 1 <= i < |ms| ==> ms[i].priority != 1
    ensures |Run(ms, prompt, provider).calls| <= |ms| + 1
  {
    if ms != [] {
      assert forall i :: 0 <= i < |ms| - 1 ==> ms[1..][i] == ms[i + 1];
      RunCallsWithoutPrimary(ms[1..], prompt, provider);
    }
  }

  /** Every walk makes at least one request, and its first is the first model's first attempt. */
  lemma RunStartsAtHead(ms: seq<ModelInfo>, prompt: string, provider: Provider)
    requires |ms| > 0
    ensures |Run(ms, prompt, provider).calls| >= 1
    ensures Run(ms, prompt, provider).calls[0] == Call(ms[0].name, 0, 0)
  {
  }

  // ------------------------------------------------------------- fallback

  const NotAvailable: string := "Not available"
  const InfoNotFoundHint: string := "Information not found"
  const InfoNotFound: string := "Information not found in document"
  const DefaultWebsite: string := "washcure-2f63e.web.app"

  predicate IsLineBreak(c: char) {
    c == '\n' || c == '\r'
  }

  /** The text up to the first line break. */
  function LineHead(s: string): (r: string)
    ensures StartsWith(s, r)
    ensures forall i :: 0 <= i < |r| ==> !IsLineBreak(r[i])
    ensures |r| < |s| ==> IsLineBreak(s[|r|])
    decreases |s|
  {
    if s == [] || IsLineBreak(s[0]) then [] else [s[0]] + LineHead(s[1..])
  }

  const ReportLead: string := "website report for "

  /** `/Website Report for ([^\n\r]+)/i` at the start of `t`: its capture. */
  function ReportAt(t: string): Option<string> {
    if |t| > |ReportLead| && Lower(t[..|ReportLead|]) == ReportLead && !IsLineBreak(t[|ReportLead|])
    then Some(LineHead(t[|ReportLead|..]))
    else None
  }

  /** The leading run of `:` and white-space characters of `t`: `[:\s]*`. */
  function SkipColonSpace(t: string): (r: string)
    ensures |r| <= |t| && r == t[|t| - |r|..]
    decreases |t|
  {
    if t != [] && (t[0] == ':' || IsSpace(t[0])) then SkipColonSpace(t[1..]) else t
  }

  /** `[A-F]` under the `i` flag. */
  predicate IsGradeLetter(c: char) {
    'A' <= c <= 'F' || 'a' <= c <= 'f'
  }

  predicate IsDigit(c: char) {
    '0' <= c <= '9'
  }

  /** The leading run of decimal digits of `t`. */
  function Digits(t: string): (r: string)
    ensures StartsWith(t, r) && forall i :: 0 <= i < |r| ==> IsDigit(r[i])
    decreases |t|
  {
    if t != [] && IsDigit(t[0]) then [t[0]] + Digits(t[1..]) else []
  }

  /** `/Grade[:\s]*([A-F][+-]?)/i` at the start of `t`: its capture. */
  function GradeAt(t: string): (r: Option<string>)
    ensures r.Some? ==> 1 <= |r.value| <= 2 && IsGradeLetter(r.value[0])
  {
    if |t| >= 5 && Lower(t[..5]) == "grade" then
      var u := SkipColonSpace(t[5..]);
      if u != [] && IsGradeLetter(u[0]) then
        Some([u[0]] + (if |u| > 1 && (u[1] == '+' || u[1] == '-') then [u[1]] else []))
      else None
    else None
  }

  /** `/Score[:\s]*([0-9]+)/i` at the start of `t`: its capture. */
  function ScoreAt(t: string): (r: Option<string>)
    ensures r.Some? ==> |r.value| >= 1 && forall i :: 0 <= i < |r.value| ==> IsDigit(r.value[i])
  {
    if |t| >= 5 && Lower(t[..5]) == "score" then
      var u := SkipColonSpace(t[5..]);
      var d := Digits(u);
      if d != [] then Some(d) else None
    else None
  }

  /** `[:\s]*` skips exactly a run of `:` and white space, up to a character that is neither. */
  lemma {:induction false} SkipColonSpaceRun(w: string, u: string)
    requires forall j :: 0 <= j < |w| ==> w[j] == ':' || IsSpace(w[j])
    requires u == [] || (u[0] != ':' && !IsSpace(u[0]))
    ensures SkipColonSpace(w + u) == u
    decreases |w|
  {
    if w == [] {
      assert w + u == u;
    } else {
      assert (w + u)[0] == w[0] && (w + u)[1..] == w[1..] + u;
      SkipColonSpaceRun(w[1..], u);
    }
  }

  /** `Digits` takes exactly a run of digits, up to a character that is not one. */
  lemma {:induction false} DigitsRun(d: string, u: string)
    requires forall j :: 0 <= j < |d| ==> IsDigit(d[j])
    requires u == [] || !IsDigit(u[0])
    ensures Digits(d + u) == d
    decreases |d|
  {
    if d == [] {
      assert d + u == u;
    } else {
      assert (d + u)[0] == d[0] && (d + u)[1..] == d[1..] + u;
      DigitsRun(d[1..], u);
    }
  }

  /**
   * `Grade`, in any case, then a run of `:` and white space, then a letter
   * A-F: the capture is that letter with the sign right after it, if any.
   */
  lemma GradeAtReadsLetter(g: string, w: string, c: char, rest: string)
    requires Lower(g) == "grade"
    requires forall j :: 0 <= j < |w| ==> w[j] == ':' || IsSpace(w[j])
    requires IsGradeLetter(c)
    ensures GradeAt(g + w + [c] + rest)
         == Some([c] + (if rest != [] && (rest[0] == '+' || rest[0] == '-') then [rest[0]] else []))
  {
    var t := g + w + [c] + rest;
    var n := |g|;
    assert n == 5;
    assert t[..n] == g && t[n..] == w + ([c] + rest);
    SkipColonSpaceRun(w, [c] + rest);
    assert ([c] + rest)[1..] == rest;
  }

  /**
   * `Score`, in any case, then a run of `:` and white space, then digits: the
   * capture is the whole run of digits.
   */
  lemma ScoreAtReadsDigits(g: string, w: string, d: string, rest: string)
    requires Lower(g) == "score"
    requires forall j :: 0 <= j < |w| ==> w[j] == ':' || IsSpace(w[j])
    requires d != [] && forall j :: 0 <= j < |d| ==> IsDigit(d[j])
    requires rest == [] || !IsDigit(rest[0])
    ensures ScoreAt(g + w + d + rest) == Some(d)
  {
    var t := g + w + d + rest;
    var n := |g|;
    assert n == 5;
    assert t[..n] == g && t[n..] == w + (d + rest);
    assert (d + rest)[0] == d[0];
    SkipColonSpaceRun(w, d + rest);
    DigitsRun(d, rest);
  }

  /** Without `Grade` at the start there is no grade capture there, and likewise for `Score`. */
  lemma CapturesNeedTheirWord(t: string)
    ensures (|t| < 5 || Lower(t[..5]) != "grade") ==> GradeAt(t).None?
    ensures (|t| < 5 || Lower(t[..5]) != "score") ==> ScoreAt(t).None?
  {
  }

  /** The site the report is about: the trimmed rest of the first `Website Report for` line, or the default. */
  function WebsiteName(text: string): string {
    match FirstMatch(text, ReportAt)
    case Some(name) => Trim(name)
    case None => DefaultWebsite
  }

  /** With no `Website Report for ` line the site is the default one. */
  lemma WebsiteNameDefault(text: string)
    requires forall i :: 0 <= i <= |text| ==> ReportAt(text[i..]).None?
    ensures WebsiteName(text) == DefaultWebsite
  {
    FirstMatchLeftmost(text, ReportAt);
  }

  /** Otherwise it is the trimmed rest of the line at the leftmost match. */
  lemma WebsiteNameLeftmost(text: string, i: nat)
    requires i <= |text| && ReportAt(text[i..]).Some?
    requires forall j :: 0 <= j < i ==> ReportAt(text[j..]).None?
    ensures i + |ReportLead| < |text|
    ensures WebsiteName(text) == Trim(LineHead(text[i + |ReportLead|..]))
  {
    FirstMatchLeftmost(text, ReportAt);
    assert text[i..][|ReportLead|..] == text[i + |ReportLead|..];
  }

  /** `LineHead` stops at the first line break. */
  lemma {:induction false} LineHeadUpTo(line: string, rest: string)
    requires forall j :: 0 <= j < |line| ==> !IsLineBreak(line[j])
    requires rest == [] || IsLineBreak(rest[0])
    ensures LineHead(line + rest) == line
    decreases |line|
  {
    if line == [] {
      assert line + rest == rest;
    } else {
      assert (line + rest)[1..] == line[1..] + rest;
      LineHeadUpTo(line[1..], rest);
    }
  }

  /**
   * A text opening with `Website Report for ` in any case, then a site name
   * on the rest of its line, names that site.
   */
  lemma ReportLineNamesSite(lead: string, site: string, rest: string)
    requires Lower(lead) == ReportLead
    requires site != [] && !IsSpace(site[0]) && !IsSpace(site[|site| - 1])
    requires forall j :: 0 <= j < |site| ==> !IsLineBreak(site[j])
    requires rest == [] || IsLineBreak(rest[0])
    ensures WebsiteName(lead + site + rest) == site
  {
    var text := lead + site + rest;
    var n := |lead|;
    assert n == |ReportLead|;
    assert text[..n] == lead && text[n..] == site + rest;
    assert text[0..] == text;
    WebsiteNameLeftmost(text, 0);
    LineHeadUpTo(site, rest);
    TrimUnpadded(site);
  }

  /** The space after `for` is part of the pattern: `Website Report for:x` does not name a site. */
  lemma ColonAfterLeadGivesDefault()
    ensures WebsiteName("Website Report for:x") == DefaultWebsite
  {
    var text := "Website Report for:x";
    forall i | 0 <= i <= |text|
      ensures ReportAt(text[i..]).None?
    {
      if i == 0 {
        assert Lower(text[..|ReportLead|])[|ReportLead| - 1] == ':';
      }
    }
    WebsiteNameDefault(text);
  }

  /** The capture needs a character before the line break: an empty rest of line does not name a site. */
  lemma EmptyLineAfterLeadGivesDefault()
    ensures WebsiteName("Website Report for \n") == DefaultWebsite
  {
    var text := "Website Report for \n";
    forall i | 0 <= i <= |text|
      ensures ReportAt(text[i..]).None?
    {
      if i == 0 {
        assert text[i..][|ReportLead|] == '\n';
      }
    }
    WebsiteNameDefault(text);
  }

  /** A line that counts as content: longer than 15 characters once trimmed. */
  predicate IsContentLine(line: string) {
    |Trim(line)| > 15
  }

  /** A line that gives advice. */
  predicate MentionsAdvice(line: string) {
    var l := Lower(line);
    Contains(l, "recommend") || Contains(l, "improve") || Contains(l, "should")
  }

  /** The content lines that give advice, in text order. */
  function Recommendations(text: string): seq<string> {
    Filter(MentionsAdvice, Filter(IsContentLine, SplitOn(text, "\n")))
  }

  /** A recommendation is exactly a line of the text that is a content line and gives advice. */
  lemma RecommendationsAreAdviceLines(text: string)
    ensures forall i :: 0 <= i < |Recommendations(text)| ==>
      Recommendations(text)[i] in SplitOn(text, "\n")
      && IsContentLine(Recommendations(text)[i]) && MentionsAdvice(Recommendations(text)[i])
    ensures forall i :: (0 <= i < |SplitOn(text, "\n")| && IsContentLine(SplitOn(text, "\n")[i])
                         && MentionsAdvice(SplitOn(text, "\n")[i])) ==> SplitOn(text, "\n")[i] in Recommendations(text)
  {
    var lines := Filter(IsContentLine, SplitOn(text, "\n"));
    forall i | 0 <= i < |SplitOn(text, "\n")| && IsContentLine(SplitOn(text, "\n")[i])
      && MentionsAdvice(SplitOn(text, "\n")[i])
      ensures SplitOn(text, "\n")[i] in Recommendations(text)
    {
      var x := SplitOn(text, "\n")[i];
      assert x in lines;
      var k :| 0 <= k < |lines| && lines[k] == x;
    }
  }

  /** The first grade mentioned in the text, or `B+`. */
  function Grade(text: string): string {
    match FirstMatch(text, GradeAt)
    case Some(g) => g
    case None => "B+"
  }

  /** The first score mentioned in the text, or `85`. */
  function Score(text: string): string {
    match FirstMatch(text, ScoreAt)
    case Some(d) => d
    case None => "85"
  }

  /** With no grade anywhere the grade is `B+`; otherwise it is the capture at the leftmost match. */
  lemma GradeLeftmost(text: string)
    ensures (forall i :: 0 <= i <= |text| ==> GradeAt(text[i..]).None?) ==> Grade(text) == "B+"
    ensures forall i :: 0 <= i <= |text| && GradeAt(text[i..]).Some?
                        && (forall j :: 0 <= j < i ==> GradeAt(text[j..]).None?)
                        ==> Grade(text) == GradeAt(text[i..]).value
  {
    FirstMatchLeftmost(text, GradeAt);
  }

  /** With no score anywhere the score is `85`; otherwise it is the capture at the leftmost match. */
  lemma ScoreLeftmost(text: string)
    ensures (forall i :: 0 <= i <= |text| ==> ScoreAt(text[i..]).None?) ==> Score(text) == "85"
    ensures forall i :: 0 <= i <= |text| && ScoreAt(text[i..]).Some?
                        && (forall j :: 0 <= j < i ==> ScoreAt(text[j..]).None?)
                        ==> Score(text) == ScoreAt(text[i..]).value
  {
    FirstMatchLeftmost(text, ScoreAt);
  }

  /** The data points that do not depend on the text. */
  const FixedPoints: seq<string> := [
    "SEO Analysis Complete",
    "Website Performance: Good",
    "Technical SEO: Optimized",
    "Content Quality: High",
    "Backlink Profile: Strong",
    "Mobile Optimization: Excellent",
    "Page Speed: Fast Loading"
  ]

  /** The ten replacements for `Not available`, used in turn and then again from the start. */
  function DataPoints(text: string): (r: seq<string>)
    ensures |r| == 10
    ensures r[0] == WebsiteName(text) && r[1] == Grade(text) && r[2] == Score(text)
    ensures r[3..] == FixedPoints
  {
    [WebsiteName(text), Grade(text), Score(text)] + FixedPoints
  }

  /** `/\[[^\]]+\]/.test(s)`: some `[`, then at least one character other than `]`, then `]`. */
  predicate HasBracketToken(s: string) {
    exists i :: 0 <= i && i + 2 < |s| && s[i] == '[' && s[i + 1] != ']' && ']' in s[i + 2..]
  }

  /** The length of `\[word[^\]]*\]` (case-insensitive, `word` in lower case) at the start of `t`, or 0. */
  function TagWidthAt(word: string, t: string): (w: nat)
    ensures w > 0 <==> |t| > |word| && t[0] == '[' && Lower(t[1..1 + |word|]) == word && ']' in t[1 + |word|..]
    ensures w > 0 ==> |word| + 2 <= w <= |t| && t[w - 1] == ']' && ']' !in t[1 + |word|..w - 1]
  {
    if |t| > |word| && t[0] == '[' && Lower(t[1..1 + |word|]) == word then
      match IndexOf(t[1 + |word|..], ']')
      case Some(k) => 1 + |word| + k + 1
      case None => 0
    else 0
  }

  function NameTag(t: string): nat { TagWidthAt("name", t) }
  function EmailTag(t: string): nat { TagWidthAt("email", t) }
  function ExperienceTag(t: string): nat { TagWidthAt("experience", t) }

  /** The length of `[Work history]` (case-insensitive) at the start of `t`, or 0. */
  function WorkHistoryTag(t: string): nat {
    var p := "[work history]";
    if |t| >= |p| && Lower(t[..|p|]) == p then |p| else 0
  }

  /** The first pass: the k-th `Not available` (0-based) becomes `points[k % 10]`. */
  function FillNotAvailable(template: string, points: seq<string>): string
    requires |points| > 0
  {
    if Contains(template, NotAvailable) then FillCyclic(template, NotAvailable, points, 0) else template
  }

  /** The second pass, enabled by `Information not found` in the original template. */
  function FillInformation(s: string, template: string, recs: seq<string>): string {
    if Contains(template, InfoNotFoundHint) then ReplaceAll(s, InfoNotFound, Join(Take(recs, 3), "<br><br>")) else s
  }

  /** The bracket passes, enabled by a bracket token in the original template, in their fixed order. */
  function FillBrackets(s: string, template: string, name: string, recs: seq<string>): string {
    if HasBracketToken(template) then
      var s1 := ReplaceEach(s, NameTag, name);
      var s2 := ReplaceEach(s1, EmailTag, "contact@" + name);
      var s3 := ReplaceEach(s2, ExperienceTag, Join(Take(recs, 2), "<br>"));
      ReplaceEach(s3, WorkHistoryTag, "SEO Analysis and Optimization")
    else s
  }

  /** Where none of the four bracket patterns matches anywhere, the bracket passes change nothing. */
  lemma FillBracketsWithoutTags(s: string, template: string, name: string, recs: seq<string>)
    requires forall i :: 0 <= i < |s| ==>
      NameTag(s[i..]) == 0 && EmailTag(s[i..]) == 0 && ExperienceTag(s[i..]) == 0 && WorkHistoryTag(s[i..]) == 0
    ensures FillBrackets(s, template, name, recs) == s
  {
    ReplaceEachAbsent(s, NameTag, name);
    ReplaceEachAbsent(s, EmailTag, "contact@" + name);
    ReplaceEachAbsent(s, ExperienceTag, Join(Take(recs, 2), "<br>"));
    ReplaceEachAbsent(s, WorkHistoryTag, "SEO Analysis and Optimization");
  }

  /**
   * A `[Name…]` match at `i` runs from its `[` to the first `]` after `[name`;
   * `Patterns.ReplaceEachFirstMatch` puts the site name in its place when it
   * is the leftmost one.
   */
  lemma NameTagSpan(s: string, i: nat)
    requires i < |s| && NameTag(s[i..]) > 0
    ensures var e := i + NameTag(s[i..]);
      && e <= |s| && s[i] == '[' && Lower(s[i + 1..i + 5]) == "name" && s[e - 1] == ']' && ']' !in s[i + 5..e - 1]
  {
    var t := s[i..];
    var w := NameTag(t);
    assert t[1..5] == s[i + 1..i + 5];
    assert t[5..w - 1] == s[i + 5..i + w - 1];
  }

  /** The last passes: `WashCure Website`, then `WashCure`. */
  function Rename(s: string, name: string): string {
    ReplaceAll(ReplaceAll(s, "WashCure Website", name + " Analysis"), "WashCure", Before(name, '.'))
  }

  /** The renaming passes cut at `WashCure Website` and join with `<name> Analysis`, then do the same at `WashCure`. */
  lemma RenameIsSplitJoin(s: string, name: string)
    ensures Rename(s, name)
         == Join(SplitOn(Join(SplitOn(s, "WashCure Website"), name + " Analysis"), "WashCure"), Before(name, '.'))
  {
    ReplaceAllIsSplitJoin(s, "WashCure Website", name + " Analysis");
    ReplaceAllIsSplitJoin(ReplaceAll(s, "WashCure Website", name + " Analysis"), "WashCure", Before(name, '.'));
  }

  /** The template-filling fallback: the passes above, applied in order to the caller's template. */
  function FallbackFill(text: string, template: string): string {
    var name := WebsiteName(text);
    var recs := Recommendations(text);
    var s1 := FillNotAvailable(template, DataPoints(text));
    var s2 := FillInformation(s1, template, recs);
    var s3 := FillBrackets(s2, template, name, recs);
    Rename(s3, name)
  }

  /**
   * The `Not available` pass cuts the template at its occurrences and puts
   * the data points into the gaps in turn, wrapping around after ten; the
   * pieces are exactly the template's text between occurrences, and the
   * inserted data points are not searched again.
   */
  lemma NotAvailableCycle(text: string, template: string)
    ensures var pieces := SplitOn(template, NotAvailable);
      && FillNotAvailable(template, DataPoints(text)) == Weave(pieces, DataPoints(text), 0)
      && Join(pieces, NotAvailable) == template
      && forall i :: 0 <= i < |pieces| ==> !Contains(pieces[i], NotAvailable)
  {
    FillCyclicIsWeave(template, NotAvailable, DataPoints(text), 0);
    if !Contains(template, NotAvailable) {
      FillCyclicAbsent(template, NotAvailable, DataPoints(text), 0);
    }
    SplitJoinRoundTrip(template, NotAvailable);
    SplitPiecesAvoidPattern(template, NotAvailable);
  }

  /** Only the full phrase is replaced: each `Information not found in document` becomes the first three recommendations. */
  lemma InformationPass(text: string, s: string, template: string)
    requires Contains(template, InfoNotFoundHint)
    ensures FillInformation(s, template, Recommendations(text))
         == Join(SplitOn(s, InfoNotFound), Join(Take(Recommendations(text), 3), "<br><br>"))
  {
    ReplaceAllIsSplitJoin(s, InfoNotFound, Join(Take(Recommendations(text), 3), "<br><br>"));
  }

  lemma ContainsLonger(s: string, p: string, q: string)
    requires Contains(s, p + q)
    ensures Contains(s, p)
  {
    var i :| 0 <= i <= |s| - |p + q| && OccursAt(s, p + q, i);
    assert OccursAt(s, p + q, i);
    assert s[i..i + |p|] == (p + q)[..|p|];
    assert OccursAt(s, p, i);
  }

  /** A template with none of the recognised placeholders comes back unchanged. */
  lemma FallbackKeepsPlainTemplate(text: string, template: string)
    requires !Contains(template, NotAvailable) && !Contains(template, InfoNotFoundHint)
    requires !HasBracketToken(template) && !Contains(template, "WashCure")
    ensures FallbackFill(text, template) == template
  {
    if Contains(template, "WashCure Website") {
      assert "WashCure Website" == "WashCure" + " Website";
      ContainsLonger(template, "WashCure", " Website");
    }
    var name := WebsiteName(text);
    ReplaceAllAbsent(template, "WashCure Website", name + " Analysis");
    ReplaceAllAbsent(template, "WashCure", Before(name, '.'));
  }

  // ------------------------------------------------------- the whole call

  /** What `analyzeDocument` returns, which model the slot names afterwards, and the requests it made. */
  datatype Analysis = Analysis(html: string, modelUsed: string, calls: seq<Call>)

  /** The specification of `analyzeDocument`. */
  function Analyze(text: string, template: string, apiKey: Option<string>, provider: Provider): Analysis {
    if !KeyValid(apiKey) then Analysis(FallbackFill(text, template), FallbackModel, [])
    else
      match Run(Models, Prompt(text, template), provider)
      case Succeeded(reply, model, calls) => Analysis(Cleanup(reply), model, calls)
      case Exhausted(calls) => Analysis(FallbackFill(text, template), FallbackModel, calls)
  }

  /** A missing or malformed key makes no request and fills the template. */
  lemma BadKeyGoesStraightToFallback(text: string, template: string, apiKey: Option<string>, provider: Provider)
    requires !KeyValid(apiKey)
    ensures Analyze(text, template, apiKey, provider)
         == Analysis(FallbackFill(text, template), FallbackModel, [])
  {
  }

  /** At most ten requests: nine models and the one retry of the primary. */
  lemma AtMostTenCalls(text: string, template: string, apiKey: Option<string>, provider: Provider)
    ensures |Analyze(text, template, apiKey, provider).calls| <= 10
  {
    if KeyValid(apiKey) {
      RunCallBound(Models, Prompt(text, template), provider);
    }
  }

  /** A walk that succeeds names a model of its chain. */
  lemma SuccessNamesChainModel(ms: seq<ModelInfo>, prompt: string, provider: Provider)
    requires Run(ms, prompt, provider).Succeeded?
    ensures exists j :: 0 <= j < |ms| && ms[j].name == Run(ms, prompt, provider).model
  {
    if FirstAnswering(ms, prompt, provider).None? {
      RunExhaustsChain(ms, prompt, provider);
    } else {
      RunStopsAtFirstAnswer(ms, prompt, provider);
      var j := FirstAnswering(ms, prompt, provider).value;
      assert ms[j].name == Run(ms, prompt, provider).model;
    }
  }

  /** The slot ends naming the model that answered, which has limits, or the fallback sentinel. */
  lemma ModelUsedIsChainOrFallback(text: string, template: string, apiKey: Option<string>, provider: Provider)
    ensures var a := Analyze(text, template, apiKey, provider);
      a.modelUsed == FallbackModel
      || (exists j :: 0 <= j < |Models| && Models[j].name == a.modelUsed && LimitsFor(a.modelUsed) != NoLimits)
  {
    var p := Prompt(text, template);
    if KeyValid(apiKey) && Run(Models, p, provider).Succeeded? {
      SuccessNamesChainModel(Models, p, provider);
      LimitsCoverChain();
    }
  }

  /** The sentinel is used exactly when the key is unusable or no model answers. */
  lemma FallbackExactlyWhenNoAnswer(text: string, template: string, apiKey: Option<string>, provider: Provider)
    ensures Analyze(text, template, apiKey, provider).modelUsed == FallbackModel
        <==> !KeyValid(apiKey) || FirstAnswering(Models, Prompt(text, template), provider).None?
  {
    var p := Prompt(text, template);
    if KeyValid(apiKey) {
      if FirstAnswering(Models, p, provider).None? {
        RunExhaustsChain(Models, p, provider);
      } else {
        RunStopsAtFirstAnswer(Models, p, provider);
        var j := FirstAnswering(Models, p, provider).value;
        NotSentinel(j);
      }
    }
  }

  /** No model of the chain is called like the sentinel. */
  lemma NotSentinel(j: nat)
    requires j < |Models|
    ensures Models[j].name != FallbackModel
  {
  }

  /** A generated first reply is returned cleaned, from the primary model, after one request. */
  lemma PrimarySucceeds(text: string, template: string, apiKey: Option<string>, provider: Provider)
    requires KeyValid(apiKey)
    requires provider(Models[0].name, Prompt(text, template), 0).Generated?
    ensures Analyze(text, template, apiKey, provider) == Analysis(
      Cleanup(provider(Models[0].name, Prompt(text, template), 0).text), Models[0].name,
      [Call(Models[0].name, 0, 0)])
  {
    var prompt := Prompt(text, template);
    var first := provider(Models[0].name, prompt, 0);
    assert TryModel(Models[0], prompt, provider) == Attempt([Call(Models[0].name, 0, 0)], first);
    assert Run(Models, prompt, provider) == Succeeded(first.text, Models[0].name, [Call(Models[0].name, 0, 0)]);
  }

  /** A rate-limited primary that answers on its retry: two requests, the second after the wait. */
  lemma RateLimitedPrimaryRetried(text: string, template: string, apiKey: Option<string>, provider: Provider)
    requires KeyValid(apiKey)
    requires provider(Models[0].name, Prompt(text, template), 0) == Failed(Some(RateLimited))
    requires provider(Models[0].name, Prompt(text, template), 1).Generated?
    ensures Analyze(text, template, apiKey, provider) == Analysis(
      Cleanup(provider(Models[0].name, Prompt(text, template), 1).text), Models[0].name,
      [Call(Models[0].name, 0, 0), Call(Models[0].name, 1, RetryDelayMs)])
  {
    var prompt := Prompt(text, template);
    var calls := [Call(Models[0].name, 0, 0), Call(Models[0].name, 1, RetryDelayMs)];
    var second := provider(Models[0].name, prompt, 1);
    assert Models[0].priority == 1;
    assert TryModel(Models[0], prompt, provider) == Attempt(calls, second);
    assert Run(Models, prompt, provider) == Succeeded(second.text, Models[0].name, calls);
  }

  /** A first model that fails without being retried hands over to the second at once. */
  lemma NextModelAfterPlainFailure(ms: seq<ModelInfo>, prompt: string, provider: Provider)
    requires |ms| >= 2
    requires provider(ms[0].name, prompt, 0).Failed?
    requires provider(ms[0].name, prompt, 0).status != Some(RateLimited) || ms[0].priority != 1
    ensures |Run(ms, prompt, provider).calls| >= 2
    ensures Run(ms, prompt, provider).calls[..2] == [Call(ms[0].name, 0, 0), Call(ms[1].name, 0, 0)]
  {
    RunStartsAtHead(ms[1..], prompt, provider);
    assert ms[1..][0] == ms[1];
    var rest := Run(ms[1..], prompt, provider).calls;
    assert Run(ms, prompt, provider).calls == [Call(ms[0].name, 0, 0)] + rest;
  }

  /** Any other failure of the primary is not retried: the second model is asked next. */
  lemma OtherFailureMovesOn(text: string, template: string, apiKey: Option<string>, provider: Provider)
    requires KeyValid(apiKey)
    requires provider(Models[0].name, Prompt(text, template), 0).Failed?
    requires provider(Models[0].name, Prompt(text, template), 0).status != Some(RateLimited)
    ensures |Analyze(text, template, apiKey, provider).calls| >= 2
    ensures Analyze(text, template, apiKey, provider).calls[..2]
         == [Call(Models[0].name, 0, 0), Call(Models[1].name, 0, 0)]
  {
    NextModelAfterPlainFailure(Models, Prompt(text, template), provider);
  }

  /** When every request fails the result is exactly the filled template, after every model's requests. */
  lemma AllFailuresFillTemplate(text: string, template: string, apiKey: Option<string>, provider: Provider)
    requires KeyValid(apiKey)
    requires forall m, n :: provider(m, Prompt(text, template), n).Failed?
    ensures Analyze(text, template, apiKey, provider) == Analysis(
      FallbackFill(text, template), FallbackModel, CallsThrough(Models, Prompt(text, template), provider, |Models|))
  {
    var p := Prompt(text, template);
    assert forall i :: 0 <= i < |Models| ==> Fails(Models[i], p, provider);
    NoneAnswerWhenAllFail(Models, p, provider);
    RunExhaustsChain(Models, p, provider);
  }

  // ------------------------------------------------------------ the slot

  /** The service's one piece of state: the model most recently tried, or the fallback sentinel. */
  class AiService {
    var currentModel: string

    constructor()
      ensures currentModel == InitialModel
    {
      currentModel := InitialModel;
    }

    /** `getCurrentModel`. */
    function GetCurrentModel(): (m: string)
      reads this
      ensures m == currentModel
    {
      currentModel
    }

    /** `getModelLimits`: the slot and its table entry, `N/A` throughout for an unknown name. */
    function GetModelLimits(): (r: LimitsReport)
      reads this
      ensures r.model == currentModel
      ensures currentModel in ModelLimits ==> r.limits == ModelLimits[currentModel]
      ensures currentModel !in ModelLimits ==> r.limits == NoLimits
    {
      LimitsReport(currentModel, LimitsFor(currentModel))
    }

    /**
     * The loop over the chain `ms`: the slot is set to each model as it is
     * tried, so it names the model that answered, or the last model when
     * none did.
     */
    method TryChain(ms: seq<ModelInfo>, prompt: string, provider: Provider) returns (outcome: RunResult)
      modifies this
      ensures outcome == Run(ms, prompt, provider)
      ensures outcome.Succeeded? ==> currentModel == outcome.model
      ensures outcome.Exhausted? && |ms| > 0 ==> currentModel == ms[|ms| - 1].name
      ensures |ms| == 0 ==> currentModel == old(currentModel)
    {
      var calls: seq<Call> := [];
      var i := 0;
      while i < |ms|
        invariant 0 <= i <= |ms|
        invariant Run(ms, prompt, provider) == Prepend(calls, Run(ms[i..], prompt, provider))
        invariant i > 0 ==> currentModel == ms[i - 1].name
        invariant i == 0 ==> currentModel == old(currentModel)
      {
        var modelInfo := ms[i];
        assert ms[i..][0] == modelInfo && ms[i..][1..] == ms[i + 1..];
        ghost var before := calls;
        ghost var attempt := TryModel(modelInfo, prompt, provider);
        currentModel := modelInfo.name;
        var response := provider(modelInfo.name, prompt, 0);
        calls := calls + [Call(modelInfo.name, 0, 0)];
        if response.Generated? {
          assert attempt == Attempt([Call(modelInfo.name, 0, 0)], response);
          return Succeeded(response.text, modelInfo.name, calls);
        }
        if response.status == Some(RateLimited) && modelInfo.priority == 1 {
          var retry := provider(modelInfo.name, prompt, 1);
          calls := calls + [Call(modelInfo.name, 1, RetryDelayMs)];
          AppendAssoc(before, [Call(modelInfo.name, 0, 0)], [Call(modelInfo.name, 1, RetryDelayMs)]);
          assert attempt == Attempt([Call(modelInfo.name, 0, 0), Call(modelInfo.name, 1, RetryDelayMs)], retry);
          if retry.Generated? {
            return Succeeded(retry.text, modelInfo.name, calls);
          }
        } else {
          assert attempt == Attempt([Call(modelInfo.name, 0, 0)], response);
        }
        assert calls == before + attempt.calls;
        AssocPrepend(before, attempt.calls, Run(ms[i + 1..], prompt, provider));
        i := i + 1;
      }
      assert ms[|ms|..] == [];
      assert calls + [] == calls;
      outcome := Exhausted(calls);
    }

    /**
     * `analyzeDocument`: with a usable key, the chain is tried; on a bad key
     * or an exhausted chain the slot is set to the sentinel and the template
     * is filled in.
     */
    method AnalyzeDocument(text: string, htmlTemplate: string, apiKey: Option<string>, provider: Provider)
      returns (html: string, calls: seq<Call>)
      modifies this
      ensures Analysis(html, currentModel, calls) == Analyze(text, htmlTemplate, apiKey, provider)
    {
      calls := [];
      if KeyValid(apiKey) {
        var outcome := TryChain(Models, Prompt(text, htmlTemplate), provider);
        calls := outcome.calls;
        if outcome.Succeeded? {
          html := Cleanup(outcome.reply);
          return;
        }
      }
      currentModel := FallbackModel;
      html := FillTemplate(text, htmlTemplate);
    }
  }

  /** The template-filling fallback, pass by pass, with the pass flags read off the original template. */
  method FillTemplate(text: string, htmlTemplate: string) returns (html: string)
    ensures html == FallbackFill(text, htmlTemplate)
  {
    var filledHtml := htmlTemplate;
    var websiteName := WebsiteName(text);
    var recommendations := Recommendations(text);
    var hasNotAvailable := Contains(filledHtml, NotAvailable);
    var hasInfoNotFound := Contains(filledHtml, InfoNotFoundHint);
    var hasBracketPlaceholders := HasBracketToken(filledHtml);
    if hasNotAvailable {
      filledHtml := FillCyclic(filledHtml, NotAvailable, DataPoints(text), 0);
    }
    if hasInfoNotFound {
      filledHtml := ReplaceAll(filledHtml, InfoNotFound, Join(Take(recommendations, 3), "<br><br>"));
    }
    if hasBracketPlaceholders {
      filledHtml := ReplaceEach(filledHtml, NameTag, websiteName);
      filledHtml := ReplaceEach(filledHtml, EmailTag, "contact@" + websiteName);
      filledHtml := ReplaceEach(filledHtml, ExperienceTag, Join(Take(recommendations, 2), "<br>"));
      filledHtml := ReplaceEach(filledHtml, WorkHistoryTag, "SEO Analysis and Optimization");
    }
    filledHtml := ReplaceAll(filledHtml, "WashCure Website", websiteName + " Analysis");
    filledHtml := ReplaceAll(filledHtml, "WashCure", Before(websiteName, '.'));
    html := filledHtml;
  }
}
