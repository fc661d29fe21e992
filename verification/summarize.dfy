/**
 * The summarize stage of `generate_summaries.py`: build a prompt per entry,
 * ask the language model for a summary of one style, wait out the
 * tokens-per-minute quota, and drop the entry whose summary could not be made.
 *
 * The model client is an oracle. The source keys it by the prompt text
 * (`AskByPrompt`); the passes are stated for any oracle `Ask` from (channel,
 * entry, style) to the completion (its message content and token usage), or
 * None when the call raised. `tpm` is the configured tokens-per-minute quota.
 */
module Summarize {
  import opened Values
  import opened Utils

  /** The two summary styles, in the order the stage runs them. */
  const ParagraphStyle: string := "paragraph_summary"
  const BulletStyle: string := "bullet_summary"

  /** The style's wording inside the prompt: the two known styles are spelled out, anything else is used as given. */
  function FormatLabel(style: string): (r: string)
    ensures style == ParagraphStyle ==> r == "paragraph"
    ensures style == BulletStyle ==> r == "bullet points"
    ensures r != style ==> style == ParagraphStyle || style == BulletStyle
  {
    if style == ParagraphStyle then "paragraph"
    else if style == BulletStyle then "bullet points"
    else style
  }

  /** `entry['transcript']['text']`, or None when that lookup raises. */
  function TranscriptText(e: Dict): Option<Value>
  {
    if "transcript" in e && e["transcript"].Obj? && "text" in e["transcript"].fields
    then Some(e["transcript"].fields["text"])
    else None
  }

  /** The fields the prompt interpolates are values whose `str()` the model spells out. */
  predicate PromptReady(channel: Dict, e: Dict)
  {
    && IsScalar(Get(channel, "title", Str("")))
    && IsScalar(Get(e, "title", Str("")))
    && IsScalar(Get(e, "summary", Str("")))
    && (TranscriptText(e).Some? ==> IsScalar(TranscriptText(e).value))
  }

  /** The text the prompt ends with: the transcript's text, or "" when there is none. */
  function TranscriptPart(e: Dict): string
    requires TranscriptText(e).Some? ==> IsScalar(TranscriptText(e).value)
  {
    match TranscriptText(e)
    case Some(t) => Render(t)
    case None => ""
  }

  const Opening: string := "Below is a transcript from the "

  /** The opening sentence, naming the show. */
  function Headline(channel: Dict): string
    requires IsScalar(Get(channel, "title", Str("")))
  {
    Opening + Render(Get(channel, "title", Str(""))) + " podcast."
  }

  /** What follows the opening sentence, up to the style label. */
  function EpisodePart(e: Dict): string
    requires IsScalar(Get(e, "title", Str(""))) && IsScalar(Get(e, "summary", Str("")))
  {
    " The title of this episode is " + Render(Get(e, "title", Str(""))) + ". "
    + "Here is some information on the context of this episode: " + Render(Get(e, "summary", Str(""))) + ". "
    + "Write a summary of the transcript in past tense and "
  }

  /** What follows the style label, up to the transcript. */
  const Instructions: string :=
    " form, which should take 10 minutes to read. "
    + "Write as if Brett Cooper were talking directly to a high school reader describing the episode, in the first person "
    + "with an expressive yet simple writing style. Use quotes from the transcript to make the summary more interesting. "
    + "Include details that support main points and insights from the transcript. Ignore content about sponsors "
    + "or ads, and do not mention Brett Cooper or high school. Transcript: "

  /** Everything after the opening sentence and before the transcript. */
  function Body(e: Dict, style: string): string
    requires IsScalar(Get(e, "title", Str(""))) && IsScalar(Get(e, "summary", Str("")))
  {
    EpisodePart(e) + FormatLabel(style) + Instructions
  }

  /**
   * `construct_prompt`. It always returns a string: a missing title or summary
   * reads as "", a missing or unreadable transcript contributes "".
   */
  function ConstructPrompt(channel: Dict, e: Dict, style: string): string
    requires PromptReady(channel, e)
  {
    Headline(channel) + Body(e, style) + TranscriptPart(e)
  }

  /** The prompt opens with the sentence naming the show and closes with the transcript text. */
  lemma PromptShape(channel: Dict, e: Dict, style: string)
    requires PromptReady(channel, e)
    ensures var r := ConstructPrompt(channel, e, style);
      && |Headline(channel)| + |TranscriptPart(e)| <= |r|
      && r[..|Headline(channel)|] == Headline(channel)
      && r[|r| - |TranscriptPart(e)|..] == TranscriptPart(e)
  {
    ConcatEnds(Headline(channel), Body(e, style), TranscriptPart(e));
  }

  lemma ConcatEnds<T>(h: seq<T>, m: seq<T>, t: seq<T>)
    ensures (h + m + t)[..|h|] == h && (h + m + t)[|h + m + t| - |t|..] == t
  {
  }

  lemma ConcatDiffer<T>(a: seq<T>, b: seq<T>, x: seq<T>, y: seq<T>, c: seq<T>, d: seq<T>)
    requires x != [] && y != [] && x[0] != y[0]
    ensures a + (b + x + c) + d != a + (b + y + c) + d
  {
    assert (a + (b + x + c) + d)[|a| + |b|] == x[0];
    assert (a + (b + y + c) + d)[|a| + |b|] == y[0];
  }

  /** The two styles ask for different summaries of the same entry. */
  lemma StylesGiveDifferentPrompts(channel: Dict, e: Dict)
    requires PromptReady(channel, e)
    ensures ConstructPrompt(channel, e, ParagraphStyle) != ConstructPrompt(channel, e, BulletStyle)
  {
    ConcatDiffer(Headline(channel), EpisodePart(e), "paragraph", "bullet points", Instructions, TranscriptPart(e));
  }

  /** What the chat-completion call returns: the message content (None allowed) and the tokens it used. */
  datatype Completion = Completion(content: Option<string>, totalTokens: nat)

  /** The message content as it is stored in the entry. */
  function ContentValue(c: Completion): Value
  {
    match c.content
    case Some(s) => Str(s)
    case None => Null
  }

  /** Python's `int()` of a quotient: truncation toward zero. */
  function TruncDiv(n: nat, d: int): (q: int)
    requires d != 0
    ensures d > 0 ==> q == n / d
    ensures d < 0 ==> q <= 0
  {
    if d > 0 then n / d else -(n / -d)
  }

  /**
   * `int(60.0 / (TPM * 1.0 / total_tokens)) - 1`, in exact integers. None when
   * the expression divides by zero (no tokens reported, or a zero quota).
   */
  function SleepSeconds(tokens: nat, tpm: int): (r: Option<int>)
    ensures r.None? <==> tokens == 0 || tpm == 0
    ensures r.Some? && tpm > 0 ==> tpm * (r.value + 1) <= 60 * tokens < tpm * (r.value + 2)
    ensures r.Some? && tpm < 0 ==> r.value < 0
  {
    if tokens == 0 || tpm == 0 then None else Some(TruncDiv(60 * tokens, tpm) - 1)
  }

  /** The worked example: a quota of 60 tokens a minute. */
  lemma SleepExamples()
    ensures SleepSeconds(30, 60) == Some(29)
    ensures SleepSeconds(60, 60) == Some(59)
    ensures SleepSeconds(1000, 100000) == Some(-1)
  {
  }

  /** With a positive quota, the computed sleep is negative exactly when the call used less than a second's worth of it. */
  lemma SleepNegativeIff(tokens: nat, tpm: int)
    requires tokens > 0 && tpm > 0
    ensures SleepSeconds(tokens, tpm).value < 0 <==> 60 * tokens < tpm
    ensures SleepSeconds(tokens, tpm).value < 0 ==> SleepSeconds(tokens, tpm).value == -1
  {
  }

  /** `time.sleep` accepts the computed length: it exists and is not negative. */
  predicate SleepAccepted(tokens: nat, tpm: int)
  {
    SleepSeconds(tokens, tpm).Some? && SleepSeconds(tokens, tpm).value >= 0
  }

  /**
   * The language model as the passes consult it: the completion for an entry
   * of a channel in a summary style, or None when the call raised. Every
   * property of the passes below holds for any such oracle.
   */
  type Ask = (Dict, Dict, string) -> Option<Completion>

  /**
   * The prompt sent for an entry. An entry whose fields the model cannot
   * render (see `PromptReady`) is outside the model; it gets the empty prompt.
   */
  function PromptFor(channel: Dict, e: Dict, style: string): string
  {
    if PromptReady(channel, e) then ConstructPrompt(channel, e, style) else ""
  }

  /** The source's client: an oracle keyed by the prompt text. */
  function AskByPrompt(complete: string -> Option<Completion>): Ask
  {
    (channel: Dict, e: Dict, style: string) => complete(PromptFor(channel, e, style))
  }

  /** For a renderable entry the prompt-keyed client is asked exactly the prompt `construct_prompt` builds. */
  lemma AskByPromptSendsThePrompt(complete: string -> Option<Completion>, channel: Dict, e: Dict, style: string)
    requires PromptReady(channel, e)
    ensures AskByPrompt(complete)(channel, e, style) == complete(ConstructPrompt(channel, e, style))
  {
    var ask := AskByPrompt(complete);
    assert PromptFor(channel, e, style) == ConstructPrompt(channel, e, style);
    assert ask(channel, e, style) == complete(PromptFor(channel, e, style));
  }

  /**
   * The outcome of one `summarize_entry` call: the entry as it stands after the
   * call (the dict is written in place before the sleep), and whether the call
   * returned it (True) or returned None (False).
   */
  datatype Summarized = Summarized(entry: Dict, ok: bool)

  /**
   * `summarize_entry` as written, given the model's reply to its prompt. The
   * summary is stored as soon as the completion arrives; a sleep length that
   * is undefined or negative raises afterwards, the handler returns None, and
   * the stored summary stays.
   */
  function SummarizeEntry(e: Dict, reply: Option<Completion>, style: string, tpm: int): (r: Summarized)
    ensures r.ok <==> reply.Some? && SleepAccepted(reply.value.totalTokens, tpm)
    ensures reply.None? ==> r.entry == e
    ensures reply.Some? ==> r.entry == e[style := ContentValue(reply.value)]
  {
    match reply
    case None => Summarized(e, false)
    case Some(c) => Summarized(e[style := ContentValue(c)], SleepAccepted(c.totalTokens, tpm))
  }

  /** The evidently intended wait: the computed length, never below zero. */
  function ClampedSleep(tokens: nat, tpm: int): (r: nat)
    ensures SleepAccepted(tokens, tpm) ==> r == SleepSeconds(tokens, tpm).value
  {
    match SleepSeconds(tokens, tpm)
    case Some(s) => if s < 0 then 0 else s
    case None => 0
  }

  /** `summarize_entry` with the clamped wait: a summary that arrived is kept. */
  function SummarizeEntryClamped(e: Dict, reply: Option<Completion>, style: string): (r: Summarized)
    ensures r.ok <==> reply.Some?
    ensures r.ok ==> r.entry == e[style := ContentValue(reply.value)] && style in r.entry
    ensures !r.ok ==> r.entry == e
  {
    match reply
    case None => Summarized(e, false)
    case Some(c) => Summarized(e[style := ContentValue(c)], true)
  }

  /** The clamped call agrees with the call as written whenever the call as written succeeds. */
  lemma ClampedAgreesWhenSleepAccepted(e: Dict, reply: Option<Completion>, style: string, tpm: int)
    ensures SummarizeEntry(e, reply, style, tpm).ok ==>
              SummarizeEntry(e, reply, style, tpm) == SummarizeEntryClamped(e, reply, style)
    ensures !SummarizeEntryClamped(e, reply, style).ok ==>
              SummarizeEntry(e, reply, style, tpm) == SummarizeEntryClamped(e, reply, style)
  {
  }

  /**
   * A quota of 100000 tokens a minute and a completion of 1000 tokens: the
   * wait comes out as -1 second, `time.sleep` raises, and the entry is dropped
   * although its summary was generated (and already stored in it).
   */
  lemma ShortCompletionIsDropped(e: Dict, style: string)
    ensures
      var reply := Some(Completion(Some("A summary."), 1000));
      && !SummarizeEntry(e, reply, style, 100000).ok
      && SummarizeEntry(e, reply, style, 100000).entry[style] == Str("A summary.")
      && SummarizeEntryClamped(e, reply, style).ok
  {
    assert SleepSeconds(1000, 100000) == Some(-1);
  }

  /** Storing a summary keeps the entry's prompt fields readable, whatever the style's key. */
  lemma SummarizeKeepsReady(channel: Dict, e: Dict, reply: Option<Completion>, style: string, tpm: int)
    requires PromptReady(channel, e)
    ensures PromptReady(channel, SummarizeEntry(e, reply, style, tpm).entry)
    ensures PromptReady(channel, SummarizeEntryClamped(e, reply, style).entry)
  {
  }

  predicate AllReady(channel: Dict, es: seq<Dict>)
  {
    forall i :: 0 <= i < |es| ==> PromptReady(channel, es[i])
  }

  /**
   * The inner loop of `process_podcasts` as written, over one channel. The
   * loop iterates the list it removes from; `i` is the list iterator's
   * position. An entry at or after `i` that has not been visited is untouched.
   */
  function PassAsWritten(channel: Dict, es: seq<Dict>, i: nat, style: string, ask: Ask, tpm: int): (r: seq<Dict>)
    ensures |r| <= |es|
    ensures i >= |es| ==> r == es
    decreases |es| + 1 - i
  {
    if i >= |es| then es
    else
      var e := es[i];
      var s := SummarizeEntry(e, ask(channel, e, style), style, tpm);
      var es' := es[i := s.entry];
      if s.ok then PassAsWritten(channel, es', i + 1, style, ask, tpm)
      else
        assert es'[i] == s.entry;
        PassAsWritten(channel, RemoveFirst(es', s.entry), i + 1, style, ask, tpm)
  }

  /** A small channel: the first entry's summary call fails, the second's succeeds. */
  lemma RemovalSkipsNextEntry()
    ensures
      var channel: Dict := map["title" := Str("Show")];
      var a: Dict := map["title" := Str("a")];
      var b: Dict := map["title" := Str("b")];
      var ask: Ask := (c: Dict, e: Dict, s: string) => if e == a then None else Some(Completion(Some("sum"), 600));
      && PassAsWritten(channel, [a, b], 0, ParagraphStyle, ask, 600) == [b]
      && ParagraphStyle !in b
      && Pass(channel, [a, b], ParagraphStyle, ask) == [b[ParagraphStyle := Str("sum")]]
  {
    var channel: Dict := map["title" := Str("Show")];
    var a: Dict := map["title" := Str("a")];
    var b: Dict := map["title" := Str("b")];
    var ask: Ask := (c: Dict, e: Dict, s: string) => if e == a then None else Some(Completion(Some("sum"), 600));
    assert a["title"] != b["title"];
    assert SleepSeconds(600, 600) == Some(59);
    var es := [a, b];
    var es' := es[0 := a];
    assert es'[0] == a;
    assert FirstIndex(es', a) == 0;
    assert RemoveFirst(es', a) == [b];
    assert PassAsWritten(channel, [b], 1, ParagraphStyle, ask, 600) == [b];
  }

  /** An entry after its summary call under the corrected wait. */
  function Outcome(channel: Dict, e: Dict, style: string, ask: Ask): Summarized
  {
    SummarizeEntryClamped(e, ask(channel, e, style), style)
  }

  /** Every entry of `es` has `key`. */
  predicate AllHave(es: seq<Dict>, key: string)
  {
    forall i :: 0 <= i < |es| ==> key in es[i]
  }

  /**
   * The corrected inner loop: each entry is summarised once and kept (with its
   * summary) exactly when the summary arrived.
   */
  function Pass(channel: Dict, es: seq<Dict>, style: string, ask: Ask): (r: seq<Dict>)
    ensures |r| <= |es|
    ensures AllHave(r, style)
  {
    if es == [] then []
    else
      var s := Outcome(channel, es[0], style, ask);
      var rest := Pass(channel, es[1..], style, ask);
      if s.ok then [s.entry] + rest else rest
  }

  /** Every entry whose summary arrived is in the result, with its summary. */
  lemma {:induction false} PassKeepsSuccesses(channel: Dict, es: seq<Dict>, style: string, ask: Ask, i: nat)
    requires i < |es| && Outcome(channel, es[i], style, ask).ok
    ensures Outcome(channel, es[i], style, ask).entry in Pass(channel, es, style, ask)
  {
    if i > 0 {
      assert es[1..][i - 1] == es[i];
      PassKeepsSuccesses(channel, es[1..], style, ask, i - 1);
    }
  }

  /** Every entry of the result is an input entry whose summary arrived, with that summary. */
  lemma {:induction false} PassKeepsOnlySuccesses(channel: Dict, es: seq<Dict>, style: string, ask: Ask)
    ensures forall d :: d in Pass(channel, es, style, ask) ==>
              exists i :: 0 <= i < |es| && Outcome(channel, es[i], style, ask).ok && d == Outcome(channel, es[i], style, ask).entry
  {
    if es != [] {
      PassKeepsOnlySuccesses(channel, es[1..], style, ask);
      forall d | d in Pass(channel, es, style, ask)
        ensures exists i :: 0 <= i < |es| && Outcome(channel, es[i], style, ask).ok && d == Outcome(channel, es[i], style, ask).entry
      {
        if d !in Pass(channel, es[1..], style, ask) {
          assert Outcome(channel, es[0], style, ask).ok && d == Outcome(channel, es[0], style, ask).entry;
        } else {
          var j :| 0 <= j < |es[1..]| && Outcome(channel, es[1..][j], style, ask).ok && d == Outcome(channel, es[1..][j], style, ask).entry;
          assert es[1..][j] == es[j + 1];
        }
      }
    }
  }

  /** The result can be summarised again: the prompt fields stay readable. */
  lemma {:induction false} PassKeepsReady(channel: Dict, es: seq<Dict>, style: string, ask: Ask)
    ensures AllReady(channel, es) ==> AllReady(channel, Pass(channel, es, style, ask))
  {
    if es != [] && AllReady(channel, es) {
      PassKeepsReady(channel, es[1..], style, ask);
      SummarizeKeepsReady(channel, es[0], ask(channel, es[0], style), style, 0);
    }
  }

  /** A key every entry already had survives the pass: summarising adds a key and never removes one. */
  lemma {:induction false} PassKeepsKey(channel: Dict, es: seq<Dict>, style: string, ask: Ask, key: string)
    requires AllHave(es, key)
    ensures AllHave(Pass(channel, es, style, ask), key)
  {
    if es != [] {
      PassKeepsKey(channel, es[1..], style, ask, key);
      assert key in es[0];
    }
  }

  /** The call as written succeeded for every entry from position `i` on. */
  predicate AllSucceedFrom(channel: Dict, es: seq<Dict>, i: nat, style: string, ask: Ask, tpm: int)
  {
    forall j :: i <= j < |es| ==> SummarizeEntry(es[j], ask(channel, es[j], style), style, tpm).ok
  }

  lemma Splice<T>(es: seq<T>, i: nat, x: T, tail: seq<T>)
    requires i < |es|
    ensures es[i := x][..i + 1] + tail == es[..i] + ([x] + tail)
    ensures es[i := x][i + 1..] == es[i..][1..]
  {
    assert es[i := x][..i + 1] == es[..i] + [x];
  }

  /**
   * When no summary call fails, nothing is removed, the iterator visits every
   * entry, and the loop as written computes the corrected pass.
   */
  lemma {:induction false} PassAsWrittenAgrees(channel: Dict, es: seq<Dict>, i: nat, style: string, ask: Ask, tpm: int)
    requires i <= |es| && AllSucceedFrom(channel, es, i, style, ask, tpm)
    ensures PassAsWritten(channel, es, i, style, ask, tpm) == es[..i] + Pass(channel, es[i..], style, ask)
    decreases |es| - i
  {
    if i == |es| {
      assert es[i..] == [];
      assert es[..i] == es;
    } else {
      ClampedAgreesWhenSleepAccepted(es[i], ask(channel, es[i], style), style, tpm);
      var s := Outcome(channel, es[i], style, ask);
      var es' := es[i := s.entry];
      assert PassAsWritten(channel, es, i, style, ask, tpm) == PassAsWritten(channel, es', i + 1, style, ask, tpm);
      assert forall j :: i + 1 <= j < |es| ==> es'[j] == es[j];
      assert AllSucceedFrom(channel, es', i + 1, style, ask, tpm);
      PassAsWrittenAgrees(channel, es', i + 1, style, ask, tpm);
      var tail := Pass(channel, es[i..][1..], style, ask);
      Splice(es, i, s.entry, tail);
      assert Pass(channel, es[i..], style, ask) == [s.entry] + tail;
    }
  }

  /**
   * `d` is `e` with at most the keys in `keys` written: it has every key of
   * `e`, agrees with `e` outside `keys`, and adds no other key.
   */
  predicate Extends(d: Dict, e: Dict, keys: set<string>)
  {
    && e.Keys <= d.Keys <= e.Keys + keys
    && forall k :: k in e && k !in keys ==> d[k] == e[k]
  }

  /** `d` is some entry of `src` with at most `keys` written. */
  predicate From(d: Dict, src: seq<Dict>, keys: set<string>)
  {
    exists j :: 0 <= j < |src| && Extends(d, src[j], keys)
  }

  /** Every entry of `r` comes from `src` with at most `keys` written. */
  predicate AllFrom(r: seq<Dict>, src: seq<Dict>, keys: set<string>)
  {
    forall d :: d in r ==> From(d, src, keys)
  }

  lemma AllFromSelf(r: seq<Dict>, src: seq<Dict>, keys: set<string>)
    requires forall d :: d in r ==> d in src
    ensures AllFrom(r, src, keys)
  {
    forall d | d in r
      ensures From(d, src, keys)
    {
      var j :| 0 <= j < |src| && src[j] == d;
      assert Extends(d, src[j], keys);
    }
  }

  lemma AllFromTrans(r: seq<Dict>, x: seq<Dict>, e: seq<Dict>, a: set<string>, b: set<string>)
    requires AllFrom(r, x, a) && AllFrom(x, e, b)
    ensures AllFrom(r, e, a + b)
  {
    forall d | d in r
      ensures From(d, e, a + b)
    {
      var m :| 0 <= m < |x| && Extends(d, x[m], a);
      assert x[m] in x;
      var j :| 0 <= j < |e| && Extends(x[m], e[j], b);
      assert Extends(d, e[j], a + b);
    }
  }

  /** Whatever the call does, the entry it leaves is the entry with at most the style's key written. */
  lemma SummarizeExtends(e: Dict, reply: Option<Completion>, style: string, tpm: int)
    ensures Extends(SummarizeEntry(e, reply, style, tpm).entry, e, {style})
  {
  }

  /** Writing position `i` with an extension of what it held keeps the list from the original. */
  lemma UpdateFrom(es: seq<Dict>, i: nat, x: Dict, keys: set<string>)
    requires i < |es| && Extends(x, es[i], keys)
    ensures AllFrom(es[i := x], es, keys)
  {
    forall d | d in es[i := x]
      ensures From(d, es, keys)
    {
      var k :| 0 <= k < |es[i := x]| && es[i := x][k] == d;
      assert Extends(d, es[k], keys);
    }
  }

  /** One step of the loop as written, written or removed, keeps the list from the one before. */
  lemma StepFrom(es: seq<Dict>, i: nat, x: Dict, ok: bool, keys: set<string>)
    requires i < |es| && Extends(x, es[i], keys)
    ensures es[i := x][i] == x
    ensures AllFrom(if ok then es[i := x] else RemoveFirst(es[i := x], x), es, keys)
  {
    var es' := es[i := x];
    assert es'[i] == x;
    UpdateFrom(es, i, x, keys);
    var next := if ok then es' else RemoveFirst(es', x);
    AllFromSelf(next, es', {});
    AllFromTrans(next, es', es, {}, keys);
    assert {} + keys == keys;
  }

  /**
   * Every entry the loop as written leaves is an entry of the list it started
   * from, possibly with the style's key written: nothing is invented and no
   * other field changes.
   */
  lemma {:induction false} PassAsWrittenSurvivors(channel: Dict, es: seq<Dict>, i: nat, style: string, ask: Ask, tpm: int)
    ensures AllFrom(PassAsWritten(channel, es, i, style, ask, tpm), es, {style})
    decreases |es| + 1 - i
  {
    if i >= |es| {
      AllFromSelf(es, es, {style});
    } else {
      var e := es[i];
      var s := SummarizeEntry(e, ask(channel, e, style), style, tpm);
      SummarizeExtends(e, ask(channel, e, style), style, tpm);
      var es' := es[i := s.entry];
      assert es'[i] == s.entry;
      var next := if s.ok then es' else RemoveFirst(es', s.entry);
      assert PassAsWritten(channel, es, i, style, ask, tpm) == PassAsWritten(channel, next, i + 1, style, ask, tpm);
      StepFrom(es, i, s.entry, s.ok, {style});
      PassAsWrittenSurvivors(channel, next, i + 1, style, ask, tpm);
      AllFromTrans(PassAsWritten(channel, next, i + 1, style, ask, tpm), next, es, {style}, {style});
      assert {style} + {style} == {style};
    }
  }

  /** A key every entry had survives the loop as written. */
  lemma PassAsWrittenKeepsKey(channel: Dict, es: seq<Dict>, i: nat, style: string, ask: Ask, tpm: int, key: string)
    requires AllHave(es, key)
    ensures AllHave(PassAsWritten(channel, es, i, style, ask, tpm), key)
  {
    PassAsWrittenSurvivors(channel, es, i, style, ask, tpm);
    var r := PassAsWritten(channel, es, i, style, ask, tpm);
    forall n | 0 <= n < |r|
      ensures key in r[n]
    {
      assert r[n] in r;
      var j :| 0 <= j < |es| && Extends(r[n], es[j], {style});
    }
  }

  /**
   * The skip, in general: when the call at the iterator's position fails and
   * the entry it leaves has no earlier equal, `remove` takes out exactly that
   * position, and the loop goes on at the next position of the shortened list.
   * The entry that followed now sits behind the iterator and is never visited.
   */
  lemma FailureSkipsNext(channel: Dict, es: seq<Dict>, i: nat, style: string, ask: Ask, tpm: int)
    requires i + 1 < |es|
    requires !SummarizeEntry(es[i], ask(channel, es[i], style), style, tpm).ok
    requires SummarizeEntry(es[i], ask(channel, es[i], style), style, tpm).entry !in es[..i]
    ensures PassAsWritten(channel, es, i, style, ask, tpm)
         == PassAsWritten(channel, es[..i] + es[i + 1..], i + 1, style, ask, tpm)
    ensures (es[..i] + es[i + 1..])[i] == es[i + 1]
  {
    var s := SummarizeEntry(es[i], ask(channel, es[i], style), style, tpm);
    var es' := es[i := s.entry];
    assert es'[..i] == es[..i];
    assert es'[i] == s.entry;
    assert forall j :: 0 <= j < i ==> es'[j] != s.entry;
    assert FirstIndex(es', s.entry) == i;
    assert es'[i + 1..] == es[i + 1..];
    assert RemoveFirst(es', s.entry) == es[..i] + es[i + 1..];
  }

  predicate PodsReady(pods: seq<Pod>)
  {
    forall i :: 0 <= i < |pods| ==> AllReady(pods[i].channel, pods[i].entries)
  }

  /** One channel of `process_podcasts` as written. */
  function SummarizePodAsWritten(pod: Pod, style: string, ask: Ask, tpm: int): (r: Pod)
    ensures r.channel == pod.channel && |r.entries| <= |pod.entries|
    ensures AllFrom(r.entries, pod.entries, {style})
  {
    PassAsWrittenSurvivors(pod.channel, pod.entries, 0, style, ask, tpm);
    Pod(pod.channel, PassAsWritten(pod.channel, pod.entries, 0, style, ask, tpm))
  }

  /** `process_podcasts` as written: channels are kept, each channel's list goes through the loop as written. */
  function ProcessPodcastsAsWritten(pods: seq<Pod>, style: string, ask: Ask, tpm: int): (r: seq<Pod>)
    ensures |r| == |pods|
    ensures forall i :: 0 <= i < |pods| ==> r[i].channel == pods[i].channel && |r[i].entries| <= |pods[i].entries|
    ensures forall i :: 0 <= i < |pods| ==> AllFrom(r[i].entries, pods[i].entries, {style})
  {
    seq(|pods|, i requires 0 <= i < |pods| => SummarizePodAsWritten(pods[i], style, ask, tpm))
  }

  /** Each channel's entries after two passes come from its entries before, with at most both styles' keys written. */
  predicate SummariesOf(r: seq<Pod>, pods: seq<Pod>)
  {
    && |r| == |pods|
    && (forall i :: 0 <= i < |pods| ==> r[i].channel == pods[i].channel && |r[i].entries| <= |pods[i].entries|)
    && forall i :: 0 <= i < |pods| ==> AllFrom(r[i].entries, pods[i].entries, {ParagraphStyle, BulletStyle})
  }

  /**
   * `generate_summaries` as written, on the loaded work units: the paragraph
   * pass over every channel, then the bullet pass over its result. Channels
   * are kept and no entry is invented, but an entry may be missing a summary
   * (the failed call before it was removed) or be dropped although its call
   * succeeded.
   */
  function GenerateSummariesAsWritten(pods: seq<Pod>, ask: Ask, tpm: int): (r: seq<Pod>)
    ensures SummariesOf(r, pods)
  {
    var paragraphs := ProcessPodcastsAsWritten(pods, ParagraphStyle, ask, tpm);
    var r := ProcessPodcastsAsWritten(paragraphs, BulletStyle, ask, tpm);
    forall i | 0 <= i < |pods|
      ensures AllFrom(r[i].entries, pods[i].entries, {ParagraphStyle, BulletStyle})
    {
      AllFromTrans(r[i].entries, paragraphs[i].entries, pods[i].entries, {BulletStyle}, {ParagraphStyle});
      assert {BulletStyle} + {ParagraphStyle} == {ParagraphStyle, BulletStyle};
    }
    r
  }

  /** A key every loaded entry had is on every entry both passes as written leave. */
  lemma GenerateAsWrittenKeepsKey(pods: seq<Pod>, ask: Ask, tpm: int, key: string)
    requires forall i :: 0 <= i < |pods| ==> AllHave(pods[i].entries, key)
    ensures forall i :: 0 <= i < |pods| ==> AllHave(GenerateSummariesAsWritten(pods, ask, tpm)[i].entries, key)
  {
    var r := GenerateSummariesAsWritten(pods, ask, tpm);
    forall i, n | 0 <= i < |pods| && 0 <= n < |r[i].entries|
      ensures key in r[i].entries[n]
    {
      assert r[i].entries[n] in r[i].entries;
      var j :| 0 <= j < |pods[i].entries| && Extends(r[i].entries[n], pods[i].entries[j], {ParagraphStyle, BulletStyle});
    }
  }

  /** One channel of the corrected `process_podcasts`. */
  function SummarizePodCorrected(pod: Pod, style: string, ask: Ask): (r: Pod)
    ensures r.channel == pod.channel && |r.entries| <= |pod.entries|
    ensures AllHave(r.entries, style)
    ensures AllReady(pod.channel, pod.entries) ==> AllReady(r.channel, r.entries)
  {
    PassKeepsReady(pod.channel, pod.entries, style, ask);
    Pod(pod.channel, Pass(pod.channel, pod.entries, style, ask))
  }

  /**
   * The corrected `process_podcasts`: one pass of one style over every
   * channel. Channels are never removed, only entries.
   */
  function ProcessPodcastsCorrected(pods: seq<Pod>, style: string, ask: Ask): (r: seq<Pod>)
    ensures |r| == |pods|
    ensures forall i :: 0 <= i < |pods| ==> r[i].channel == pods[i].channel && |r[i].entries| <= |pods[i].entries|
    ensures forall i :: 0 <= i < |pods| ==> AllHave(r[i].entries, style)
    ensures PodsReady(pods) ==> PodsReady(r)
  {
    seq(|pods|, i requires 0 <= i < |pods| => SummarizePodCorrected(pods[i], style, ask))
  }

  /** A key every entry of every channel had survives a corrected pass of any style. */
  lemma ProcessCorrectedKeepsKey(pods: seq<Pod>, style: string, ask: Ask, key: string)
    requires forall i :: 0 <= i < |pods| ==> AllHave(pods[i].entries, key)
    ensures forall i :: 0 <= i < |pods| ==> AllHave(ProcessPodcastsCorrected(pods, style, ask)[i].entries, key)
  {
    forall i | 0 <= i < |pods|
      ensures AllHave(ProcessPodcastsCorrected(pods, style, ask)[i].entries, key)
    {
      PassKeepsKey(pods[i].channel, pods[i].entries, style, ask, key);
    }
  }

  /**
   * The corrected `generate_summaries`: both passes with the corrected loop
   * and wait. Every entry that survives carries both summaries, and entries
   * the prompt can render stay renderable for the second pass.
   */
  function GenerateSummariesCorrected(pods: seq<Pod>, ask: Ask): (r: seq<Pod>)
    ensures |r| == |pods|
    ensures forall i :: 0 <= i < |pods| ==> r[i].channel == pods[i].channel && |r[i].entries| <= |pods[i].entries|
    ensures forall i :: 0 <= i < |pods| ==> AllHave(r[i].entries, ParagraphStyle) && AllHave(r[i].entries, BulletStyle)
    ensures PodsReady(pods) ==> PodsReady(r)
  {
    var paragraphs := ProcessPodcastsCorrected(pods, ParagraphStyle, ask);
    ProcessCorrectedKeepsKey(paragraphs, BulletStyle, ask, ParagraphStyle);
    ProcessPodcastsCorrected(paragraphs, BulletStyle, ask)
  }

  /** Every summary call the client makes succeeds, wait included. */
  ghost predicate AllCallsSucceed(ask: Ask, tpm: int)
  {
    forall c: Dict, e: Dict, style: string :: SummarizeEntry(e, ask(c, e, style), style, tpm).ok
  }

  /** With no failing call, one pass as written is the corrected pass. */
  lemma ProcessAsWrittenAgrees(pods: seq<Pod>, style: string, ask: Ask, tpm: int)
    requires AllCallsSucceed(ask, tpm)
    ensures ProcessPodcastsAsWritten(pods, style, ask, tpm) == ProcessPodcastsCorrected(pods, style, ask)
  {
    forall i | 0 <= i < |pods|
      ensures SummarizePodAsWritten(pods[i], style, ask, tpm) == SummarizePodCorrected(pods[i], style, ask)
    {
      var es := pods[i].entries;
      assert AllSucceedFrom(pods[i].channel, es, 0, style, ask, tpm);
      PassAsWrittenAgrees(pods[i].channel, es, 0, style, ask, tpm);
      assert es[..0] == [] && es[0..] == es;
    }
  }

  /** With no failing call, `generate_summaries` as written computes the corrected stage. */
  lemma GenerateAsWrittenAgrees(pods: seq<Pod>, ask: Ask, tpm: int)
    requires AllCallsSucceed(ask, tpm)
    ensures GenerateSummariesAsWritten(pods, ask, tpm) == GenerateSummariesCorrected(pods, ask)
  {
    ProcessAsWrittenAgrees(pods, ParagraphStyle, ask, tpm);
    ProcessAsWrittenAgrees(ProcessPodcastsCorrected(pods, ParagraphStyle, ask), BulletStyle, ask, tpm);
  }
}
