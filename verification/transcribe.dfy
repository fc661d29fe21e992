/**
 * The transcribe stage of `generate_transcripts.py`: project each entry onto
 * the seven stored fields, download its audio, transcribe it, attach the
 * result, and drop the entry whose transcription came back empty.
 *
 * The download and Whisper are oracles indexed by the entry's position in the
 * channel's list and the audio URL: `fetch(k, url)` says whether the download
 * succeeded, `transcribe(k, url)` returns Whisper's result or None.
 */
module Transcribe {
  import opened Values
  import opened Utils

  /** `entry_to_db_format`: the seven stored fields, each defaulting to None. */
  function ToDbFormat(e: Dict): (r: Dict)
    ensures r.Keys == EntryFields
    ensures forall k :: k in EntryFields ==> r[k] == Get(e, k, Null)
  {
    map k | k in EntryFields :: Get(e, k, Null)
  }

  /** Projecting twice is projecting once. */
  lemma ToDbFormatIdempotent(e: Dict)
    ensures ToDbFormat(ToDbFormat(e)) == ToDbFormat(e)
  {
  }

  /** Every projected entry has the keys the persist stage indexes. */
  lemma ToDbFormatIsPostable(e: Dict)
    requires IsoConvertible(Get(e, "published_parsed", Null))
    ensures EntryPostable(ToDbFormat(e))
  {
  }

  /** `convert_entries`: the projection of each entry, same length and order. */
  function ConvertEntries(es: seq<Dict>): (r: seq<Dict>)
    ensures |r| == |es|
    ensures forall i :: 0 <= i < |es| ==> r[i] == ToDbFormat(es[i])
  {
    if es == [] then [] else [ToDbFormat(es[0])] + ConvertEntries(es[1..])
  }

  /** `link.get('rel') == 'enclosure' and link.get('type') == 'audio/mpeg'` */
  predicate IsAudio(link: Value)
    requires link.Obj?
  {
    Get(link.fields, "rel", Null) == Str("enclosure") && Get(link.fields, "type", Null) == Str("audio/mpeg")
  }

  /**
   * The links the search can read without raising: dicts up to and including
   * the first audio link, and that one has an `href`.
   */
  predicate Readable(links: seq<Value>)
  {
    links == [] ||
    (links[0].Obj? && (if IsAudio(links[0]) then "href" in links[0].fields else Readable(links[1..])))
  }

  /** Position of the first audio link, if any. */
  function FirstAudio(links: seq<Value>): (r: Option<nat>)
    requires Readable(links)
    ensures r.Some? ==> r.value < |links| && links[r.value].Obj? && IsAudio(links[r.value])
                        && "href" in links[r.value].fields
    ensures r.Some? ==> forall j :: 0 <= j < r.value ==> links[j].Obj? && !IsAudio(links[j])
    ensures r.None? ==> forall j :: 0 <= j < |links| ==> links[j].Obj? && !IsAudio(links[j])
  {
    if links == [] then None
    else if IsAudio(links[0]) then Some(0)
    else
      match FirstAudio(links[1..])
      case None => None
      case Some(i) => Some(i + 1)
  }

  /** The URL `download_mp3` fetches: the first audio link's href, unless that is falsy. */
  function Mp3Link(links: seq<Value>): (r: Option<Value>)
    requires Readable(links)
    ensures r.Some? ==> Truthy(r.value) && FirstAudio(links).Some?
                        && r.value == links[FirstAudio(links).value].fields["href"]
    ensures r.None? <==> FirstAudio(links).None? || !Truthy(links[FirstAudio(links).value].fields["href"])
  {
    match FirstAudio(links)
    case None => None
    case Some(i) =>
      var href := links[i].fields["href"];
      if Truthy(href) then Some(href) else None
  }

  /**
   * `for link in entry.get('links', [])` as written. The default only applies
   * when the key is absent; a None value (what `entry_to_db_format` stores for
   * an entry without links) is not iterable and the TypeError is not caught.
   * An empty string or dict iterates zero times, so it reads as no links; a
   * non-empty one yields strings, whose missing `.get` raises as well, and so
   * does every other scalar.
   */
  function LinksAsWritten(e: Dict): (r: Option<seq<Value>>)
    ensures "links" !in e ==> r == Some([])
    ensures "links" in e && e["links"].List? ==> r == Some(e["links"].items)
    ensures "links" in e && (e["links"] == Str("") || e["links"] == Obj(map[])) ==> r == Some([])
    ensures r.None? <==> "links" in e && !e["links"].List? && e["links"] != Str("") && e["links"] != Obj(map[])
  {
    var v := Get(e, "links", List([]));
    if v.List? then Some(v.items)
    else if v == Str("") || v == Obj(map[]) then Some([])
    else None
  }

  /** The evidently intended reading: anything that is not a list means no links. */
  function LinksOrEmpty(e: Dict): (r: seq<Value>)
    ensures LinksAsWritten(e).Some? ==> r == LinksAsWritten(e).value
    ensures LinksAsWritten(e).None? ==> r == []
  {
    match LinksAsWritten(e)
    case Some(ls) => ls
    case None => []
  }

  /**
   * A feed entry without `links` gets `"links": None` from the projection, so the
   * stage raises on it instead of treating it as having no audio.
   */
  lemma MissingLinksRaise(raw: Dict)
    requires "links" !in raw
    ensures LinksAsWritten(raw) == Some([])
    ensures LinksAsWritten(ToDbFormat(raw)) == None
    ensures LinksOrEmpty(ToDbFormat(raw)) == [] && Mp3Link(LinksOrEmpty(ToDbFormat(raw))).None?
  {
  }

  /** What happened to one entry. */
  datatype Outcome = NotDownloaded | Transcribed(transcript: Value) | NoTranscript

  /** One visit: no link or a failed download, else Whisper's answer. */
  function Visit(k: nat, links: seq<Value>, fetch: (nat, Value) -> bool, transcribe: (nat, Value) -> Option<Value>): Outcome
    requires Readable(links)
  {
    match Mp3Link(links)
    case None => NotDownloaded
    case Some(url) =>
      if !fetch(k, url) then NotDownloaded
      else
        match transcribe(k, url)
        case None => NoTranscript
        case Some(t) => Transcribed(t)
  }

  /**
   * An entry is downloaded exactly when it has an MP3 link and the download
   * succeeds; a downloaded entry is transcribed exactly when Whisper answers.
   */
  lemma VisitSpec(k: nat, links: seq<Value>, fetch: (nat, Value) -> bool, transcribe: (nat, Value) -> Option<Value>)
    requires Readable(links)
    ensures var o := Visit(k, links, fetch, transcribe);
      && (Mp3Link(links).None? ==> o == NotDownloaded)
      && (o != NotDownloaded <==> Mp3Link(links).Some? && fetch(k, Mp3Link(links).value))
      && (o.NoTranscript? <==> o != NotDownloaded && transcribe(k, Mp3Link(links).value).None?)
      && (o.Transcribed? ==> transcribe(k, Mp3Link(links).value) == Some(o.transcript))
  {
  }

  /** `entry['transcript'] = transcript` */
  function Attach(e: Dict, t: Value): Dict
  {
    e["transcript" := t]
  }

  predicate AllReadableAsWritten(es: seq<Dict>)
  {
    forall i :: 0 <= i < |es| ==> LinksAsWritten(es[i]).Some? && Readable(LinksAsWritten(es[i]).value)
  }

  predicate AllReadable(es: seq<Dict>)
  {
    forall i :: 0 <= i < |es| ==> Readable(LinksOrEmpty(es[i]))
  }

  /**
   * The outcome of each entry's visit, in list order. A visit reads only the
   * entry's own links and its position, and the loop attaches to an entry
   * only after visiting it, so the outcomes do not depend on the loop's edits.
   */
  function Outcomes(es: seq<Dict>, fetch: (nat, Value) -> bool, transcribe: (nat, Value) -> Option<Value>): (os: seq<Outcome>)
    requires AllReadable(es)
    ensures |os| == |es|
  {
    seq(|es|, k requires 0 <= k < |es| => Visit(k, LinksOrEmpty(es[k]), fetch, transcribe))
  }

  /**
   * One visit of the loop as written, given the already-visited part `done`
   * of the list. The list after `done` is still the untouched tail of the
   * copy, so `entries.remove(entry)` drops the first element of `done + [e]`
   * EQUAL to `e`, which need not be `e` itself.
   */
  function StepAsWritten(done: seq<Dict>, e: Dict, o: Outcome): seq<Dict>
  {
    match o
    case NotDownloaded => done + [e]
    case Transcribed(t) => done + [Attach(e, t)]
    case NoTranscript => RemoveFirst(done + [e], e)
  }

  /** The visited part of the list after the first `n` visits of the loop as written, `os` being their outcomes. */
  function AsWritten(es: seq<Dict>, os: seq<Outcome>, n: nat): (r: seq<Dict>)
    requires n <= |es| == |os|
    ensures |r| <= n
  {
    if n == 0 then []
    else StepAsWritten(AsWritten(es, os, n - 1), es[n - 1], os[n - 1])
  }

  /**
   * The inner loop of `generate_and_attach_transcripts`: iterate over a copy,
   * attach in place, remove by value. Every original entry is visited once.
   */
  method AttachTranscriptsAsWritten(entries: seq<Dict>, fetch: (nat, Value) -> bool, transcribe: (nat, Value) -> Option<Value>)
    returns (cur: seq<Dict>)
    requires AllReadableAsWritten(entries)
    ensures AllReadable(entries)
    ensures cur == AsWritten(entries, Outcomes(entries, fetch, transcribe), |entries|)
    ensures |cur| <= |entries|
  {
    assert AllReadable(entries);
    ghost var os := Outcomes(entries, fetch, transcribe);
    cur := entries;
    var k := 0;
    while k < |entries|
      invariant 0 <= k <= |entries|
      invariant cur == AsWritten(entries, os, k) + entries[k..]
    {
      var e := entries[k];
      var o := Visit(k, LinksAsWritten(e).value, fetch, transcribe);
      assert o == os[k];
      AsWrittenStep(entries, os, k);
      if o.Transcribed? {
        cur := cur[|cur| - (|entries| - k) := Attach(e, o.transcript)];
      } else if o.NoTranscript? {
        cur := RemoveFirst(cur, e);
      }
      k := k + 1;
    }
    assert entries[k..] == [];
  }

  /** One more visit, applied to the visited part followed by the untouched tail. */
  lemma AsWrittenStep(es: seq<Dict>, os: seq<Outcome>, k: nat)
    requires k < |es| == |os|
    ensures
      var cur := AsWritten(es, os, k) + es[k..];
      var o := os[k];
      var next := AsWritten(es, os, k + 1) + es[k + 1..];
      && |cur| - (|es| - k) == |AsWritten(es, os, k)|
      && (o.NotDownloaded? ==> cur == next)
      && (o.Transcribed? ==> cur[|cur| - (|es| - k) := Attach(es[k], o.transcript)] == next)
      && (o.NoTranscript? ==> es[k] in cur && RemoveFirst(cur, es[k]) == next)
  {
    var done := AsWritten(es, os, k);
    SliceCons(es, k);
    assert done + es[k..] == done + [es[k]] + es[k + 1..];
    AsWrittenBody(done, es[k], es[k + 1..], os[k]);
  }

  /** The loop body's effect on the whole list, visited part plus untouched tail. */
  lemma AsWrittenBody(done: seq<Dict>, e: Dict, rest: seq<Dict>, o: Outcome)
    ensures
      var cur := done + [e] + rest;
      && (o.NotDownloaded? ==> cur == StepAsWritten(done, e, o) + rest)
      && (o.Transcribed? ==> cur[|cur| - (|rest| + 1) := Attach(e, o.transcript)] == StepAsWritten(done, e, o) + rest)
      && (o.NoTranscript? ==> e in cur && RemoveFirst(cur, e) == StepAsWritten(done, e, o) + rest)
  {
    if o.NoTranscript? {
      RemoveFirstAppend(done + [e], rest, e);
    }
  }

  /** What an entry leaves in the list when it is dropped exactly when its transcript is None. */
  function Kept(e: Dict, o: Outcome): seq<Dict>
  {
    match o
    case NotDownloaded => [e]
    case Transcribed(t) => [Attach(e, t)]
    case NoTranscript => []
  }

  /** The corrected loop, from position `k` on: each entry is kept, annotated or dropped on its own. */
  function AttachTranscripts(es: seq<Dict>, os: seq<Outcome>, k: nat): (r: seq<Dict>)
    requires k <= |es| == |os|
    ensures |r| <= |es| - k
    decreases |es| - k
  {
    if k == |es| then []
    else Kept(es[k], os[k]) + AttachTranscripts(es, os, k + 1)
  }

  lemma InAppend<T>(a: seq<T>, b: seq<T>, x: T)
    ensures x in a ==> x in a + b
    ensures x in b ==> x in a + b
    ensures x in a + b ==> x in a || x in b
  {
  }

  /** The same corrected result, accumulated from the front as the loop does. */
  function KeptPrefix(es: seq<Dict>, os: seq<Outcome>, n: nat): (r: seq<Dict>)
    requires n <= |es| == |os|
  {
    if n == 0 then []
    else KeptPrefix(es, os, n - 1) + Kept(es[n - 1], os[n - 1])
  }

  /** What the visited part can hold: an untouched earlier entry, or one with a transcript. */
  lemma {:induction false} KeptPrefixMembers(es: seq<Dict>, os: seq<Outcome>, n: nat)
    requires n <= |es| == |os|
    ensures forall d :: d in KeptPrefix(es, os, n) ==> "transcript" in d || d in es[..n]
  {
    if n > 0 {
      KeptPrefixMembers(es, os, n - 1);
      assert forall d :: d in Kept(es[n - 1], os[n - 1]) ==> "transcript" in d || d == es[n - 1];
      assert es[..n] == es[..n - 1] + [es[n - 1]];
    }
  }

  lemma {:induction false} KeptSplit(es: seq<Dict>, os: seq<Outcome>, n: nat)
    requires n <= |es| == |os|
    ensures AttachTranscripts(es, os, 0) == KeptPrefix(es, os, n) + AttachTranscripts(es, os, n)
  {
    if n > 0 {
      KeptSplit(es, os, n - 1);
      var kept := Kept(es[n - 1], os[n - 1]);
      var before := KeptPrefix(es, os, n - 1);
      var after := AttachTranscripts(es, os, n);
      assert AttachTranscripts(es, os, n - 1) == kept + after;
      Assoc(before, kept, after);
    }
  }

  lemma RemoveLastOnly<T>(xs: seq<T>, x: T)
    requires x !in xs
    ensures RemoveFirst(xs + [x], x) == xs
  {
    var i := FirstIndex(xs + [x], x);
    assert forall j :: 0 <= j < |xs| ==> (xs + [x])[j] == xs[j];
    assert i == |xs|;
    assert (xs + [x])[..|xs|] == xs;
  }

  predicate Distinct(es: seq<Dict>)
  {
    forall i, j :: 0 <= i < j < |es| ==> es[i] != es[j]
  }

  predicate NoTranscripts(es: seq<Dict>)
  {
    forall i :: 0 <= i < |es| ==> "transcript" !in es[i]
  }

  /** Removing by value drops the visited entry itself when no earlier entry equals it. */
  lemma RemoveDropsVisited(es: seq<Dict>, os: seq<Outcome>, n: nat)
    requires 0 < n <= |es| == |os|
    requires "transcript" !in es[n - 1] && es[n - 1] !in es[..n - 1]
    ensures RemoveFirst(KeptPrefix(es, os, n - 1) + [es[n - 1]], es[n - 1]) == KeptPrefix(es, os, n - 1)
  {
    KeptPrefixMembers(es, os, n - 1);
    RemoveLastOnly(KeptPrefix(es, os, n - 1), es[n - 1]);
  }

  lemma {:induction false} AsWrittenIsKeptPrefix(es: seq<Dict>, os: seq<Outcome>, n: nat)
    requires n <= |es| == |os| && Distinct(es) && NoTranscripts(es)
    ensures AsWritten(es, os, n) == KeptPrefix(es, os, n)
  {
    if n > 0 {
      AsWrittenIsKeptPrefix(es, os, n - 1);
      if os[n - 1].NoTranscript? {
        var e := es[n - 1];
        assert forall j :: 0 <= j < n - 1 ==> es[j] != e;
        assert e !in es[..n - 1];
        RemoveDropsVisited(es, os, n);
      }
    }
  }

  /**
   * When the entries of a channel are pairwise different, removing by value
   * removes the visited entry, whatever the outcomes.
   */
  lemma DistinctEntriesAsWrittenIsCorrect(es: seq<Dict>, os: seq<Outcome>)
    requires |es| == |os| && Distinct(es) && NoTranscripts(es)
    ensures AsWritten(es, os, |es|) == AttachTranscripts(es, os, 0)
  {
    AsWrittenIsKeptPrefix(es, os, |es|);
    KeptSplit(es, os, |es|);
  }

  function AudioEntry(id: string): Dict
  {
    var link := Obj(map["rel" := Str("enclosure"), "type" := Str("audio/mpeg"), "href" := Str("https://cdn/" + id + ".mp3")]);
    map["id" := Str(id), "links" := List([link])]
  }

  /** The example entry's single link is its MP3. */
  lemma AudioEntryLink(id: string)
    ensures Readable(LinksOrEmpty(AudioEntry(id)))
    ensures Mp3Link(LinksOrEmpty(AudioEntry(id))) == Some(Str("https://cdn/" + id + ".mp3"))
  {
    var link := Obj(map["rel" := Str("enclosure"), "type" := Str("audio/mpeg"), "href" := Str("https://cdn/" + id + ".mp3")]);
    assert LinksOrEmpty(AudioEntry(id)) == [link];
    assert IsAudio(link);
  }

  /**
   * Two equal entries A, then B between them: the first A's download fails (it
   * stays), B is transcribed, the second A's transcript is None. The loop as
   * written removes the FIRST A, so the kept A moves behind B.
   */
  lemma DuplicateEntriesReordered()
    ensures
      var a := AudioEntry("a");
      var b := AudioEntry("b");
      && AllReadable([a, b, a])
      && AsWritten([a, b, a], Outcomes([a, b, a], ExampleFetch, ExampleTranscribe), 3) == [Attach(b, Str("text")), a]
      && AttachTranscripts([a, b, a], Outcomes([a, b, a], ExampleFetch, ExampleTranscribe), 0) == [a, Attach(b, Str("text"))]
  {
    var a := AudioEntry("a");
    var b := AudioEntry("b");
    ExampleOutcomes();
    Reordered(a, b, Str("text"));
  }

  /** [A, B, A] with outcomes not downloaded, transcribed, untranscribed, for any entries A and B. */
  lemma Reordered(a: Dict, b: Dict, t: Value)
    ensures
      var os := [NotDownloaded, Transcribed(t), NoTranscript];
      && AsWritten([a, b, a], os, 3) == [Attach(b, t), a]
      && AttachTranscripts([a, b, a], os, 0) == [a, Attach(b, t)]
  {
    ReorderedAsWritten([a, b, a], [NotDownloaded, Transcribed(t), NoTranscript]);
    ReorderedCorrected(a, b, t);
  }

  /** Three entries, the first and last equal: not downloaded, transcribed, untranscribed. */
  lemma ReorderedAsWritten(es: seq<Dict>, os: seq<Outcome>)
    requires |es| == 3 == |os| && es[0] == es[2]
    requires os[0] == NotDownloaded && os[1].Transcribed? && os[2] == NoTranscript
    ensures AsWritten(es, os, 3) == [Attach(es[1], os[1].transcript), es[0]]
  {
    var b' := Attach(es[1], os[1].transcript);
    assert AsWritten(es, os, 1) == [es[0]];
    assert AsWritten(es, os, 2) == [es[0], b'];
    AsWrittenRemovesFront(es, os, 3);
    assert [es[0], b'][1..] + [es[2]] == [b', es[0]];
  }

  /** An untranscribed visit whose value heads the visited part drops that head, not the entry just visited. */
  lemma AsWrittenRemovesFront(es: seq<Dict>, os: seq<Outcome>, n: nat)
    requires 0 < n <= |es| == |os| && os[n - 1].NoTranscript?
    requires AsWritten(es, os, n - 1) != [] && AsWritten(es, os, n - 1)[0] == es[n - 1]
    ensures AsWritten(es, os, n) == AsWritten(es, os, n - 1)[1..] + [es[n - 1]]
  {
    RemoveFrontStep(AsWritten(es, os, n - 1), es[n - 1]);
  }

  /** Removing the value at the front drops exactly the front. */
  lemma RemoveFront<T>(xs: seq<T>, x: T)
    requires xs != [] && xs[0] == x
    ensures RemoveFirst(xs, x) == xs[1..]
  {
    assert FirstIndex(xs, x) == 0;
    assert RemoveFirst(xs, x)[0..] == xs[1..];
  }

  /** An untranscribed visit whose value heads the visited part drops that head, not the entry just visited. */
  lemma RemoveFrontStep(done: seq<Dict>, e: Dict)
    requires done != [] && done[0] == e
    ensures StepAsWritten(done, e, NoTranscript) == done[1..] + [e]
  {
    RemoveFront(done + [e], e);
    assert (done + [e])[1..] == done[1..] + [e];
  }

  lemma ReorderedCorrected(a: Dict, b: Dict, t: Value)
    ensures AttachTranscripts([a, b, a], [NotDownloaded, Transcribed(t), NoTranscript], 0) == [a, Attach(b, t)]
  {
    var es := [a, b, a];
    var os := [NotDownloaded, Transcribed(t), NoTranscript];
    assert AttachTranscripts(es, os, 3) == [];
    assert AttachTranscripts(es, os, 2) == [];
    assert AttachTranscripts(es, os, 1) == [Attach(b, t)];
  }

  /** The example's download: every position but the first succeeds. */
  function ExampleFetch(k: nat, url: Value): bool
  {
    k != 0
  }

  /** The example's Whisper: only the second position gets a transcript. */
  function ExampleTranscribe(k: nat, url: Value): Option<Value>
  {
    if k == 1 then Some(Str("text")) else None
  }

  /** The visits of the example: A not downloaded, B transcribed, the second A untranscribed. */
  lemma ExampleOutcomes()
    ensures AllReadable([AudioEntry("a"), AudioEntry("b"), AudioEntry("a")])
    ensures Outcomes([AudioEntry("a"), AudioEntry("b"), AudioEntry("a")], ExampleFetch, ExampleTranscribe)
         == [NotDownloaded, Transcribed(Str("text")), NoTranscript]
  {
    AudioEntryLink("a");
    AudioEntryLink("b");
    var es := [AudioEntry("a"), AudioEntry("b"), AudioEntry("a")];
    assert AllReadable(es);
    var os := Outcomes(es, ExampleFetch, ExampleTranscribe);
    assert os[0] == NotDownloaded;
    assert os[1] == Transcribed(Str("text"));
    assert os[2] == NoTranscript;
  }

  /** One step of the corrected loop: the entry's own contribution, then the rest. */
  lemma AttachStep(es: seq<Dict>, os: seq<Outcome>, k: nat)
    requires k < |es| == |os|
    ensures AttachTranscripts(es, os, k) == Kept(es[k], os[k]) + AttachTranscripts(es, os, k + 1)
  {
  }

  /** Whatever entry `i` leaves behind is in the result of every pass starting at or before it. */
  lemma {:induction false} KeptSurvives(es: seq<Dict>, os: seq<Outcome>, k: nat, i: nat)
    requires k <= i < |es| == |os|
    ensures forall x :: x in Kept(es[i], os[i]) ==> x in AttachTranscripts(es, os, k)
    decreases i - k
  {
    var here := Kept(es[k], os[k]);
    var rest := AttachTranscripts(es, os, k + 1);
    AttachStep(es, os, k);
    if k < i {
      KeptSurvives(es, os, k + 1, i);
    }
    forall x | x in Kept(es[i], os[i])
      ensures x in AttachTranscripts(es, os, k)
    {
      InAppend(here, rest, x);
    }
  }

  /** An entry not downloaded stays as it is; a transcribed one stays with its transcript. */
  lemma AttachTranscriptsSpec(es: seq<Dict>, os: seq<Outcome>, k: nat, i: nat)
    requires k <= i < |es| == |os|
    ensures os[i] == NotDownloaded ==> es[i] in AttachTranscripts(es, os, k)
    ensures os[i].Transcribed? ==> Attach(es[i], os[i].transcript) in AttachTranscripts(es, os, k)
  {
    KeptSurvives(es, os, k, i);
    assert os[i] == NotDownloaded ==> es[i] in Kept(es[i], os[i]);
    assert os[i].Transcribed? ==> Attach(es[i], os[i].transcript) in Kept(es[i], os[i]);
  }

  /**
   * Nothing else is in the result: every element is what some entry from `k`
   * on leaves behind, so an entry whose transcript is None contributes nothing.
   */
  lemma {:induction false} AttachTranscriptsOnlyKept(es: seq<Dict>, os: seq<Outcome>, k: nat)
    requires k <= |es| == |os|
    ensures forall d :: d in AttachTranscripts(es, os, k) ==> exists j :: k <= j < |es| && d in Kept(es[j], os[j])
    decreases |es| - k
  {
    if k < |es| {
      AttachTranscriptsOnlyKept(es, os, k + 1);
      var here := Kept(es[k], os[k]);
      var rest := AttachTranscripts(es, os, k + 1);
      AttachStep(es, os, k);
      forall d | d in AttachTranscripts(es, os, k)
        ensures exists j :: k <= j < |es| && d in Kept(es[j], os[j])
      {
        InAppend(here, rest, d);
        if d in here {
          assert d in Kept(es[k], os[k]);
        } else {
          var j :| k + 1 <= j < |es| && d in Kept(es[j], os[j]);
        }
      }
    }
  }

  /** The shape an entry has after the stage: the seven fields, plus a transcript if one was attached. */
  predicate StageShaped(d: Dict)
  {
    d.Keys == EntryFields || d.Keys == EntryFields + {"transcript"}
  }

  lemma {:induction false} AttachKeepsShape(es: seq<Dict>, os: seq<Outcome>, k: nat)
    requires k <= |es| == |os|
    requires forall i :: 0 <= i < |es| ==> es[i].Keys == EntryFields
    ensures forall d :: d in AttachTranscripts(es, os, k) ==> StageShaped(d)
    decreases |es| - k
  {
    if k < |es| {
      AttachKeepsShape(es, os, k + 1);
      AttachStep(es, os, k);
      var kept := Kept(es[k], os[k]);
      assert forall d :: d in kept ==> StageShaped(d);
      forall d | d in AttachTranscripts(es, os, k)
        ensures StageShaped(d)
      {
        InAppend(kept, AttachTranscripts(es, os, k + 1), d);
      }
    }
  }

  /** What the loop as written leaves: every element is an entry it visited, kept or with its transcript. */
  lemma {:induction false} AsWrittenMembers(es: seq<Dict>, os: seq<Outcome>, n: nat)
    requires n <= |es| == |os|
    ensures forall d :: d in AsWritten(es, os, n) ==> exists j :: 0 <= j < n && (d == es[j] || d in Kept(es[j], os[j]))
  {
    if n > 0 {
      AsWrittenMembers(es, os, n - 1);
      var done := AsWritten(es, os, n - 1);
      var e, o := es[n - 1], os[n - 1];
      forall d | d in AsWritten(es, os, n)
        ensures exists j :: 0 <= j < n && (d == es[j] || d in Kept(es[j], os[j]))
      {
        assert d in done || d == e || d in Kept(e, o) by {
          match o
          case NotDownloaded =>
            InAppend(done, [e], d);
          case Transcribed(t) =>
            InAppend(done, [Attach(e, t)], d);
          case NoTranscript =>
            assert d in done + [e];
            InAppend(done, [e], d);
        }
        if d in done {
          var j :| 0 <= j < n - 1 && (d == es[j] || d in Kept(es[j], os[j]));
          assert j < n;
        } else {
          assert d == es[n - 1] || d in Kept(es[n - 1], os[n - 1]);
        }
      }
    }
  }

  /** One visit of the loop as written changes the list's contents exactly as the corrected loop does. */
  lemma StepPermutes(done: seq<Dict>, e: Dict, o: Outcome)
    ensures multiset(StepAsWritten(done, e, o)) == multiset(done) + multiset(Kept(e, o))
  {
    if o.NoTranscript? {
      var r := RemoveFirst(done + [e], e);
      assert multiset(r) + multiset{e} == multiset(done) + multiset{e};
      forall x
        ensures multiset(r)[x] == multiset(done)[x]
      {
        assert (multiset(r) + multiset{e})[x] == (multiset(done) + multiset{e})[x];
      }
      assert multiset(r) == multiset(done);
    }
  }

  /** After `n` visits the loop as written holds the corrected prefix, up to order. */
  lemma {:induction false} AsWrittenPermutesKeptPrefix(es: seq<Dict>, os: seq<Outcome>, n: nat)
    requires n <= |es| == |os|
    ensures multiset(AsWritten(es, os, n)) == multiset(KeptPrefix(es, os, n))
  {
    if n > 0 {
      AsWrittenPermutesKeptPrefix(es, os, n - 1);
      StepPermutes(AsWritten(es, os, n - 1), es[n - 1], os[n - 1]);
    }
  }

  /**
   * Whatever the entries and outcomes, the loop as written only reorders the
   * corrected result: the same entries survive, as often, with the same
   * transcripts.
   */
  lemma AsWrittenPermutesCorrected(es: seq<Dict>, os: seq<Outcome>)
    requires |es| == |os|
    ensures multiset(AsWritten(es, os, |es|)) == multiset(AttachTranscripts(es, os, 0))
    ensures |AsWritten(es, os, |es|)| == |AttachTranscripts(es, os, 0)|
  {
    AsWrittenPermutesKeptPrefix(es, os, |es|);
    KeptSplit(es, os, |es|);
    assert KeptPrefix(es, os, |es|) + [] == KeptPrefix(es, os, |es|);
    assert |multiset(AsWritten(es, os, |es|))| == |multiset(AttachTranscripts(es, os, 0))|;
  }

  /** Every entry the loop as written leaves has the seven fields, plus a transcript if one was attached. */
  lemma AsWrittenKeepsShape(es: seq<Dict>, os: seq<Outcome>, n: nat)
    requires n <= |es| == |os|
    requires forall i :: 0 <= i < |es| ==> es[i].Keys == EntryFields
    ensures forall d :: d in AsWritten(es, os, n) ==> StageShaped(d)
  {
    AsWrittenMembers(es, os, n);
    forall d | d in AsWritten(es, os, n)
      ensures StageShaped(d)
    {
      var j :| 0 <= j < n && (d == es[j] || d in Kept(es[j], os[j]));
    }
  }

  /** A projected entry never holds a transcript yet. */
  lemma ConvertedHaveNoTranscripts(es: seq<Dict>)
    ensures NoTranscripts(ConvertEntries(es))
    ensures forall i :: 0 <= i < |es| ==> ConvertEntries(es)[i].Keys == EntryFields
  {
  }

  /** The links of every projected entry can be iterated and searched as written. */
  predicate PodsReadableAsWritten(pods: seq<Pod>)
  {
    forall i :: 0 <= i < |pods| ==> AllReadableAsWritten(ConvertEntries(pods[i].entries))
  }

  /**
   * One channel of `process_pods` as written: project its entries, then run
   * `generate_and_attach_transcripts`'s loop over them, with `remove` by value.
   * `c` is the channel's position.
   */
  function TranscribePodAsWritten(pod: Pod, c: nat, fetch: (nat, nat, Value) -> bool, transcribe: (nat, nat, Value) -> Option<Value>): (r: Pod)
    requires AllReadableAsWritten(ConvertEntries(pod.entries))
    ensures r.channel == pod.channel && |r.entries| <= |pod.entries|
    ensures forall d :: d in r.entries ==> StageShaped(d)
    ensures AllReadable(ConvertEntries(pod.entries))
    ensures multiset(r.entries) == multiset(TranscribePodCorrected(pod, c, fetch, transcribe).entries)
    ensures |r.entries| == |TranscribePodCorrected(pod, c, fetch, transcribe).entries|
  {
    var es := ConvertEntries(pod.entries);
    assert AllReadable(es);
    var os := Outcomes(es, (k: nat, url: Value) => fetch(c, k, url), (k: nat, url: Value) => transcribe(c, k, url));
    ConvertedHaveNoTranscripts(pod.entries);
    AsWrittenKeepsShape(es, os, |es|);
    AsWrittenPermutesCorrected(es, os);
    Pod(pod.channel, AsWritten(es, os, |es|))
  }

  /**
   * `process_pods` as written: every channel in turn. A channel whose entries'
   * links cannot be iterated raises out of the whole stage, so every channel
   * must be readable.
   */
  function ProcessPodsAsWritten(pods: seq<Pod>, fetch: (nat, nat, Value) -> bool, transcribe: (nat, nat, Value) -> Option<Value>): (r: seq<Pod>)
    requires PodsReadableAsWritten(pods)
    ensures |r| == |pods|
    ensures forall i :: 0 <= i < |pods| ==> r[i].channel == pods[i].channel && |r[i].entries| <= |pods[i].entries|
    ensures forall i :: 0 <= i < |pods| ==> forall d :: d in r[i].entries ==> StageShaped(d)
    ensures PodsReadable(pods)
    ensures forall i :: 0 <= i < |pods| ==>
              multiset(r[i].entries) == multiset(ProcessPodsCorrected(pods, fetch, transcribe)[i].entries)
  {
    seq(|pods|, i requires 0 <= i < |pods| => TranscribePodAsWritten(pods[i], i, fetch, transcribe))
  }

  predicate PodsReadable(pods: seq<Pod>)
  {
    forall i :: 0 <= i < |pods| ==> AllReadable(ConvertEntries(pods[i].entries))
  }

  /** One channel of the corrected `process_pods`: links read as empty when absent, each entry dropped on its own. */
  function TranscribePodCorrected(pod: Pod, c: nat, fetch: (nat, nat, Value) -> bool, transcribe: (nat, nat, Value) -> Option<Value>): (r: Pod)
    requires AllReadable(ConvertEntries(pod.entries))
    ensures r.channel == pod.channel && |r.entries| <= |pod.entries|
    ensures forall d :: d in r.entries ==> StageShaped(d)
  {
    var es := ConvertEntries(pod.entries);
    var os := Outcomes(es, (k: nat, url: Value) => fetch(c, k, url), (k: nat, url: Value) => transcribe(c, k, url));
    AttachKeepsShape(es, os, 0);
    Pod(pod.channel, AttachTranscripts(es, os, 0))
  }

  /**
   * The corrected `process_pods`: every channel in turn. Every channel stays,
   * even one left with no entries.
   */
  function ProcessPodsCorrected(pods: seq<Pod>, fetch: (nat, nat, Value) -> bool, transcribe: (nat, nat, Value) -> Option<Value>): (r: seq<Pod>)
    requires PodsReadable(pods)
    ensures |r| == |pods|
    ensures forall i :: 0 <= i < |pods| ==> r[i].channel == pods[i].channel && |r[i].entries| <= |pods[i].entries|
    ensures forall i :: 0 <= i < |pods| ==> forall d :: d in r[i].entries ==> StageShaped(d)
  {
    seq(|pods|, i requires 0 <= i < |pods| => TranscribePodCorrected(pods[i], i, fetch, transcribe))
  }

  /** Whatever the stage as written accepts, the corrected stage accepts too. */
  lemma ReadableAsWrittenIsReadable(pods: seq<Pod>)
    requires PodsReadableAsWritten(pods)
    ensures PodsReadable(pods)
  {
  }

  /** Within each channel, entries whose projections are pairwise different. */
  predicate PodsDistinct(pods: seq<Pod>)
  {
    forall i :: 0 <= i < |pods| ==> Distinct(ConvertEntries(pods[i].entries))
  }

  /**
   * When no channel holds two episodes with equal projections, the stage as
   * written computes the corrected stage on every input it accepts.
   */
  lemma ProcessPodsAsWrittenAgrees(pods: seq<Pod>, fetch: (nat, nat, Value) -> bool, transcribe: (nat, nat, Value) -> Option<Value>)
    requires PodsReadableAsWritten(pods) && PodsDistinct(pods)
    ensures PodsReadable(pods)
    ensures ProcessPodsAsWritten(pods, fetch, transcribe) == ProcessPodsCorrected(pods, fetch, transcribe)
  {
    forall i | 0 <= i < |pods|
      ensures TranscribePodAsWritten(pods[i], i, fetch, transcribe) == TranscribePodCorrected(pods[i], i, fetch, transcribe)
    {
      var es := ConvertEntries(pods[i].entries);
      assert AllReadable(es);
      var os := Outcomes(es, (k: nat, url: Value) => fetch(i, k, url), (k: nat, url: Value) => transcribe(i, k, url));
      ConvertedHaveNoTranscripts(pods[i].entries);
      DistinctEntriesAsWrittenIsCorrect(es, os);
    }
  }
}
