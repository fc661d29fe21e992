/**
 * The shared helpers: counting entries, the ISO-8601 time formatter and the
 * payload mappers that turn pipeline dicts into backend POST bodies.
 *
 * A mapper that indexes a dict with `[]` raises `KeyError` on a missing key,
 * and nothing in the persist stage catches it; the model states those keys
 * as preconditions.
 */
module Utils {
  import opened Values
  import opened Times

  /** Sum of the entry-list lengths of `pods`, counted from the back. */
  function TotalEntries(pods: seq<Pod>): nat
  {
    if pods == [] then 0 else TotalEntries(pods[..|pods| - 1]) + |pods[|pods| - 1].entries|
  }

  lemma {:induction false} TotalEntriesAppend(a: seq<Pod>, b: seq<Pod>)
    ensures TotalEntries(a + b) == TotalEntries(a) + TotalEntries(b)
    decreases |b|
  {
    if b == [] {
      assert a + b == a;
    } else {
      var b' := b[..|b| - 1];
      assert (a + b)[..|a + b| - 1] == a + b';
      TotalEntriesAppend(a, b');
    }
  }

  /** `count_total_entries`: the loop over the pods, adding each entry list's length. */
  method CountTotalEntries(pods: seq<Pod>) returns (total: nat)
    ensures total == TotalEntries(pods)
    ensures pods == [] ==> total == 0
    ensures forall i :: 0 <= i < |pods| ==> |pods[i].entries| <= total
  {
    total := 0;
    var i := 0;
    while i < |pods|
      invariant 0 <= i <= |pods|
      invariant total == TotalEntries(pods[..i])
      invariant forall j :: 0 <= j < i ==> |pods[j].entries| <= total
    {
      assert pods[..i + 1][..i] == pods[..i];
      total := total + |pods[i].entries|;
      i := i + 1;
    }
    assert pods[..i] == pods;
  }

  /** `convert_time_to_iso` crashes in `datetime(...)` unless a struct_time holds a real instant. */
  predicate IsoConvertible(v: Value)
  {
    v.Stamp? ==> ValidDateTime(v.t)
  }

  /** `convert_time_to_iso`: a struct_time becomes its ISO text, anything else None. */
  function ConvertTimeToIso(v: Value): (r: Option<string>)
    requires IsoConvertible(v)
    ensures r.Some? <==> v.Stamp?
    ensures r.Some? ==> |r.value| == 19 && ParseDbTime(r.value + "Z") == Some(v.t)
  {
    if v.Stamp? then
      IsoParseRoundTrip(v.t);
      Some(IsoFormat(v.t))
    else None
  }

  /** The converted time as it sits in a payload: a string or null. */
  function IsoValue(v: Value): Value
    requires IsoConvertible(v)
  {
    match ConvertTimeToIso(v)
    case Some(s) => Str(s)
    case None => Null
  }

  const ChannelFields: set<string> :=
    {"author", "category", "description", "image", "subtitle", "summary", "title", "updated_parsed", "rss_url"}

  predicate ChannelPostable(channel: Dict)
  {
    ChannelFields <= channel.Keys && IsoConvertible(channel["updated_parsed"])
  }

  /** `get_channel_dict_for_post`: nine fields, `updated_parsed` converted to ISO text. */
  function ChannelPayload(channel: Dict): (r: Dict)
    requires ChannelPostable(channel)
    ensures r.Keys == ChannelFields
    ensures forall k :: k in ChannelFields && k != "updated_parsed" ==> r[k] == channel[k]
    ensures r["updated_parsed"].Str? <==> channel["updated_parsed"].Stamp?
    ensures r["updated_parsed"].Str? ==> ParseDbTime(r["updated_parsed"].s + "Z") == Some(channel["updated_parsed"].t)
  {
    map k | k in ChannelFields :: if k == "updated_parsed" then IsoValue(channel[k]) else channel[k]
  }

  /** The seven keys the transcribe stage gives every entry. */
  const EntryFields: set<string> :=
    {"author", "id", "itunes_duration", "links", "published_parsed", "summary", "title"}

  const EntryPayloadFields: set<string> :=
    {"channel", "author", "_id", "itunes_duration", "links", "published_parsed", "_summary", "title"}

  predicate EntryPostable(entry: Dict)
  {
    EntryFields <= entry.Keys && IsoConvertible(entry["published_parsed"])
  }

  /**
   * `get_entry_dict_for_post`: `_id` is the feed's id, `_summary` the feed's
   * description, `channel` the backend channel id, and the publish time ISO text.
   */
  function EntryPayload(entry: Dict, channelId: Value): (r: Dict)
    requires EntryPostable(entry)
    ensures r.Keys == EntryPayloadFields
    ensures r["channel"] == channelId && r["_id"] == entry["id"] && r["_summary"] == entry["summary"]
    ensures forall k :: k in {"author", "itunes_duration", "links", "title"} ==> r[k] == entry[k]
    ensures r["published_parsed"].Str? <==> entry["published_parsed"].Stamp?
    ensures r["published_parsed"].Str? ==>
              ParseDbTime(r["published_parsed"].s + "Z") == Some(entry["published_parsed"].t)
  {
    map[
      "channel" := channelId,
      "author" := entry["author"],
      "_id" := entry["id"],
      "itunes_duration" := entry["itunes_duration"],
      "links" := entry["links"],
      "published_parsed" := IsoValue(entry["published_parsed"]),
      "_summary" := entry["summary"],
      "title" := entry["title"]
    ]
  }

  /** A summary the payload treats as absent: a missing key defaults to "". */
  predicate MissingSummary(entry: Dict, key: string)
  {
    Get(entry, key, Str("")) == Str("")
  }

  /**
   * `get_summary_dict_for_post`: None when either style is missing or empty,
   * otherwise both summaries unchanged, tagged with the created entry's id.
   */
  function SummaryPayload(entry: Dict, entryId: Value): (r: Option<Dict>)
    ensures r.None? <==> MissingSummary(entry, "paragraph_summary") || MissingSummary(entry, "bullet_summary")
    ensures r.Some? ==>
              && r.value.Keys == {"entry", "paragraph_summary", "bullet_summary"}
              && r.value["entry"] == entryId
              && "paragraph_summary" in entry && r.value["paragraph_summary"] == entry["paragraph_summary"]
              && "bullet_summary" in entry && r.value["bullet_summary"] == entry["bullet_summary"]
  {
    var summaries := map[
      "entry" := entryId,
      "paragraph_summary" := Get(entry, "paragraph_summary", Str("")),
      "bullet_summary" := Get(entry, "bullet_summary", Str(""))
    ];
    if summaries["paragraph_summary"] == Str("") || summaries["bullet_summary"] == Str("") then None
    else Some(summaries)
  }

  /** `get_transcript_dict_for_post`: the transcript, "" when the entry has none. */
  function TranscriptPayload(entry: Dict, entryId: Value): (r: Dict)
    ensures r.Keys == {"entry", "transcript"} && r["entry"] == entryId
    ensures "transcript" in entry ==> r["transcript"] == entry["transcript"]
    ensures "transcript" !in entry ==> r["transcript"] == Str("")
  {
    map["entry" := entryId, "transcript" := Get(entry, "transcript", Str(""))]
  }
}
