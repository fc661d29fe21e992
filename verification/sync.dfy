/**
 * The incremental sync resolver of `get_entries.py`: which feed entries are
 * new relative to the backend's last-known entry of each channel.
 *
 * The backend GETs and the RSS fetch are oracles: `latest` answers the
 * latest-entry request for a channel id, `fetch` parses the feed at a URL.
 */
module Sync {
  import opened Values
  import opened Times

  /** URL of the latest-entry request, with or without the secret path segment. */
  function LatestEntryUrl(base: string, channelId: Value, secret: Option<string>): string
    requires IsScalar(channelId)
  {
    match secret
    case None => base + "entries/latest-entry/" + Render(channelId) + "/"
    case Some(s) => base + s + "/entries/latest-entry/" + Render(channelId) + "/"
  }

  /** URL of the channel-list request. */
  function ChannelsUrl(base: string, secret: Option<string>): string
  {
    match secret
    case None => base + "channels/limited-fields/"
    case Some(s) => base + s + "/channels/limited-fields/"
  }

  /** A channel together with the backend's last-known entry for it. */
  datatype Known = Known(channel: Dict, last: Dict)

  function ChannelsOf(ks: seq<Known>): seq<Dict>
  {
    MapSeq((k: Known) => k.channel, ks)
  }

  predicate AllHaveIds(cs: seq<Dict>)
  {
    forall i :: 0 <= i < |cs| ==> "id" in cs[i]
  }

  /** The loop of `get_all_channels_and_their_last_entries` over a fetched channel list. */
  function PairWithLatest(cs: seq<Dict>, latest: Value -> Option<Dict>): (r: seq<Known>)
    requires AllHaveIds(cs)
    ensures Subseq(ChannelsOf(r), cs)
    ensures forall i :: 0 <= i < |r| ==> "id" in r[i].channel && latest(r[i].channel["id"]) == Some(r[i].last)
    ensures forall c :: c in cs && latest(c["id"]).Some? ==> Known(c, latest(c["id"]).value) in r
  {
    if cs == [] then []
    else
      var rest := PairWithLatest(cs[1..], latest);
      match latest(cs[0]["id"])
      case None =>
        SubseqSkip(ChannelsOf(rest), cs);
        rest
      case Some(l) =>
        assert ChannelsOf([Known(cs[0], l)] + rest) == [cs[0]] + ChannelsOf(rest);
        [Known(cs[0], l)] + rest
  }

  /** `get_all_channels_and_their_last_entries`: a failed channel request yields no pairs. */
  function ChannelsAndLastEntries(channels: Option<seq<Dict>>, latest: Value -> Option<Dict>): (r: seq<Known>)
    requires channels.Some? ==> AllHaveIds(channels.value)
    ensures channels.None? ==> r == []
    ensures channels.Some? ==> Subseq(ChannelsOf(r), channels.value)
    ensures forall i :: 0 <= i < |r| ==> "id" in r[i].channel && latest(r[i].channel["id"]) == Some(r[i].last)
  {
    match channels
    case None => []
    case Some(cs) => PairWithLatest(cs, latest)
  }

  /**
   * The last-known day: the backend's `published_parsed` text parsed by
   * strptime. An empty or missing value, a non-string, or unparsable text
   * skips the channel.
   */
  function LastKnownDay(last: Dict): Option<Day>
  {
    var v := Get(last, "published_parsed", Null);
    if !Truthy(v) || !v.Str? then None
    else
      match ParseDbTime(v.s)
      case Some(t) => Some(DayOf(t))
      case None => None
  }

  /** A feed entry's day: only a struct_time has one; anything else is skipped. */
  function FeedDay(e: Dict): Option<Day>
  {
    match Get(e, "published_parsed", Null)
    case Stamp(t) => Some(DayOf(t))
    case _ => None
  }

  /** What the scan does with one feed entry. */
  datatype Verdict = Skip | Stop | Take

  /**
   * The body of the inner loop. The day test comes first; only when it does not
   * stop are `last_entry['_id']` and `entry['id']` read, and a missing key is a
   * caught KeyError that skips the entry.
   */
  function Examine(lastDay: Day, last: Dict, e: Dict): Verdict
  {
    match FeedDay(e)
    case None => Skip
    case Some(d) =>
      if !DayBefore(lastDay, d) then Stop
      else if "_id" !in last || "id" !in e then Skip
      else if last["_id"] == e["id"] then Stop
      else Take
  }

  /** A feed entry that is new: on a strictly later day, with an id other than the last-known one. */
  predicate Fresh(lastDay: Day, last: Dict, e: Dict)
  {
    && FeedDay(e).Some?
    && DayBefore(lastDay, FeedDay(e).value)
    && "_id" in last && "id" in e
    && last["_id"] != e["id"]
  }

  lemma ExamineTakesExactlyFresh(lastDay: Day, last: Dict, e: Dict)
    ensures Examine(lastDay, last, e) == Take <==> Fresh(lastDay, last, e)
  {
  }

  /** The inner `for entry in feed_entries` loop. */
  function Scan(lastDay: Day, last: Dict, es: seq<Dict>): (r: seq<Dict>)
    ensures forall i :: 0 <= i < |r| ==> Fresh(lastDay, last, r[i])
    ensures Subseq(r, es)
  {
    if es == [] then []
    else
      match Examine(lastDay, last, es[0])
      case Skip =>
        var r := Scan(lastDay, last, es[1..]);
        SubseqSkip(r, es);
        r
      case Stop =>
        []
      case Take =>
        [es[0]] + Scan(lastDay, last, es[1..])
  }

  /** Index of the first boundary entry, or the feed length when there is none. */
  function StopIndex(lastDay: Day, last: Dict, es: seq<Dict>): (k: nat)
    ensures k <= |es|
    ensures forall j :: 0 <= j < k ==> Examine(lastDay, last, es[j]) != Stop
    ensures k < |es| ==> Examine(lastDay, last, es[k]) == Stop
  {
    if es == [] then 0
    else if Examine(lastDay, last, es[0]) == Stop then 0
    else 1 + StopIndex(lastDay, last, es[1..])
  }

  /** Reference definition: the fresh entries of a feed segment, in order. */
  function FreshOnes(lastDay: Day, last: Dict, es: seq<Dict>): seq<Dict>
  {
    if es == [] then []
    else (if Fresh(lastDay, last, es[0]) then [es[0]] else []) + FreshOnes(lastDay, last, es[1..])
  }

  /** The scan returns exactly the fresh entries before the first boundary entry, in feed order. */
  lemma {:induction false} ScanIsFreshBeforeBoundary(lastDay: Day, last: Dict, es: seq<Dict>)
    ensures Scan(lastDay, last, es) == FreshOnes(lastDay, last, es[..StopIndex(lastDay, last, es)])
    decreases |es|
  {
    if es != [] && Examine(lastDay, last, es[0]) != Stop {
      var k := StopIndex(lastDay, last, es);
      var pre := es[..k];
      assert pre[0] == es[0];
      assert pre[1..] == es[1..][..StopIndex(lastDay, last, es[1..])];
      ExamineTakesExactlyFresh(lastDay, last, es[0]);
      ScanIsFreshBeforeBoundary(lastDay, last, es[1..]);
    } else if es != [] {
      assert es[..0] == [];
    }
  }

  /** Nothing after a boundary entry can change the result. */
  lemma {:induction false} ScanIgnoresAfterBoundary(lastDay: Day, last: Dict, es: seq<Dict>, tail: seq<Dict>)
    requires es != [] && Examine(lastDay, last, es[|es| - 1]) == Stop
    ensures Scan(lastDay, last, es + tail) == Scan(lastDay, last, es)
    decreases |es|
  {
    assert (es + tail)[0] == es[0];
    if |es| > 1 {
      assert (es + tail)[1..] == es[1..] + tail;
      ScanIgnoresAfterBoundary(lastDay, last, es[1..], tail);
    }
  }

  /** Undated entries are stepped over: they neither appear nor end the scan. */
  lemma UndatedEntriesAreSkipped(lastDay: Day, last: Dict, e: Dict, es: seq<Dict>)
    requires FeedDay(e).None?
    ensures Scan(lastDay, last, [e] + es) == Scan(lastDay, last, es)
  {
    assert ([e] + es)[1..] == es;
  }

  /** A feed whose result is returned for one channel, or None when the channel is skipped. */
  datatype Feed = Feed(bozo: bool, entries: seq<Dict>)

  /**
   * One iteration of the outer loop of `get_new_entries`. None means the
   * channel was passed over: no usable last-known date, a missing title or
   * feed URL (a caught KeyError), a bozo feed, or a feed with no entries.
   * Every path reads `channel['id']`, the exception handler included, so a
   * channel without one raises out of the stage.
   */
  function NewEntriesFor(k: Known, fetch: Value -> Feed): (r: Option<seq<Dict>>)
    requires "id" in k.channel
    ensures r.Some? <==>
              && LastKnownDay(k.last).Some?
              && "title" in k.channel && "rss_url" in k.channel
              && !fetch(k.channel["rss_url"]).bozo
              && fetch(k.channel["rss_url"]).entries != []
    ensures r.Some? ==> forall i :: 0 <= i < |r.value| ==> Fresh(LastKnownDay(k.last).value, k.last, r.value[i])
    ensures r.Some? ==> Subseq(r.value, fetch(k.channel["rss_url"]).entries)
  {
    match LastKnownDay(k.last)
    case None => None
    case Some(day) =>
      if "title" !in k.channel || "rss_url" !in k.channel then None
      else
        var feed := fetch(k.channel["rss_url"]);
        if feed.bozo || feed.entries == [] then None
        else Some(Scan(day, k.last, feed.entries))
  }

  /** A channel that makes it into the output: it was not passed over and found something new. */
  predicate HasNew(k: Known, fetch: Value -> Feed)
    requires "id" in k.channel
  {
    var r := NewEntriesFor(k, fetch);
    r.Some? && r.value != []
  }

  function PodChannels(ps: seq<Pod>): seq<Dict>
  {
    MapSeq((p: Pod) => p.channel, ps)
  }

  /** Every channel paired with a last-known entry has an id, as `get_all_channels_and_their_last_entries` guarantees. */
  predicate KnownIds(ks: seq<Known>)
  {
    forall i :: 0 <= i < |ks| ==> "id" in ks[i].channel
  }

  /** `get_new_entries`: channels with new entries, each with its new entries, in input order. */
  function GetNewEntries(ks: seq<Known>, fetch: Value -> Feed): (r: seq<Pod>)
    requires KnownIds(ks)
    ensures Subseq(PodChannels(r), ChannelsOf(ks))
    ensures forall p :: p in r ==> p.entries != []
    ensures forall p :: p in r ==> exists k :: k in ks && k.channel == p.channel && NewEntriesFor(k, fetch) == Some(p.entries)
    ensures forall k :: k in ks && HasNew(k, fetch) ==> Pod(k.channel, NewEntriesFor(k, fetch).value) in r
  {
    if ks == [] then []
    else
      var rest := GetNewEntries(ks[1..], fetch);
      assert ChannelsOf(ks)[1..] == ChannelsOf(ks[1..]);
      assert forall k :: k in ks[1..] ==> k in ks;
      if HasNew(ks[0], fetch) then
        var p := Pod(ks[0].channel, NewEntriesFor(ks[0], fetch).value);
        assert PodChannels([p] + rest) == [p.channel] + PodChannels(rest);
        [p] + rest
      else
        SubseqSkip(PodChannels(rest), ChannelsOf(ks));
        rest
  }

  /** `get_entries` reports work to do exactly when some channel has new entries. */
  lemma FoundIffSomeChannelHasNew(ks: seq<Known>, fetch: Value -> Feed)
    requires KnownIds(ks)
    ensures GetNewEntries(ks, fetch) != [] <==> exists k :: k in ks && HasNew(k, fetch)
  {
    var r := GetNewEntries(ks, fetch);
    if r != [] {
      assert r[0] in r;
      var k :| k in ks && k.channel == r[0].channel && NewEntriesFor(k, fetch) == Some(r[0].entries);
      assert HasNew(k, fetch);
    }
  }

  /** An entry from the same calendar day as the last-known one ends the scan, whatever its clock time. */
  lemma SameDayIsBoundary(lastDay: Day, last: Dict, e: Dict)
    requires FeedDay(e) == Some(lastDay)
    ensures Examine(lastDay, last, e) == Stop
    ensures !Fresh(lastDay, last, e)
  {
  }

  function Episode(id: string, t: Time): Dict
  {
    map["id" := Str(id), "published_parsed" := Stamp(t)]
  }

  /** The backend's spelling of 2024-01-10 08:00:00. */
  lemma JanuaryTenthSpelling()
    ensures IsoFormat(Time(2024, 1, 10, 8, 0, 0)) + "Z" == "2024-01-10T08:00:00Z"
  {
    assert Pad4(2024) == "2024" by {
      assert Pad2(20) == "20";
      assert Pad2(24) == "24";
    }
    assert Pad2(1) == "01";
    assert Pad2(10) == "10";
    assert Pad2(8) == "08";
    assert Pad2(0) == "00";
    var date := "2024" + "-" + "01" + "-" + "10";
    var clock := "08" + ":" + "00" + ":" + "00";
    assert date == "2024-01-10";
    assert clock == "08:00:00";
    assert IsoFormat(Time(2024, 1, 10, 8, 0, 0)) == date + "T" + clock;
  }

  lemma LastKnownJanuaryTenth(last: Dict)
    requires "published_parsed" in last && last["published_parsed"] == Str("2024-01-10T08:00:00Z")
    ensures LastKnownDay(last) == Some(Day(2024, 1, 10))
  {
    var t := Time(2024, 1, 10, 8, 0, 0);
    JanuaryTenthSpelling();
    IsoParseRoundTrip(t);
    assert ParseDbTime(last["published_parsed"].s) == Some(t);
  }

  /** The January feed, newest first: episodes of 01-15, 01-12, 01-10 (23:00) and 01-05. */
  function JanuaryFeed(): (r: seq<Dict>)
    ensures |r| == 4
  {
    [Episode("ep4", Time(2024, 1, 15, 6, 0, 0)), Episode("ep3", Time(2024, 1, 12, 6, 0, 0)),
     Episode("ep2", Time(2024, 1, 10, 23, 0, 0)), Episode("ep1", Time(2024, 1, 5, 6, 0, 0))]
  }

  /** Against a last-known entry of day 2024-01-10 with id "ep0", the scan takes the first two episodes. */
  lemma JanuaryScan(last: Dict)
    requires "_id" in last && last["_id"] == Str("ep0")
    ensures Scan(Day(2024, 1, 10), last, JanuaryFeed()) == JanuaryFeed()[..2]
  {
    var feed := JanuaryFeed();
    var day := Day(2024, 1, 10);
    assert Examine(day, last, feed[0]) == Take;
    assert Examine(day, last, feed[1]) == Take;
    assert Examine(day, last, feed[2]) == Stop;
    assert feed[1..][1..] == feed[2..];
    assert Scan(day, last, feed[2..]) == [];
    assert Scan(day, last, feed[1..]) == [feed[1]];
    assert Scan(day, last, feed) == [feed[0], feed[1]];
  }

  /**
   * Last-known entry published 2024-01-10 08:00: of the January feed the
   * first two episodes are new, and the one later on 01-10 is not.
   */
  lemma JanuaryExample()
    ensures
      var last := map["_id" := Str("ep0"), "published_parsed" := Str("2024-01-10T08:00:00Z")];
      && LastKnownDay(last) == Some(Day(2024, 1, 10))
      && Scan(Day(2024, 1, 10), last, JanuaryFeed()) == JanuaryFeed()[..2]
  {
    var last := map["_id" := Str("ep0"), "published_parsed" := Str("2024-01-10T08:00:00Z")];
    LastKnownJanuaryTenth(last);
    JanuaryScan(last);
  }
}
