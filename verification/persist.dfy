/**
 * The persist stage of `update_db.py`: POST every entry of every channel to
 * the backend, and its summaries when the entry was created and both
 * summaries are present.
 *
 * The backend is an oracle: `respond(url, payload)` is the response to a
 * POST of `payload` to `url`. The stage's effect is the sequence of POSTs it
 * sends, in order.
 */
module Persist {
  import opened Values
  import opened Utils

  /** `build_url`: the base, the optional secret segment, the table, a closing slash. */
  function BuildUrl(base: string, table: string, secret: Option<string>): string
  {
    match secret
    case None => base + table + "/"
    case Some(s) => base + s + "/" + table + "/"
  }

  /** Different tables give different URLs under the same base and secret. */
  lemma BuildUrlInjective(base: string, t1: string, t2: string, secret: Option<string>)
    requires BuildUrl(base, t1, secret) == BuildUrl(base, t2, secret)
    ensures t1 == t2
  {
    var b := if secret.Some? then base + secret.value + "/" else base;
    var u := BuildUrl(base, t1, secret);
    assert u == b + t1 + "/" && u == b + t2 + "/";
    assert t1 == u[|b|..|u| - 1];
    assert t2 == u[|b|..|u| - 1];
  }

  /** The secret is one more path segment in front of the table. */
  lemma SecretIsPathSegment(base: string, table: string, s: string)
    ensures BuildUrl(base, table, Some(s)) == BuildUrl(base + s + "/", table, None)
    ensures BuildUrl(base, table, None)[..|base|] == base
  {
  }

  /** What the backend answers: the status code and, on a 201, the created record's `id`. */
  datatype Response = Response(status: int, id: Value)

  /** One POST request: where it went and what it carried. */
  datatype Post = Post(url: string, payload: Dict)

  /**
   * `post_data_for_entry`: the entry POST; then, only when it returned 201 and
   * both summaries are present, the summary POST carrying the new entry's id.
   * The transcript POST is commented out in the source and never sent.
   */
  function PostDataForEntry(entry: Dict, channelId: Value, base: string, secret: Option<string>, respond: (string, Dict) -> Response): (r: seq<Post>)
    requires EntryPostable(entry)
    ensures 1 <= |r| <= 2
    ensures r[0] == Post(BuildUrl(base, "entries", secret), EntryPayload(entry, channelId))
    ensures |r| == 2 <==>
              var created := respond(r[0].url, r[0].payload);
              created.status == 201 && SummaryPayload(entry, created.id).Some?
    ensures |r| == 2 ==>
              && r[1].url == BuildUrl(base, "summaries", secret)
              && Some(r[1].payload) == SummaryPayload(entry, respond(r[0].url, r[0].payload).id)
  {
    var entryPost := Post(BuildUrl(base, "entries", secret), EntryPayload(entry, channelId));
    var created := respond(entryPost.url, entryPost.payload);
    if created.status != 201 then [entryPost]
    else
      match SummaryPayload(entry, created.id)
      case None => [entryPost]
      case Some(summaries) => [entryPost, Post(BuildUrl(base, "summaries", secret), summaries)]
  }

  /** `channel.get('id', None)`: a missing id and an explicit None are the same. */
  function ChannelId(channel: Dict): Option<Value>
  {
    var v := Get(channel, "id", Null);
    if v.Null? then None else Some(v)
  }

  predicate AllPostable(es: seq<Dict>)
  {
    forall i :: 0 <= i < |es| ==> EntryPostable(es[i])
  }

  /** The inner loop: each entry in turn; a failed POST for one entry does not stop the next. */
  function PostEntries(es: seq<Dict>, channelId: Value, base: string, secret: Option<string>, respond: (string, Dict) -> Response): (r: seq<Post>)
    requires AllPostable(es)
    ensures |es| <= |r| <= 2 * |es|
  {
    if es == [] then []
    else PostDataForEntry(es[0], channelId, base, secret, respond) + PostEntries(es[1..], channelId, base, secret, respond)
  }

  /**
   * What `post_data_to_server` demands of the channels it reaches: each has a
   * `title` (indexed for the log line), and the entries of a channel with an
   * id have the keys the entry payload indexes. The channels after one
   * without an id are never reached.
   */
  predicate Reachable(pods: seq<Pod>)
  {
    pods == [] ||
    ("title" in pods[0].channel &&
     (ChannelId(pods[0].channel).Some? ==> AllPostable(pods[0].entries) && Reachable(pods[1..])))
  }

  /**
   * `post_data_to_server`: channel by channel, every entry. A channel without
   * an id ends the whole stage (`return`), not just that channel.
   */
  function PostDataToServer(pods: seq<Pod>, base: string, secret: Option<string>, respond: (string, Dict) -> Response): (r: seq<Post>)
    requires Reachable(pods)
    ensures pods != [] && ChannelId(pods[0].channel).None? ==> r == []
  {
    if pods == [] then []
    else
      match ChannelId(pods[0].channel)
      case None => []
      case Some(id) => PostEntries(pods[0].entries, id, base, secret, respond) + PostDataToServer(pods[1..], base, secret, respond)
  }

  /** The posts for a list of entries are the posts for each part, in order. */
  lemma {:induction false} PostEntriesAppend(a: seq<Dict>, b: seq<Dict>, channelId: Value, base: string, secret: Option<string>, respond: (string, Dict) -> Response)
    requires AllPostable(a) && AllPostable(b)
    ensures AllPostable(a + b)
    ensures PostEntries(a + b, channelId, base, secret, respond)
            == PostEntries(a, channelId, base, secret, respond) + PostEntries(b, channelId, base, secret, respond)
  {
    if a != [] {
      assert (a + b)[1..] == a[1..] + b;
      PostEntriesAppend(a[1..], b, channelId, base, secret, respond);
      Assoc(PostDataForEntry(a[0], channelId, base, secret, respond),
            PostEntries(a[1..], channelId, base, secret, respond), PostEntries(b, channelId, base, secret, respond));
    } else {
      assert a + b == b;
    }
  }

  /**
   * Every entry of the channel gets its entry POST, whatever happened to the
   * entries before it.
   */
  lemma {:induction false} EveryEntryIsPosted(es: seq<Dict>, channelId: Value, base: string, secret: Option<string>, respond: (string, Dict) -> Response, i: nat)
    requires AllPostable(es) && i < |es|
    ensures Post(BuildUrl(base, "entries", secret), EntryPayload(es[i], channelId)) in PostEntries(es, channelId, base, secret, respond)
  {
    if i > 0 {
      assert es[1..][i - 1] == es[i];
      EveryEntryIsPosted(es[1..], channelId, base, secret, respond, i - 1);
    }
  }

  /** The POST went to `table`'s URL. */
  predicate Table(p: Post, base: string, secret: Option<string>, table: string)
  {
    p.url == BuildUrl(base, table, secret)
  }

  /** Every POST of a channel goes to the entries table or the summaries table. */
  lemma {:induction false} OnlyEntriesAndSummaries(es: seq<Dict>, channelId: Value, base: string, secret: Option<string>, respond: (string, Dict) -> Response)
    requires AllPostable(es)
    ensures forall p :: p in PostEntries(es, channelId, base, secret, respond) ==>
              Table(p, base, secret, "entries") || Table(p, base, secret, "summaries")
  {
    if es != [] {
      OnlyEntriesAndSummaries(es[1..], channelId, base, secret, respond);
    }
  }

  /** No transcript record is ever posted. */
  lemma {:induction false} NoTranscriptPosted(pods: seq<Pod>, base: string, secret: Option<string>, respond: (string, Dict) -> Response)
    requires Reachable(pods)
    ensures forall p :: p in PostDataToServer(pods, base, secret, respond) ==> !Table(p, base, secret, "transcripts")
  {
    if pods != [] && ChannelId(pods[0].channel).Some? {
      var id := ChannelId(pods[0].channel).value;
      NoTranscriptPosted(pods[1..], base, secret, respond);
      OnlyEntriesAndSummaries(pods[0].entries, id, base, secret, respond);
      forall p | p in PostEntries(pods[0].entries, id, base, secret, respond)
        ensures !Table(p, base, secret, "transcripts")
      {
        if Table(p, base, secret, "transcripts") {
          if Table(p, base, secret, "entries") {
            BuildUrlInjective(base, "entries", "transcripts", secret);
          } else {
            BuildUrlInjective(base, "summaries", "transcripts", secret);
          }
        }
      }
    }
  }

  /**
   * The abort: once a channel without an id is reached, nothing after it is
   * posted; the trace is that of the channels before it.
   */
  lemma {:induction false} MissingIdStopsLaterChannels(before: seq<Pod>, c: Pod, after: seq<Pod>, base: string, secret: Option<string>, respond: (string, Dict) -> Response)
    requires Reachable(before + [c]) && ChannelId(c.channel).None?
    ensures Reachable(before + [c] + after) && Reachable(before)
    ensures PostDataToServer(before + [c] + after, base, secret, respond) == PostDataToServer(before, base, secret, respond)
  {
    if before == [] {
      assert (before + [c] + after)[0] == c;
    } else {
      assert (before + [c] + after)[0] == before[0];
      assert (before + [c] + after)[1..] == before[1..] + [c] + after;
      assert (before + [c])[1..] == before[1..] + [c];
      if ChannelId(before[0].channel).Some? {
        MissingIdStopsLaterChannels(before[1..], c, after, base, secret, respond);
      }
    }
  }

  /** Every channel of the list has an id. */
  predicate AllChannelsHaveIds(pods: seq<Pod>)
  {
    forall i :: 0 <= i < |pods| ==> ChannelId(pods[i].channel).Some?
  }

  /** Joining two reachable lists keeps everything reachable when the first has no channel without an id. */
  lemma {:induction false} ReachableAppend(a: seq<Pod>, b: seq<Pod>)
    requires Reachable(a) && Reachable(b) && AllChannelsHaveIds(a)
    ensures Reachable(a + b)
  {
    if a == [] {
      assert a + b == b;
    } else {
      assert a[1..] + b == (a + b)[1..];
      assert AllChannelsHaveIds(a[1..]) by {
        forall i | 0 <= i < |a[1..]|
          ensures ChannelId(a[1..][i].channel).Some?
        {
          assert a[1..][i] == a[i + 1];
        }
      }
      ReachableAppend(a[1..], b);
      assert (a + b)[0] == a[0];
    }
  }

  /** One channel with an id, then the rest. */
  lemma PostDataToServerCons(p: Pod, rest: seq<Pod>, base: string, secret: Option<string>, respond: (string, Dict) -> Response)
    requires Reachable([p] + rest) && ChannelId(p.channel).Some?
    ensures Reachable(rest)
    ensures PostDataToServer([p] + rest, base, secret, respond)
            == PostEntries(p.entries, ChannelId(p.channel).value, base, secret, respond) + PostDataToServer(rest, base, secret, respond)
  {
    assert ([p] + rest)[0] == p;
    assert ([p] + rest)[1..] == rest;
  }

  /**
   * The channel list's posts are the posts of each channel in turn, as long as
   * every channel has an id.
   */
  lemma {:induction false} PostDataToServerAppend(a: seq<Pod>, b: seq<Pod>, base: string, secret: Option<string>, respond: (string, Dict) -> Response)
    requires Reachable(a) && Reachable(b) && AllChannelsHaveIds(a)
    ensures Reachable(a + b)
    ensures PostDataToServer(a + b, base, secret, respond) == PostDataToServer(a, base, secret, respond) + PostDataToServer(b, base, secret, respond)
  {
    ReachableAppend(a, b);
    if a == [] {
      assert a + b == b;
    } else {
      var p, tail := a[0], a[1..];
      assert a == [p] + tail;
      assert a + b == [p] + (tail + b);
      assert AllChannelsHaveIds(tail) by {
        forall i | 0 <= i < |tail|
          ensures ChannelId(tail[i].channel).Some?
        {
          assert tail[i] == a[i + 1];
        }
      }
      PostDataToServerCons(p, tail, base, secret, respond);
      PostDataToServerAppend(tail, b, base, secret, respond);
      PostDataToServerCons(p, tail + b, base, secret, respond);
      var head := PostEntries(p.entries, ChannelId(p.channel).value, base, secret, respond);
      Assoc(head, PostDataToServer(tail, base, secret, respond), PostDataToServer(b, base, secret, respond));
    }
  }
}
