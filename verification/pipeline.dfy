/**
 * The four stages as `main.py` chains them: each stage reads the snapshot
 * the previous one saved, and the first stage gates the rest.
 *
 * File names come from configuration; I/O faults of each save are parameters.
 */
module Pipeline {
  import opened Values
  import opened Times
  import opened Files
  import PickleStore
  import JsonMirror
  import opened Utils
  import opened Sync
  import opened Transcribe
  import opened Summarize
  import opened Persist

  /** The configured snapshot names. */
  datatype Paths = Paths(
    newJson: string, newPickle: string,
    transcriptsPickle: string, transcriptsJson: string,
    summariesPickle: string, summariesJson: string)

  /** Which step of a stage's two saves raises, if any. */
  datatype IoFaults = IoFaults(pickle: PickleStore.SaveFault, json: JsonMirror.JsonFault)

  const NoFaults := IoFaults(PickleStore.NoFault, JsonMirror.NoFault)

  /** The JSON mirror of a list of work units. */
  function Mirror(fs: FileMap, pods: seq<Pod>, name: string, fault: JsonMirror.JsonFault): FileMap
  {
    JsonMirror.ConvertToJsonAndSave(fs, JsonMirror.ItemList(JsonMirror.Items(pods)), name, true, fault).1
  }

  /** A mirror write never touches any path but its own. */
  lemma MirrorTouchesOnlyItsFile(fs: FileMap, pods: seq<Pod>, name: string, fault: JsonMirror.JsonFault, p: string)
    ensures p != name ==> At(Mirror(fs, pods, name, fault), p) == At(fs, p)
  {
    JsonMirror.MirrorOfPods(pods);
  }

  /**
   * `save_results` of the transcribe and summarize stages: the pickle, then
   * the JSON mirror. A failed pickle save leaves the previous snapshot in
   * place, and the next stage reads that one.
   */
  function SaveResults(fs: FileMap, pods: seq<Pod>, pickle: string, json: string, f: IoFaults): (r: FileMap)
    ensures json != pickle && f.pickle == PickleStore.NoFault ==>
              PickleStore.LoadFromPickle(r, pickle) == Some(pods)
    ensures json != pickle && f.pickle != PickleStore.NoFault ==>
              PickleStore.LoadFromPickle(r, pickle) == PickleStore.LoadFromPickle(fs, pickle)
  {
    var saved := PickleStore.SaveToPickle(fs, pickle, pods, true, f.pickle).1;
    MirrorTouchesOnlyItsFile(saved, pods, json, f.json, pickle);
    Mirror(saved, pods, json, f.json)
  }

  /**
   * `get_entries`: resolve the new entries; when there are any, save the JSON
   * mirror and then the pickle, and report True.
   */
  function GetEntries(fs: FileMap, ks: seq<Known>, fetch: Value -> Feed, paths: Paths, f: IoFaults): (r: (bool, FileMap))
    requires KnownIds(ks)
    ensures r.0 <==> exists k :: k in ks && HasNew(k, fetch)
    ensures !r.0 ==> r.1 == fs
    ensures r.0 && f.pickle == PickleStore.NoFault ==>
              PickleStore.LoadFromPickle(r.1, paths.newPickle) == Some(GetNewEntries(ks, fetch))
  {
    var found := GetNewEntries(ks, fetch);
    FoundIffSomeChannelHasNew(ks, fetch);
    if |found| > 0 then
      var mirrored := Mirror(fs, found, paths.newJson, f.json);
      (true, PickleStore.SaveToPickle(mirrored, paths.newPickle, found, true, f.pickle).1)
    else (false, fs)
  }

  /** `generate_transcripts`: load, project and transcribe every channel with the loop as written, save. */
  function TranscribeStage(fs: FileMap, paths: Paths, fetch: (nat, nat, Value) -> bool, transcribe: (nat, nat, Value) -> Option<Value>, f: IoFaults): (r: FileMap)
    requires PickleStore.LoadFromPickle(fs, paths.newPickle).Some?
    requires PodsReadableAsWritten(PickleStore.LoadFromPickle(fs, paths.newPickle).value)
    ensures paths.transcriptsJson != paths.transcriptsPickle && f.pickle == PickleStore.NoFault ==>
              var loaded := PickleStore.LoadFromPickle(r, paths.transcriptsPickle);
              var input := PickleStore.LoadFromPickle(fs, paths.newPickle).value;
              && loaded.Some? && |loaded.value| == |input|
              && (forall i :: 0 <= i < |input| ==> loaded.value[i].channel == input[i].channel)
              && (forall i :: 0 <= i < |input| ==> forall d :: d in loaded.value[i].entries ==> StageShaped(d))
  {
    var pods := PickleStore.LoadFromPickle(fs, paths.newPickle).value;
    SaveResults(fs, ProcessPodsAsWritten(pods, fetch, transcribe), paths.transcriptsPickle, paths.transcriptsJson, f)
  }

  /**
   * `generate_summaries`: load, the paragraph pass, the bullet pass, save, with
   * the loops as written and `tpm` the configured quota. The saved snapshot
   * keeps every channel, and each entry in it is a loaded entry with at most
   * the two summaries written; it does not promise that every entry has both.
   */
  function SummarizeStage(fs: FileMap, paths: Paths, ask: Ask, tpm: int, f: IoFaults): (r: FileMap)
    requires PickleStore.LoadFromPickle(fs, paths.transcriptsPickle).Some?
    ensures paths.summariesJson != paths.summariesPickle && f.pickle == PickleStore.NoFault ==>
              var loaded := PickleStore.LoadFromPickle(r, paths.summariesPickle);
              var input := PickleStore.LoadFromPickle(fs, paths.transcriptsPickle).value;
              loaded.Some? && SummariesOf(loaded.value, input)
  {
    var pods := PickleStore.LoadFromPickle(fs, paths.transcriptsPickle).value;
    SaveResults(fs, GenerateSummariesAsWritten(pods, ask, tpm), paths.summariesPickle, paths.summariesJson, f)
  }

  /** `update_db`: load the summarised snapshot and post it. */
  function UpdateDbStage(fs: FileMap, paths: Paths, base: string, secret: Option<string>, respond: (string, Dict) -> Response): (r: seq<Post>)
    requires PickleStore.LoadFromPickle(fs, paths.summariesPickle).Some?
    requires Reachable(PickleStore.LoadFromPickle(fs, paths.summariesPickle).value)
    ensures forall p :: p in r ==> !Table(p, base, secret, "transcripts")
  {
    var pods := PickleStore.LoadFromPickle(fs, paths.summariesPickle).value;
    NoTranscriptPosted(pods, base, secret, respond);
    PostDataToServer(pods, base, secret, respond)
  }

  /** Each JSON mirror has a name of its own, apart from the pickle its stage saves. */
  predicate MirrorsApart(paths: Paths)
  {
    paths.transcriptsJson != paths.transcriptsPickle && paths.summariesJson != paths.summariesPickle
  }

  /**
   * The hand-off: when no save fails, each stage reads exactly what the one
   * before it saved, so the run posts what the stages compute on the values
   * themselves.
   */
  lemma PipelineHandoff(
    fs: FileMap, ks: seq<Known>, feeds: Value -> Feed,
    download: (nat, nat, Value) -> bool, whisper: (nat, nat, Value) -> Option<Value>,
    ask: Ask, tpm: int,
    base: string, secret: Option<string>, respond: (string, Dict) -> Response, paths: Paths)
    requires MirrorsApart(paths) && KnownIds(ks)
    requires exists k :: k in ks && HasNew(k, feeds)
    requires PodsReadableAsWritten(GetNewEntries(ks, feeds))
    requires Reachable(GenerateSummariesAsWritten(ProcessPodsAsWritten(GetNewEntries(ks, feeds), download, whisper), ask, tpm))
    ensures
      var fs1 := GetEntries(fs, ks, feeds, paths, NoFaults).1;
      var fs2 := TranscribeStage(fs1, paths, download, whisper, NoFaults);
      var fs3 := SummarizeStage(fs2, paths, ask, tpm, NoFaults);
      UpdateDbStage(fs3, paths, base, secret, respond)
        == PostDataToServer(GenerateSummariesAsWritten(ProcessPodsAsWritten(GetNewEntries(ks, feeds), download, whisper), ask, tpm), base, secret, respond)
  {
    var found := GetNewEntries(ks, feeds);
    var fs1 := GetEntries(fs, ks, feeds, paths, NoFaults).1;
    assert PickleStore.LoadFromPickle(fs1, paths.newPickle) == Some(found);
    var transcribed := ProcessPodsAsWritten(found, download, whisper);
    var fs2 := TranscribeStage(fs1, paths, download, whisper, NoFaults);
    assert PickleStore.LoadFromPickle(fs2, paths.transcriptsPickle) == Some(transcribed);
    var summarized := GenerateSummariesAsWritten(transcribed, ask, tpm);
    var fs3 := SummarizeStage(fs2, paths, ask, tpm, NoFaults);
    assert PickleStore.LoadFromPickle(fs3, paths.summariesPickle) == Some(summarized);
  }

  /**
   * When no channel holds two episodes with equal projections and every
   * summary call succeeds, the stages as written compute what the corrected
   * stages compute: every surviving entry carries both summaries.
   */
  lemma StagesAgreeWhenNothingFails(
    found: seq<Pod>,
    download: (nat, nat, Value) -> bool, whisper: (nat, nat, Value) -> Option<Value>,
    ask: Ask, tpm: int)
    requires PodsReadableAsWritten(found) && PodsDistinct(found) && AllCallsSucceed(ask, tpm)
    ensures PodsReadable(found)
    ensures GenerateSummariesAsWritten(ProcessPodsAsWritten(found, download, whisper), ask, tpm)
         == GenerateSummariesCorrected(ProcessPodsCorrected(found, download, whisper), ask)
    ensures forall i :: 0 <= i < |found| ==>
              var r := GenerateSummariesAsWritten(ProcessPodsAsWritten(found, download, whisper), ask, tpm);
              AllHave(r[i].entries, ParagraphStyle) && AllHave(r[i].entries, BulletStyle)
  {
    ProcessPodsAsWrittenAgrees(found, download, whisper);
    GenerateAsWrittenAgrees(ProcessPodsAsWritten(found, download, whisper), ask, tpm);
  }

  /** With nothing new, `main` stops after the first stage and no file changes. */
  lemma NothingNewChangesNothing(fs: FileMap, ks: seq<Known>, feeds: Value -> Feed, paths: Paths, f: IoFaults)
    requires KnownIds(ks)
    requires forall k :: k in ks ==> !HasNew(k, feeds)
    ensures GetEntries(fs, ks, feeds, paths, f) == (false, fs)
  {
  }

  lemma LatestPathSplits(prefix: string, id: string)
    ensures prefix + "entries/latest-entry/" + id + "/" == prefix + "entries" + "/" + "latest-entry/" + id + "/"
  {
    assert "entries/latest-entry/" == "entries" + "/" + "latest-entry/";
  }

  lemma ChannelsPathSplits(prefix: string)
    ensures prefix + "channels/limited-fields/" == prefix + "channels" + "/" + "limited-fields/"
  {
    assert "channels/limited-fields/" == "channels" + "/" + "limited-fields/";
  }

  /** The latest-entry request uses the `build_url` scheme for the entries table, extended by a path. */
  lemma LatestEntryUrlExtendsBuildUrl(base: string, channelId: Value, secret: Option<string>)
    requires IsScalar(channelId)
    ensures LatestEntryUrl(base, channelId, secret) == BuildUrl(base, "entries", secret) + "latest-entry/" + Render(channelId) + "/"
  {
    var id := Render(channelId);
    match secret
    case None =>
      LatestPathSplits(base, id);
    case Some(s) =>
      var prefix := base + s + "/";
      assert "/entries/latest-entry/" == "/" + "entries/latest-entry/";
      Assoc(base + s, "/", "entries/latest-entry/");
      assert base + s + "/entries/latest-entry/" == prefix + "entries/latest-entry/";
      LatestPathSplits(prefix, id);
  }

  /** The channel-list request uses the `build_url` scheme for the channels table, extended by a path. */
  lemma ChannelsUrlExtendsBuildUrl(base: string, secret: Option<string>)
    ensures ChannelsUrl(base, secret) == BuildUrl(base, "channels", secret) + "limited-fields/"
  {
    match secret
    case None =>
      ChannelsPathSplits(base);
    case Some(s) =>
      var prefix := base + s + "/";
      assert "/channels/limited-fields/" == "/" + "channels/limited-fields/";
      Assoc(base + s, "/", "channels/limited-fields/");
      ChannelsPathSplits(prefix);
  }

  /**
   * No duplicates on the next run: once an entry has been posted and the
   * backend reports it (its `published_parsed` read back with a trailing "Z")
   * as the channel's latest, the scan of a feed starting with that entry
   * stops at once.
   */
  lemma ResyncStopsAtPostedEntry(e: Dict, rest: seq<Dict>, channelId: Value)
    requires EntryPostable(e) && e["published_parsed"].Stamp?
    ensures
      var payload := EntryPayload(e, channelId);
      var last := map["_id" := payload["_id"], "published_parsed" := Str(payload["published_parsed"].s + "Z")];
      && LastKnownDay(last) == Some(DayOf(e["published_parsed"].t))
      && Scan(LastKnownDay(last).value, last, [e] + rest) == []
  {
    var payload := EntryPayload(e, channelId);
    var stamp := payload["published_parsed"].s + "Z";
    assert stamp[|stamp| - 1] == 'Z';
    var last := map["_id" := payload["_id"], "published_parsed" := Str(stamp)];
    assert Truthy(Str(stamp));
    assert FeedDay(e) == Some(DayOf(e["published_parsed"].t));
    assert ([e] + rest)[0] == e;
  }
}
