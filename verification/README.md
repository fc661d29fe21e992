# Podcast summary pipeline — a Dafny model

The pipeline keeps a backend database of podcast channels and episodes up to
date. Each run has four stages, chained by `main.py`:

1. **get entries.** Ask the backend for every channel and the latest episode it
   already holds. Read each channel's RSS feed. Keep the episodes newer than
   the stored one. When any channel has new episodes, save them as a pickle
   snapshot plus a JSON mirror.
2. **generate transcripts.** Load that snapshot and project every episode onto
   the seven database fields. Find each episode's `audio/mpeg` enclosure,
   download it and transcribe it with Whisper. Attach the transcript, or drop
   the episode when transcription fails. Save the next snapshot.
3. **generate summaries.** Load that snapshot. Build a prompt per episode and
   ask the language model for a paragraph summary, then (second pass) a
   bullet summary. Sleep to respect a tokens-per-minute budget. Drop the
   episodes whose call failed. Save the next snapshot.
4. **update db.** Load that snapshot and POST every episode to the backend's
   `entries` table. When the entry was created and both summaries are present,
   also POST to the `summaries` table.

The model is pure. A channel or episode is a `Dict` (a map from key names to
`Value`s: None, bool, int, str, a `struct_time`, a list, a dict). A work unit
is a `Pod(channel, entries)`. The file system is a map from file names to
contents. Every outside service is a function parameter (an oracle):

- the backend's GET answers;
- `feedparser`;
- the MP3 download;
- Whisper;
- the language model;
- the backend's answer to each POST.

An exception the source catches becomes an ordinary result. An exception that
escapes to the top (a `KeyError` on `d[k]`, a `TypeError` from iterating
`None`) becomes a `requires`, because the source demands it of its callers.

In the transcribe loop, a visit reads only the entry's own links and its
position, and the loop writes to an entry only after visiting it. So the loop
functions take the list of visit outcomes (`Transcribe.Outcomes`) as an
argument, and the loop lemmas hold whatever the outcomes are.

Modules follow the source files:

- `Values` is the dict/list value model, plus `list.remove` and `str()`.
- `Times` covers `strptime`, `isoformat` and the day comparison.
- `Utils` is `helpers/utils.py`.
- `Files` is the file-system map.
- `PickleStore` is `helpers/pickle_helpers.py`.
- `JsonMirror` is `helpers/json_helpers.py`.
- `Sync` is `get_entries.py`.
- `Transcribe` is `generate_transcripts.py`.
- `Summarize` is `generate_summaries.py`.
- `Persist` is `update_db.py`.
- `Pipeline` covers `main.py` and the stages' load/save hand-off.

## Model

| member | source | states |
|---|---|---|
| Values.FirstIndex | generate_transcripts.py:197 | The index `list.remove` deletes at: it holds the value, and no earlier element equals it. |
| Values.RemoveFirst | generate_summaries.py:144 | `list.remove(x)` deletes exactly one occurrence of `x`, the first: the multiset loses one `x`, and the elements before and after that position keep their order. |
| Values.RemoveFirstAppend | generate_transcripts.py:197 | Removing a value that occurs in the front part leaves the back part untouched. |
| Values.DecimalRoundTrip | generate_summaries.py:55-56 | `str()` of a natural number reads back as the same number. |
| Times.IsoFormat | helpers/utils.py:67-68 | `isoformat()` of a second-resolution datetime is 19 characters with `-`, `-`, `T`, `:`, `:` at fixed places. |
| Times.ParseDbTime | get_entries.py:154 | `strptime(s, '%Y-%m-%dT%H:%M:%SZ')` on the zero-padded form: a parse gives a 20-character string with the literal `-`, `T`, `:` separators and a trailing `Z`, and a valid calendar time. |
| Times.IsoParseRoundTrip | get_entries.py:154 | A timestamp the backend stores (its ISO form plus `Z`) parses back to the same time. |
| Times.DayBeforeStrictTotalOrder | get_entries.py:180-183 | The `(year, month, day)` tuple comparison is a strict total order. |
| Times.SameDaySameKey | get_entries.py:180-183 | Two times on the same calendar day are never strictly before one another. |
| Utils.TotalEntriesAppend | helpers/utils.py:12-28 | The entry count of two lists of pods is the sum of their counts. |
| Utils.CountTotalEntries | helpers/utils.py:12-28 | The loop's total is the number of entries across all pods, and is at least the size of each pod. |
| Utils.ConvertTimeToIso | helpers/utils.py:65-72 | Gives a string exactly for a `struct_time`, otherwise None. The string parses back (with `Z`) to the same time. |
| Utils.ChannelPayload | helpers/utils.py:76-87 | The channel POST body has exactly the nine fields. It copies eight of them and converts `updated_parsed` to a round-trippable ISO string. |
| Utils.EntryPayload | helpers/utils.py:91-101 | The entry POST body has exactly its eight fields. `channel` is the given id. `_id` and `_summary` come from `id` and `summary`. Four fields are copied. `published_parsed` is ISO-converted. |
| Utils.SummaryPayload | helpers/utils.py:105-116 | None exactly when either summary is missing or empty. Otherwise it holds the entry id and both summaries unchanged. |
| Utils.TranscriptPayload | helpers/utils.py:118-121 | Holds the entry id and the transcript, or `''` when there is none. |
| Sync.LatestEntryUrl | get_entries.py:46-49 | Defined by its body; `Pipeline.LatestEntryUrlExtendsBuildUrl` states that it is `build_url`'s `entries` URL followed by `latest-entry/<id>/`. |
| Sync.ChannelsUrl | get_entries.py:79-82 | Defined by its body; `Pipeline.ChannelsUrlExtendsBuildUrl` states that it is `build_url`'s `channels` URL followed by `limited-fields/`. |
| Sync.PairWithLatest | get_entries.py:124-128 | The kept pairs are an order-preserving selection of the channels. Each is paired with its latest-entry answer. Every channel with an answer is kept. |
| Sync.ChannelsAndLastEntries | get_entries.py:119-130 | No channel list gives no pairs. Otherwise the pairs are a subsequence of the channels, each paired with its backend answer. |
| Sync.Examine | get_entries.py:172-191 | Defined by its body; `Sync.ExamineTakesExactlyFresh` states exactly when an entry is taken, and `Sync.SameDayIsBoundary` that a same-day entry ends the scan. |
| Sync.ExamineTakesExactlyFresh | get_entries.py:172-187 | A feed entry is appended exactly when it is dated, its day is strictly after the last known day, and its id differs from the stored `_id`. |
| Sync.Scan | get_entries.py:171-191 | Every collected entry is fresh, and the collection is an order-preserving selection of the feed. |
| Sync.StopIndex | get_entries.py:183-184 | The boundary is the first entry that triggers the `break`. No entry before it does. |
| Sync.ScanIsFreshBeforeBoundary | get_entries.py:171-191 | The scan's result is exactly the fresh entries before the boundary, in feed order. |
| Sync.ScanIgnoresAfterBoundary | get_entries.py:183-184 | Nothing after a `break`-triggering entry influences the result. |
| Sync.UndatedEntriesAreSkipped | get_entries.py:175-178 | An undated feed entry is skipped without ending the scan. |
| Sync.SameDayIsBoundary | get_entries.py:183 | An episode from the same day as the last known one stops the scan and is never collected. |
| Sync.NewEntriesFor | get_entries.py:146-195 | A channel yields a list exactly when the last date is present, the channel has `title` and `rss_url`, and the feed parses and is non-empty. The list holds fresh entries in feed order. |
| Sync.GetNewEntries | get_entries.py:134-203 | Each result pod comes from a distinct input channel, in order, and has a non-empty list of its new entries. Every channel with new entries appears. |
| Sync.FoundIffSomeChannelHasNew | get_entries.py:193-195 | The result is non-empty exactly when some channel has a new entry. |
| Sync.LastKnownJanuaryTenth | get_entries.py:149-155 | A stored timestamp `2024-01-10T08:00:00Z` gives the day key (2024, 1, 10). |
| Sync.JanuaryTenthSpelling | helpers/utils.py:67-68 | `isoformat()` of 2024-01-10 08:00:00, with `Z` appended, is the string the backend stores. |
| Sync.JanuaryScan | get_entries.py:171-191 | On a feed dated 15, 12, 10 (23:00) and 5 January, against the day 2024-01-10 and another stored id, the scan keeps the first two and stops at the same-day episode. |
| Sync.JanuaryExample | get_entries.py:149-191 | The stored entry of 2024-01-10 08:00 gives that day, and the scan of that feed keeps exactly its first two episodes. |
| PickleStore.TempName | helpers/pickle_helpers.py:30 | The temporary file is never the target file. |
| PickleStore.SaveTrace | helpers/pickle_helpers.py:24-43 | The save passes through at most four file-system states, starting from the current one. |
| PickleStore.SaveToPickle | helpers/pickle_helpers.py:11-47 | Succeeds exactly when allowed to overwrite and no step raises. It then holds the data under the name, leaves no temporary file and changes nothing else. On failure the target is untouched. |
| PickleStore.LoadFromPickle | helpers/pickle_helpers.py:52-79 | A missing file gives None. A snapshot is returned exactly when the file holds a complete pickle. |
| PickleStore.CrashBeforeReplaceKeepsTarget | helpers/pickle_helpers.py:28-43 | At every point before `os.replace` the target file, and what loads from it, is the previous one. |
| PickleStore.SaveLoadRoundTrip | helpers/pickle_helpers.py:11-79 | Loading right after a successful save gives back exactly the saved pods. |
| PickleStore.SaveIdempotent | helpers/pickle_helpers.py:11-39 | Saving the same data twice leaves the same files as saving it once. |
| JsonMirror.RecordRoundTrip | helpers/json_helpers.py:30 | A `{"Channel", "Entries"}` record determines its channel and entries. |
| JsonMirror.Flatten | helpers/json_helpers.py:30 | Fails exactly when some element is not a (channel, entries) pair. Otherwise there is one record per pod, and each reads back as that pod. |
| JsonMirror.ConvertToJsonAndSave | helpers/json_helpers.py:9-50 | Writes exactly when the argument is a list of pairs, overwriting is allowed, and no I/O step raises. A non-list or a refused overwrite changes nothing. A failure touches no other file. |
| JsonMirror.MirrorOfPods | helpers/json_helpers.py:30 | A list of pods always serialises, and each record reads back as its pod. |
| Transcribe.ToDbFormat | generate_transcripts.py:38-46 | The projection has exactly the seven database keys, each the entry's value or None. |
| Transcribe.ToDbFormatIdempotent | generate_transcripts.py:38-46 | Projecting twice equals projecting once. |
| Transcribe.ToDbFormatIsPostable | generate_transcripts.py:38-46 | A projected entry has every key the entry POST body reads. |
| Transcribe.ConvertEntries | generate_transcripts.py:157-167 | One projected entry per input entry, in order. |
| Transcribe.FirstAudio | generate_transcripts.py:63-68 | Finds the first `enclosure` link of type `audio/mpeg`. None exactly when no link qualifies. |
| Transcribe.Mp3Link | generate_transcripts.py:63-72 | The MP3 URL is that link's truthy `href`. None when there is no such link or its `href` is falsy. |
| Transcribe.LinksAsWritten | generate_transcripts.py:65 | `for link in entry.get('links', [])`: an absent key gives no links, a list gives its items, an empty string or dict iterates zero times and gives no links; any other value (None, a scalar, a non-empty string or dict) raises, which is the None result. |
| Transcribe.LinksOrEmpty | generate_transcripts.py:65 | The corrected link list: the entry's links, or empty when `links` is None. |
| Transcribe.MissingLinksRaise | generate_transcripts.py:42 | A raw entry without `links` projects to `links: None`, which the download loop cannot iterate. The corrected lookup yields no MP3. |
| Transcribe.VisitSpec | generate_transcripts.py:188-198 | Downloaded exactly when an MP3 link exists and the download succeeds. Untranscribed exactly when downloaded and Whisper returns None. |
| Transcribe.Visit | generate_transcripts.py:188-198 | Defined by its body; `Transcribe.VisitSpec` states when an entry counts as downloaded, transcribed or untranscribed. |
| Transcribe.AsWritten | generate_transcripts.py:187-198 | The value-level trace of the loop over the copy, given each entry's visit outcome, never grows the list. |
| Transcribe.AttachTranscriptsAsWritten | generate_transcripts.py:184-200 | The loop over `entries[:]`, with in-place attach and `remove` by value, computes the trace `AsWritten` on the outcomes of visiting each original entry. |
| Transcribe.AsWrittenStep | generate_transcripts.py:187-198 | One iteration maps the list state to the next state for each outcome: unchanged, the current entry updated in place, or the first equal value removed. |
| Transcribe.AttachTranscripts | generate_transcripts.py:187-198 | The corrected loop never grows the list. |
| Transcribe.KeptPrefixMembers | generate_transcripts.py:187-198 | After n steps every kept entry is either transcribed or one of the first n inputs. |
| Transcribe.KeptSplit | generate_transcripts.py:187-198 | The corrected result is the kept part of any prefix followed by the result on the rest. |
| Transcribe.RemoveDropsVisited | generate_transcripts.py:197 | When no earlier entry equals the visited one, `remove` drops exactly the entry just appended. |
| Transcribe.AsWrittenIsKeptPrefix | generate_transcripts.py:187-198 | With pairwise distinct, untranscribed entries, each step of the loop as written equals the corrected kept prefix. |
| Transcribe.DistinctEntriesAsWrittenIsCorrect | generate_transcripts.py:187-198 | With pairwise distinct, untranscribed entries the loop as written computes the corrected result, whatever the outcomes. |
| Transcribe.DuplicateEntriesReordered | generate_transcripts.py:187-198 | Entries [A, B, A] (A not downloaded, B transcribed, the second A untranscribed): as written gives [B', A]; corrected gives [A, B']. |
| Transcribe.KeptSurvives | generate_transcripts.py:187-198 | Whatever an entry leaves behind (itself, or itself with its transcript) is in the result. |
| Transcribe.AttachTranscriptsSpec | generate_transcripts.py:188-198 | An entry not downloaded is kept as is. A transcribed one is kept with its transcript. |
| Transcribe.AttachTranscriptsOnlyKept | generate_transcripts.py:188-198 | Nothing else is in the result: every survivor is what some entry left behind, and an entry whose transcription returned None leaves nothing. |
| Transcribe.AttachKeepsShape | generate_transcripts.py:187-198 | Every surviving entry has the seven database keys plus at most `transcript`. |
| Transcribe.AsWrittenMembers | generate_transcripts.py:187-198 | Every entry the loop as written leaves is an entry it visited, as it was or with its transcript: nothing is invented. |
| Transcribe.AsWrittenKeepsShape | generate_transcripts.py:187-198 | Every entry the loop as written leaves has the seven database keys plus at most `transcript`. |
| Transcribe.StepPermutes | generate_transcripts.py:187-198 | One visit of the loop as written adds to the list's contents exactly what the corrected loop keeps for that entry: itself, itself with its transcript, or nothing. |
| Transcribe.AsWrittenPermutesCorrected | generate_transcripts.py:187-198 | For all entries and outcomes, the loop as written leaves the corrected result up to order: the same entries, as often, with the same transcripts. |
| Transcribe.AsWrittenRemovesFront | generate_transcripts.py:197 | When the untranscribed entry's value heads the visited part, `remove` drops that head rather than the entry just visited. |
| Transcribe.Reordered | generate_transcripts.py:187-198 | For any entries A and B, [A, B, A] visited as not downloaded, transcribed, untranscribed gives [B with its transcript, A] as written and [A, B with its transcript] corrected. |
| Transcribe.TranscribePodAsWritten | generate_transcripts.py:145-198 | One channel as written (projection, then the loop with `remove` by value): same channel dict, every survivor database-shaped, and the surviving entries are exactly the corrected channel's, as often and with the same transcripts, up to order. |
| Transcribe.ProcessPodsAsWritten | generate_transcripts.py:131-211 | `process_pods` as written, defined when every channel's links can be iterated: one pod per input pod, same channel, never more entries, every survivor database-shaped, and each channel's survivors are the corrected stage's up to order. |
| Transcribe.ReadableAsWrittenIsReadable | generate_transcripts.py:63-65 | Every input the stage as written accepts, the corrected stage accepts too. |
| Transcribe.ProcessPodsAsWrittenAgrees | generate_transcripts.py:131-211 | When no channel holds two episodes with equal projections, `process_pods` as written computes the corrected stage. |
| Transcribe.TranscribePodCorrected | generate_transcripts.py:145-198 | Corrected channel (absent links read as empty, the visited entry dropped on its own): same channel dict, never more entries, every survivor database-shaped. |
| Transcribe.ProcessPodsCorrected | generate_transcripts.py:131-211 | Corrected `process_pods`: one pod per input pod, same channel, never more entries, every survivor database-shaped. |
| Summarize.FormatLabel | generate_summaries.py:49-52 | The style key maps to the word in the prompt. Any other value passes through unchanged. |
| Summarize.ConstructPrompt | generate_summaries.py:28-63 | Defined by its body; `Summarize.PromptShape` and `Summarize.StylesGiveDifferentPrompts` state that the prompt opens with the show headline, closes with the transcript, and differs between the two styles. |
| Summarize.PromptShape | generate_summaries.py:54-63 | The prompt begins with the show headline and ends with the transcript text. |
| Summarize.StylesGiveDifferentPrompts | generate_summaries.py:49-63 | The paragraph and bullet prompts for the same episode differ. |
| Summarize.TruncDiv | generate_summaries.py:96 | `int()` of the float quotient: the floor for a positive divisor, never positive for a negative one. |
| Summarize.SleepSeconds | generate_summaries.py:95-96 | No value (division by zero) exactly when tokens or TPM are zero. Otherwise it is one less than the whole minutes' share the call used. |
| Summarize.SleepExamples | generate_summaries.py:96 | 30 tokens at 60 TPM sleep 29 s; 60 at 60 sleep 59 s; 1000 at 100000 give -1. |
| Summarize.SleepNegativeIff | generate_summaries.py:96 | The sleep is negative exactly when the call used less than a second's share of the budget, and then it is -1. |
| Summarize.AskByPromptSendsThePrompt | generate_summaries.py:134-139 | For an entry whose fields render, the prompt-keyed client is asked exactly the prompt `construct_prompt` builds. |
| Summarize.SummarizeEntry | generate_summaries.py:85-108 | As written, given the model's reply, the entry counts as summarised exactly when the call returns and `time.sleep` accepts the value. The summary is stored as soon as the call returns; with no reply the entry is unchanged. |
| Summarize.ClampedSleep | generate_summaries.py:96-98 | Agrees with the source's sleep whenever that one is accepted, and is never negative. |
| Summarize.SummarizeEntryClamped | generate_summaries.py:85-108 | Corrected: summarised exactly when the call returns, and then the summary is stored. A failed call leaves the entry unchanged. |
| Summarize.ClampedAgreesWhenSleepAccepted | generate_summaries.py:93-104 | Whenever the source succeeds, the corrected call gives the same entry. Whenever the corrected call fails, the source fails too. |
| Summarize.ShortCompletionIsDropped | generate_summaries.py:93-104 | A 1000-token completion at TPM 100000 is stored yet reported as failed. The corrected call succeeds. |
| Summarize.SummarizeKeepsReady | generate_summaries.py:93-94 | Storing a summary keeps the entry printable into a prompt. |
| Summarize.PassAsWritten | generate_summaries.py:128-148 | The pass as written, with `remove` inside the iteration, never grows the list. |
| Summarize.RemovalSkipsNextEntry | generate_summaries.py:128-148 | Channel [a, b] with a's call failing: as written gives [b] with no summary. The corrected pass gives [b with its summary]. |
| Summarize.Pass | generate_summaries.py:128-148 | Corrected pass: never grows the list, and every survivor holds the style's summary. |
| Summarize.PassKeepsSuccesses | generate_summaries.py:139-144 | Every entry whose call succeeds is in the pass's result, summarised. |
| Summarize.PassKeepsOnlySuccesses | generate_summaries.py:139-144 | Nothing else is in the result: every survivor is an input entry whose summary arrived, carrying that summary. |
| Summarize.PassKeepsReady | generate_summaries.py:128-148 | When every entry could be put into a prompt, every survivor still can, so the second pass can render them. |
| Summarize.PassKeepsKey | generate_summaries.py:179-180 | A key every entry already had survives the pass, so the bullet pass keeps the paragraph summaries. |
| Summarize.PassAsWrittenAgrees | generate_summaries.py:128-148 | When no call fails from position i on, the pass as written equals the corrected pass there. |
| Summarize.SummarizeExtends | generate_summaries.py:93-94 | Whatever the call returns, the entry it leaves is the input entry with at most the style's key written. |
| Summarize.PassAsWrittenSurvivors | generate_summaries.py:128-148 | Every entry the pass as written leaves is one of its input entries with at most the style's key written. Nothing is invented and no other field changes. |
| Summarize.PassAsWrittenKeepsKey | generate_summaries.py:128-148 | A key every entry had survives the pass as written. |
| Summarize.FailureSkipsNext | generate_summaries.py:129-144 | When the call at the iterator's position fails and no earlier entry equals what it left, `remove` deletes that position. The loop goes on one position further in the shortened list, so the following entry is never visited. |
| Summarize.SummarizePodAsWritten | generate_summaries.py:128-148 | One channel as written: same channel dict, never more entries, each survivor an input entry with at most the style's key written. |
| Summarize.ProcessPodcastsAsWritten | generate_summaries.py:112-156 | `process_podcasts` as written: one pod per input pod, same channel, never more entries, each survivor an input entry of its channel with at most the style's key written. |
| Summarize.GenerateSummariesAsWritten | generate_summaries.py:173-183 | Both passes as written: one pod per loaded pod, same channel, never more entries, each survivor a loaded entry with at most the two summary keys written. |
| Summarize.GenerateAsWrittenKeepsKey | generate_summaries.py:179-180 | A key every loaded entry had is on every entry both passes as written leave. |
| Summarize.SummarizePodCorrected | generate_summaries.py:128-148 | Corrected channel pass: same channel dict, never more entries, all summarised, still promptable when the input was. |
| Summarize.ProcessPodcastsCorrected | generate_summaries.py:112-156 | Corrected `process_podcasts`: one pod per input, same channel, never more entries, all with the style's summary. |
| Summarize.ProcessCorrectedKeepsKey | generate_summaries.py:179-180 | A key every entry had is still on every entry after a whole corrected pass over the channels. |
| Summarize.GenerateSummariesCorrected | generate_summaries.py:173-183 | Corrected `generate_summaries`: each channel is kept, never gains entries, and every entry has both summaries. |
| Summarize.ProcessAsWrittenAgrees | generate_summaries.py:112-156 | When every summary call succeeds, one pass as written equals the corrected pass. |
| Summarize.GenerateAsWrittenAgrees | generate_summaries.py:173-183 | When every summary call succeeds, `generate_summaries` as written equals the corrected stage. |
| Persist.BuildUrl | update_db.py:28-53 | Defined by its body; `Persist.BuildUrlInjective` and `Persist.SecretIsPathSegment` state its properties. |
| Persist.BuildUrlInjective | update_db.py:48-53 | Distinct tables get distinct URLs. |
| Persist.SecretIsPathSegment | update_db.py:48-53 | The secret is a path segment between base and table. The URL always starts with the base. |
| Persist.PostDataForEntry | update_db.py:76-101 | The entry POST goes first, to the `entries` URL, with the entry payload. A second POST follows exactly when the response is 201 and both summaries are present. It goes to `summaries` with the new id. |
| Persist.PostEntries | update_db.py:132-135 | Each entry sends one or two POSTs. A failed entry does not stop the next. |
| Persist.PostDataToServer | update_db.py:122-135 | A first channel without an id sends nothing at all. |
| Persist.PostEntriesAppend | update_db.py:132-135 | The POSTs for a list of entries are the POSTs for each part, in order. |
| Persist.EveryEntryIsPosted | update_db.py:132-135 | Every entry of a channel gets its entry POST, whatever happened to earlier ones. |
| Persist.OnlyEntriesAndSummaries | update_db.py:76-93 | Every POST of a channel goes to the `entries` or the `summaries` table. |
| Persist.NoTranscriptPosted | update_db.py:95-101 | No POST ever goes to the `transcripts` table. |
| Persist.MissingIdStopsLaterChannels | update_db.py:126-130 | Once a channel without an id is reached, the POSTs are exactly those of the channels before it. |
| Persist.PostDataToServerCons | update_db.py:123-135 | A channel with an id contributes its entries' POSTs, followed by those of the channels after it. |
| Persist.PostDataToServerAppend | update_db.py:123-135 | While every channel has an id, the POSTs of a channel list are those of each channel, in order. |
| Pipeline.MirrorTouchesOnlyItsFile | helpers/json_helpers.py:38-42 | Writing a JSON mirror changes no other file. |
| Pipeline.SaveResults | generate_transcripts.py:214-224 | After a successful pickle save the snapshot loads back as the saved pods. A failed one leaves the previous snapshot for the next stage. |
| Pipeline.GetEntries | get_entries.py:207-223 | Reports True exactly when some channel has new entries. False changes no file. True with a good pickle save leaves the new-entries snapshot loadable. |
| Pipeline.TranscribeStage | generate_transcripts.py:228-239 | With the loop as written, the saved snapshot has one pod per loaded pod, same channels, all survivors database-shaped. |
| Pipeline.SummarizeStage | generate_summaries.py:173-183 | With the passes as written, the saved snapshot has one pod per loaded pod, same channels, never more entries, and each entry is a loaded entry with at most the two summaries written. |
| Pipeline.UpdateDbStage | update_db.py:139-149 | Posting the loaded snapshot never touches the transcripts table. |
| Pipeline.PipelineHandoff | main.py:17-31 | With no I/O fault, each stage loads exactly what the previous one saved. The run posts the as-written stages' composition applied to the new entries. |
| Pipeline.StagesAgreeWhenNothingFails | main.py:21-27 | With no two equal projected episodes in a channel and no failing summary call, the transcribe and summary stages as written compute the corrected stages, and every surviving entry has both summaries. |
| Pipeline.NothingNewChangesNothing | main.py:18-35 | With no new entry anywhere the run reports False and changes no file. |
| Pipeline.LatestEntryUrlExtendsBuildUrl | get_entries.py:46-49 | The latest-entry URL is the `entries` URL of `build_url` followed by `latest-entry/<id>/`. |
| Pipeline.ChannelsUrlExtendsBuildUrl | get_entries.py:79-82 | The channel-list URL is the `channels` URL of `build_url` followed by `limited-fields/`. |
| Pipeline.ResyncStopsAtPostedEntry | get_entries.py:149-184 | Once an episode is posted and reported back as the latest, the next run stops scanning at that episode. No duplicate is posted. |

## Where the code and its own docstrings differ

The model follows the code in each case.

- `post_data_for_entry`'s docstring (`update_db.py:58-73`) lists three POSTs,
  the third to the transcripts table, and says a failure returns early. The
  transcript POST is commented out (`update_db.py:95-101`), and the `return`
  leaves only `post_data_for_entry`, so the caller goes on with the next
  entry. See `Persist.NoTranscriptPosted` and `Persist.EveryEntryIsPosted`.
- `post_data_to_server`'s docstring (`update_db.py:118-119`) says it posts
  the entries of all channels. The `return` at `update_db.py:130` ends the
  whole stage at the first channel without an id. See
  `Persist.MissingIdStopsLaterChannels`.
- `process_podcasts`'s docstring (`generate_summaries.py:121-122`) promises
  both summary keys on every entry. As written, an entry following a removed
  one is never summarised, and an entry whose wait is negative is dropped
  although its summary arrived. So `Pipeline.SummarizeStage` states only
  that each entry comes from a loaded one (see Findings).
- `generate_and_attach_transcripts`'s docstring
  (`generate_transcripts.py:173-174`) says an entry is removed when transcript
  generation fails. The code removes it only when the transcription returns
  None. An episode without an audio link, or whose download fails, is kept
  unchanged: there is no `else` after `if download_mp3(...)` at
  `generate_transcripts.py:188`. See `Transcribe.AttachTranscriptsSpec`.

## Left out

- Network, Whisper, the language model and `feedparser` are oracles (function
  parameters). Each one is pure and deterministic: the same request gets the
  same answer within one run. The download and transcript oracles are keyed
  by channel index, entry index and URL.
- `get_channels` and `get_latest_entry` status-code branches (200, 404, other,
  `RequestException`) are folded into their oracles' `None`/`Some` answer. The
  URLs they build are modelled.
- `post_request` returning an unbound `response` when `requests.post` itself
  raises is not modelled. The POST oracle always answers.
- `Persist.PostDataForEntry`: `new_entry.json()['id']` is abstracted into the
  response's `id` field. A 201 response without an `id` is not modelled.
- The `time.sleep` delay itself is not modelled. Only whether `time.sleep`
  accepts the computed value is.
- `Summarize.SleepSeconds`: the float arithmetic of `60.0 / (TPM * 1.0 / tokens)`
  is modelled as exact rational division followed by truncation. Float
  rounding at exact multiples is not modelled.
- `Times.ParseDbTime`: CPython's `strptime` matches case-insensitively and
  also accepts single-digit fields (`2024-1-5T8:0:0Z`), a space-padded day
  (`2024-01- 5T08:00:00Z`) and a lower-case `t` or `z`. The model parses only
  the zero-padded, upper-case form the backend stores and gives None for the
  other spellings.
- `Summarize.PromptShape`, `Summarize.StylesGiveDifferentPrompts`: f-strings are
  modelled for scalar values only (None, bool, int, str). Episodes whose title,
  summary or transcript text is a list, a dict or a `struct_time` are excluded
  by `requires`, not rendered. `Summarize.PromptFor` gives such an episode the
  empty prompt instead of the f-string's rendering.
- `Summarize.Pass` and the other pass members: the language model is any
  oracle from (channel, entry, style) to a completion. The source's client,
  which sees only the prompt text, is the instance `Summarize.AskByPrompt`, so
  every property of the passes holds for it too.
- `construct_prompt` never returns None, so the `else` branch at
  `generate_summaries.py:146-148` is dead and is not modelled.
- `Pipeline.TranscribeStage`, `Pipeline.SummarizeStage`: the checkpoint saves
  after every channel (`generate_transcripts.py:206`, `generate_summaries.py:150`)
  are not modelled. Only the final save is, which overwrites them with the same
  data.
- `Summarize.PassAsWritten`: its contract bounds only the length. What
  survives is stated by `Summarize.PassAsWrittenSurvivors`. Its behaviour is
  pinned by `Summarize.FailureSkipsNext`, `Summarize.RemovalSkipsNextEntry`
  and `Summarize.PassAsWrittenAgrees`.
- `Pipeline.SummarizeStage`, `Summarize.GenerateSummariesAsWritten`: they do
  not promise that every entry carries both summaries, because the passes as
  written do not keep that promise (see Findings). It holds when every summary
  call succeeds (`Summarize.GenerateAsWrittenAgrees`).
- The members named `…Corrected` (`Transcribe.TranscribePodCorrected`,
  `Transcribe.ProcessPodsCorrected`, `Summarize.SummarizePodCorrected`,
  `Summarize.ProcessPodcastsCorrected`, `Summarize.GenerateSummariesCorrected`)
  are the evidently intended stages, not what runs. The stages `main` runs are
  the `…AsWritten` ones.
- `Transcribe.AsWritten`: its contract bounds only the length. Its contents are
  stated by `Transcribe.AsWrittenPermutesCorrected` (the corrected result up to
  order), and its order by `Transcribe.DistinctEntriesAsWrittenIsCorrect` and
  `Transcribe.DuplicateEntriesReordered`.
- `entry_to_db_format`'s `except` branch returning None cannot be reached for
  a dict entry and is not modelled.
- Pickle and JSON encodings are abstract. A file holds the pods it was written
  with, or a marker for a partial write. `indent`, `ensure_ascii` and the
  encoding are not modelled.
- Python's cross-type equality (`1 == True`, `1 == 1.0`) is not modelled:
  `Value` equality is structural.
- Logging, configuration constants, environment variables,
  `helpers/setup_logging.py` and `test.py` are not part of this model.
- `main` is modelled through its stage functions and two lemmas. A run in
  which a stage's file I/O fails midway is covered per stage (`SaveResults`,
  `SaveToPickle`), not end to end.

## Findings

| source | as written | input that shows it | evidently intended | confidence | as-written member | corrected member |
|---|---|---|---|---|---|---|
| generate_summaries.py:129-148 | `entries.remove(entry)` inside `for entry in entries` shifts the list under the iterator, so the entry after a removed one is never summarised but stays in the list | channel with entries [a, b] where a's call fails and b's succeeds | every entry is visited; failures are dropped, successes kept with their summary | high, not executed | Summarize.PassAsWritten, Summarize.RemovalSkipsNextEntry, Summarize.FailureSkipsNext | Summarize.Pass, Summarize.PassAsWrittenAgrees, Summarize.GenerateSummariesCorrected |
| generate_summaries.py:96 | `int(60.0 / (TPM / tokens)) - 1` is -1 when a call uses under a second's share of the budget; `time.sleep(-1)` raises `ValueError`, which is caught, so the entry is dropped although its summary was stored | TPM 100000, a completion of 1000 tokens | a short call needs no wait: sleep 0 and keep the entry | high, not executed | Summarize.SummarizeEntry, Summarize.ShortCompletionIsDropped | Summarize.SummarizeEntryClamped, Summarize.ClampedAgreesWhenSleepAccepted |
| generate_transcripts.py:187-198 | `entries.remove(entry)` removes the first EQUAL dict, which need not be the one being visited; with equal-valued episodes the survivors come out reordered | entries [A, B, A]: first A has no download, B is transcribed, second A's transcription fails | the visited entry is the one removed; survivors keep feed order | low, not executed | Transcribe.AttachTranscriptsAsWritten, Transcribe.DuplicateEntriesReordered, Transcribe.AsWrittenPermutesCorrected | Transcribe.AttachTranscripts, Transcribe.DistinctEntriesAsWrittenIsCorrect, Transcribe.ProcessPodsCorrected |
| generate_transcripts.py:42 | the projection stores `links: None` for an episode without links; `entry.get('links', [])` at line 65 then returns None and iterating it raises an uncaught `TypeError` that ends the stage | a feed entry without a `links` key | an episode without links has no MP3 and is kept untranscribed | medium, not executed | Transcribe.LinksAsWritten, Transcribe.MissingLinksRaise, Transcribe.ProcessPodsAsWritten | Transcribe.LinksOrEmpty, Transcribe.VisitSpec, Transcribe.ProcessPodsCorrected |
