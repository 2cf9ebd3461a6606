# Verified model of Samantha's batch, queue, speaker, meeting and editor logic

Samantha is a voice agent. This project models, in Dafny, those of its parts that are
state machines or sequence algorithms, and proves what each of them promises over every
input and every run.

- **Batch narration.** `Utf8` and `GoStrings` decode Go strings as RFC 3629 does and give
  `TrimSpace`, `Fields`, `Split` and `Join` their meaning through `Content`, the bytes of
  the visible runes in order. `Segment`, `Paragraphs`, `Packing` and `Plan` are text
  segmentation and the speech/silence plan; `ResumeKey` and `LabelledFields` are the fingerprint and the key that
  make skipping sound; `UnitNames`, `Units`, `UnitOutcomes` and `SingleFile` are the two renders
  with resume, over whole histories of partial, failed and cancelled runs; `Prepare` is the
  resume of a saved narration plan.
- **Queues.** `Transcript` is the non-blocking writer that rebuilds a full channel;
  `StreamHub` is the WebSocket hub with the audio cancellation barrier. Goroutines are
  interleaved steps: one step for each lock region and each unlocked channel operation.
- **Speakers.** `Timeline` merges late results, `SparseLabels` collapses sparse labels,
  `LiveFeed` cuts a chunked stream into windows, `LazyLive` builds an engine in the
  background while it may be closed, `Embeddings` and `Enrollment` are the profile store.
- **Meetings.** `IndexCache` is the parse cache over append-only event streams,
  `RouteSweep` the bounded retries, `Json` and `JsonPayload` the search for a JSON value in
  a command's output.
- **Editor.** `EditorBuffer` is the composer's buffer with its bounded undo history.

Code that changes state in place is a class or a loop whose contract equates the new state
with a function of the old one; what the program promises is then proved about that
function, over single steps and over all runs. SHA-256 is taken to be injective, so a
digest is the text it was taken from. A synthesizer is a function of its identity, the
voice, the speed and the text; duration parsing and Unicode lower-casing are parameters of
a `World` fixed over a history. File operations succeed or fail as a parameter says.

What turned out different from the program's own comments:

- `resumeKey` says that distinct field boundaries cannot collide. They can when a field
  holds a NUL byte: `NulInVoiceCollides` gives two renders that differ and share a key.
  `KeyExact` proves when labelled fields can be misread: exactly when one holds its own or
  the next label behind a NUL. That no option holds a NUL is sufficient, and it is what the
  histories of renders assume.
- A cap below four bytes breaks runes (`ValidityNeedsFourBytes`).
- After a failed write in a single-file render, the old manifest still vouches for the
  file. `FailedWriteExact` says when this is harmless.
- A narration run that returns early has rewritten files the saved plan still describes.
  `AbortExact` says when the plan stays true.
- An audio reset does not cover a client that opts in to audio before the resume
  (`LeakExact`, `LateOptInLeaks`).
- A hit in the index cache can be newer than the reader's stat and older than the stream
  (`HitMayBeInBetween`); it is never older than the stat, and always current exactly when
  nothing is appended between stat and lookup (`HitExact`).
- `routeStatus` and the sweep disagree for an unlabelled plan, and when the last session
  end does not parse but an earlier one does (`AgreementExact`).
- A byte-order mark with nothing else in front of an array lets what follows the array
  through (`PayloadExact`, `BomAloneKeepsTail`).
- Live windowing depends on chunk boundaries when the hop exceeds the window; the live feed
  never sets it up that way (`ChunkingIrrelevantExact`, `SetupOverlaps`).
- Enrolling and removing a profile are not rolled back when the save fails
  (`AddExact`, `RemoveExact`), and a storage key can look like an anonymous label
  (`SlugLooksAnonymous`).
- Section ids that differ can share one prepared file; a saved plan stays true in every
  call exactly when none do (`CollisionExact`).
- Sweeps that overlap, such as the one at start-up and the one on the command line, can
  deliver more often than three times, and after a delivery; `RetriesExact` gives the
  exact bound.

## Model

| member | source | states |
|---|---|---|
| Utf8.CutAtBoundary | internal/render/text.go:269-285 | cutting a string between two runes loses no visible byte, in ill-formed text too |
| Utf8.CutValid | internal/render/text.go:269-285 | both halves of valid UTF-8 cut between runes are valid |
| Utf8.RuneStartIsBoundary | internal/render/text.go:275-278 | a byte that starts a rune is a rune boundary, which is what backing up to `utf8.RuneStart` relies on |
| GoStrings.NormalizeKeeps | internal/render/text.go:261-263 | normalising white space keeps every visible byte in order, stays valid, and is empty exactly for blank text |
| GoStrings.NormalizeIdempotent | internal/render/text.go:261-263 | normalising twice is normalising once |
| GoStrings.NormalizeOneLine | internal/render/text.go:261-263 | normalised text has no newline |
| GoStrings.FieldsOfJoin | internal/render/text.go:261-263 | `Fields` inverts a single-space join of words |
| GoStrings.LinesKeep | internal/render/text.go:237-259 | splitting on newlines keeps the visible bytes and validity |
| Segment.SplitParagraphs | internal/render/text.go:237-259 | the loop computes the blank-line paragraphs of the text |
| Segment.ParasKeep | internal/render/text.go:237-263 | the normalised paragraphs are non-empty single lines holding all visible bytes of the text in order |
| Paragraphs.ParagraphsAreRuns | internal/render/text.go:237-259 | the paragraphs are, in order, the maximal runs of visible lines, each joined by one space |
| Paragraphs.RunsTogether | internal/render/text.go:237-259 | two visible lines fall in one paragraph if and only if no blank line stands between them |
| Segment.LastSentenceBreak | internal/render/text.go:294-302 | the last offset where a space follows `.`, `!` or `?`, or -1: no later offset qualifies |
| Segment.FindCut | internal/render/text.go:267-290 | the cut of an over-long paragraph: the last sentence break, else the last rune start, else the cap |
| Segment.CutPrefers | internal/render/text.go:267-290 | the cut is behind the last sentence that ends below the cap, else at the last rune start up to the cap, else at the cap |
| Segment.CutKeeps | internal/render/text.go:267-290 | wherever the cut falls, no visible byte is lost and both sides stay valid from four bytes up |
| Segment.SplitLong | internal/render/text.go:267-290 | the loop terminates, its remainder strictly shrinking, with the specified chunks |
| Segment.LongSplitKeeps | internal/render/text.go:267-290 | the chunks of a long paragraph hold all its visible bytes, each non-empty and within the cap |
| Segment.AddParagraph | internal/render/text.go:215-232 | one turn of the packing loop: what it emits and what it goes on collecting |
| Segment.SegmentText | internal/render/text.go:201-235 | the method computes the specified segments for every text and every cap, the default for caps up to zero |
| Segment.SegmentsKeepContent | internal/render/text.go:201-302 | segmentation loses and invents no visible byte, for every byte string and every cap |
| Segment.SegmentsFit | internal/render/text.go:201-302 | every segment is non-empty and at most the cap |
| Segment.SegmentsValid | internal/render/text.go:201-302 | segments of valid UTF-8 are valid when the cap is at least four bytes |
| Segment.SmallCapBreaksRunes | internal/render/text.go:275-281 | a cap below four bytes cuts a four-byte rune apart |
| Segment.ValidityNeedsFourBytes | internal/render/text.go:201-302 | all segments of all valid texts are valid if and only if the effective cap is at least four |
| Packing.SegmentsAreGroups | internal/render/text.go:215-234 | when every paragraph fits, the segments are the newline-joined groups of an in-order grouping |
| Packing.SegmentsAreFewest | internal/render/text.go:215-234 | no in-order grouping within the cap has fewer groups than there are segments |
| Packing.FullerBuffer | internal/render/text.go:215-234 | the exchange argument: a fuller buffer never saves a group and costs at most one |
| Packing.CountIsLeast | internal/render/text.go:215-234 | the greedy count is at most the size of any fitting grouping |
| Plan.PlanSpeechSpans | internal/render/plan.go:29-36 | one speech span for each segment, in order |
| Plan.FirstNonEmptyParaIndex | internal/render/plan.go:101-108 | the first paragraph that normalises to something, zero if none does |
| Plan.IsLastPara | internal/render/plan.go:75-81 | no later paragraph normalises to something |
| Plan.GapAfter | internal/render/plan.go:82-93 | the pause after a paragraph: heading pause after the first of a unit, paragraph pause after others, none after the last |
| Plan.ParagraphsNotEmpty | internal/render/plan.go:63-71 | no paragraph normalises to nothing, so the skips in the planning loop never happen |
| Plan.PlanParagraphs | internal/render/plan.go:59-98 | the nested loops build the paused plan of the paragraphs |
| Plan.PlanWithPauses | internal/render/plan.go:50-99 | the plan of a text in either mode, which depends on the normalised paragraphs only |
| Plan.PlanSays | internal/render/plan.go:50-99 | a plan speaks exactly the visible text and pauses exactly once between paragraphs |
| Plan.PausedPauses | internal/render/plan.go:50-99 | the pauses of a paused plan in order: the heading pause after the first paragraph of a unit when there is one, then the paragraph pause after each but the last |
| Plan.PauseSamples | internal/render/plan.go:198-207 | a pause is all zeros, as many as its duration and the rate allow |
| Plan.PlanIsUseful | internal/render/plan.go:50-99 | every span speaks something or is silent for a positive time, and a non-empty plan starts with speech |
| Plan.SynthSpans | internal/render/plan.go:114-172 | assembly is the fold over the spans, and fails when some span of the plan fails |
| Plan.PlanSounds | internal/render/plan.go:114-172 | a planned text assembles to its spans one after the other, with silence at the rate of the first segment, if that rate is positive |
| ResumeKey.ResumeTextFingerprint | internal/render/resume.go:73-79 | the in-place loop computes the blank-line join of the normalised paragraphs |
| ResumeKey.FingerprintExact | internal/render/resume.go:73-79 | two texts have one fingerprint if and only if their normalised paragraphs are equal |
| ResumeKey.FingerprintIsNormalForm | internal/render/resume.go:73-79 | read as a text, a fingerprint has the same paragraphs and the same fingerprint |
| ResumeKey.FingerprintFixesPlan | internal/render/resume.go:73-79 | texts of one fingerprint have identical span plans under any settings, in either mode |
| ResumeKey.PausesOfOptions | internal/render/plan.go:50-99 | which option supplies which pause: the heading option after the first paragraph of a unit, the paragraph option after the others |
| ResumeKey.ComputeResumeKey | internal/render/resume.go:44-64 | the hash is fed the fields, each followed by one NUL |
| ResumeKey.HashInputInjective | internal/render/resume.go:44-64 | without NULs in front of the last field, the hash input determines every field |
| ResumeKey.SeparatorExact | internal/render/resume.go:41-64 | a list of fields, of any contents, shares its hash input with no other list of its length if and only if no field holds a NUL |
| ResumeKey.NulInVoiceCollides | internal/render/resume.go:41-64 | two renders of different voice and speed that share a key, because the voice holds a NUL |
| ResumeKey.AtoiOfItoa | internal/render/resume.go:53-53 | decimal digits are read back as the number, so the cap in the key is recovered |
| ResumeKey.KeyFixesInputs | internal/render/resume.go:44-64 | equal keys mean equal fields and equal fingerprints |
| ResumeKey.KeyFixesAudio | internal/render/resume.go:37-64 | equal keys denote equal audio and equal output paths |
| LabelledFields.LabelledExact | internal/render/resume.go:41-64 | fields that start with labels of their own share their hash input with no other list so labelled if and only if no field holds its own label (the first field aside) or the next label behind a NUL |
| LabelledFields.KeyExact | internal/render/resume.go:44-64 | the same for the twelve labelled fields of every resume key |
| LabelledFields.GuardedKeyFixesInputs | internal/render/resume.go:37-64 | a request whose fields meet that condition is told by its key from every other request, whatever NULs the other holds |
| LabelledFields.LagsNever | internal/render/resume.go:60-63 | the exchange argument: a reading that is one field late needs a label behind a NUL somewhere |
| UnitNames.SlugifyShape | internal/render/units.go:191-199 | a slug has only `[a-z0-9-]`, at most forty bytes, and no dash at either end |
| UnitNames.SlugOfWords | internal/render/units.go:191-199 | a slug is the words of the lower-cased text with one dash between them, or the first forty bytes of that without a dash at their end |
| UnitNames.NamesDistinct | internal/render/units.go:174-183 | file names of distinct indices are distinct, whatever the titles and ids |
| UnitNames.NameIsClear | internal/render/units.go:174-183 | no file name is empty or holds a NUL |
| Units.OutputDir.RenderUnit | internal/render/units.go:104-149 | one unit: skipped, empty, failed in synthesis or write, or written, with its manifest entry and the files |
| Units.BuildPrior | internal/render/units.go:44-50 | prior entries by output, a later one replacing an earlier |
| Units.CountSpeech | internal/render/units.go:119-124 | the count of spans worth speaking is what assembly would count |
| Units.OutputDir.RenderAll | internal/render/units.go:56-84 | the loop over the units up to a cancellation: entries, rate, failures and files |
| Units.OutputDir.RenderUnits | internal/render/units.go:33-98 | the whole run: outcome, returned manifest and files |
| UnitOutcomes.UnitsEnd | internal/render/units.go:33-149 | entry by entry, from texts, disk and faults: Failed if and only if not reusable, visible, and hurt by a fault; without output if and only if not reusable and blank; failures counts the Failed entries |
| UnitOutcomes.RateKept | internal/render/units.go:51-97 | the sample rate of the manifest is that of the first unit rendered anew that has one, else the saved one |
| Units.OneUnitRight | internal/render/units.go:104-149 | a unit done or skipped leaves its fresh audio at its path, and no other path changes |
| Units.RunRight | internal/render/units.go:33-98 | so do all units of a run, together, however it ends |
| Units.ActKeepsFaithful | internal/render/units.go:33-149 | any run, failed or cancelled, and any deletion keep every keyed entry truthful about its file |
| Units.HistoryKeepsFaithful | internal/render/units.go:33-149 | so does any history of them with changing texts and settings, if each manifest is saved |
| Units.ResumeIsTransparent | internal/render/units.go:33-149 | after any such history, what a run reports as completed or skipped with an output is on disk as a fresh run would write it |
| Units.ResumeIsIdle | internal/render/units.go:104-149 | resuming a run that went through writes nothing and repeats its entries as skipped, whatever would fail |
| SingleFile.Output.RenderText | internal/render/text.go:57-146 | one text into one file: no output, no text, skipped, failed, or written, with the manifest |
| SingleFile.TextEnds | internal/render/text.go:57-146 | how a render ends, from the request and the disk: each failure if and only if its cause holds, the fresh audio or the file that was there, rows that say the whole text, and no other file touched |
| SingleFile.SegmentForOutput | internal/render/text.go:149-156 | the first row of the output |
| SingleFile.BuildRows | internal/render/text.go:96-110 | one row for each span that speaks |
| SingleFile.SpreadDuration | internal/render/text.go:111-121 | the in-place division of the total over the rows |
| SingleFile.DurationsAddUp | internal/render/text.go:111-121 | the row durations add up to the file's, and all but the last are equal |
| SingleFile.SkipAll | internal/render/text.go:162-188 | a skipped render carries all rows through, marked skipped, and sums their durations |
| SingleFile.SkipRepeats | internal/render/text.go:158-188 | a resume of what was just rendered reports the same rows, rate and duration and writes nothing |
| SingleFile.RenderKeepsFaithful | internal/render/text.go:57-146 | a render keeps the saved rows truthful if its write does not fail, leaves no file, or no saved row names the output |
| SingleFile.FailedWriteExact | cmd/samantha/cmd/render_real.go:67-72 | a failed write is harmless whatever it leaves behind if and only if no saved row names the output |
| SingleFile.TextHistoryFaithful | internal/render/text.go:57-146 | over any history of harmless renders and deletions the saved rows stay truthful |
| SingleFile.TextResumeIsTransparent | internal/render/text.go:72-83 | after such a history a render that goes through, skipped or not, leaves what a fresh one would write |
| Prepare.Workspace.PrepareSection | internal/narrate/prepare.go:105-160 | one section: skipped, failed with the identities cleared from there on, or written and recorded |
| Prepare.Workspace.Run | internal/narrate/prepare.go:101-166 | the whole run: the saved plan and files, or an early return that saves nothing |
| Prepare.SectionAfter | internal/narrate/prepare.go:101-161 | while nothing fails, a section's record and file depend on the call and the disk it found, not on other sections |
| Prepare.PreparedAgainExact | internal/narrate/prepare.go:86-141 | a section is left as it is if and only if resume asks for it, the text and prompts are those recorded, its file is there, and provider and model are recorded and not the pass-through; any other passed is prepared again |
| Prepare.StopsExact | internal/narrate/prepare.go:86-141 | the loop stops at a section if and only if it must be prepared and the transform fails |
| Prepare.FileNameOf | internal/narrate/prepare.go:222-233 | a file name keeps letters, digits, dashes and underscores in their places, has a dash for anything else, and drops those at either end |
| Prepare.SaveKeepsTruthful | internal/narrate/prepare.go:79-166 | a saving run keeps every recorded section truthful about its file, whatever it skipped and wherever it failed |
| Prepare.NeverSkipsStale | internal/narrate/prepare.go:118-130 | a skipped section's file was made from the current text and prompts by the recorded provider and model |
| Prepare.SucceededIsCurrent | internal/narrate/prepare.go:101-161 | a section the loop has passed has a file made from its current text and the current prompts |
| Prepare.HistoryTruthful | internal/narrate/prepare.go:79-166 | the saved plan is truthful over any history of saving runs, re-extractions and deletions |
| Prepare.AbortExact | internal/narrate/prepare.go:101-104 | an early return keeps the plan truthful if and only if no section passed was prepared from something new |
| Prepare.CollisionExact | internal/narrate/prepare.go:115-166 | for every truthful plan whose texts can be read, all calls keep it truthful if and only if no two sections share a prepared file |
| Prepare.CollisionBreaksTruth | internal/narrate/prepare.go:222-232 | a witness: two distinct ids with one file name leave a section recorded with the other's file |
| Transcript.FirstOther | internal/transcript/transcript.go:258-264 | the first record that is not durable, or -1 if all are |
| Transcript.FitTranscriptQueue | internal/transcript/transcript.go:253-272 | dropping one record at a time ends in the specified selection |
| Transcript.FitSelects | internal/transcript/transcript.go:253-272 | kept are the newest durable records up to the capacity and the newest others that still fit |
| Transcript.KeepInOrder | internal/transcript/transcript.go:253-272 | the kept records keep their order |
| Transcript.KeepSelects | internal/transcript/transcript.go:253-272 | of each durability, exactly the newest are kept |
| Transcript.CriticalOutranks | internal/transcript/transcript.go:192-272 | a record of one of the thirteen listed kinds is given up only when nothing of another kind is kept and the channel is full of newer ones of those kinds |
| Transcript.NoiseGivesWay | internal/transcript/transcript.go:192-272 | deltas, speaking, info, stt, thinking and voice gate records are kept only if every record of a listed kind is |
| Transcript.OrderKept | internal/transcript/transcript.go:208-288 | in runs in which the channel is never found full, the records written are those accepted, in order |
| Transcript.Writer.Receive | internal/transcript/transcript.go:274-288 | the writer goroutine's receives are steps of the protocol |
| Transcript.Writer.DrainChannel | internal/transcript/transcript.go:225-234 | the drain, interleaved with the writer goroutine at will, is a run of the protocol ending in an empty channel |
| Transcript.Writer.Thin | internal/transcript/transcript.go:235-240 | the thinned queue and the losses it counts |
| Transcript.Writer.Rebuild | internal/transcript/transcript.go:241-248 | the rebuild sends every record and drops none |
| Transcript.Writer.EnqueueFull | internal/transcript/transcript.go:223-248 | the slow path, drain and rebuild each interleaved at will; undisturbed it leaves the thinned queue |
| Transcript.Writer.Enqueue | internal/transcript/transcript.go:208-249 | enqueue is a run of the protocol, the writer goroutine receiving any number of records before each receive of the drain and each send of the rebuild |
| Transcript.Writer.CloseChannel | internal/transcript/transcript.go:319-330 | Close is one step of the protocol |
| Transcript.Writer.Finish | internal/transcript/transcript.go:274-288 | once closed, the goroutine writes what is left and reports the drops |
| Transcript.StepKeepsInv | internal/transcript/transcript.go:208-330 | every step keeps each record in one place and each loss counted |
| Transcript.RunKeepsInv | internal/transcript/transcript.go:208-330 | so does every interleaving of enqueuers, the writer goroutine and Close |
| Transcript.OnePlace | internal/transcript/transcript.go:208-330 | an accepted record is in exactly one of written, channel, rebuild buffer and dropped, once |
| Transcript.PutNeverDrops | internal/transcript/transcript.go:241-248 | the rebuild send never meets a full channel |
| Transcript.NothingAfterClose | internal/transcript/transcript.go:205-213 | once closed, nothing is accepted, sent or dropped |
| Transcript.ReportIsComplete | internal/transcript/transcript.go:274-288 | the final record's count is that of all records accepted and not written |
| Transcript.DurableLossNeedsFullQueue | internal/transcript/transcript.go:253-272 | a durable record is given up only for a full queue of newer durable ones |
| StreamHub.HubServer.Add | internal/netapi/stream.go:147-156 | accepted if and only if there is room; a joiner takes over the boundary in force |
| StreamHub.HubServer.Remove | internal/netapi/stream.go:158-168 | unregistering, with the streamer count |
| StreamHub.HubServer.SetConnAudio | internal/netapi/stream.go:205-221 | opting in and out of audio, with the streamer count |
| StreamHub.HubServer.HasStreamClients | internal/netapi/stream.go:225-227 | true if and only if a registered connection streams |
| StreamHub.HubServer.OfferOrEvict | internal/netapi/stream.go:235-247 | one client of a broadcast: queued, or kicked and unregistered when its queue is full |
| StreamHub.HubServer.OfferAll | internal/netapi/stream.go:232-248 | the loop treats every client once, in any order |
| StreamHub.HubServer.Broadcast | internal/netapi/stream.go:232-248 | the whole new hub state |
| StreamHub.HubServer.BroadcastAudio | internal/netapi/stream.go:252-265 | the whole new hub state: a chunk for every streaming, unblocked client with room |
| StreamHub.HubServer.ResetOne | internal/netapi/stream.go:277-293 | a streaming client's queue is drained and holds just the marker; the send cannot block |
| StreamHub.HubServer.ResetAudio | internal/netapi/stream.go:273-294 | the whole new hub state |
| StreamHub.HubServer.ResumeAudio | internal/netapi/stream.go:298-305 | the whole new hub state |
| StreamHub.EachKeeps | internal/netapi/stream.go:147-305 | every hub step keeps every client's invariant |
| StreamHub.CountKeeps | internal/netapi/stream.go:147-248 | every hub step keeps the streamer count and the client limit |
| StreamHub.RunKeepsInv | internal/netapi/stream.go:147-305 | in every run of any clients the counter equals the number of registered streaming connections |
| StreamHub.ResetIsBarrier | internal/netapi/stream.go:269-294 | no client of any run is ever sent, behind a reset marker, a chunk broadcast before the next resume |
| StreamHub.ResetCovers | internal/netapi/stream.go:273-294 | a reset covers exactly the clients that stream, and leaves them just the marker |
| StreamHub.JoinCovers | internal/netapi/stream.go:147-156 | who joins while audio is blocked is covered |
| StreamHub.CoveredIsQuiet | internal/netapi/stream.go:252-305 | until the next resume a covered client is queued nothing but markers, over any run |
| StreamHub.EveryEventArrives | internal/netapi/stream.go:229-248 | as long as a client stays registered, what it has taken and what is queued for it are exactly the messages broadcast since it joined, in order |
| StreamHub.LeavesExact | internal/netapi/stream.go:147-248 | a client leaves the hub if and only if it is removed, or a broadcast finds 64 events waiting, and only the broadcast kicks it |
| StreamHub.CallsTakeEffect | internal/netapi/stream.go:147-305 | opting in or out, leaving, joining and resuming change what they name and leave other clients alone |
| StreamHub.LeakExact | internal/netapi/stream.go:252-265 | a broadcast chunk is queued for exactly the clients that stream, that no reset of this turn covers, and whose queue has room; a full queue keeps what it holds |
| StreamHub.LateOptInLeaks | internal/netapi/stream.go:277-281 | such a client exists: connected at the reset, streaming only after it |
| Timeline.Track.Insert | internal/speaker/types.go:130-136 | the swaps of the inner loop sink one element into the sorted front |
| Timeline.Track.Sort | internal/speaker/types.go:130-136 | the in-place sort computes the insertion sort |
| Timeline.Track.Merge | internal/speaker/types.go:112-128 | the in-place merge computes replace-or-append, then sort |
| Timeline.SortStrict | internal/speaker/types.go:130-146 | sorting observations of distinct segments orders them strictly |
| Timeline.SortKeeps | internal/speaker/types.go:130-136 | sorting is a permutation |
| Timeline.MergedInOrder | internal/speaker/types.go:130-147 | after every merge the timeline is in order of start, then end, then id, whatever was in it |
| Timeline.StringLessExact | internal/speaker/types.go:138-147 | ids are ordered by their first difference, a proper prefix first |
| Timeline.MergeAdds | internal/speaker/types.go:112-128 | a result without an id, or of a segment not stored, is added and nothing else changes |
| Timeline.MergeReplaces | internal/speaker/types.go:112-128 | a result of a stored segment replaces it if it is a revision or not older, and is dropped if not |
| Timeline.StrictUnique | internal/speaker/types.go:138-146 | a strictly ordered timeline is determined by its elements |
| Timeline.MergeAllWinners | internal/speaker/types.go:112-146 | merging late results leaves, sorted, exactly the newest observation of every segment |
| Timeline.MergeOrderIrrelevant | internal/speaker/types.go:112-146 | every permutation of results of distinct revisions gives the same timeline |
| Timeline.PairOrderExact | internal/speaker/types.go:112-128 | two results commute if and only if they differ in segment or revision, are equal, or are outdated |
| Timeline.TiedMerge | internal/speaker/types.go:112-128 | of two different results of one revision the later merged stays |
| SparseLabels.Masses | internal/speaker/merge.go:40-53 | the speech of every anonymous label and in total |
| SparseLabels.ChooseKeepers | internal/speaker/merge.go:55-75 | labels with enough speech, else one of the heaviest |
| SparseLabels.FindNearest | internal/speaker/merge.go:110-121 | the earliest keeper span of nearest midpoint |
| SparseLabels.RelabelAll | internal/speaker/merge.go:77-124 | the in-place relabelling over the keeper spans of the input |
| SparseLabels.MergeSparseLabels | internal/speaker/merge.go:33-125 | a result the specification allows, for any iteration order of the mass map |
| SparseLabels.NearestIsNearest | internal/speaker/merge.go:110-121 | no keeper span is nearer than the one found |
| SparseLabels.RelabelIsLocal | internal/speaker/merge.go:77-124 | places and bounds stay; only anonymous non-keepers change, to the label of a nearest keeper span |
| SparseLabels.OnlyKeepersRemain | internal/speaker/merge.go:77-124 | afterwards every anonymous label is a keeper |
| SparseLabels.LabelsLeft | internal/speaker/merge.go:19-125 | the labels left are exactly those with the minimum duration or share, or the one heaviest when none has; nothing changes without speech or with one label |
| SparseLabels.SpeechConserved | internal/speaker/merge.go:77-124 | total anonymous speech is unchanged and no keeper loses any |
| SparseLabels.MergeConservesSpeech | internal/speaker/merge.go:33-125 | the same for every result the method may return |
| SparseLabels.MergeIdempotent | internal/speaker/merge.go:33-125 | merging again changes nothing, whichever labels either run kept |
| LiveFeed.SetupOverlaps | internal/speaker/live_feed.go:37-77 | the hop of a live feed never exceeds its window, for any configured length |
| LiveFeed.Run | internal/speaker/live_feed.go:79-121 | the loop examines the specified windows and submits the audible ones under consecutive numbers |
| LiveFeed.LoudExact | internal/speaker/live_feed.go:98-119 | every audible window is submitted, numbered in order from one, and no other is |
| LiveFeed.WindowAt | internal/speaker/live_feed.go:79-121 | window k is samples k*hop to k*hop+window, and exists if and only if it lies in the stream |
| LiveFeed.FeedIsWindows | internal/speaker/live_feed.go:79-121 | for any chunking, the windows examined are those of the stream |
| LiveFeed.ChunkingIrrelevantExact | internal/speaker/live_feed.go:79-121 | chunk boundaries never matter if and only if the hop is at most the window |
| LiveFeed.TwoChunks | internal/speaker/live_feed.go:112-117 | with a longer hop, cutting behind the first window adds a window |
| LazyLive.Controller.Enable | internal/speaker/lazy.go:81-105 | SetEnabled is one step, and starts a build exactly when it counts one |
| LazyLive.Controller.Land | internal/speaker/lazy.go:129-152 | a finished build is installed with the last wish, or released if closed or failed |
| LazyLive.Controller.Discard | internal/speaker/lazy.go:131-144 | an unwanted chain is released whole |
| LazyLive.Controller.CloseAll | internal/speaker/lazy.go:182-196 | the first Close releases what is installed, later ones do nothing |
| LazyLive.Controller.ReleaseAll | internal/speaker/lazy.go:202-216 | teardown makes its releases one at a time, in order |
| LazyLive.TeardownClosesOnce | internal/speaker/lazy.go:202-216 | a teardown closes the engine once if there is one |
| LazyLive.StepKeepsInv | internal/speaker/lazy.go:81-216 | every step keeps releases made plus releases owed equal to the one teardown |
| LazyLive.RunKeepsInv | internal/speaker/lazy.go:81-216 | so does every interleaving of SetEnabled, Stats, Close and the build |
| LazyLive.BuildsAtMostOnce | internal/speaker/lazy.go:81-105 | the builder is called at most once |
| LazyLive.ReleasesInOrder | internal/speaker/lazy.go:202-216 | at every moment the releases made are a prefix of feed, adapter, analyzer |
| LazyLive.FeedThenAdapterThenAnalyzer | internal/speaker/lazy.go:198-216 | in the log of every run the feed is stopped before the adapter is closed, and that before analyzer or engine |
| LazyLive.EachPartReleasedOnce | internal/speaker/lazy.go:110-216 | once closed and settled, each part that was built is in the log exactly once, and no other |
| LazyLive.WishesTakeEffect | internal/speaker/lazy.go:81-105 | an enable or disable of an installed chain sets the adapter at once, and before that is what the build goes by |
| LazyLive.ClosedMeansReleased | internal/speaker/lazy.go:110-196 | once Close has returned and no build is in flight, all built is released, the engine closed once, nothing installed |
| LazyLive.DisableDuringLoadWins | internal/speaker/lazy.go:81-153 | after a disable during the load, in every run without another enable, the adapter is off once the build is over, and what was built is installed unless it failed or was closed |
| Embeddings.WriteEmbeddings | internal/speaker/enrollment.go:349-359 | the nested loops write the rows as little-endian words |
| Embeddings.ReadEmbeddings | internal/speaker/enrollment.go:361-380 | reading inverts writing for every rectangular matrix of the stated shape, and refuses every other size |
| Embeddings.MatrixFromBytes | internal/speaker/enrollment.go:349-380 | a file holds the rows of one matrix of its shape only |
| Embeddings.MatrixBytes | internal/speaker/enrollment.go:349-359 | value j of row i stands at four times its position, as four bytes, least significant first |
| Embeddings.EnrollWindows | internal/speaker/enrollment.go:440-451 | whole windows from the front without gaps, as many as fit up to eight; a short clip whole |
| Enrollment.SlugIsPlain | internal/speaker/enrollment.go:323-347 | a storage key is a plain lower-case file name and not the label of nobody |
| Enrollment.SlugLooksAnonymous | internal/speaker/enrollment.go:320-347 | a key starts like an anonymous label if and only if the name says "speaker " |
| Enrollment.CaseSharesKey | internal/speaker/enrollment.go:323-347 | names that differ in case only are refused together or share one storage key |
| Enrollment.Store.Open | internal/speaker/enrollment.go:103-133 | opening succeeds if and only if all stored names are good and on distinct keys |
| Enrollment.Store.SaveLocked | internal/speaker/enrollment.go:307-318 | what is saved is opened again as just the profiles it was given |
| Enrollment.Store.RenameProfile | internal/speaker/enrollment.go:215-273 | the outcome and the new map, profiles file and embedding files, for every fault |
| Enrollment.Store.FinishRename | internal/speaker/enrollment.go:260-272 | the part behind the file move, with its rollback |
| Enrollment.Store.AddProfile | internal/speaker/enrollment.go:142-192 | the outcome and the new store, for every fault |
| Enrollment.Store.RemoveProfile | internal/speaker/enrollment.go:195-210 | the outcome and the new store, for every fault |
| Enrollment.Store.Rows | internal/speaker/enrollment.go:288-301 | a held matrix is read back, and what is read is what the file holds |
| Enrollment.RenameAllOrNothing | internal/speaker/enrollment.go:215-273 | from agreement, the three parts agree afterwards unless the outcome is a failed rollback, and any other failure changes nothing |
| Enrollment.RenameCarriesVoice | internal/speaker/enrollment.go:212-273 | a rename carries profile and embeddings over whole and frees the old name |
| Enrollment.RenameLeavesOthers | internal/speaker/enrollment.go:215-273 | a rename, whatever its outcome, leaves every other name alone |
| Enrollment.RenameDone | internal/speaker/enrollment.go:215-273 | a rename goes through if and only if both names are good, the old one is enrolled, the new one is free or on the same key, the save works, and on another key the embedding file is there and moves |
| Enrollment.AddDone | internal/speaker/enrollment.go:142-192 | an enrolment goes through if and only if name and rows are good, the key is free or holds the same name, and both files are written; the profile it records |
| Enrollment.RemoveDone | internal/speaker/enrollment.go:195-210 | a removal goes through if and only if the name is enrolled, the file is deleted or missing, and the save works |
| Enrollment.AddAgrees | internal/speaker/enrollment.go:184-191 | a refused or unwritten enrolment changes nothing; otherwise agreement is lost by a lost save that changed the profile |
| Enrollment.RemoveAgrees | internal/speaker/enrollment.go:195-210 | a refused removal changes nothing; a lost save loses agreement; a removed name is gone |
| Enrollment.RenameExact | internal/speaker/enrollment.go:215-273 | over the inputs: agreement is kept if and only if save or undo works, nothing is moved, or the names are bad, absent, taken or on one key |
| Enrollment.AddExact | internal/speaker/enrollment.go:142-192 | over the inputs: agreement is kept if and only if the save works, nothing is written, the request is refused, or the profile stays as it is |
| Enrollment.RemoveExact | internal/speaker/enrollment.go:195-210 | over the inputs: agreement is kept if and only if the save works, the file is not removed, or the name is bad or absent |
| Enrollment.AddKeepsOthers | internal/speaker/enrollment.go:175-182 | enrolling never overwrites a name that differs by more than case |
| Enrollment.EnrolledIsHeld | internal/speaker/enrollment.go:142-273 | enrolled rows are held under the name, and under the one it is renamed to |
| Enrollment.HistoryAgrees | internal/speaker/enrollment.go:138-273 | over any history the parts agree after every operation if and only if each operation meets its condition on its inputs |
| IndexCache.Cache.EntryFor | internal/meeting/index.go:244-263 | one lookup, the stream growing between stat and read: an entry of the same time and size is answered as it is, else the stream is parsed and stored under the older stat; the answer is a parse no older than the stat |
| IndexCache.Cache.Prune | internal/meeting/index.go:267-275 | exactly the bundles seen stay |
| IndexCache.StepKeepsInv | internal/meeting/index.go:244-275 | every step of readers, recorders and pruning keeps all cached and pending entries fresh |
| IndexCache.RunKeepsInv | internal/meeting/index.go:244-275 | so does every interleaving, an older reader overwriting a newer entry included |
| IndexCache.AnswersAreFresh | internal/meeting/index.go:244-263 | every answer, hit or miss, is the parse of the stream between the reader's stat and now |
| IndexCache.AnswersAreTraced | internal/meeting/index.go:244-263 | in every interleaving an answer is the parse of the whole stream by a reader whose stat had the same time and size as the one answered; on a miss by that reader itself |
| IndexCache.StoredIsHit | internal/meeting/index.go:249-254 | what is stored is served to the next reader with the same stat, whatever happens in between but storing or pruning |
| IndexCache.HitIsCurrent | internal/meeting/index.go:249-254 | a hit on a stream not appended to since the stat is the parse of the current stream |
| IndexCache.HitExact | internal/meeting/index.go:244-263 | for all contents, appended data and parsers that tell them apart: every history answers a hit with the current parse if and only if nothing was appended between stat and lookup |
| IndexCache.HitMayBeInBetween | internal/meeting/index.go:244-263 | whatever is in the stream and is appended, a run in which a hit is newer than its stat and older than the stream |
| RouteSweep.FoldEvents | internal/meeting/sweep.go:80-101 | the single pass over the events computes plan, end, delivery and failures |
| RouteSweep.PendingRoutePlan | internal/meeting/sweep.go:75-109 | the destination still to be delivered to, if any |
| RouteSweep.PendingExact | internal/meeting/sweep.go:75-109 | a target is pending if and only if it is that of the last plan and named, the session has ended, nothing is delivered, fewer than three failures are recorded, and the last end that parses is at most fourteen days ago |
| RouteSweep.ComputeRouteStatus | internal/meeting/index.go:371-407 | status, attempts and whether a retry is promised |
| RouteSweep.StatusExact | internal/meeting/index.go:371-407 | each status, the attempts and the retry promise, told from the events of the stream |
| RouteSweep.AgreementExact | internal/meeting/index.go:369-407 | status and sweep agree at every clock if and only if the bundle is out of the running or its stream is clean |
| RouteSweep.Archive.Sweep | internal/meeting/sweep.go:36-69 | a sweep visits each listed bundle once up to a cancellation, tries exactly the pending ones in order, and changes no other |
| RouteSweep.RetriesBounded | internal/meeting/sweep.go:36-122 | with at most m sweeps of a bundle in flight, others who deliver it counted as they record that, the sink runs at most 3 + m - 1 times over any history; with one, three times and never after a delivery |
| RouteSweep.RetriesExact | internal/meeting/sweep.go:36-122 | the bound is reached for every m, so three runs and none late hold in all histories if and only if sweeps never overlap |
| RouteSweep.VisitIsOneFlight | internal/meeting/sweep.go:53-66 | the visit of a sweep that runs alone is looking, delivering and recording in a row |
| RouteSweep.GivenUpStays | internal/meeting/sweep.go:102-104 | after three failures or a delivery the sink runs only for sweeps that had already read the stream |
| JsonPayload.JsonValueEnd | internal/meeting/camp_list.go:113-159 | the scanning loop computes the specified end |
| JsonPayload.NeutralValue | internal/meeting/camp_list.go:130-157 | any well-formed value, with any nesting and escapes, leaves the scanner where it was |
| JsonPayload.ValueEndExact | internal/meeting/camp_list.go:113-159 | the end of every array or object, whatever bytes follow it |
| JsonPayload.TruncatedValue | internal/meeting/camp_list.go:158-158 | a value cut short anywhere is reported as incomplete |
| JsonPayload.IndexByte | internal/meeting/camp_list.go:94-97 | the first occurrence of a byte, or -1 |
| JsonPayload.ExtractJSONPayload | internal/meeting/camp_list.go:80-108 | the method computes the specified payload |
| JsonPayload.CoreAround | internal/meeting/camp_list.go:81-84 | what trimming and the byte-order mark leave of an array behind any prefix |
| JsonPayload.PayloadExact | internal/meeting/camp_list.go:80-108 | behind log lines without `[`, the array is recovered if and only if they are visible and do not start with `{`, or nothing visible surrounds it |
| JsonPayload.BomAloneKeepsTail | internal/meeting/camp_list.go:82-91 | a byte-order mark alone in front lets the tail through |
| EditorBuffer.TextBuffer.LineBounds | internal/tui/editor_buffer.go:81-93 | the line around an offset |
| EditorBuffer.LineStartFacts | internal/tui/editor_buffer.go:81-93 | a line starts at the front or behind a newline, with none in between |
| EditorBuffer.LineEndFacts | internal/tui/editor_buffer.go:81-93 | a line ends at the end or at a newline, with none in between |
| EditorBuffer.TextBuffer.MoveVertical | internal/tui/editor_buffer.go:139-162 | up and down keep the column as far as the line goes |
| EditorBuffer.DownThenUp | internal/tui/editor_buffer.go:139-162 | down then up comes back if and only if the next line is long enough |
| EditorBuffer.TextBuffer.MoveBy | internal/tui/editor_buffer.go:100-137 | every motion sets the specified cursor and nothing else |
| EditorBuffer.TextBuffer.NextWord | internal/tui/editor_buffer.go:201-214 | the loop stops at the specified word |
| EditorBuffer.TextBuffer.PreviousWordStart | internal/tui/editor_buffer.go:216-226 | the loop stops at the specified word |
| EditorBuffer.TextBuffer.EndWord | internal/tui/editor_buffer.go:228-238 | the loop stops at the specified character |
| EditorBuffer.ForwardOverOneWord | internal/tui/editor_buffer.go:201-214 | word forward passes at most one word, to the front of the next or the last character |
| EditorBuffer.BackOverOneWord | internal/tui/editor_buffer.go:216-226 | word backward goes over white space to the front of the word before |
| EditorBuffer.ToEndOfWord | internal/tui/editor_buffer.go:228-238 | word end goes over white space to the last character of the word there |
| EditorBuffer.TextBuffer.FindOnLine | internal/tui/editor_buffer.go:173-199 | the cursor moves to, or next to, the target on the line, or stays |
| EditorBuffer.FindAheadNearest | internal/tui/editor_buffer.go:173-199 | a search forward stops at the nearest target and fails only if the line has none |
| EditorBuffer.FindBehindNearest | internal/tui/editor_buffer.go:173-199 | a search backward stops at the nearest target and fails only if the line has none |
| EditorBuffer.TextBuffer.SelectedRange | internal/tui/editor_buffer.go:270-293 | the range of the active selection |
| EditorBuffer.SelectedInText | internal/tui/editor_buffer.go:270-293 | the range lies in the text and counts if and only if it is not empty |
| EditorBuffer.LinewiseSelectsLines | internal/tui/editor_buffer.go:270-293 | a linewise selection is made of whole lines around anchor and cursor |
| EditorBuffer.TextBuffer.SaveUndo | internal/tui/editor_buffer.go:380-385 | the snapshot is pushed and the oldest falls off behind a hundred |
| EditorBuffer.TextBuffer.Delete | internal/tui/editor_buffer.go:320-338 | the whole new buffer, with the register |
| EditorBuffer.TextBuffer.DeleteSelected | internal/tui/editor_buffer.go:309-318 | the whole new buffer |
| EditorBuffer.TextBuffer.Insert | internal/tui/editor_buffer.go:340-355 | the whole new buffer, replacing the selection if asked |
| EditorBuffer.TextBuffer.Replace | internal/tui/editor_buffer.go:357-370 | the whole new buffer |
| EditorBuffer.DeleteLeaves | internal/tui/editor_buffer.go:320-338 | a deletion takes out the characters between its offsets, in any order, into the register, and nothing else |
| EditorBuffer.InsertLeaves | internal/tui/editor_buffer.go:340-355 | an insertion puts the text at the offset, or in place of the selection, and the cursor behind it |
| EditorBuffer.ReplaceLeaves | internal/tui/editor_buffer.go:357-370 | a replacement puts the text in place of the characters between its offsets |
| EditorBuffer.DeleteThenPut | internal/tui/editor_buffer.go:320-355 | inserting the register where it was deleted restores the text |
| EditorBuffer.PutThenDelete | internal/tui/editor_buffer.go:320-355 | deleting what was inserted restores the text and leaves the insertion in the register |
| EditorBuffer.ReplaceBack | internal/tui/editor_buffer.go:357-370 | replacing back restores the text |
| EditorBuffer.TextBuffer.UndoLast | internal/tui/editor_buffer.go:391-401 | the whole new buffer; true if there was something to undo |
| EditorBuffer.TextBuffer.SyncFrom | internal/tui/editor_buffer.go:55-63 | value and clamped cursor are taken over; the selection is dropped if either differs |
| EditorBuffer.TextBuffer.ForgetUndo | internal/tui/editor_buffer.go:387-389 | the undo history is emptied and nothing else changes |
| EditorBuffer.TextBuffer.SwapSelectionAnchor | internal/tui/editor_buffer.go:260-268 | cursor and anchor change places |
| EditorBuffer.TextBuffer.SelectEverything | internal/tui/editor_buffer.go:304-307 | the selection spans the text |
| EditorBuffer.ApplyKeepsInv | internal/tui/editor_buffer.go:55-401 | every operation, taking over the text area included, keeps cursor, anchor and recorded cursors within their texts |
| EditorBuffer.UndoIsRecent | internal/tui/editor_buffer.go:380-401 | the undo history is always the end of the unbounded history of edits; when nothing was undone, it is the last hundred or all of it |
| EditorBuffer.UndoInverts | internal/tui/editor_buffer.go:309-401 | k undos restore text and cursor from before the k-th most recent edit since the undo history was last emptied, for any history |
| EditorBuffer.UndoInvertsMixed | internal/tui/editor_buffer.go:309-401 | the same with undos mixed in, for as many as the history has |

## Left out

- I/O plumbing: HTTP, WebSocket and TLS, mDNS, external commands, YAML and JSON encoding. Files are maps, and an operation on them may fail.
- Native engines and providers: the synthesizer is a function, a transform or a delivery is a given result.
- Float rounding: silence lengths, durations and the fractions of sparse-label merging are exact; samples are opaque integers.
- 64-bit overflow of lengths, durations and counters.
- A crash between writing a WAV and saving the manifest: histories save every manifest a run returns.
- Refusals before any work: a missing output directory or batch provider, prompts and plans that do not load.
- Request metadata (unit id and title) as an influence on the audio: the synthesizer sees text, voice, speed and its identity.
- Enrollment.Store.SaveLocked: the order in which profiles.yaml lists profiles, and the leftover `.tmp` file of a failed write.
- Enrollment.SlugIsPlain: which of its messages profileSlug refuses a name with.
- Prepare.HistoryTruthful: early returns are no part of its histories (`AbortExact` covers one), and neither is a section whose extracted text cannot be read or whose output cannot be written.
- LazyLive: that the last enable request wins. The disable after a build is applied outside the lock region that installs it.
- Transcript: the order of records in the file during a rebuild, an unbuffered channel, and write errors.
- StreamHub: the microphone claim, eviction by token, and the event messages themselves.
- IndexCache: listing, sorting and limiting the index, and the fields of an entry that do not come from its event stream.
- RouteSweep.RetriesBounded: a provenance append that fails, after which the attempt is not counted.
- RouteSweep: receipts, rendered notes, and resolving destinations before the first delivery.
- EditorBuffer: text that is not valid UTF-8.
- The TUI bridge queue, merging campaign destinations, configuration defaults, device maps and status labels: nothing in them is harder than what is here.
