# A verified model of bark_detector

bark_detector listens to audio sources, classifies one 0.975 s chunk at a time,
records a snippet around each run of barks, announces loud ones over MQTT, keeps
the snippets in an event store, and lets a settings page edit the sources while it
runs. This project models that logic in Dafny and proves what it promises.
`dafny verify dfyconfig.toml` checks everything.

## What is modelled

**Capture pipeline.** `Snippet` gives the recorder twice: `RunOps` applies trigger,
notify and add-chunk calls one by one to a bounded pre-roll buffer and one active
capture; `Groups` looks at the whole chunk history and says which trigger calls
belong together and which slice of the stream they cut out. `RecorderRefinesGroups`
proves the two equal for every sequence of calls, and `SnippetFacts` draws the
consequences (contiguous slices, disjoint windows, duration, filenames, no file
overwritten). `Recorder.dfy` is the same recorder as objects updated in place, each
method tied to one call of `Snippet`. `Detector` has the ranked, zero-padded, cut-off
search next to a direct search. `WorkerSpec` and `Worker` put them together: what a
worker sends and stores over any run. `WorkerRules` says what one chunk does to the captures,
with each test, length and file name spelled out.

**Source registry and its directory.** `Sources` builds and dumps one source record, and
`SourceRules` says field by field what is built, stored and refused;
`Directory` and `SourceFiles` list, search, load, migrate, save and delete source
files; `Registry` has the lock-held edits, the invariant between memory and disk, and
what a crash may leave; `WorkerTable` and `Controller` add the workers and the
settings calls, each one step of `Worlds`, where registry, worker table and retained
messages are one value; `AppRuns` takes it through whole runs. `Interleaving` has the
calls that overlap, with `Overlaps` for one call inside another and `Announcements` for what
the broker then retains. A source directory remembers every state its files were in, so the
crash lemmas apply to each step the methods take.

**Application config.** `AppConfig` is a table of settings with dynamically typed file
values and environment overrides: loading, dumping, and partial MQTT updates. `SettingRules`
says setting by setting what is loaded, by variable name and default. `Environments`
asks what the written file can show of the environment. Python's text conversions are
parameters.

**The ffmpeg child.** `AudioSource` is a state machine with a program counter for the
worker thread and one for each controller thread that stops it.

**Retention and retained MQTT state.** `Retention` and `Cleanup` have the event table
and the age and space clean-up; `Discovery` and `Publisher` the Home Assistant
discovery messages and what the broker retains of them (a retained message with an
empty payload clears its topic, section 3.3.1.3 of MQTT Version 3.1.1).

Every class method is tied to a function of its old state, and the properties are
proved about those functions. Times and scores are reals. Clock readings, volumes,
class scores, minted ids and temporary file names are inputs.

## Where the code and its comments or promises differ

The model follows the code. Where a promise holds only under a condition, the lemma
says exactly which.

- A comment says renaming a source keeps its file (`bark_detector/config.py:397-402`, `623-630`); the
  code saves under the new name and then deletes the old file (`bark_detector/config.py:632`,
  `bark_detector/controller.py:243-245`). `UpdateCrashSafe` covers the moment when both exist.
- An `id` that is present but empty is replaced on every load and never written back
  (`bark_detector/config.py:275`, `385`): a second load is stable if and only if no file has one
  (`SecondLoadIsStable`, `EmptyIdReloads`).
- The classifier cut-off never goes under 0.01 (`bark_detector/worker.py:71`) although a detection
  threshold may (`bark_detector/config.py:292`): the shortcut search is the direct search if and only
  if every listened threshold is at least 0.01 (`PickIsDirectSearchIff`).
- Filenames hold whole seconds (`bark_detector/snippet.py:147`): two captures never share one if and
  only if the post-roll is at least two chunks (`FileNamesDistinctIffTwoChunks`), and with a
  shorter one a snippet can be overwritten (`NoSnippetOverwrittenIff`, `SameSecondRun`).
- An added source may bring an id (`bark_detector/controller.py:216`, `bark_detector/config.py:275`);
  nothing checks that it is free, and the invariant survives if and only if it is
  (`AddKeepsInvIff`, `TakenIdAccepted`).
- Loading refuses a name that occurs twice (`bark_detector/config.py:374-375`), but not an id: the
  registry starts in its invariant if and only if the files' ids are all different
  (`StartEstablishesInvIff`, `TwoFilesOneId`).
- `update_source` and `delete_source` deal with workers, and all three calls with discovery
  messages, after releasing the lock (`bark_detector/controller.py:220-224`, `247-260`, `269-274`). A
  call that runs inside another can leave a worker without a source, a source without a
  worker, the older configuration running or announced, or a worker running unmanaged:
  `Overlaps.NestedIff` says exactly when, for every pair of calls and every place.
- Discovery messages of a source that was deleted while MQTT was down stay on the broker: a
  connect mirrors the sources if and only if there are none (`ConnectMirrorsIff`).
- The file never holds a value from the environment, but a refused update leaves it alone
  (`bark_detector/controller.py:303-304`), and whether an update is refused can depend on the
  environment (`bark_detector/config.py:36-56`): `VerdictsHideIff` and `FilesHideIff` say exactly when,
  `RefusalShows` gives a case.
- Setting the stop flag first is meant to keep ffmpeg from coming back
  (`bark_detector/controller.py:109-112`). It does if and only if the worker, when the flag is set, is
  not about to take the lock for a start, about to read `self.process`, or asleep before a
  restart (`StopIsFinalIff`); there is never more than one child that comes back.
- A number or truth value given for a text setting that the environment also sets makes
  the environment's text be cast to that type (`bark_detector/config.py:36-56`), and the config does
  not read back (`RoundTripIff`, `RoundTripAfterUpdatesIff`, `ClashingTopic`).
- Under a negative space cap every pass sends an alert again (`bark_detector/cleanup.py:61-94`,
  `SecondPassDoesNothing`, `NegativeCapAlertsAgain`).
- Turning discovery off clears the retained messages if and only if MQTT stays enabled
  with the same prefix (`bark_detector/controller.py:308-320`, `TurningOffClearsIff`).

## Model

| member | source | states |
|---|---|---|
| `Snippet.RecorderRefinesGroups` | bark_detector/snippet.py:58-174 | for every sequence of trigger, notify and add_chunk calls, buffer, active capture and output are what the grouping of the trigger calls over the whole chunk history prescribes |
| `Snippet.GroupsShaped` | bark_detector/snippet.py:81-141 | triggers that share a capture are less than the post-roll apart, and a capture opens only after the previous one is complete |
| `SnippetFacts.GroupsPartitionTriggers` | bark_detector/snippet.py:81-108 | every trigger call belongs to exactly one capture; none is lost, invented or reordered |
| `SnippetFacts.SnippetIsSlice` | bark_detector/snippet.py:124-159 | every saved snippet is one contiguous slice of the stream, from up to the pre-roll length before its first trigger to the post-roll length after its last |
| `SnippetFacts.WindowsDisjoint` | bark_detector/snippet.py:81-141 | post-roll windows are disjoint and ordered, each triggering chunk lies in exactly one, and a snippet overlaps earlier ones only through its pre-roll |
| `SnippetFacts.TriggersInOneSnippetAreClose` | bark_detector/snippet.py:104-108 | successive triggers of one capture are fewer than `post_chunks_needed` chunks apart |
| `SnippetFacts.DurationCountsFrames` | bark_detector/snippet.py:149-172 | the reported duration times 16000 is the number of 16-bit frames in the WAV file |
| `SnippetFacts.ChunksCoverRequest` | bark_detector/snippet.py:68-71 | the configured seconds become the least number of whole chunks, at least one, that covers them |
| `SnippetFacts.FileNameTellsSecond` | bark_detector/snippet.py:145-148 | two captures with the same path opened in the same whole second |
| `SnippetFacts.GroupStartsApart` | bark_detector/snippet.py:84-108 | with chunks at least 0.975 s apart, captures of one recorder start at least the post-roll apart |
| `SnippetFacts.FileNamesDistinctIffTwoChunks` | bark_detector/snippet.py:145-148 | no two captures of a paced recorder share a file, in any run, if and only if the post-roll is at least two chunks |
| `SnippetFacts.SameSecondRun` | bark_detector/snippet.py:143-174 | the run that shows it, fed whole chunks 0.975 s apart with a one-chunk post-roll: at its end the first event's file holds the second's audio |
| `SnippetFacts.NoSnippetOverwrittenIff` | bark_detector/snippet.py:143-174 | at the end of every paced run each event's file holds that event's audio, if and only if the post-roll is at least two chunks |
| `Recording.SnippetRecorder.constructor` | bark_detector/snippet.py:59-72 | an idle recorder with both lengths rounded up to whole chunks |
| `Recording.SnippetRecorder.Trigger` | bark_detector/snippet.py:81-108 | opens a capture with the buffered pre-roll, or extends the active one and raises its peak; only an opening returns a trigger |
| `Recording.SnippetRecorder.Notify` | bark_detector/snippet.py:110-122 | announces the active capture exactly when it has this label and was not announced yet |
| `Recording.SnippetRecorder.AddChunk` | bark_detector/snippet.py:124-141 | pushes the chunk into the bounded buffer and the active capture; the last chunk writes the file, returns its event and goes idle |
| `Recording.SnippetRecorder.WriteOut` | bark_detector/snippet.py:143-174 | the file holds pre-roll and post-roll in order, and the event describes it |
| `Detector.DetectRaw` | bark_detector/detector.py:70-85 | the 20-row table holds the ranked classes with a positive score, then zero rows |
| `Detector.Detect` | bark_detector/detector.py:87-98 | reports the rows before the first score below the threshold, with their labels |
| `Detector.PickIsDirectSearchIff` | bark_detector/worker.py:69-103 | the cut-off search picks what a direct search of the top 20 picks, for all scores, if and only if every listened threshold is at least 0.01 |
| `Detector.FaintScores` | bark_detector/worker.py:69-89 | the scores that show it: a label with a lower threshold is missed although its score meets the threshold |
| `Detector.PickIsBestOfAllClasses` | bark_detector/worker.py:69-103 | a pick has the best score of all classes that qualify; with no pick, 20 classes outrank any that would; padding is never picked (`WorkerRules.PickIff` says which class is picked) |
| `WorkerRules.PickIff` | bark_detector/worker.py:69-103 | whatever the thresholds, a class is picked exactly when one of the top 20 scores at least 0.01, is listened for, is the label being captured if there is one, and meets its detection threshold; the first such class is picked |
| `WorkerSpec.WorkerGroupsFaithful` | bark_detector/worker.py:66-105 | in every run each capture has one listened label, all its triggers meet the detection threshold, and it was announced with the first score that met the notify threshold |
| `WorkerRules.HeardChunkExtends` | bark_detector/worker.py:66-105 | after any run, a chunk over the volume gate on which such a class is heard during a capture becomes its newest trigger: it closes the post-roll after this chunk, keeps the higher peak, and is notified if the score meets the notify threshold; earlier captures stay |
| `WorkerRules.HeardChunkOpens` | bark_detector/worker.py:66-105 | while nothing is captured such a chunk opens a capture with this trigger |
| `WorkerRules.UnheardChunk` | bark_detector/worker.py:66-105 | a chunk under the volume gate, or on which no class meets the tests, changes no capture |
| `WorkerRules.SnippetAsConfigured` | bark_detector/snippet.py:59-174 | a snippet reaches at least the configured time before its first trigger, or to the start of the stream, and after its last; its file is named after source, label and second, its event has the first trigger's id and time, the peak, and 0.975 s per chunk |
| `WorkerSpec.MessagesByCapture` | bark_detector/worker.py:91-116 | the messages of a run are those of each capture in turn: at most one trigger, and an event exactly for each finished capture that sent its trigger |
| `WorkerSpec.MessagesPaired` | bark_detector/worker.py:91-116 | triggers and events alternate, each event answers the trigger before it with the same id and at least its score; at most one trigger waits, for the capture in progress |
| `WorkerSpec.NotifiedIffLoud` | bark_detector/worker.py:91-99 | between chunks a capture, and every saved clip, is marked notified exactly when its peak score meets the notify threshold of its label |
| `WorkerSpec.OfferedOncePerCapture` | bark_detector/worker.py:105-110 | every finished capture is offered to the store once, in order, with its id and peak score, and nothing else is |
| `WorkerSpec.TriggersOnTheClock` | bark_detector/worker.py:66-103 | each trigger of a run carries the clock reading of the chunk it was heard on |
| `WorkerSpec.WorkerNeverOverwritesIff` | bark_detector/worker.py:34-64 | whatever a worker that listens to a label of the model hears, with the clock moving 0.975 s per chunk, no snippet replaces an earlier one, if and only if its post-capture time is longer than one chunk |
| `Worker.SourceWorker.constructor` | bark_detector/worker.py:21-49 | a worker with an idle recorder for its source |
| `Worker.SourceWorker.ProcessChunk` | bark_detector/worker.py:66-116 | recorder, WAV files on disk, published messages and stored events stay those of the specification's run over the chunks heard |
| `Worker.SourceWorker.Listen` | bark_detector/worker.py:67-103 | below the volume gate nothing is heard; above it the pick is acted on |
| `Worker.SourceWorker.Consider` | bark_detector/worker.py:74-103 | acts on the first reported detection that is listened for, has the label of the capture in progress if there is one, and is at its threshold, and on nothing exactly if there is no such detection |
| `Worker.SourceWorker.Act` | bark_detector/worker.py:91-102 | triggers, and notifies and publishes only at the notify threshold |
| `Worker.SourceWorker.Deliver` | bark_detector/worker.py:105-116 | feeds the chunk; a finished event is stored, and published if it was announced |
| `Sources.FirstDisordered` | bark_detector/config.py:285-298 | finds a listened label unless all satisfy 0 < detection <= notify <= 1 |
| `Sources.BuildIsValid` | bark_detector/config.py:250-315 | a built source is valid under any defaults, keeps the record's name and id, and depends on the minted id only where the record has none (`SourceRules` has every field) |
| `SourceRules.BuildIff` | bark_detector/config.py:250-300 | a record builds exactly when it names itself, a type and a path, the name and type are allowed, the thresholds are mappings to numbers, in order for each label listened for, and volume and lengths are numbers |
| `SourceRules.BuildFields` | bark_detector/config.py:272-315 | each field of a built source is the record's, else the default's of the same name, else the literal built-in value; `thresholds` stands in for `notify_thresholds`, in the record before in the defaults |
| `SourceRules.BuildThresholds` | bark_detector/config.py:97-112 | a label's notify threshold is the one given or 0.8, its detection threshold the one given or its notify threshold |
| `SourceRules.RefusalIsTrue` | bark_detector/config.py:253-298 | the reason given for refusing a record is true of it |
| `Sources.DumpRebuilds` | bark_detector/config.py:579-593 | rebuilding a dumped source gives it back under all defaults and minted ids if and only if it is valid and has an id |
| `Directory.Slugify` | bark_detector/config.py:397-402 | a non-empty stem of letters, digits, underscore and hyphen |
| `Directory.SqueezeRun` | bark_detector/config.py:401 | each run of other characters becomes one underscore |
| `Directory.SlugIsCore` | bark_detector/config.py:401-402 | the slug is that less any underscores and hyphens at its ends, or `source` if nothing is left |
| `Directory.SlugOfPlain` | bark_detector/config.py:397-402 | a name that could be a slug is its own slug |
| `Directory.FirstFree` | bark_detector/config.py:422-429 | the search through the numbered names ends for every directory, at the first free one |
| `Directory.NewPath` | bark_detector/config.py:422-429 | a new source's file is a `.yaml` file not in the directory yet |
| `Directory.NewPathIs` | bark_detector/config.py:422-429 | it is `slug.yaml` if that is free, else the first free of `slug-2.yaml`, `slug-3.yaml`, ... |
| `Directory.Sorted` | bark_detector/config.py:366 | the listing holds every file once, in ascending order |
| `Directory.BeforeIff` | bark_detector/config.py:366 | the order of the listing is that of the first difference by code point, a prefix first |
| `Directory.LoadSettles` | bark_detector/config.py:366-394 | a load that succeeds has built every source file, and leaves each as it was or, without an id key, as the dump of what it built |
| `SourceRules.LoadIff` | bark_detector/config.py:356-394 | a directory loads exactly when every `.yaml` file parses, holds a record that builds, and no two say the same name |
| `SourceRules.LoadedFields` | bark_detector/config.py:356-394 | each loaded source has its file's fields, filled up from the defaults and the built-in values |
| `Directory.SecondLoadIsStable` | bark_detector/config.py:356-394 | after a load every later load writes nothing and returns the same sources and ids, whatever ids would be minted, if and only if no file held an empty id |
| `Directory.EmptyIdReloads` | bark_detector/config.py:275-385 | the directory that shows it: one file with an empty id loads, is left as it was, and its source gets whatever id is minted each time |
| `SourceFiles.SourceDirectory.ListDir` | bark_detector/config.py:410 | lists every file once, in some order |
| `SourceFiles.SourceDirectory.ListSorted` | bark_detector/config.py:366 | lists every file once, in ascending order |
| `SourceFiles.SourceDirectory.FindSourcePath` | bark_detector/config.py:405-419 | finds a source file by the name in its content; none only if no file has it; a file that does not parse is an error |
| `SourceFiles.SourceDirectory.NewSourcePath` | bark_detector/config.py:422-429 | the first free numbered name; the loop ends for every directory |
| `SourceFiles.SourceDirectory.AtomicWrite` | bark_detector/config.py:596-610 | the target has the new content and no other file changed; every state on the way is the old directory, the old one with a temporary file, or the finished one |
| `SourceFiles.SourceDirectory.SaveSource` | bark_detector/config.py:623-633 | writes to the file holding this name or, if there is none, to a new one, through such states only; no other file changes |
| `SourceFiles.SourceDirectory.DeleteSourceFile` | bark_detector/config.py:636-640 | removes a file holding this name, or changes nothing if there is none |
| `SourceFiles.SourceDirectory.LoadSources` | bark_detector/config.py:356-394 | the loop, whose migrations search by content while they write, agrees with the load that rewrites each file in place; in a load that goes through, every state on the way has each file as it was or as the load leaves it |
| `SourceFiles.SourceDirectory.ReadAll` | bark_detector/config.py:366-394 | the same over a fixed listing |
| `SourceFiles.SourceDirectory.ReadSource` | bark_detector/config.py:366-392 | one round of the loop keeps that agreement, or a repeated name will make the load fail |
| `SourceFiles.MidwayReloads` | bark_detector/config.py:356-394 | wherever a load that goes through is cut off, the next load goes through with the same sources but for ids not written yet; every id in a file stays |
| `Registry.FindPath` | bark_detector/config.py:405-419 | the file whose content has the name, if any |
| `Registry.SaveReplaces` | bark_detector/config.py:623-633 | saving puts the source in place of the one of its name and touches no other |
| `Registry.RemoveDrops` | bark_detector/config.py:636-640 | deleting a source's file drops that source and no other |
| `Registry.LoadGood` | bark_detector/config.py:356-394 | a directory whose files build, with ids and distinct names, loads to exactly the sources it holds and is not rewritten |
| `Registry.ReloadIsPermutation` | bark_detector/config.py:356-394 | under the invariant a reload returns the in-memory sources, ids included, in some order |
| `Registry.AddKeepsInvIff` | bark_detector/controller.py:209-218 | adding keeps names and ids unique and the files equal to the memory if and only if the new id is free |
| `Registry.TakenIdAccepted` | bark_detector/controller.py:209-218 | the request that shows it: under another name, with the id of a source already there, it is accepted |
| `Registry.UpdateKeepsInv` | bark_detector/controller.py:226-245 | editing or renaming keeps the invariant and the id, and touches no other source |
| `Registry.DeleteKeepsInv` | bark_detector/controller.py:262-268 | deleting keeps the invariant and removes that source alone |
| `SourceRules.AddIff` | bark_detector/controller.py:209-217 | an add goes through exactly when its request builds and its name is free; the new source has the request's fields and comes last |
| `SourceRules.UpdateIff` | bark_detector/controller.py:226-245 | an edit goes through exactly when the source exists, the request builds and a new name is free; the source keeps its place and id and has the request's fields, with built-in values for those left out |
| `SourceRules.DeleteIff` | bark_detector/controller.py:262-268 | a delete goes through exactly when the source exists, and takes every source of that name |
| `SourceRules.EditRefusals` | bark_detector/controller.py:209-268 | which refusal an edit gets: no such source, the name is taken, or a reason true of the request |
| `Registry.RunKeepsInv` | bark_detector/controller.py:209-268 | every interleaving of lock-held edits keeps the invariant |
| `Registry.EveryRunReloads` | bark_detector/controller.py:209-268 | after every interleaving names and ids are unique and a reload returns the in-memory sources without writing |
| `Registry.StartEstablishesInvIff` | bark_detector/config.py:356-394 | a directory that loads starts the registry in its invariant if and only if no file has an empty id and the ids, given or minted, are all different |
| `Registry.LoadedIdsApart` | bark_detector/config.py:366-394 | the loaded sources' ids are unique if and only if the files' given and minted ids are |
| `Registry.TwoFilesOneId` | bark_detector/config.py:366-376 | two files with different names and one id load, and the registry starts with that id twice |
| `Registry.OneIdTwice` | bark_detector/config.py:250-315 | two sources for which both failures happen |
| `Registry.TempIsNotYaml` | bark_detector/config.py:596-614 | a temporary file is never read as a source |
| `Registry.AddCrashSafe` | bark_detector/controller.py:215-217 | a reload from any state that `EditAdd` passes through gives the sources before or after the add |
| `Registry.UpdateCrashSafe` | bark_detector/controller.py:241-245 | a reload from any state that `EditUpdate` passes through succeeds with the other sources intact; both versions exist only between a rename's save and its delete |
| `Registry.DeleteCrashSafe` | bark_detector/controller.py:267-268 | a reload from any state that `EditDelete` passes through gives the sources before or after the delete |
| `Interleaving.StepKeepsAgreement` | bark_detector/controller.py:209-274 | each section of a call keeps sources, worker table and announced sources in step, if calls in progress touch other names |
| `Interleaving.DisjointCallsAgree` | bark_detector/controller.py:209-274 | in every interleaving of calls on different names no worker is leaked, and with no call in progress the worker table is the source list and the messages tell of exactly the current sources |
| `Overlaps.NestedIff` | bark_detector/controller.py:209-274 | one whole call (add, update or delete) inside another, after its edit, after its stop, or before its messages: the table ends up equal to the source list, a worker is leaked, and the messages end up right, each if and only if the stated condition on the two calls and the place holds |
| `Overlaps.RunCall` | bark_detector/controller.py:209-274 | a call by itself makes of the worker table what it makes of the source list, announces or clears its source, and leaks a worker only over an occupied name |
| `Overlaps.RenameThenReuse` | bark_detector/controller.py:226-251 | the case of a rename with its old name added again in between: the table is wrong and a worker is leaked |
| `Announcements.AnnounceShows` | bark_detector/controller.py:220-260 | publishing a source makes the broker show it as the one announced under its id |
| `Announcements.ClearShows` | bark_detector/controller.py:271-274 | clearing an id makes the broker show nothing under it |
| `Announcements.ToldMirrors` | bark_detector/mqtt_publisher.py:195-262 | announced sources that tell of exactly the current sources are a broker that mirrors them |
| `WorkerTable.StartAllMatches` | bark_detector/controller.py:73-79 | start gives every source a worker and makes no others |
| `WorkerTable.StartMatches` | bark_detector/controller.py:94-99 | starting a new source's worker keeps the table equal to the sources |
| `WorkerTable.StopMatches` | bark_detector/controller.py:101-117 | stopping a removed source's worker does too, with its stop flag set before its audio source was stopped |
| `Controller.AppController.constructor` | bark_detector/controller.py:51-79 | the controller starts in its invariant, with a worker per loaded source |
| `Controller.AppController.StartWorker` | bark_detector/controller.py:94-99 | the name's entry is a new worker running this source |
| `Controller.AppController.StopWorker` | bark_detector/controller.py:101-117 | out of the table, then stop flag, then audio source |
| `Controller.AppController.WriteSource` | bark_detector/controller.py:217 | under the invariant the save succeeds, is the specification's, and passes only through states a crashed save may leave |
| `Controller.AppController.EraseSource` | bark_detector/controller.py:268 | under the invariant the delete succeeds and is the specification's |
| `Controller.AppController.EditAdd` | bark_detector/controller.py:209-217 | the lock-held edit of add, with its errors and every directory state on the way; the source stored has the request's fields |
| `Controller.AppController.StoreUpdate` | bark_detector/controller.py:242-245 | saves, then on a rename deletes; every state on the way is one of a crashed save or the final one |
| `Controller.AppController.PrepareUpdate` | bark_detector/controller.py:226-240 | finds the source and builds the new one from the request, or says why not |
| `Controller.AppController.EditUpdate` | bark_detector/controller.py:226-245 | the lock-held edit of update, with its errors and every directory state on the way; the source stored has the request's fields |
| `Controller.AppController.EditDelete` | bark_detector/controller.py:262-268 | the lock-held edit of delete, with its errors; the directory goes from the old state to the new one at once |
| `Controller.AppController.AddSource` | bark_detector/controller.py:209-224 | the call is one `After` step of registry, worker table and retained messages, for a source with the request's fields; it keeps the controller's invariant when the id is free |
| `Controller.AppController.Restart` | bark_detector/controller.py:247-257 | replaces the worker and announces the new version |
| `Controller.AppController.UpdateSource` | bark_detector/controller.py:226-260 | so is an edit or rename, for a source with the request's fields; it always keeps the invariant |
| `Controller.AppController.Retire` | bark_detector/controller.py:269-272 | stops the worker and clears the source's messages |
| `Controller.AppController.DeleteSource` | bark_detector/controller.py:262-274 | so is a delete |
| `Controller.AppController.OnConnect` | bark_detector/controller.py:163-186 | with discovery on, a connect makes the broker mirror the sources if and only if it retained nothing of any other source; a reconnect to a mirror changes nothing |
| `Controller.AppController.ApplyMqtt` | bark_detector/controller.py:307-320 | turning discovery off empties the retained messages if and only if MQTT stays enabled with the same prefix; any other change of the settings leaves them alone |
| `Worlds.AddKeepsSound` | bark_detector/controller.py:209-224 | an add with a free id keeps directory, workers and retained messages in step with the sources |
| `Worlds.UpdateKeepsSound` | bark_detector/controller.py:226-260 | so does every edit or rename |
| `Worlds.DeleteKeepsSound` | bark_detector/controller.py:262-274 | so does every delete |
| `AppRuns.RunsStayInSync` | bark_detector/controller.py:209-274 | after every run of calls one at a time, and reconnects, the directory reloads to the sources, the workers run exactly them, and the broker retains exactly their discovery messages |
| `AppRuns.StartInSyncIff` | bark_detector/controller.py:73-79 | loading, starting and the first connect, to a broker that may retain messages from before, set up that state if and only if no file has an empty id, the ids, given or minted, are all different, and the broker retains nothing of any other source |
| `AudioSource.NextKeeps` | bark_detector/audio_source.py:111-178 | every step of either thread, and a child's exit, keeps the lock and child invariant |
| `AudioSource.RunHolds` | bark_detector/audio_source.py:111-178 | the invariant holds in every state of every interleaving |
| `AudioSource.OneChildAtATime` | bark_detector/audio_source.py:111-178 | a spawn happens only with no process set and no child alive; at most one child is ever alive; at most one is spawned after the stop flag; none is alive once run has returned |
| `AudioSource.FlagEndsTheWorker` | bark_detector/worker.py:51-64 | once the flag is set every step of the worker brings it closer to returning and no other step sets it back |
| `AudioSource.WorkerReturnsSoon` | bark_detector/worker.py:51-64 | from then on the worker takes at most 20 more steps in any run |
| `AudioSource.StopIsFinalIff` | bark_detector/controller.py:109-113 | whatever happens after the stop flag is set, no child is alive once a stop is over, if and only if the worker was not about to take the lock for a start, about to read the process, or asleep before a restart |
| `AudioSource.MissedChild` | bark_detector/audio_source.py:123-148 | from each such state a stop can finish and leave a live child; a worker about to read the process ends up blocked on it |
| `AudioSource.StopCanMissAChild` | bark_detector/audio_source.py:135-148 | such a state is reached with the first child running, and the run that follows |
| `AudioSource.ExitedChildNotReadAgain` | bark_detector/audio_source.py:155-163 | once the worker polls a child that has exited it never reads that child again, in any run |
| `AudioSource.ExitedChildIsReplaced` | bark_detector/audio_source.py:123-163 | from that poll, while no stop is requested, 14 steps of the worker are enough for it to read a newer child |
| `AudioSource.ReplacingNotBlocked` | bark_detector/audio_source.py:111-178 | and at each point on that way the worker can take its next step |
| `AudioSource.LiveChildIsKept` | bark_detector/audio_source.py:155-163 | a child that is alive when polled after a short read is left alone |
| `Retention.PickVictims` | bark_detector/cleanup.py:71-84 | the fewest oldest rows whose removal brings the total under the cap, and the total before |
| `Retention.SumSizes` | bark_detector/cleanup.py:69-101 | the total size of the rows' files, a missing file counting nothing |
| `Retention.PassKeepsNewest` | bark_detector/cleanup.py:35-94 | a pass keeps a newest suffix of the age order with no row altered, and nothing older than the age limit |
| `Retention.PassFitsCap` | bark_detector/cleanup.py:61-94 | under a cap that is not negative, the files of the rows left fit, in whatever order they are listed |
| `Retention.AlertIffOverCap` | bark_detector/cleanup.py:74-94 | an alert goes out exactly when the rows left by age exceed the cap; it counts the rows removed, and one fewer would not have been enough |
| `Retention.SecondPassDoesNothing` | bark_detector/cleanup.py:35-94 | a second pass at the same time deletes nothing and sends no alert if and only if the cap is absent or not negative |
| `Retention.NegativeCapAlertsAgain` | bark_detector/cleanup.py:64-94 | the case that shows it: with a cap of -1 MB and no rows, each pass sends an alert |
| `Retention.PassTakesFilesIff` | bark_detector/cleanup.py:35-113 | a pass takes a file off the disk if and only if it can be removed and a removed row names it; every other file is unchanged |
| `Retention.PassInUnits` | bark_detector/cleanup.py:42-94 | with limits in days of 86400 seconds and megabytes of 1000000 bytes: a pass keeps nothing older, keeps everything else unless it sends an alert, sends one only over the cap, and without limits, or with zeros, changes nothing |
| `Retention.PassFitsMegabytes` | bark_detector/cleanup.py:64-94 | after a pass with such a cap the files left fit into it, and an alert tells the cap in bytes |
| `Retention.TotalCounts` | bark_detector/cleanup.py:69-101 | each row adds the size of its file to the total if the file is there, and nothing else does |
| `Retention.TotalOfPermutation` | bark_detector/cleanup.py:69-101 | the total does not depend on how rows of equal age are listed |
| `Retention.IdsNeverReused` | bark_detector/event_store.py:16-27 | whatever is stored and deleted, a row with an id from before is a row from before |
| `Retention.LaterRowsSurvive` | bark_detector/cleanup.py:104-113 | deleting the victims of an earlier listing never deletes a row stored since |
| `Cleanup.EventStore.Add` | bark_detector/event_store.py:40-56 | a new row with the event's values and an id no row has had |
| `Cleanup.EventStore.ListByAge` | bark_detector/event_store.py:76-80 | all rows, each as often as stored, oldest first |
| `Cleanup.EventStore.DeleteIds` | bark_detector/event_store.py:82-88 | removes exactly the rows with these ids |
| `Cleanup.DeleteRows` | bark_detector/cleanup.py:104-113 | every victim's file is tried and every victim's row goes, removable or not |
| `Cleanup.CleanupByAge` | bark_detector/cleanup.py:42-58 | evicts exactly the rows older than the cutoff |
| `Cleanup.CleanupBySpace` | bark_detector/cleanup.py:61-94 | evicts the fewest oldest rows and reports them |
| `Cleanup.RunCleanup` | bark_detector/cleanup.py:35-39 | a pass is age, then space on what is left |
| `Discovery.PublishKeepsMirror` | bark_detector/mqtt_publisher.py:195-210 | after an add, edit or rename the broker retains exactly the messages of the current sources |
| `Discovery.ClearKeepsMirror` | bark_detector/mqtt_publisher.py:212-227 | so it does after a delete |
| `Discovery.RepublishChangesNothing` | bark_detector/mqtt_publisher.py:254-262 | publishing everything again on a reconnect changes nothing |
| `Discovery.ConnectMirrorsIff` | bark_detector/mqtt_publisher.py:254-262 | whatever the broker retains, a connect makes it mirror the sources if and only if it retained nothing of any other source |
| `Discovery.TurningOffClearsIff` | bark_detector/controller.py:308-320 | turning discovery off clears every message if and only if MQTT stays enabled with the same prefix |
| `Discovery.TopicsApart` | bark_detector/ha_discovery.py:17-30 | sources with different ids share no topic |
| `Discovery.KindsDistinct` | bark_detector/ha_discovery.py:17-74 | the three kinds of topic never coincide |
| `Discovery.MirrorTells` | bark_detector/ha_discovery.py:17-67 | a mirror holds for each source, under the two literal topics of its id, the two entities with its current name, labels (or the default ones), topics and unique ids |
| `Discovery.MirrorTellsNoMore` | bark_detector/ha_discovery.py:72-92 | it holds the system entity under its literal topic, and nothing else |
| `Publisher.MqttPublisher.PublishDiscoveryForSource` | bark_detector/mqtt_publisher.py:195-210 | announces the source under both its topics when enabled and discovery is on, and otherwise changes nothing |
| `Publisher.MqttPublisher.RemoveDiscoveryForSource` | bark_detector/mqtt_publisher.py:212-227 | clears both topics whenever enabled, and otherwise changes nothing |
| `Publisher.MqttPublisher.PublishSystemDiscovery` | bark_detector/mqtt_publisher.py:229-239 | the system topic, only when enabled and discovery is on |
| `Publisher.MqttPublisher.RemoveSystemDiscovery` | bark_detector/mqtt_publisher.py:241-252 | the system topic cleared, whenever enabled |
| `Publisher.MqttPublisher.PublishAllDiscovery` | bark_detector/mqtt_publisher.py:254-262 | the system entity, then each source in turn |
| `Publisher.MqttPublisher.RemoveAllDiscovery` | bark_detector/controller.py:315-318 | clears the system entity, then each source |
| `Environments.AcceptedConverting` | bark_detector/controller.py:300-304 | whether an update is accepted depends on the request and the environment, not on the updates before it |
| `Environments.DumpHidesEnvironment` | bark_detector/config.py:488-576 | one file under two environments that set the same variables and load it, and any updates whose fate the environment cannot decide, refused ones included, is written back the same: nothing from the environment reaches the file |
| `Environments.VerdictsHideIff` | bark_detector/config.py:36-56 | the same series of updates is accepted under all such environments if and only if none of them, otherwise convertible, has a number for a text setting that the environment sets and the file has not made a number |
| `Environments.FilesHideIff` | bark_detector/controller.py:300-305 | what is written after one update is the same under all such environments if and only if that holds of it or it changes nothing left to the file |
| `Environments.RefusalShows` | bark_detector/controller.py:300-305 | the case that shows it: with the topic from the environment, a request for topic 3 and another host changes the host or not, as the topic is a number or not |
| `AppConfig.RoundTripIff` | bark_detector/config.py:432-576 | loading the dumped config under the same environment gives it back if and only if no text setting set by the environment holds a number or truth value in the file and the sources directory is not lost |
| `AppConfig.ClashingTopic` | bark_detector/config.py:36-56 | a number for the MQTT topic in the file and a topic in the environment: it loads, and does not read back |
| `AppConfig.LostDirectory` | bark_detector/config.py:432-576 | another default directory and a file naming the built-in one: it loads, and does not read back |
| `AppConfig.DumpIsIdempotentIff` | bark_detector/config.py:509-576 | every dump of a loaded config loads again, and dumping that writes the same file if and only if the sources directory is not lost |
| `AppConfig.UpdatesAreOverlay` | bark_detector/controller.py:300-305 | updating a loaded config is loading the file with the requested MQTT keys laid over it |
| `AppConfig.RoundTripAfterUpdatesIff` | bark_detector/controller.py:300-305 | after any series of partial MQTT updates, accepted or refused, the config reads back if and only if no clashing value is left in the file overlaid with the accepted requests and the sources directory is not lost |
| `AppConfig.TwoUpdatesAreOne` | bark_detector/controller.py:300-305 | two partial updates go through, and end up, like one with the merged request |
| `AppConfig.VariableDecidesIff` | bark_detector/config.py:36-87 | where the file value converts, a set variable decides alone, if and only if that value is not a number or truth value for a text setting (what it then gives is `SettingRules.LoadedAsGiven`) |
| `SettingRules.LoadsIff` | bark_detector/config.py:36-87 | a config loads exactly when, setting by setting, the file's value and the variable's text convert as that setting needs |
| `SettingRules.LoadedAsGiven` | bark_detector/config.py:217-247 | by literal variable name and default, each setting is the variable's text converted, else the file's value converted, else the default; an empty credential is none |
| `SettingRules.DumpedIff` | bark_detector/config.py:509-576 | a setting is written, as it is, exactly when no variable sets it and it differs from what an empty file gives |

## Left out

- Recording.SnippetRecorder.WriteOut: the file is the list of its chunks; the WAV header and write errors are not modelled.
- SnippetFacts.NoSnippetOverwrittenIff: filenames are compared within one recorder; two sources whose names and labels join to the same text are not compared.
- Worker.SourceWorker.ProcessChunk: near-miss and other log lines are not modelled, and a store or publisher that fails is still an attempt in `offered` and `published`.
- Detector.DetectRaw: TFLite inference and float32 rounding are not modelled; class scores, any valid descending top 20, and the chunk's volume are inputs, and all arithmetic is on exact reals.
- SourceFiles.SourceDirectory.LoadSources: a directory that cannot be written, where a migration is skipped with a warning, is not modelled; the states on the way are stated only for a load that goes through.
- Sources.BuildIsValid: explicit null values, and names or lists of another type than the settings page sends, are not modelled.
- Registry.AddKeepsInvIff: that a minted uuid is new is a hypothesis on the minted id (`IdFree`), not proved; likewise `GoodMint` and `IdsApart` for a load.
- Controller.AppController.ApplyMqtt: covers the publisher side of `update_mqtt`; merging and persisting the settings is `AppConfig`, and moving to another broker is not modelled.
- Controller.AppController.UpdateSource: calls run one at a time here; overlapping calls are on values in `Interleaving`, where stopping a worker is one step.
- Overlaps.NestedIff: is for one whole call inside another; for calls on the same names whose sections alternate further there is no such condition.
- AudioSource.OneChildAtATime: the child is on values, not an object, because two threads share it; a `Popen` that raises, and a child that outlives its kill, are not modelled, and how long a read blocks is not bounded. An exception while a chunk is processed (a WAV file that cannot be written, `bark_detector/snippet.py:155`, reached from `bark_detector/worker.py:105`) ends the thread without stopping the audio source and leaves its child alive; the state machine has no such step.
- Retention.LaterRowsSurvive: is about rows; a file that a victim and a later row both name is removed with the victim.
- Discovery.PublishKeepsMirror: value templates, constant payload keys, and topic prefixes containing braces are not modelled.
- ffmpeg command lines and `probe.py`: strings handed to another program.
- YAML syntax and disk-full errors: a source file is a parsed record or unreadable.
- MQTT networking, acknowledgements, the bridge status, per-source status topics and the rounding in trigger and event payloads.
- The status watchdog, `list_recent`, `compute_stats`, `test_source`, web pages, the websocket hub, `main.py`, `esphome/` and `test-rig/`.
