# A verified model of parts of CMS

CMS is a system that runs programming contests. This project models six parts of it in Dafny and
proves what they promise. Every part keeps the form it has in the source: objects that change are
classes, loops are loops with invariants, and each is proved against a specification whose
properties are lemmas.

* **The live scoreboard** (`ScoreSpec`, `ScoreTheorems`, `ScoreRuns`, `Scores`, `StoreSpec`,
  `MirrorSpec`, `GlobalHistory`, `Scoring`, `ServerSpec`, `Server`). Six stores with foreign keys
  and recursive cascading deletes; one Score object for each user and task that keeps an incremental
  history; callbacks that keep the two in step and tell the clients. The main results: incremental
  equals replay, arrival order does not matter, a cascade is exact, the scores mirror the stores over
  every run of requests, and clients that only see the messages know the entities and the scores.
* **The file cache** (`FileCacher`, `CacheRuns`, `CacheEnds`, `FileObjects`). Processes that put, get and delete files
  step by step, with partial reads and writes, buffers, crashes and unlinked files, against a directory and a
  backend (a file system, a database or none). In every reachable state every visible file is complete
  and has its digest, every request ends under every schedule, and what was put can be got.
* **The incremental builder** (`CmsMake`). The depth-first search with its cycle check and its
  comparison of times: exact cycle detection, every action at most once and after its dependencies,
  exactly the outdated ones, and an incremental build that equals a clean one.
* **Dump and reload** (`DumpFormat`, `Exporting`, `Importing`). A worklist that writes a possibly
  cyclic graph of objects, and a two-pass import of it; together they give an isomorphic graph.
* **The broadcast stream** (`EventStream`, `Publishing`). The text of server-sent events read by
  section 9.2.6 of the HTML Standard, and a bounded replay cache. A client that reconnects any number
  of times, and whose connection may break in the middle of a line, gets the messages exactly once and
  in order, and all of them once it has read a connection out.
* **Smaller parts**: ratings and ranks of games between submissions (`Rating`, `Odds`), moving objects
  between containers (`Containers`), and encryption of short texts (`Crypto`).

Conventions: an exception is an outcome (`Outcome`, `None` or `false`); scores and ratings are real
numbers; keys and digests are strings; the time of day, the digest function, the cipher, the random
block and the lengths of reads and writes are parameters or nondeterministic choices. `Valid`,
`Holds` and similar predicates tie the fields of an object to the value that the specification
speaks of. A ghost `log`, `history` or `order` records what happened so that theorems can mention it.

Where the code and its documentation differ, the model follows the code:

* `cmsranking/Scoring.py:200-201` says that a new submission cannot change the history. In the max
  mode that holds exactly when the history has no negative score
  (`ScoreTheorems.CreateSubmissionMaxExact`). In the max_subtask mode it holds when no column was
  negative after any change, and only then if no two changes happen at the same time
  (`ScoreTheorems.CreateSubmissionSubtaskExact`); between changes of one moment a negative column can
  go unnoticed (`ScoreTheorems.EqualTimesExample`). In the max_tokened_last mode it always holds.
* `cmsranking/Scoring.py:302-306` drops the changes of a submission that changes user or task;
  `MirrorSpec.MoveCompleteExact` says exactly when that is harmless.
* `cmsranking/Scoring.py:182-185` replaces a change in place even if its time changes;
  `ScoreRuns.ReplaceSortsExactly` says when the list stays sorted, and
  `ScoreRuns.MovedChangeCounterexample` shows the histories that differ when it does not.
* `cmstaskenv/cmsMake.py:667-675` runs an action only if a dependency is strictly more recent, so a
  source changed within the clock tick in which its target was made is overlooked;
  `CmsMake.FreshExactly` says exactly which targets are up to date in the end.
* `cmsranking/Store.py:221` checks keys of a merged list only up to their first character, and the
  pattern of `cmsranking/RankingWebServer.py:152` lets one line feed pass at the end of a key.
* `cmscommon/eventsource.py:147` sends a marker without data, which a client that follows the
  standard never delivers.
* `cms/db/fsobject.py:398` unlinks a large object at once, the row goes when the session commits.
  A crash in between leaves a row that no get can load and no put repairs
  (`CacheRuns.DeleteBreaksOff`, `CacheRuns.BrokenRowStays`), although a put then reports success.
* `cmscommon/crypto.py:77-80`: a text that one byte would fill up to a whole block gets a block of
  zeros more, so up to 16 zero bytes follow the 0x01, not 15.

## Model

| member | source | states |
|---|---|---|
| ScoreSpec.ResetStep | cmsranking/Scoring.py:152-154 | Replaying n+1 changes is replaying n of them and then appending the next one, for the submissions, the released scores, the last submission and the history at once |
| ScoreTheorems.StatusIsLatest | cmsranking/Scoring.py:105-110 | After any changes a submission has the latest score, token and extra that some change set, and the defaults where none did |
| ScoreTheorems.AbsorbKeepsTokened | cmsranking/Scoring.py:103-112 | One change keeps the multiset of released scores equal to the multiset of the scores of the tokened submissions, so the score removed is always there |
| ScoreTheorems.ReleasedIsTokened | cmsranking/Scoring.py:103-112 | In every replay each number is released as often as there are tokened submissions with that score |
| ScoreTheorems.TokenIsHeld | cmsranking/Scoring.py:103-104 | The score of a tokened submission is among the released ones, so the removal from the multiset never fails |
| ScoreTheorems.LastIsLatestScored | cmsranking/Scoring.py:113-116 | The last submission is one that some change scored, and none that was scored is later |
| ScoreTheorems.LastIsUnique | cmsranking/Scoring.py:113-116 | With distinct submission times only one submission qualifies as the last |
| ScoreTheorems.LastIsFirstOfTies | cmsranking/Scoring.py:113-116 | Among equally late submissions the last one is the one that was scored first |
| ScoreTheorems.ScoreIsDeclared | cmsranking/Scoring.py:118-130 | The score computed after a change is the declared one of its mode: the maximum, the sum of the zero-padded column maxima, or the maximum of the tokened and the last score |
| ScoreTheorems.CurrentScoreIsDeclared | cmsranking/Scoring.py:134-138 | get_score after any replay is the declared score of the latest values, although the history skips repeated scores |
| ScoreTheorems.PointIsDeclared | cmsranking/Scoring.py:152-154 | Every point a replay computes is the declared score of the changes up to there, at the time of the last of them |
| ScoreTheorems.CompressInTimeOrder | cmsranking/Scoring.py:134-135 | A history keeps the time order of its points, has no two equal scores in a row and does not start with 0 |
| ScoreTheorems.HistoryInTimeOrder | cmsranking/Scoring.py:134-135 | Sorted changes give a history that is non-decreasing in time |
| ScoreTheorems.CreateSubmissionMaxExact | cmsranking/Scoring.py:199-205 | In the max mode a new submission may skip the recomputation exactly if the history holds no negative score |
| ScoreTheorems.SubtaskPointsExact | cmsranking/Scoring.py:122-127 | In the max_subtask mode a new submission leaves the score after every change as it was exactly if no column maximum was negative after any change |
| ScoreTheorems.CreateSubmissionSubtask | cmsranking/Scoring.py:199-205 | In that case the skipped recomputation makes no difference to the whole Score, at whatever times the changes happen |
| ScoreTheorems.CreateSubmissionSubtaskExact | cmsranking/Scoring.py:199-205 | In the max_subtask mode, when no two changes happen at the same time, a new submission may skip the recomputation exactly if no column maximum was negative after any change |
| ScoreTheorems.CreateSubmissionSubtaskMoments | cmsranking/Scoring.py:199-205 | With changes at equal times, a negative column after the last change of a moment still makes the live history differ from its replay |
| ScoreTheorems.CompressIsInjective | cmsranking/Scoring.py:134-135 | With no two points at the same time a recorded history determines the score after every change, although repeats are skipped |
| ScoreTheorems.CompressShowsAll | cmsranking/Scoring.py:134-135 | With sorted changes the recorded history shows for every moment the score after the last change up to then, although repeats are skipped |
| ScoreTheorems.EqualTimesExample | cmsranking/Scoring.py:199-205 | Two changes at one time, a negative column between them, and a live history that equals its replay |
| ScoreTheorems.NegativeSubtaskCounterexample | cmsranking/Scoring.py:199-205 | A negative score with a second submission in the max_subtask mode: the live history differs from its replay |
| ScoreTheorems.CreateSubmissionInSync | cmsranking/Scoring.py:199-205 | With non-negative values a new submission never needs a recomputation; in the max_tokened_last mode not even that is required |
| ScoreRuns.InsertSorts | cmsranking/Scoring.py:167-171 | Inserting a change that is not the latest keeps the list strictly sorted by time and key and adds just that change |
| ScoreRuns.SortedIsUnique | cmsranking/Scoring.py:156-172 | Two strictly sorted lists with the same changes are the same list |
| ScoreRuns.ReplaceSortsExactly | cmsranking/Scoring.py:179-185 | An update in place keeps the list sorted exactly if the change still fits between its neighbours |
| ScoreRuns.DoShows | cmsranking/Scoring.py:156-222 | Every allowed operation takes a Score that equals the replay of what it was told to one that equals the replay of what it has then been told |
| ScoreRuns.RunShows | cmsranking/Scoring.py:97-222 | Incremental equals replay: after any allowed run the whole Score is what clearing it and replaying the sorted changes gives |
| ScoreRuns.RunExists | cmsranking/Scoring.py:97-222 | No allowed run fails on the way |
| ScoreRuns.ArrivalOrderIsIrrelevant | cmsranking/Scoring.py:156-177 | Two runs that end with the same submissions and changes end with the same Score, in whatever order things arrived |
| ScoreRuns.ReloadReproduces | cmsranking/Scoring.py:259-269 | Loading the submissions and then the changes, each in any order, reproduces the live Score |
| ScoreRuns.MovedChangeCounterexample | cmsranking/Scoring.py:179-185 | When an update changes the time of a change, the live history can run backwards, and a reload in either order gives another history with another last score |
| Scores.NumberSet.Query | cmsranking/Scoring.py:56-57 | query returns the largest of the numbers and 0 |
| Scores.NumberSet.Remove | cmsranking/Scoring.py:53-54 | remove takes away one occurrence |
| Scores.MaxScore | cmsranking/Scoring.py:118-121 | The loop of the max mode computes the largest score of the submissions, 0 without any |
| Scores.ColumnMax | cmsranking/Scoring.py:122-127 | One column of the zip: its maximum with short rows padded by 0 |
| Scores.MaxSubtaskScore | cmsranking/Scoring.py:122-127 | The loop over the columns computes the sum of the column maxima up to the longest row |
| Scores.Inserted | cmsranking/Scoring.py:167-171 | The loop inserts the change before the first later one |
| Scores.KeepOtherKeys | cmsranking/Scoring.py:195 | The list without the changes of that key, in order |
| Scores.KeepOtherSubmissions | cmsranking/Scoring.py:221 | The list without the changes of that submission, in order |
| Scores.Score.ComputeScore | cmsranking/Scoring.py:118-132 | The score of the submission objects is the score of the abstract board in the current mode |
| Scores.Score.AppendChange | cmsranking/Scoring.py:97-135 | append_change on the objects, including the aliased last submission, is the specified step |
| Scores.Score.ResetHistory | cmsranking/Scoring.py:140-154 | The clearing and the replaying loop end in the specified replay |
| Scores.Score.CreateSubchange | cmsranking/Scoring.py:156-177 | create_subchange appends and applies, or inserts and replays, as specified |
| Scores.Score.UpdateSubchange | cmsranking/Scoring.py:179-190 | update_subchange replaces in place and replays, once for every occurrence of the key, as specified |
| Scores.Score.DeleteSubchange | cmsranking/Scoring.py:192-197 | delete_subchange filters and replays as specified |
| Scores.Score.CreateSubmission | cmsranking/Scoring.py:199-205 | create_submission adds a blank submission and computes nothing |
| Scores.Score.UpdateSubmission | cmsranking/Scoring.py:207-212 | update_submission swaps the object and replays |
| Scores.Score.DeleteSubmission | cmsranking/Scoring.py:214-222 | delete_submission drops the submission with its changes and replays |
| Scores.Score.Perform | cmsranking/Scoring.py:156-222 | Any operation on the objects does to their abstract state what the specification says |
| Scores.Score.UpdateScoreMode | cmsranking/Scoring.py:224-225 | update_score_mode changes the mode and nothing else |
| StoreSpec.ReachGoesUp | cmsranking/RankingWebServer.py:549-565 | A chain of references always goes up the kinds, so it cannot be circular |
| StoreSpec.ReachIsTransitive | cmsranking/Store.py:285-288 | References compose |
| StoreSpec.InconsistentIffReferrer | cmsranking/Store.py:285-288 | While a deletion cascades, the entities a depending store finds inconsistent are exactly those that refer to the deleted one |
| StoreSpec.RemainingStep | cmsranking/Store.py:285-288 | Deleting one inconsistent entity with all that refers to it brings the cascade one entity further |
| StoreSpec.RemainingIsPrune | cmsranking/Store.py:258-288 | When a cascade has gone through its depending stores, exactly what refers to the key directly or transitively is gone |
| StoreSpec.PruneIntegral | cmsranking/Store.py:258-288 | What a cascade leaves has referential integrity |
| StoreSpec.PutIntegral | cmsranking/Store.py:141-154 | Creating or updating a consistent entity keeps referential integrity |
| MirrorSpec.DoFollows | cmsranking/Scoring.py:156-222 | Whatever the stores admit keeps a Score following its content: with the right submissions, with all changes, or equal to the replay |
| MirrorSpec.ContentIsUnique | cmsranking/Scoring.py:284-367 | What the stores hold for a user and a task is determined by its entries |
| MirrorSpec.MirrorStep | cmsranking/Scoring.py:284-367 | An operation on one Score that matches a step of the stores keeps the mirror for every user and task |
| MirrorSpec.MoveKeepsMirror | cmsranking/Scoring.py:299-311 | A submission that moves to another user or task leaves every Score mirroring the stores, without empty Scores |
| MirrorSpec.MoveCompleteExact | cmsranking/Scoring.py:302-311 | Moving a submission keeps all its changes in the scores exactly if it has none: the code drops them |
| MirrorSpec.MoveLosesChange | cmsranking/Scoring.py:302-311 | A change of a moved submission is missing from the scores while it is still in the store |
| GlobalHistory.PopLeast | cmsranking/Scoring.py:394-404 | The heap gives the least item by time and score |
| GlobalHistory.Merge | cmsranking/Scoring.py:381-406 | The merge ends and is an interleaving that has every history entry exactly once and keeps each history's own order; it is time-sorted exactly if every history is |
| Scoring.HeardTransitive | cmsranking/Scoring.py:280-282 | Notes heard over two periods are heard over both together |
| Scoring.AfterHeard | cmsranking/Scoring.py:290-330 | An operation on one Score, even one that removes it, is told exactly if it changes the score |
| Scoring.ScoringStore.GetScore | cmsranking/Scoring.py:369-374 | get_score is the last score in the history, 0 for a user and a task without a Score |
| Scoring.ScoringStore.CreateSubmission | cmsranking/Scoring.py:284-297 | create_submission makes the Score if needed, adds the submission and notifies if the score changed |
| Scoring.ScoringStore.MoveSubmission | cmsranking/Scoring.py:299-306 | The branch for a changed user or task removes the submission from one Score and adds it to the other, removing a Score that becomes empty |
| Scoring.ScoringStore.RenewSubmission | cmsranking/Scoring.py:307-316 | The branch for the same user and task replays under the old mode and then sets the mode |
| Scoring.ScoringStore.UpdateSubmission | cmsranking/Scoring.py:299-316 | update_submission takes one of the two branches |
| Scoring.ScoringStore.DeleteSubmission | cmsranking/Scoring.py:318-330 | delete_submission removes the submission, the Score when it was the last one and the inner map when it becomes empty |
| Scoring.ScoringStore.CreateSubchange | cmsranking/Scoring.py:332-339 | create_subchange reaches the Score of its submission and notifies |
| Scoring.ScoringStore.UpdateSubchange | cmsranking/Scoring.py:341-353 | update_subchange within one Score |
| Scoring.ScoringStore.DeleteSubchange | cmsranking/Scoring.py:355-367 | delete_subchange of a submission that is still there |
| Scoring.ScoringStore.GetGlobalHistory | cmsranking/Scoring.py:381-406 | get_global_history over the objects is the merge of the histories of all Scores |
| ServerSpec.ReportedTransitive | cmsranking/RankingWebServer.py:279-280 | Events of two periods take a client through both |
| ServerSpec.DeleteSubmissionCarries | cmsranking/Scoring.py:318-330 | Deleting a submission after its changes are gone from the store carries the mirror over, although the Score still held them |
| ServerSpec.DeleteChangeCarries | cmsranking/Scoring.py:355-367 | Deleting a change carries the mirror over when its submission is still there |
| ServerSpec.CreateSubmissionCarries | cmsranking/Scoring.py:284-297 | Creating a submission carries the mirror and the notes over |
| ServerSpec.RenewSubmissionCarries | cmsranking/Scoring.py:307-316 | Updating a submission in place carries the mirror and the notes over |
| ServerSpec.MoveSubmissionCarries | cmsranking/Scoring.py:299-306 | Moving a submission carries the mirror and the notes over |
| ServerSpec.CreateChangeCarries | cmsranking/Scoring.py:332-339 | Creating a change carries the mirror and the notes over |
| ServerSpec.SetChangeCarries | cmsranking/Scoring.py:349-353 | Updating a change of the same submission carries the mirror and the notes over |
| ServerSpec.TransferChangeCarries | cmsranking/Scoring.py:341-348 | Updating a change to another submission is a deletion and a creation for the scores |
| ServerSpec.CascadeDeletes | cmsranking/Store.py:285-288 | A nested delete in the middle of a cascade keeps what the outer one needs |
| ServerSpec.MergeStep | cmsranking/Store.py:232-247 | Each entity that merge_list puts into the store keeps integrity, mirror, events and notes |
| ServerSpec.NextTable | cmsranking/RankingWebServer.py:150-239 | The stores after a request have referential integrity |
| ServerSpec.TableAfter | cmsranking/RankingWebServer.py:150-239 | The stores after any run of requests have referential integrity |
| ServerSpec.ScoreboardIsDeclared | cmsranking/Scoring.py:369-374 | The score shown for a user and a task is the declared score of the submissions and the sorted subchanges in the stores, and its history is in time order |
| ServerSpec.ShowingIsUnique | cmsranking/Scoring.py:259-269 | The stores determine the scores that show them, histories included, so a reload reproduces them |
| ServerSpec.EmptyMirrors | cmsranking/Scoring.py:245-257 | The empty server mirrors perfectly |
| Server.RankingServer.OnDelete | cmsranking/Scoring.py:355-367 | The delete callbacks: a change whose submission is gone is ignored, in mid-cascade, and nothing else is |
| Server.RankingServer.Delete | cmsranking/Store.py:258-288 | delete ends, removes exactly what refers to the key, never meets a missing key, tells the clients and carries the mirror over |
| Server.RankingServer.Sweep | cmsranking/Store.py:285-288 | The loop over a snapshot of one depending store deletes exactly the entities that refer to the deleted one, and every key it deletes is still there |
| Server.RankingServer.Create | cmsranking/Store.py:126-162 | create: the error cases, the new stores, integrity, events and notes |
| Server.RankingServer.Update | cmsranking/Store.py:164-201 | update: the error cases, the new stores, integrity, events and notes |
| Server.RankingServer.Parse | cmsranking/Store.py:217-230 | The first loop of merge_list accepts exactly if every key, value and reference is acceptable, and changes nothing |
| Server.RankingServer.MergeList | cmsranking/Store.py:203-247 | merge_list changes nothing when it raises and otherwise puts every entity, whatever the order |
| Server.RankingServer.Remove | cmsranking/RankingWebServer.py:214-228 | A deletion on its own keeps integrity and the mirror and tells the clients |
| Server.RankingServer.DeleteList | cmsranking/Store.py:290-299 | delete_list removes a whole store with exactly what refers to it; no cascade removes a key of the snapshot, so no deletion fails |
| Server.RankingServer.Handle | cmsranking/RankingWebServer.py:150-239 | One request does to the stores what is specified, and clients can follow it |
| Server.RankingServer.Serve | cmsranking/RankingWebServer.py:242-284 | Over any run of requests clients that apply the events know exactly the entities, the last note of every user and task is its score, and the mirror is kept |
| Server.RankingServer.InitStore | cmsranking/Scoring.py:259-269 | init_store mirrors the loaded stores completely, and shows them when all changes fit their order |
| CmsMake.AddOutputs | cmstaskenv/cmsMake.py:609-613 | The loop over the outputs of one action raises exactly at a target that is there already |
| CmsMake.BuildExecutionTree | cmstaskenv/cmsMake.py:597-620 | build_execution_tree raises exactly if two outputs are equal; otherwise every output leads to its action, every other input to a source, and the tree is closed |
| CmsMake.PathGoesBack | cmstaskenv/cmsMake.py:654-662 | Every path from a finished target goes back in the order in which targets were finished |
| CmsMake.FinishedIsAcyclic | cmstaskenv/cmsMake.py:634-662 | No circular dependency can be reached from a finished target |
| CmsMake.DependenciesFirst | cmstaskenv/cmsMake.py:654-680 | All transitive dependencies of a target are finished before it |
| CmsMake.ReachableIsFinished | cmstaskenv/cmsMake.py:654-662 | Whatever a finished target depends on, however indirectly, is finished |
| CmsMake.FinishedIsOnDisk | cmstaskenv/cmsMake.py:667-675 | With the sources on the disk and positive times every finished target is on the disk, so no stat of a dependency fails |
| CmsMake.OneOutputActions | cmstaskenv/cmsMake.py:597-620 | A tree built from actions with one output and some input has the form the freshness theorems need |
| CmsMake.BuildProgress | cmstaskenv/cmsMake.py:664-680 | Along any run the finished targets are fresh and what changed is newer than anything was, if at the start whatever was not older than its dependencies was fresh |
| CmsMake.RanExactly | cmstaskenv/cmsMake.py:664-680 | Minimality: the action of a finished target is run exactly if the target, or something it leads to, had a more recent dependency at the start; the file is untouched exactly otherwise |
| CmsMake.FreshExactly | cmstaskenv/cmsMake.py:667-675 | A finished target is fresh in the end exactly if something it leads to had a more recent dependency at the start or it was fresh already: a change with an equal time goes unnoticed |
| CmsMake.EqualTimesCounterexample | cmstaskenv/cmsMake.py:667-675 | A source changed within the same clock tick as its target: nothing is run and the target stays out of date |
| CmsMake.HonestIsTrusted | cmstaskenv/cmsMake.py:667-675 | Where whatever is not older than its dependencies is fresh, nothing a finished target leads to is out of date unnoticed |
| CmsMake.IncrementalEqualsClean | cmstaskenv/cmsMake.py:623-690 | An incremental build and a build with all generated files removed agree on the content of every target that both have finished, if nothing that target leads to was out of date unnoticed |
| CmsMake.Builder.ExecuteTarget | cmstaskenv/cmsMake.py:623-680 | execute_target ends; it finishes the target after its dependencies and only what is reachable, runs exactly the stale actions, each once, and reports a circular dependency only if there is one |
| CmsMake.Builder.Refresh | cmstaskenv/cmsMake.py:664-680 | The comparison of times and the action: it acts exactly if a dependency is more recent |
| CmsMake.Builder.ExecuteMultipleTargets | cmstaskenv/cmsMake.py:685-690 | Over all requested targets: circular exactly if a cycle is reachable, otherwise everything needed is finished once and in order, run exactly if outdated, and fresh exactly if run or fresh before |
| FileCacher.CopyEnds | cms/db/filecacher.py:62-72 | When everything has been read, written and flushed the copy is the original, however little each call moved |
| FileCacher.KeepsSafe | cms/db/filecacher.py:582-628 | A step that writes only its own file and publishes only complete ones keeps every other process and every visible file intact |
| FileCacher.OnCache | cms/db/filecacher.py:622 | A rename into the cache publishes a complete file |
| FileCacher.OnBackend | cms/db/filecacher.py:253-259 | A rename into the store or the insertion of a row publishes a complete file, also over one that appeared meanwhile |
| FileCacher.OnRemove | cms/db/filecacher.py:873-886 | Removing names, whoever does it and whenever, leaves the open files as they are |
| FileCacher.PutSafe | cms/db/filecacher.py:782-795 | The create, commit and rename steps of a put are safe |
| FileCacher.GetSafe | cms/db/filecacher.py:591-628 | The open, miss and rename steps of _load are safe |
| FileCacher.FoundSafe | cms/db/filecacher.py:311-321 | Opening a file of the backend that was found a moment ago is safe, also if it has gone |
| FileCacher.StepSafe | cms/db/filecacher.py:582-886 | Any step of any process, including a crash and the removal of cache entries by anyone, keeps the invariant |
| CacheRuns.Run | cms/db/filecacher.py:582-886 | Any interleaving of any number of processes keeps the invariant |
| CacheRuns.VisibleIsComplete | cms/db/filecacher.py:677-694 | In every reachable state every file that can be opened, in the cache or in the backend, is complete and has its digest, a get returns bytes with the digest asked for and a put returns the digest of its bytes; without deletes every row of the backend can be opened |
| CacheRuns.StepKeeps | cms/db/filecacher.py:344-373 | Without deletes the backend only grows, and a get can fail only for what the backend did not have |
| CacheRuns.PutThenGet | cms/db/filecacher.py:582-628 | From the moment a digest is in the backend and without deletes, no get of it that starts can fail, whoever empties the cache |
| CacheRuns.RoundTrip | cms/db/filecacher.py:734-813 | Without collisions and deletes, whatever was put is got back by any process at any later time |
| CacheEnds.AdvanceLowers | cms/db/filecacher.py:62-72 | Every step of a busy process brings it nearer to its end, so no loop spins |
| CacheEnds.OthersDoNotRaise | cms/db/filecacher.py:582-797 | No step of another process sets a process back |
| CacheEnds.ComesToRest | cms/db/filecacher.py:62-72 | Under every schedule of the processes some number of its own steps brings a process to rest |
| CacheEnds.RequestEnds | cms/db/filecacher.py:582-886 | Every request ends, whatever the others do: a put with the digest of its source, a delete as deleted, a get with what it asked for or with an error |
| CacheEnds.GetArrives | cms/db/filecacher.py:582-628 | Without deletes a get of what the backend has arrives under every schedule: with the file in the cache, or with bytes that have the digest |
| CacheRuns.AdvanceIsFaithful | cms/db/filecacher.py:582-871 | The next step of a process stays with the digest asked for; a put ends with its file in the cache, a load with the digest in the cache and a delete with the digest out of the backend |
| CacheRuns.RunAnswers | cms/db/filecacher.py:582-886 | However the processes interleave, an answer belongs to the last request its process took up: the digest asked for, content only when content was asked for, the source of a put |
| CacheRuns.TombstoneStaysOut | cms/db/filecacher.py:642-730 | Along any run a request for the tombstone never reaches the cache or the backend, and nothing is stored under it |
| CacheRuns.DeleteForgets | cms/db/filecacher.py:862-884 | A delete that has ended leaves the digest in neither the cache nor the backend, and it stays away while nobody puts or gets it, whatever happens to other digests |
| CacheRuns.BrokenRowStays | cms/db/filecacher.py:379-394 | A row whose large object is gone is repaired by nothing but another delete: no get loads the digest from the backend, and puts of it end without storing it |
| CacheRuns.DeleteBreaksOff | cms/db/fsobject.py:394-399 | A delete that crashes between unlinking the large object and deleting the row leaves such a row |
| FileObjects.WriteAll | cms/db/filecacher.py:67-70 | The inner loop writes the whole buffer, however little a write takes |
| FileObjects.CopyFileObj | cms/db/filecacher.py:48-72 | copyfileobj ends, appends exactly the rest of the source and never reads or writes more than the buffer size |
| FileObjects.StoreAndHash | cms/db/filecacher.py:762-776 | One pass over the source gives its digest; what is stored is the whole source exactly if no write failed to report a count |
| FileObjects.HashAll | cms/db/filecacher.py:937-943 | The chunked loop computes the digest of the whole file |
| FileObjects.CheckBackendIntegrity | cms/db/filecacher.py:921-951 | True exactly if every file has its digest; on request exactly the others are deleted, except under the tombstone |
| Numerals.ReadShow | cmscontrib/DumpExporter.py:269-276 | Reading a number in the base it was written in gives it back |
| Numerals.ShowInjective | cmscontrib/DumpExporter.py:269-276 | Different numbers are written differently |
| DumpFormat.DecodeEncode | cmscontrib/DumpImporter.py:86-118 | decode_value undoes encode_value for every known column type, through arrays of any depth |
| DumpFormat.EncodeFails | cmscontrib/DumpExporter.py:101-127 | encode_value raises exactly on values of an unknown type, at any depth |
| DumpFormat.PickedTwice | cmscontrib/DumpImporter.py:420-424 | Replacing the objects of a list and then replacing the results is replacing by the composition, with what is unknown dropped in order |
| DumpFormat.ThroughTwice | cmscontrib/DumpImporter.py:411-430 | The same for every form of a relationship |
| DumpFormat.ClosedHoldsReachable | cmscontrib/DumpExporter.py:240-245 | A set with the roots that is closed under links holds all that can be reached |
| Exporting.NumberedMore | cmscontrib/DumpExporter.py:269-276 | The next id is the number of ids given so far |
| Exporting.IdsDiffer | cmscontrib/DumpExporter.py:269-276 | No two objects share an id |
| Exporting.DecimalPlain | cmscontrib/DumpImporter.py:233-236 | No id starts with an underscore, so ids do not meet the other keys of the file |
| Exporting.WrittenMore | cmscontrib/DumpExporter.py:242-245 | Writing the next object keeps those already written valid, although ids are added meanwhile |
| Exporting.ReachableHaveIds | cmscontrib/DumpExporter.py:240-245 | When everything with an id is written, everything reachable has one |
| Exporting.AllWritten | cmscontrib/DumpExporter.py:230-247 | An empty queue means the file is the dump of exactly what can be reached |
| Exporting.DumpExporter.GetId | cmscontrib/DumpExporter.py:269-276 | get_id gives the id there is or the next one, and queues the object |
| Exporting.DumpExporter.ExportLink | cmscontrib/DumpExporter.py:343-357 | The value of a relationship: nothing, an id, a list or a dictionary of ids, in order and under the same keys |
| Exporting.DumpExporter.ExportObject | cmscontrib/DumpExporter.py:278-359 | export_object raises exactly if a column cannot be encoded and otherwise gives the item of the object, which refers only to objects with ids |
| Exporting.DumpExporter.Drain | cmscontrib/DumpExporter.py:242-245 | The loop over the queue ends, also on cyclic graphs, and writes every object once |
| Exporting.DumpExporter.DoExport | cmscontrib/DumpExporter.py:219-247 | The export fails exactly if something reachable cannot be encoded; otherwise it is densely numbered, has each reachable object once and names the roots |
| Importing.DumpImporter.ImportObject | cmscontrib/DumpImporter.py:355-393 | import_object builds the object with its decoded columns and without relationships |
| Importing.DumpImporter.AddRelationships | cmscontrib/DumpImporter.py:395-430 | add_relationships dereferences every id and drops those that were not imported |
| Importing.DumpImporter.Forget | cmscontrib/DumpImporter.py:238-260 | Exactly the objects of the classes that are left out are forgotten |
| Importing.DumpImporter.Connect | cmscontrib/DumpImporter.py:262-264 | The last loop sets the relationships of every object |
| Importing.DumpImporter.Update | cmscontrib/DumpImporter.py:223-230 | The updaters are run one after another, each from one version to the next, and the version is set after each |
| Importing.DumpImporter.DoImport | cmscontrib/DumpImporter.py:195-265 | The import refuses a newer version, updates an older one, fails exactly if that fails or an object cannot be built, and otherwise has one new object for each id, connected as the updated file says |
| Importing.ThroughWhole | cmscontrib/DumpImporter.py:411-430 | With all its objects known a relationship keeps its shape, its order and its keys |
| Importing.CopyOf | cmscontrib/DumpImporter.py:355-430 | What is imported for an exported object has its class, its columns and its relationships between copies |
| Importing.ReloadedFrom | cmscontrib/DumpImporter.py:233-265 | Importing a dump gives a graph isomorphic to what could be reached, without the classes left out |
| Importing.DumpAndReload | cmscontrib/DumpExporter.py:219-247 | Export and import of any graph, cycles included, give different new objects for exactly the reachable ones, with equal columns and corresponding relationships |
| EventStream.FormatEvent | cmscommon/eventsource.py:37-75 | format_event raises exactly on a name with a line break or a colon; otherwise it gives the id, event and data lines and an empty one |
| EventStream.JoinSplit | cmscommon/eventsource.py:70 | Splitting the data into lines and joining them only turns line breaks into LF |
| EventStream.EventRoundTrip | cmscommon/eventsource.py:56-75 | A client that follows the standard gets the event as sent exactly if it has data and neither its name nor a line of the data starts with a space |
| EventStream.CutLines | cmscommon/eventsource.py:349-370 | Wherever the text breaks off, the complete lines are the first lines |
| EventStream.ReadStream | cmscommon/eventsource.py:349-370 | The first lines of a stream of events and comments give the first events and the id of the last of them |
| EventStream.StreamRoundTrip | cmscommon/eventsource.py:349-370 | From any prefix of the text a client gets the first events as they were sent and knows the id of the last; from the whole text it gets all |
| EventStream.ReinitIsSilent | cmscommon/eventsource.py:145-147 | The marker to start over delivers nothing to a client that follows the standard |
| Publishing.Publisher.PutEvent | cmscommon/eventsource.py:102-118 | put raises without effect on an illegal name; otherwise the cache holds the latest messages and every queue gets the new one at its end |
| Publishing.Publisher.Missed | cmscommon/eventsource.py:134-147 | The loop over the cache fills the queue as specified |
| Publishing.Publisher.GetSubscriber | cmscommon/eventsource.py:120-150 | The new queue starts with what was missed, and from then on gets every message |
| Publishing.Publisher.Get | cmscommon/eventsource.py:171-192 | get takes all that is in the queue, so that what was and will be taken is the start followed by every message put since |
| Publishing.Resubscription | cmscommon/eventsource.py:134-147 | With non-decreasing keys a well-formed id gives either just the marker or every message ever put with a greater key, in order, whatever the cache has dropped |
| Publishing.AfterIsRest | cmscommon/eventsource.py:140-144 | With increasing keys the messages after the last one seen are the rest |
| Publishing.IdComesBack | cmscommon/eventsource.py:113-114 | The id sent back by a client is the key of its message |
| Publishing.OneSession | cmscommon/eventsource.py:120-192 | A client that comes back gets exactly the messages that follow, up to where the connection breaks |
| Publishing.FirstSession | cmscommon/eventsource.py:120-192 | A client that comes for the first time gets the messages put from then on, and all of them when it gets the whole text |
| Publishing.QueueConnects | cmscommon/eventsource.py:120-192 | Every queue of the publisher, with what the server has written from it among comments, is a connection as the theorems below need it |
| Publishing.NothingTwiceNothingMissed | cmscommon/eventsource.py:102-192 | A client that drops anywhere in the text and comes back any number of times, and is never told to start over, gets the messages exactly once and in order, and every message put so far once its last connection is read out |
| Publishing.FromTheFirst | cmscommon/eventsource.py:102-192 | A new client gets the messages put since the first connection that gave it anything was made, exactly once and in order, and all of them once its last connection is read out; a connection that was read out and gave nothing had nothing to give |
| Publishing.QueueText | cmscommon/eventsource.py:134-192 | What a client gets over a connection, with comments anywhere in between, is a beginning of the text of what it missed and of all that followed, and the whole of it when the queue is empty and everything written has arrived |
| Rating.ExpectationsAddUp | cmscontrib/UpdatePvPFinalScore.py:48-50 | For the difference of two ratings the two expected scores lie between 0 and 1 and add up to 1 |
| Odds.FormulaIsCurve | cmscontrib/UpdatePvPFinalScore.py:48-50 | The formula gives expected scores between 0 and 1 that add up to 1, for any positive function in place of the power of ten that takes opposite numbers to reciprocals |
| Odds.StrongerIsFavoured | cmscontrib/UpdatePvPFinalScore.py:48-50 | With a monotone power exactly the player with the higher rating is expected to score more than one half |
| Rating.WinnerGains | cmscontrib/UpdatePvPFinalScore.py:56-65 | A win raises the rating of the winner, lowers that of the loser and touches no other |
| Rating.GameConserves | cmscontrib/UpdatePvPFinalScore.py:56-65 | A game keeps the total of the ratings, even one against oneself |
| Rating.GamesConserve | cmscontrib/UpdatePvPFinalScore.py:172-182 | Any list of games keeps the total |
| Rating.TotalIsConstant | cmscontrib/UpdatePvPFinalScore.py:157-182 | The ratings of a testcase always add up to 1200 times the number of players with a submission |
| Rating.RatingsAreBounded | cmscontrib/UpdatePvPFinalScore.py:52-54 | A rating moves by at most 32 for every game played |
| Rating.Elo.UpdateScores | cmscontrib/UpdatePvPFinalScore.py:56-65 | update_scores takes both expectations from the ratings before the game; an unknown player raises before anything changes |
| Rating.PlayMatches | cmscontrib/UpdatePvPFinalScore.py:172-182 | The first match that is not scored, or that names a player or testcase the task does not have, ends the loop; when there is none every testcase has played its own games in order |
| Rating.EndingIsUnique | cmscontrib/UpdatePvPFinalScore.py:172-182 | There is just one way for the loop to end: done, at an unscored match, or with an exception |
| Rating.Rank | cmscontrib/UpdatePvPFinalScore.py:184-189 | The table is a permutation of the players by non-increasing rating |
| Rating.HigherRatingHigherScore | cmscontrib/UpdatePvPFinalScore.py:184-195 | A strictly higher rating gives a strictly higher score |
| Rating.UpdateFinalScore | cmscontrib/UpdatePvPFinalScore.py:118-211 | The whole run: ratings from all games of each testcase, ranks 1 to n and one over the rank for everybody with a submission |
| Odds.UpdateFinalScoreByFormula | cmscontrib/UpdatePvPFinalScore.py:118-211 | The same with the formula itself: whatever the matches, every testcase ends with a total of 1200 for each player with a submission |
| Crypto.UnpadPad | cmscommon/crypto.py:80 | Removing the padding undoes it |
| Crypto.PaddedLength | cmscommon/crypto.py:80 | The padded length is a multiple of 16; the padding has 2 to 17 bytes, 17 exactly if one byte would have filled the block |
| Crypto.UnchainChain | cmscommon/crypto.py:85-87 | Undoing the chained cipher gives the text back, for any permutation of the blocks |
| Crypto.Base64RoundTrip | cmscommon/binary.py:36-41 | Reading base64 undoes writing it |
| Crypto.BinaryRoundTrip | cmscommon/crypto.py:67-129 | decrypt_binary undoes encrypt_binary for every text and initial block |
| Crypto.CiphertextIsUrlSafe | cmscommon/crypto.py:89-91 | The result has only letters, digits, dots, dashes and underscores |
| Crypto.NumberRoundTrip | cmscommon/crypto.py:132-145 | decrypt_number undoes encrypt_number for every integer |
| Containers.UpdateList | cmscontrib/importing.py:167-197 | _update_list keeps the first objects with the new values, deletes the surplus and moves the missing ones over in order |
| Containers.UpdateDictionary | cmscontrib/importing.py:200-227 | _update_dict ends with the new keys, the same objects under common keys and the moved ones under new keys, whatever the order of the keys |
| Containers.UpdateListWithKey | cmscontrib/importing.py:230-259 | _update_list_with_key: the last object of a key counts; those of common keys take the new values in place, those of new keys are appended and those of old keys removed or preserved; repeated ones stay as they are |
| Containers.LooksLikeNew | cmscontrib/importing.py:230-259 | Unless preserved, the old list ends with exactly the keys of the new one if and only if no key that is only in the old list stands there twice |
| Containers.NoneInBoth | cmscontrib/importing.py:244-259 | Afterwards no object is in both lists |

## Left out

- Floating point: scores, ratings and times are real numbers or integers, so rounding is not modelled; nor is the formatting of scores to two decimals in score messages.
- The strings of `extra`: they are the numbers they parse to; text that does not parse is not modelled.
- An unknown score mode, which raises ValueError in append_change: the three modes are the only values.
- Fields of entities that are only shown (names, dates, faces, flags): an entity has the fields that references, times, scores and modes come from.
- HTTP, authentication, routing and the JSON files of the stores: a request is one atomic operation under the lock, and its data is either an entity or cannot be parsed.
- The order of entity events against score notes: they are two logs, each in its own order.
- Scoring.ScoringStore.RenewSubmission: after a change of mode the history stays that of the old mode until the next replay, as in the code.
- Server.RankingServer.Serve: that the scores equal a replay is kept by requests under which no submission that has changes moves, no change gets another time, no task gets another mode and, outside the max_tokened_last mode, no value is negative; after other requests the weaker tiers of the mirror still hold.
- ScoreTheorems.CreateSubmissionSubtaskExact: the exact condition is for changes at different times; with changes at equal times CreateSubmissionSubtask states that the condition suffices and CreateSubmissionSubtaskMoments which part of it is necessary.
- The heap of get_global_history is a set from which the least item is taken; its array layout is not modelled.
- CacheRuns.Run: processes share one cache directory; several hosts with a directory each would be several such systems over one backend.
- CacheRuns.VisibleIsComplete: file permissions, the creation of directories, the precache lock, purge_cache and descriptions are not modelled, and a large object keeps its content for a reader that opened it before it was unlinked, as a snapshot in the database does.
- FileObjects.CopyFileObj: a write that reports no count makes copyfileobj write the same buffer again; writes to its destination always report one. In the steps of FileCacher every write reports a count too.
- CmsMake.IncrementalEqualsClean: for actions with one output, which always succeed and depend on nothing but their inputs, and a clock that advances with every action; an action with several outputs is covered by the search theorems only.
- DumpFormat.DecodeEncode: time stamps are exact; the fallback for dates that overflow and the parsing of network addresses are left out.
- Importing.DumpImporter.DoImport: what each updater does to a dump is a parameter; adding the root objects to a database session and copying the files are left out; columns and relationships of an entry are two maps, where the file has one for both.
- Sessions, back-references and cascades of the database library in dump, import and container updates.
- Publishing.Publisher: queues that no subscriber uses any more are not collected; the timeouts and the ping loop of the web application are left out, except that comments may stand anywhere between messages.
- EventStream.EventRoundTrip: for ids without line breaks, null characters or a space at the start, which hexadecimal ids are; text is a sequence of characters, so UTF-8 and a byte order mark are not modelled.
- Rating.UpdateFinalScore: texts shown to the contestants, outcomes that are not numbers and the database session are left out.
- Crypto.BinaryRoundTrip: the cipher is any permutation of blocks with its inverse, so keys and AES itself are left out, as are the lenient readings of malformed base64.
- Crypto.NumberRoundTrip: reading a number accepts digits with an optional minus sign, not the other forms that the language takes.
- Containers.UpdateListWithKey: no object stands twice in a list. The update of an object copies one value and no nested relationships.
- Command-line tools, loaders, contest web pages, evaluation and sandboxing.
