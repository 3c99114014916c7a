# A model of rusty-brain

rusty-brain keeps memories for coding agents: a daemon with one writer and many subscribers, a store
with embeddings, a review queue, evaluation scripts, and rules for which project a directory belongs
to. This project models its most intricate logic in Dafny and proves what that logic promises. Each
module follows one component; `Common`, `Order` and `Folds` hold shared vocabulary.

| modules | component |
|---|---|
| `Oplog`, `ChangeStream`, `StreamSafety`, `StreamExact`, `StreamProgress` | the durable log, its replay and live hand-off to subscribers, that it gets on, and exactly when nothing is missed |
| `WriterArms`, `WriterRuns`, `Announcements`, `StampOrder`, `LostChanges` | the writer's commands as coded, its runs, what they announce and in which order, and what they lose |
| `Admission`, `SpaceMarkers` | one lock per database file around embedding-space cutover and store opening, and the recorded space against the rows |
| `EmbedInput`, `Backend`, `Reembed` | the embedded text and its fingerprint, the in-memory store contract, the re-embed protocol |
| `ReviewMerge`, `ReviewActions`, `ReviewEffects`, `ReviewSweep`, `Dedup`, `History` | merging near-duplicates, resolving one item and what that does, a policy pass over the queue, write-time suppression, size-bounded replies |
| `PilotPlan`, `PilotReport`, `PilotFigures`, `PilotRules`, `PilotVerdict`, `PilotOrder`, `PilotAggregate`, `PilotTies` | the preregistered pilot: plan, schedule, report, its figures and rules on plain totals, verdict, the order of its lines |
| `ExactIds`, `Attribution` | the exact-ID report with its checker, and causal attribution of scorecard rows |
| `Namespace`, `Frontmatter` | namespace resolution, frontmatter and pins (`ClaimNeedsPin` and `AcceptedClaimIsHonoured` spell out the pin's branch) |
| `Voyage`, `ContractGuard` | index-directed placement of vectors, and the contract-drift snapshot |

Concurrency appears as runs: a subscriber, a process, a pass or a client takes steps while the others
act as arbitrary functions or command sequences in between, and the main results hold for all of them.
Foreign calls that can fail are oracles, so every error path is part of the statements.

## Where the code does not do what it says

The model follows the code. Each of these has its own lemma and, where a condition decides, that
condition both ways.

- The writer's review merge stamps its three events with the number of its own trailing bulk row, though
  the comment there says each carries its own. A client cut off after the first loses both archivals for
  good: `LostChanges.MergeCutLosesArchives`.
- Link changes are replayed but never broadcast. Remembering a memory adds links after the write, so this is
  the ordinary case; a link row a live client passes is lost to it: `LostChanges.LinkChangeIsLost`. Exactly
  when nothing is lost is `StreamExact.ReconnectsReceivedExactlyWhen` (`StreamExact.ReconnectsExactlyWhen`
  without lag or failed reads), in terms of commands
  `Announcements.LinksDecideReconnects`, and which commands carry their own rows at all is
  `Announcements.HonestExactlyWhen`.
- Stamps do not always rise strictly: a review merge repeats its own, an edit that changed nothing repeats
  the last one. Exactly when in `StampOrder.StampsRiseExactlyWhen`.
- A merge whose members have no keyword (or tag) gets derived ones, so the lists are not always the plain
  union: `ReviewMerge.DerivedKeywordsAppear`, and exactly when in `ReviewMerge.ExactUnionWhen`.
- Stores and the model cutover open their database by name, not through the admitted file. If a name in use
  is re-pointed, stores and markers can part: `Admission.CutOverElsewhereArises`,
  `Admission.OpenElsewhereArises`, and exactly which runs keep them together in `Admission.AlwaysSound`.
- Nothing forces a repository's pilot slots apart, and with tied slots the order of the lines shows:
  `PilotTies.TiedSlotsExist`, and exactly when not in `PilotOrder.ReportFixedExactlyWhen`.
- The exact-ID checker refuses the report on a fixture with an empty case id, which the producer accepts:
  `ExactIds.NamelessCaseIsRejected`, and exactly when in `ExactIds.ProducedReportAccepted`. The one fixture
  committed in the repository names and queries all its cases, so its report is not affected.
- The frontmatter walk stops at the toplevel but follows links, so a file outside can name the project
  through a link inside: `Namespace.LinkedFileDecides`, and exactly when not in
  `Namespace.UndisturbedExactlyWhen`.
- Pins are said never to match for a path that is not UTF-8. The pin interface lets them match, and such
  paths can share one: `Namespace.PinReaches`, `Namespace.ForeignBytesShareAPin`. No caller in the repository
  passes such a path, and for those callers a pin reaches its own toplevel alone:
  `Namespace.AcceptedPinReachesItsOwn`.

## Model

| member | source | states |
|---|---|---|
| `Oplog.ReadPage` | crates/rb-store/src/store/oplog.rs:29-112 | the row loop returns exactly the page that covers the namespace's rows after the cursor, at most `limit` of them: the non-bulk changes, the rows scanned, the last sequence reached |
| `Oplog.PageCovers` | crates/rb-store/src/store/oplog.rs:29-112 | a full page always moves forward, and a page with fewer rows than asked for leaves no row of the namespace behind it |
| `Oplog.ChangesOrdered` | crates/rb-store/src/store/oplog.rs:20-112 | changes in a range come out once each, in strictly rising sequence order, all in the namespace and inside the range |
| `Oplog.ChangesComplete` | crates/rb-store/src/store/oplog.rs:20-112 | a non-bulk row is among a range's changes if and only if it lies in the range and the namespace |
| `Oplog.ChangesStable` | crates/rb-store/src/store/oplog.rs:20-112 | rows committed later never change what an earlier range contains |
| `ChangeStream.StreamChanges` | crates/rb-daemon/src/server.rs:1270-1358 | the replay loop followed by the live loop goes through a run of the session state machine, whatever the writer does between two awaits |
| `ChangeStream.Replay` | crates/rb-daemon/src/server.rs:1289-1325 | paging by rows scanned until a short page or a store error, with the watermark and the cursor kept as in the code |
| `ChangeStream.Listen` | crates/rb-daemon/src/server.rs:1326-1357 | the live loop follows the same runs turn by turn |
| `ChangeStream.ReceiveOne` | crates/rb-daemon/src/server.rs:1328-1357 | one receive is forwarded, filtered, dropped as covered, or a lag notice, exactly by the rule of the session state machine |
| `ChangeStream.RunsAgree` | crates/rb-daemon/src/server.rs:1270-1358 | the writer's timing decides everything: two runs of a session agree turn by turn |
| `StreamSafety.EveryEventAccounted` | crates/rb-daemon/src/server.rs:1326-1357 | in every run, lag and store errors included, each event broadcast since registration has exactly one fate: forwarded, foreign, covered by the watermark, or counted in a Lagged frame; forwarded events are the live frames in order and the lost ones add up to the reported counts |
| `StreamSafety.FatesAre` | crates/rb-daemon/src/server.rs:1334-1343 | in every run an event the channel still held is dropped if and only if it is of another namespace or stamped at or below the watermark; all others, stamped or not, are forwarded |
| `StreamSafety.ReplayReachesMark` | crates/rb-daemon/src/server.rs:1289-1325 | in every run, also one whose replay failed half way, the replayed frames are exactly the namespace's changes from the cursor to the watermark |
| `StreamSafety.StreamIsSafe` | crates/rb-daemon/src/server.rs:1276-1357 | in every run all delivered changes are in the namespace, replayed stamps rise strictly from the cursor to the watermark, live stamps lie beyond it, and the delivered stamps are as ordered (strictly or not) as the writer's broadcasts |
| `StreamSafety.NothingBelowCursor` | crates/rb-daemon/src/server.rs:1305-1340 | a resumed session never delivers anything stamped at or below its cursor |
| `StreamProgress.ReplayAdvances` | crates/rb-daemon/src/server.rs:1289-1325 | a replay turn whose read fails ends the replay where it was; any other delivers what it passes and either ends the replay with no row of the namespace left or goes on strictly past exactly 500 of them |
| `StreamProgress.ReplayEnds` | crates/rb-daemon/src/server.rs:1289-1325 | however busy the writer and whatever fails, with N rows of the namespace after the cursor a session is live after N / 500 + 1 turns |
| `StreamProgress.ReplayIsComplete` | crates/rb-daemon/src/server.rs:1276-1325 | then, if no read failed, every non-bulk row of the namespace after the cursor that was committed by registration is among the replayed changes |
| `StreamProgress.LiveAdvances` | crates/rb-daemon/src/server.rs:1326-1357 | a live turn takes exactly the next queued event, or skips to the oldest retained one and says how many it skipped |
| `StreamProgress.LiveKeepsUp` | crates/rb-daemon/src/server.rs:1326-1357 | everything broadcast by some moment has been taken after as many turns as the session was behind, however busy the writer since |
| `StreamExact.MarkPassesRegistration` | crates/rb-daemon/src/server.rs:1276-1325 | once live without a read failure, the watermark is past every row of the namespace committed by registration, so registering first leaves no gap |
| `StreamExact.LegReceivedExactlyWhen` | crates/rb-daemon/src/server.rs:1270-1358 | for any writer whose news about the namespace beyond the watermark carries each its own row, in row order, possibly skipping rows (whatever it did before, and in other namespaces), and whatever lag and read failures: a connection cut off anywhere has given its client exactly the changes from its cursor to the last stamp received if and only if it received in time every change between its watermark and that stamp |
| `StreamExact.LegExactlyWhen` | crates/rb-daemon/src/server.rs:1270-1344 | without lag or failed read that is so if and only if no non-bulk row of the namespace between watermark and that stamp stays unannounced |
| `StreamExact.DeliveredExactlyWhen` | crates/rb-daemon/src/server.rs:1276-1344 | the same at every moment of a session: each change once and in order, if and only if no unannounced row lies between watermark and last stamp |
| `StreamExact.CaughtUpExactlyWhen` | crates/rb-daemon/src/server.rs:1276-1344 | once the receiver has caught up, every change from the cursor on has been delivered, once and in order, if and only if no row beyond the watermark is unannounced |
| `StreamExact.FromRegistrationExactlyWhen` | crates/rb-daemon/src/server.rs:1276-1344 | without a cursor the same holds, counted from the last number announced before registration |
| `StreamExact.CutChanges` | crates/rb-daemon/src/server.rs:1270-1288 | wherever a client is cut off, what it has seen is the changes up to the last stamp it saw |
| `StreamExact.ReconnectsReceivedExactlyWhen` | crates/rb-daemon/src/server.rs:1270-1358 | over any chain of connections that each resume from the last stamp received, with whatever lag and read failures and wherever cut off, the client has exactly the changes from its first cursor to its last, none missing and none twice, if and only if each connection received in time every change between its watermark and its last stamp |
| `StreamExact.ReconnectsExactlyWhen` | crates/rb-daemon/src/server.rs:1270-1344 | if no connection lagged or failed, that is so if and only if none went from its watermark past an unannounced row |
| `StreamExact.ChainStaysBeyond` | crates/rb-daemon/src/server.rs:1305-1340 | what a chain of connections has gone past is never delivered again, whatever the writer broadcasts and however reads fail or the receiver lags |
| `WriterArms.FaithfulExactlyWhen` | crates/rb-daemon/src/store_handle.rs:1624-2400 | which commands broadcast exactly what they logged: a command's events equal its rows' own events if and only if it is one of the listed kinds (no links on an insert, a row actually changed, not a link change, not a review merge) |
| `WriterArms.RowsTellEffects` | crates/rb-daemon/src/store_handle.rs:1624-2400 | a command's log rows name exactly the memories it created, archived or changed, in its namespace |
| `WriterArms.EventsTellEffects` | crates/rb-daemon/src/store_handle.rs:1624-2400 | its events name the same, whatever their stamps, except that link changes are never announced and an edit or archival that changed nothing is |
| `WriterRuns.StatesOf` | crates/rb-daemon/src/store_handle.rs:1624-1666 | every list of commands has its successive states, from a start with a fresh channel over any log left behind |
| `WriterRuns.StampsNeverGoBack` | crates/rb-daemon/src/store_handle.rs:1624-2400 | whatever the commands and whatever log the writer finds at its start, broadcast stamps never decrease and never exceed the log |
| `Announcements.HonestExactlyWhen` | crates/rb-daemon/src/store_handle.rs:1624-2400 | since any point of a history, all news about a namespace announces its own row in row order if and only if each command about it was truthful when it came: no links on an insert, no review merge, and an edit that changed nothing only if the top of the log is that very change, still unannounced |
| `Announcements.HonestWriter` | crates/rb-daemon/src/store_handle.rs:1624-2400 | such commands give the writer the delivery results ask for, however its commits and broadcasts are spread over time and whatever happens in other namespaces |
| `Announcements.UnannouncedAre` | crates/rb-daemon/src/store_handle.rs:1867-1880 | the rows such a history leaves unannounced are exactly those of its link changes, less those an unchanged edit happened to announce |
| `Announcements.LinksDecide` | crates/rb-daemon/src/store_handle.rs:1867-1880 | link changes alone decide: a connection cut off anywhere has missed nothing below its last stamp if and only if no link row that stays unannounced lies between its watermark and that stamp |
| `Announcements.LinksDecideReconnects` | crates/rb-engine/src/engine.rs:301-337 | the same over any chain of reconnects, for every list of commands and every timing |
| `Announcements.ReconnectsLoseNothing` | crates/rb-daemon/src/server.rs:1270-1344 | if each command about the namespace stamps its own rows, no reconnect loses, repeats or reorders anything |
| `StampOrder.AfreshExactlyWhen` | crates/rb-daemon/src/store_handle.rs:1624-2400 | a command's stamps rise strictly from beyond the log it found if and only if it is neither a review merge nor an update or archive that changed nothing |
| `StampOrder.StampsRiseExactlyWhen` | crates/rb-daemon/src/store_handle.rs:1624-2400 | from a start over any log, broadcast stamps rise strictly over a history if and only if it has no review merge and no unchanged edit that finds the top of the log already broadcast |
| `StampOrder.SubscribersSeeRisingStamps` | crates/rb-daemon/src/server.rs:1276-1357 | what every subscriber of such a writer sees, whatever its timing, lag or failed reads: stamps never go back, and they rise strictly when the writer's do |
| `LostChanges.MergeCutLosesArchives` | crates/rb-daemon/src/store_handle.rs:2347-2370 | the code's review merge stamps its three events with its trailing bulk row: a client live before the merge receives the first and is cut off in an actual connection without lag or failed read, is owed both archivals below its cursor, and no chain of reconnects ever delivers them |
| `LostChanges.MergeSceneArises` | crates/rb-daemon/src/store_handle.rs:2347-2370 | that run exists for every review merge in every list of commands |
| `LostChanges.LinkChangeIsLost` | crates/rb-daemon/src/store_handle.rs:1867-1880 | a link change followed by an edit: a client live before them receives the edit alone, and no chain of reconnects ever delivers the link row below its cursor |
| `LostChanges.LinkSceneArises` | crates/rb-engine/src/engine.rs:301-337 | that run exists for every link change followed by an edit in every list of commands |
| `Admission.SidecarNameInjective` | crates/rb-daemon/src/server.rs:792-803 | two databases share a sidecar name only if device and inode are equal |
| `Admission.StepSound` | crates/rb-daemon/src/server.rs:594-660 | every step of every process keeps the invariant (locks and admissions match one to one, names resolve, each open store belongs to a ready admission of its own file that its holder keeps alive and agrees with the file's markers) and rewrites no markers of a database in use, as long as names in use are not re-pointed |
| `Admission.AlwaysSound` | crates/rb-daemon/src/server.rs:221-302 | over every interleaving of processes, aliases, crashes and re-pointed names, from any databases left behind: two admissions of one file are one; all open stores agree with their database's markers throughout, and each step leaves the markers of databases in use alone, if and only if every cutover is harmless when it comes; and that is so, with every store open on the file its admission holds, if no name in use is re-pointed |
| `Admission.LocksAlwaysMatch` | crates/rb-daemon/src/server.rs:585-660 | over every run, names re-pointed at will, each admission holds the lock of the file it opened and no two hold the same |
| `Admission.OneSessionPerDatabase` | crates/rb-daemon/src/server.rs:585-660 | at most one admission is held per database file |
| `Admission.LocksExactlyWhenFree` | crates/rb-daemon/src/server.rs:594-660 | locking an opened file succeeds if and only if no admission of the same file is held: aliases never slip past, different files never block each other |
| `Admission.CutOverSound` | crates/rb-daemon/src/server.rs:242-256 | the model cutover runs while no store is open on the file, so it keeps the invariant |
| `Admission.SeedSound` | crates/rb-store/src/store/lifecycle.rs:567-680 | opening beside another connection finds its markers in place and changes nothing of a database in use |
| `SpaceMarkers.OpensExactlyWhen` | crates/rb-store/src/store/lifecycle.rs:567-672 | a store opens if and only if its dimension is positive and recorded so or not at all, and its model is the recorded one or, if none is recorded, the one every row carries; both markers are then in place, a refused store records at most a missing dimension, and nothing else changes |
| `SpaceMarkers.MarkersMoveOnlyAlong` | crates/rb-store/src/store/lifecycle.rs:567-672 | over every run, names re-pointed at will: except by an accepted cutover a recorded dimension or model never changes, and a missing model is recorded only as one that every row carries |
| `SpaceMarkers.CutOverMoves` | crates/rb-store/src/store/reembed.rs:33-64 | a cutover moves both markers of the file its name means, to the configured space, and touches no row stamp |
| `SpaceMarkers.RowsAreStamped` | crates/rb-store/src/store/core.rs:576-612 | a row is stamped with the model of the store that writes it, and no marker moves |
| `SpaceMarkers.UniformExactlyWhen` | crates/rb-store/src/store/lifecycle.rs:604-662 | while stores agree with their databases, a step leaves every row stamped with its database's recorded model if and only if it is not a cutover of rows with another stamp |
| `SpaceMarkers.UniformAlongExactlyWhen` | crates/rb-store/src/store/lifecycle.rs:604-662 | the same over every run whose cutovers meet no store in another space |
| `SpaceMarkers.CrashFrees` | crates/rb-daemon/src/server.rs:585-592 | a process that ends, however abruptly, leaves no store open and lets in whoever waits for its file, who could not be admitted before |
| `SpaceMarkers.LastDropFrees` | crates/rb-daemon/src/server.rs:585-592 | dropping a reference lets a waiting process in if and only if it was the last |
| `SpaceMarkers.OriginsAre` | crates/rb-daemon/src/server.rs:221-256 | over every run an admission keeps the name, file, choice and space of the step that opened it |
| `SpaceMarkers.CutOversWereAsked` | crates/rb-daemon/src/server.rs:221-256 | over every run no process cuts a database over unless it was started to, under a name that had a file before it opened one |
| `Admission.ReleaseSound` | crates/rb-daemon/src/server.rs:585-592 | dropping a reference keeps the admission while any holder is left and unlocks it with the last |
| `Admission.AgreementExactlyWhen` | crates/rb-daemon/src/store_handle.rs:428-575 | stores and cutovers go by name, not by the admitted file. Whatever was re-pointed before, a step keeps every open store in agreement with its database if and only if it is not a cutover to a different space of a file on which a store is open |
| `Admission.AgreeAlongExactlyWhen` | crates/rb-daemon/src/store_handle.rs:428-575 | over every run, names re-pointed at will, all stores agree at every moment if and only if every cutover of the run is harmless in that sense when it comes |
| `Admission.RepointedCutOver` | crates/rb-daemon/src/server.rs:242-256 | a name re-pointed before its own cutover: every store still agrees if and only if the stores open on the file it now means already use the accepted space |
| `Admission.RepointedOpen` | crates/rb-daemon/src/store_handle.rs:547-575 | a name re-pointed before its admission opens a store: the store opens on a file it has no lock on, another process is admitted there and cuts over, and all stores agree if and only if the store was refused or both use the same space |
| `Admission.CutOverElsewhereArises` | crates/rb-daemon/src/server.rs:242-256 | the first of these in eight steps from rest: of any two databases one serves, the other's name is re-pointed to it before its cutover, and the store that serves no longer agrees with its database |
| `Admission.OpenElsewhereArises` | crates/rb-daemon/src/store_handle.rs:547-575 | the second in eight steps from rest, from any two databases |
| `EmbedInput.ContentOnlyIsVerbatim` | crates/rb-engine/src/embed_input.rs:30-57 | a note without enrichment embeds exactly its content, whitespace included, and nothing when blank |
| `EmbedInput.ComposedIs` | crates/rb-engine/src/embed_input.rs:30-57 | any note embeds its content (unless blank), its keywords, its tags and its context, one per line, each list trimmed and joined by single spaces without its blank entries |
| `EmbedInput.Utf8Injective` | crates/rb-types/src/embedding.rs:18-34 | the UTF-8 bytes of a text determine it |
| `EmbedInput.FrameInjective` | crates/rb-types/src/embedding.rs:18-34 | the length-prefixed framing keeps field and list boundaries: equal byte strings come from equal fields |
| `EmbedInput.FingerprintSeparates` | crates/rb-types/src/embedding.rs:18-34 | equal fingerprints mean equal fields, and conversely, unless the hash itself collides on the two frames |
| `EmbedInput.FeedGroup` | crates/rb-types/src/embedding.rs:21-31 | the inner loop feeds exactly one group's block |
| `EmbedInput.Feed` | crates/rb-types/src/embedding.rs:18-34 | the nested loops feed the hash exactly the frame of the four fields |
| `Backend.MockBackend.Write` | crates/rb-engine/src/backend.rs:174-184 | insert a note and its vector |
| `Backend.MockBackend.WriteSuperseding` | crates/rb-engine/src/backend.rs:185-211 | refuse a missing or foreign target and an unconfirmed curated one with the store unchanged, else retire the target and insert the note |
| `Backend.MockBackend.Update` | crates/rb-engine/src/backend.rs:318-336 | edit content and summary of an owned row, or refuse |
| `Backend.MockBackend.ArchiveNote` | crates/rb-engine/src/backend.rs:337-345 | archive an owned row, or refuse |
| `Backend.MockBackend.MemoriesForReembed` | crates/rb-engine/src/backend.rs:411-431 | the newest active rows with another stamp, newest first, as many as asked for or all, none newer left behind |
| `Backend.MockBackend.UpdateVector` | crates/rb-engine/src/backend.rs:432-458 | refuse a missing or archived row and a changed fingerprint with the store unchanged, else replace vector and stamp |
| `Backend.CommandShows` | crates/rb-engine/src/backend.rs:174-458 | what an accepted command leaves: the named row inserted, retired, archived, edited in what the edit gives and nothing else, or given its vector and stamp; every other row as it was |
| `Backend.RefusedExactlyWhen` | crates/rb-engine/src/backend.rs:174-458 | a command is refused if and only if its row is missing or foreign, curated and superseded without intent, or, for a vector, archived or changed since |
| `Backend.SupersedeHistoryIsSound` | crates/rb-engine/src/backend.rs:174-211 | in every run of inserts, superseding writes, archives, edits and vector writes: every walk along `superseded_by` is free of repetition, stays in one namespace and passes only archived notes before its last, from every note some walk ends, and a note with a pointer is archived |
| `Backend.PointerStep` | crates/rb-engine/src/backend.rs:185-211 | a note gains a pointer if and only if the command is a superseding write of it by another note of its namespace, with explicit intent if it is curated |
| `Backend.PointerNeedsIntent` | crates/rb-engine/src/backend.rs:185-211 | along any run, a note that gained a pointer was superseded by one of the commands, and by one with explicit intent if it was curated then |
| `Backend.StepKeepsRank` | crates/rb-engine/src/backend.rs:185-211 | every command keeps a ranking that falls along each pointer |
| `Reembed.ProcessOne` | crates/rb-engine/src/engine.rs:1082-1113 | embed one candidate, let other writers go on, try the vector write: the new store and whether it counts as changed |
| `Reembed.ReembedPass` | crates/rb-engine/src/engine.rs:1063-1116 | a pass scans the newest pending rows and goes through the stores of the protocol; scanned, changed and skipped add up and changed counts the accepted writes; and the store can be scanned again afterwards |
| `Reembed.CompareAndSet` | crates/rb-engine/src/backend.rs:127-141 | however the row was edited since it was read, the write is accepted if and only if the row is active with the very same input fields; then the row carries the vector of its own current text and the new stamp and nothing else moved, else nothing changes |
| `Reembed.HashedCompareAndSet` | crates/rb-engine/src/backend.rs:432-458 | the same with the real fingerprint and composed text: an accepted write leaves the vector of the row's current composed input |
| `Reembed.PassTakesDone` | crates/rb-engine/src/engine.rs:1063-1116 | an edit-free pass takes exactly its successfully embedded candidates off the pending set and leaves each up to date |
| `Reembed.PassShrinksPending` | crates/rb-engine/src/engine.rs:1063-1116 | it shrinks the pending set by the number it reports, strictly if and only if one of the newest pending rows embeds |
| `Reembed.PassesConverge` | crates/rb-engine/src/engine.rs:1063-1116 | after n edit-free passes with a working embedder, n times `limit` fewer rows are pending, or none |
| `Reembed.NothingLeftMeans` | crates/rb-engine/src/backend.rs:411-431 | nothing is pending if and only if every active row carries the current model and input version |
| `ReviewMerge.AppendMissing` | crates/rb-daemon/src/server.rs:1550-1573 | the append loop gives the first list followed by what the second adds |
| `ReviewMerge.Merge` | crates/rb-daemon/src/server.rs:1524-1604 | refuse a quarantined member or a rejected composition, else combine as coded, including the fallback keywords and tags of composition |
| `ReviewMerge.UnionElements` | crates/rb-daemon/src/server.rs:1550-1573 | the loop's list holds exactly the entries of both, without duplicates if the first had none |
| `ReviewMerge.ContentSurvives` | crates/rb-daemon/src/server.rs:1545-1549 | for every tree of accepted merges, each leaf's content occurs inside the final content |
| `ReviewMerge.FilesAndAnchorsAreUnions` | crates/rb-daemon/src/server.rs:1562-1573 | files and anchors are exactly the union of the leaves' |
| `ReviewMerge.KeywordsAre` | crates/rb-engine/src/engine.rs:436-450 | keywords are the leaves' union plus what composition supplied where a merge found none |
| `ReviewMerge.TagsAre` | crates/rb-engine/src/engine.rs:443-450 | the same for tags |
| `ReviewMerge.ExactUnionWhen` | crates/rb-engine/src/engine.rs:436-450 | keywords and tags are exactly the leaves' union if and only if composition supplied nothing the leaves lacked |
| `ReviewMerge.NothingSupplied` | crates/rb-engine/src/engine.rs:436-450 | composition supplies nothing when every leaf has an entry of its own |
| `ReviewMerge.DerivedKeywordsAppear` | crates/rb-engine/src/engine.rs:436-442 | two keyword-free memories merge into one with keywords neither had |
| `ReviewMerge.MergesStayPlain` | crates/rb-daemon/src/server.rs:1550-1573 | duplicate-free leaves and fallbacks give a duplicate-free result |
| `ReviewMerge.MostImportantLeads` | crates/rb-daemon/src/server.rs:1578-1589 | importance is the greatest among the leaves and the type is that of the first leaf that has it |
| `ReviewMerge.ConfidenceAndTrust` | crates/rb-daemon/src/server.rs:1594-1601 | confidence is the greatest and trust the weakest among all leaves |
| `ReviewMerge.ContextIsFirst` | crates/rb-daemon/src/server.rs:1574-1577 | the context is the first non-empty one among the leaves |
| `ReviewMerge.NoQuarantinedLeaf` | crates/rb-daemon/src/server.rs:1526-1539 | a merged memory has no quarantined leaf |
| `ReviewMerge.MergesExactlyWhen` | crates/rb-daemon/src/server.rs:1526-1604 | a tree of merges goes through if and only if every composition is accepted and nothing that goes into one, original or earlier result, is quarantined; who merged last alone decides whether the outcome is |
| `ReviewActions.ReviewStore.ReviewMerge` | crates/rb-store/src/store/review.rs:518-640 | the merge transaction refuses equal members, a reused id and a note of another namespace, revalidates both members (curated ones only at a user's request) and the similarity, then inserts, retires both and writes the audit row, or changes nothing |
| `ReviewActions.ReviewStore.SetConfidence` | crates/rb-daemon/src/store_handle.rs:2010-2046 | an error for a missing or foreign row, false for a curated one, else the confidence is set |
| `ReviewActions.ReviewStore.ArchiveGuarded` | crates/rb-store/src/store/internal.rs:78-112 | answers whether the row was an active, uncurated one of the namespace; exactly then the row is archived, and nothing else of it or of the store changes |
| `ReviewActions.PeekAll` | crates/rb-daemon/src/server.rs:1489-1495 | reads the members in order, others acting before each read, and stops at the first missing, foreign or failing one |
| `ReviewActions.BumpAll` | crates/rb-daemon/src/server.rs:1503-1522 | raises the members one by one from what was read, up to the first error |
| `ReviewActions.ApplyReviewAction` | crates/rb-daemon/src/server.rs:1451-1700 | every action, for a user or for a policy, makes exactly the calls of the specification with their results, with other writers before each call and any call failing |
| `ReviewActions.ActionIsProper` | crates/rb-daemon/src/server.rs:1451-1700 | nothing happens to the store but what others do before each call and at most one command per call, and without a user's request no command touches a curated row, except to confirm it |
| `ReviewActions.StaleChangesNothing` | crates/rb-daemon/src/server.rs:1629-1662 | an action that ends as stale, of any kind, has changed nothing |
| `ReviewActions.MergeIsAtomic` | crates/rb-store/src/store/review.rs:489-640 | a merge is all or nothing, whatever fails and whoever interferes: applied whole in its last call to two then live, unclaimed members, or no call changed anything |
| `ReviewActions.AuditedExactlyWhenResolved` | crates/rb-daemon/src/server.rs:1683-1700 | an action that succeeds has its one audit row, written by its last call; one that fails has none, whatever it changed before |
| `ReviewEffects.SuccessMeans` | crates/rb-daemon/src/server.rs:1451-1700 | every successful action read all members in order and did what it is for, told by the rows its calls met and left: confidences raised or lowered from what was read and kept within 0 and 1, a row archived, two live similar members retired into a new row that combines them, or nothing; then its audit row |
| `ReviewEffects.QuietOutcome` | crates/rb-daemon/src/server.rs:1451-1700 | left to itself an action succeeds if and only if it is valid, its members exist in the namespace, a contradiction still stands, a merge can be composed, and the store permits it: by policy no curated row and no archived one, and for a merge two live, unclaimed, sufficiently similar members; it goes stale if and only if the contradiction is gone or the store does not permit it |
| `ReviewSweep.ExecuteReviewPlan` | crates/rb-daemon/src/server.rs:1713-1799 | the pass goes through the stores and verdicts of the specification, stops only at a real error, counts by verdict, and the attempted actions are the dry run of the items reached |
| `ReviewSweep.DryRunPrefix` | crates/rb-daemon/src/server.rs:2252-2268 | the dry run of the first items is a prefix of the dry run of the queue |
| `ReviewSweep.PlansExactlyWhen` | crates/rb-types/src/review.rs:165-190 | a policy plans a merge for exactly the uncurated near-duplicate pairs, or a demotion of the first member for exactly the uncurated low-confidence items, and which of these plans can be applied |
| `ReviewSweep.OnlyRealErrorsStop` | crates/rb-daemon/src/server.rs:1731-1772 | an item is skipped if and only if nothing was planned or its action went stale, and any other error is the one that stops the pass |
| `ReviewSweep.CountersAre` | crates/rb-daemon/src/server.rs:1731-1772 | each counter is the number of items that ended that way |
| `ReviewSweep.CountersConserveItems` | crates/rb-daemon/src/server.rs:1731-1772 | the counters add up to the number of items if and only if no real error stopped the pass, else to the failing item's index |
| `ReviewSweep.StepKeeps` | crates/rb-daemon/src/server.rs:1731-1772 | whatever a policy does and whatever others do meanwhile, no call of it touches a curated row or clears a pointer |
| `ReviewSweep.MergeClaims` | crates/rb-store/src/store/review.rs:518-640 | a merge that was applied took two unclaimed rows and claimed both |
| `ReviewSweep.NoDoubleMerge` | crates/rb-daemon/src/server.rs:1713-1799 | no memory is merged twice in a pass, even if others delete it or clear its pointer meanwhile, as long as nobody revives it |
| `Dedup.FilterInPlace` | crates/rb-store/src/store/core.rs:289-302 | the swap-and-truncate filter keeps, in search order, exactly the live equivalent neighbours, and fails if and only if reading some neighbour fails |
| `Dedup.DedupStore.EquivalentDuplicates` | crates/rb-store/src/store/core.rs:275-303 | the duplicates of a live row of the namespace, none for any other row; an error if and only if the search or a read fails |
| `Dedup.DedupStore.Supersede` | crates/rb-store/src/store/core.rs:309-346 | retire one of two equivalent rows, keeping a curated one, or change nothing |
| `Dedup.SuppressHookNearDuplicates` | crates/rb-daemon/src/server.rs:1375-1428 | the loop with its switching survivor and its swallowed errors computes the specification on exactly the duplicates of a live row of the namespace, on none if the search or a read fails |
| `Dedup.SuppressionIsSafe` | crates/rb-daemon/src/server.rs:1375-1428 | whatever calls fail: the returned row is live with the new row's facts, only live, uncurated, unlinked hook rows were retired, each in favour of another live row with the same facts, and the set of authored facts among live rows is unchanged |
| `Dedup.SuppressionIsComplete` | crates/rb-daemon/src/server.rs:1399-1427 | when no call fails, no uncurated hook duplicate that was found stays live beside the survivor |
| `Dedup.CaptureCollapses` | crates/rb-daemon/src/server.rs:1375-1428 | so, when no call fails, every neighbour that was live and equivalent to the new capture is afterwards retired, the survivor itself, or protected by curation |
| `History.ByteBudget.Write` | crates/rb-daemon/src/server.rs:1829-1840 | a write is accepted if and only if it fits what is left |
| `History.FrameFits` | crates/rb-daemon/src/server.rs:1828-1846 | the streaming budget answers by the total length alone |
| `History.RetainTargets` | crates/rb-daemon/src/server.rs:1862-1867 | retain and clear leave exactly the target entries without predecessors |
| `History.BoundedHistoryResponse` | crates/rb-daemon/src/server.rs:1848-1877 | the reply is the least degraded of the three forms that fits; the size error means none fits |
| `History.AnswerIsUnique` | crates/rb-daemon/src/server.rs:1848-1877 | the reply is determined by the input |
| `History.SplittingIsInvisible` | crates/rb-daemon/src/server.rs:1828-1846 | and by the bytes of its forms alone, not by the pieces in which the serializer writes them |
| `History.EvidenceIsKept` | crates/rb-daemon/src/server.rs:1848-1877 | no reply alters the target's stored evidence, a reply that drops rows says so, and chain rows are dropped only when dropping edges was not enough |
| `History.EdgesGoFirst` | crates/rb-daemon/src/server.rs:1848-1867 | a degraded reply has no edges and says it is truncated; its chain is whole unless the whole chain without edges did not fit, and then holds exactly the targets |
| `History.ErrorExactlyWhenTargetTooLarge` | crates/rb-daemon/src/server.rs:1868-1876 | if dropping rows never lengthens the reply, the size error occurs if and only if the target-only form does not fit |
| `PilotPlan.AddAll` | scripts/dogfood-pilot.py:305-351 | a seen-set loop accepts if and only if nothing repeats |
| `PilotPlan.ValidateRepositories` | scripts/dogfood-pilot.py:301-356 | the loops accept if and only if no repository, store, namespace, pair or scenario is used twice anywhere and every repository has its number of pairs in balanced order |
| `PilotPlan.ValidateSnapshots` | scripts/dogfood-pilot.py:358-402 | accepts if and only if every planned scenario has exactly one slot, with the repository that planned it and inside the period, and each repository announces opportunities of both kinds |
| `PilotPlan.ValidateScheduledPairs` | scripts/dogfood-pilot.py:405-422 | accepts if and only if every observation lies in its slot's window with the slot's surface and opportunities |
| `PilotPlan.ObservationsFollowSchedule` | scripts/dogfood-pilot.py:405-422 | windows of one repository do not overlap, so observations happen in the order of their slots |
| `PilotPlan.InWindowExactlyWhen` | scripts/dogfood-pilot.py:405-422 | an observation is in time for its slot's window if and only if the pilot is not over and no later slot of the repository has begun |
| `PilotPlan.BalancedExactlyWhen` | scripts/dogfood-pilot.py:352-355 | an order of arms is accepted if and only if neither arm goes first more than once oftener than the other |
| `PilotPlan.ArmsNeverMix` | scripts/dogfood-pilot.py:510-562 | over any two accepted pairs of an admitted pilot: no baseline shares a store or namespace with a treatment, stores and namespaces are shared exactly within a repository, and model, version, budget, agent and qualified arm are the same throughout |
| `PilotReport.Earliest` | scripts/dogfood-pilot.py:666-684 | an observation no later than any other |
| `PilotReport.Latest` | scripts/dogfood-pilot.py:679-688 | an observation no earlier than any other |
| `PilotOrder.SortingIsInvisible` | scripts/dogfood-pilot.py:635-635 | the report on the lines sorted by time, ties left in line order, is the report on the lines as they came |
| `PilotOrder.ReportFixedExactlyWhen` | scripts/dogfood-pilot.py:635-863 | all orders of the same lines give one report if and only if in each repository all earliest useful observations have one id, all earliest observations found the same rows, bytes and backlog, and all latest left the same (of just two at one time: each the same sum of found and left) |
| `PilotOrder.ScheduleIdentifies` | scripts/dogfood-pilot.py:405-422 | with distinct slots, accepted observations of one repository happen at different times |
| `PilotAggregate.Collect` | scripts/dogfood-pilot.py:614-633 | accepts if and only if every pair is valid, none repeats, and a final aggregation has exactly the planned pairs |
| `PilotAggregate.Aggregate` | scripts/dogfood-pilot.py:600-863 | succeeds if and only if the pairs are complete and a final one is not early, and then gives the report on the lines as they came; a final verdict is GO if and only if the bounds on their plain totals hold |
| `PilotAggregate.CompleteScenariosDiffer` | scripts/dogfood-pilot.py:614-633 | accepted observations are of different scenarios, because the plan gives each scenario one pair |
| `PilotAggregate.ScheduleMatches` | scripts/dogfood-pilot.py:358-402 | a checked schedule places each accepted observation's scenario with the repository it was observed in |
| `PilotAggregate.EveryPairHasASlot` | scripts/dogfood-pilot.py:405-409 | the slot that the window check looks up for an observation exists |
| `PilotAggregate.OrderDoesNotMatter` | scripts/dogfood-pilot.py:600-863 | with distinct slots in each repository, every order of the lines is accepted alike and gives the same whole report |
| `PilotAggregate.TiedSlotsLetOrderDecide` | scripts/dogfood-pilot.py:666-678 | two accepted observations tied for the first useful one of a repository: some other order of the same lines is accepted too and gives another report |
| `PilotTies.TiedSlotsExist` | scripts/dogfood-pilot.py:358-422 | an admitted pilot, a checked schedule with two tied slots and two accepted observations in them, on which each order of the two lines is accepted and the reports differ |
| `PilotFigures.FactsAre` | scripts/dogfood-pilot.py:636-798 | every figure of the metrics that is only reported is the plain total, share or cost of what the pairs record |
| `PilotFigures.RepositoryIs` | scripts/dogfood-pilot.py:663-698 | a repository's figures: its pairs, its first useful recall, and its growth from the first observation to the last |
| `PilotFigures.SurfaceIs` | scripts/dogfood-pilot.py:700-725 | a surface's figures are those of its own pairs |
| `PilotFigures.AttributionIs` | scripts/dogfood-pilot.py:727-750 | exactly the observed agent and surface combinations are listed, each with its own pairs' figures |
| `PilotRules.StopReasonsAre` | scripts/dogfood-pilot.py:799-820 | the stop reasons are exactly the safety rules that fire on the plain totals, in the fixed order |
| `PilotRules.NoGoReasonsAre` | scripts/dogfood-pilot.py:822-860 | the no-go reasons are exactly the value rules that fire on the plain totals and on each repository's own observations, in the fixed order |
| `PilotVerdict.VerdictIs` | scripts/dogfood-pilot.py:799-863 | the verdict by those rules: STOP if a safety rule fires, else CONTINUE before the end, else NO-GO if a value rule fires, else GO |
| `PilotVerdict.ReportSays` | scripts/dogfood-pilot.py:636-880 | the whole report, part by part, on plain totals of the pairs |
| `PilotVerdict.EachIsLabeled` | scripts/dogfood-pilot.py:444-489 | full label coverage of the totals is full coverage of each single pair |
| `PilotVerdict.TotalsPartition` | scripts/dogfood-pilot.py:444-489 | in the totals as in each pair, injections are partitioned into helpful, wrong, stale and ignored, and no classification exceeds what it classifies |
| `PilotVerdict.HoldsOnEqualTerms` | scripts/dogfood-pilot.py:560-562 | both arms had the same opportunities in total, so the treatment holds exactly when it lost at most one in a hundred of them |
| `PilotVerdict.GoExactlyWhen` | scripts/dogfood-pilot.py:799-863 | a final GO is given if and only if, in plain totals over the pairs: no memory error, at most one percentage point lost on contested and multi-answer opportunities that were measured, every injection labelled; every repository useful within 72 hours without a grown backlog; 80% of rated injections helpful, at most 10% wrong and 10% stale; success and corrections at most one in a hundred worse; turns and time not worse and one better; recovery, backup and retention exercised without failure |
| `PilotVerdict.GoMeans` | scripts/dogfood-pilot.py:799-863 | a final GO means: each planned pair observed once, every injection labelled, every contested injection labelled, no memory-induced error and no backup or retention failure in any pair, a useful recall within 72 hours in each repository, at least four fifths of the judged injections helpful and at most a tenth each wrong or stale, and a contested and multi-answer shortfall of at most 1% of the shared opportunities |
| `ExactIds.RepeatedIds` | crates/rb-eval/src/assertion_precision.rs:73-78 | the seen-set filter finds exactly the ids that occur more than once |
| `ExactIds.AssertExactIds` | crates/rb-eval/src/assertion_precision.rs:69-87 | sorted expected, missing, extra and repeated lists, and passed if and only if the id sets are equal and nothing repeats |
| `ExactIds.RunCase` | crates/rb-eval/src/assertion_precision.rs:208-246 | a case passes if and only if it has a query and each returned exactly its ids |
| `ExactIds.RunCommitted` | crates/rb-eval/src/assertion_precision.rs:134-281 | accepts exactly the fixtures with unique case ids and the fixed required set, and reports per case with the right totals |
| `ExactIds.CountedTwice` | scripts/scorecard-controls.py:282-284 | counting finds the same repeated ids |
| `ExactIds.CheckQuery` | scripts/scorecard-controls.py:260-296 | accepts if and only if every derived list and the verdict follow from the id lists |
| `ExactIds.CheckCase` | scripts/scorecard-controls.py:247-299 | accepts if and only if the case has an id, a flag, queries that are all consistent, and the verdict that all pass |
| `ExactIds.CheckCases` | scripts/scorecard-controls.py:241-304 | accepts if and only if all cases are consistent with distinct ids, and counts them |
| `ExactIds.ExactIdReport` | scripts/scorecard-controls.py:223-331 | accepts if and only if the report is consistent, and returns the recomputed totals |
| `ExactIds.ProducedReportAccepted` | scripts/scorecard-controls.py:223-331 | a report the producer builds is accepted if and only if every case has a non-empty id and at least one query |
| `ExactIds.NamelessCaseIsRejected` | scripts/scorecard-controls.py:247-256 | any accepted fixture plus a case without an id is accepted again, and its report is refused |
| `ExactIds.FixtureExists` | crates/rb-eval/src/assertion_precision.rs:134-157 | the required cases with a query each are such a fixture |
| `ExactIds.GateMeans` | scripts/scorecard-controls.py:306-331 | in an accepted report with a passed gate every query of every required case returned exactly its expected ids without a duplicate, and the required cases are the fixed three |
| `Attribution.Parse` | scripts/scorecard-controls.py:164-194 | all lines are valid, or the first invalid one is named; the grouping refers to the table's own rows, arm by arm |
| `Attribution.Causes` | scripts/scorecard-controls.py:196-201 | every pair is judged on the rows as they were read |
| `Attribution.AttributeRow` | scripts/scorecard-controls.py:203-219 | one row changed in place becomes its attributed form |
| `Attribution.AttributeResults` | scripts/scorecard-controls.py:162-221 | all or nothing: the whole table judged by the table as it was read, despite rows shared with the grouping being changed on the way, or the first malformed line |
| `Attribution.RowsAreKept` | scripts/scorecard-controls.py:202-221 | skip rows are verbatim; other rows keep their first 26 fields but for column 7 of memory-on rows, which never drops numerically |
| `Attribution.InducedExactlyWhen` | scripts/scorecard-controls.py:84-118 | a row is marked memory-induced if and only if it is the only on-arm of its pair and convicted by the only off-arm; column 7 is then at least 1 |
| `Attribution.FirstGroundDecides` | scripts/scorecard-controls.py:84-118 | a pair of runs is judged on the first ground it has of the fixed eleven, with that ground's judgement and reason |
| `Attribution.UnpairedIsUnassessable` | scripts/scorecard-controls.py:84-92 | without exactly one run in each arm nothing is judged, and the reason names the missing or doubled arm |
| `Attribution.NumeralOfDecimal` | scripts/scorecard-controls.py:209-212 | reading back a written number gives the number |
| `Namespace.ProjectFromFrontmatter` | crates/rb-config/src/namespace.rs:317-343 | the scan returns the first project line of the leading fenced block |
| `Namespace.BodyIsIrrelevant` | crates/rb-config/src/namespace.rs:317-343 | whatever follows the closing fence plays no part |
| `Namespace.FrontmatterProjectWithin` | crates/rb-config/src/namespace.rs:291-315 | the walk returns the claim of the nearest readable file up to the toplevel, and none past an oversized or special one |
| `Frontmatter.LinesRoundTrip` | crates/rb-config/src/namespace.rs:317-325 | splitting into lines loses nothing: no line holds a terminator, and joining them gives the text back, but for one terminator at its end |
| `Frontmatter.TrimQuotesIs` | crates/rb-config/src/namespace.rs:333-338 | quotes are taken off both ends and nowhere else |
| `Frontmatter.FrontmatterIs` | crates/rb-config/src/namespace.rs:317-343 | the project is the value of the first line after the opening fence that is a fence or a project line |
| `Frontmatter.ClaimIs` | crates/rb-config/src/namespace.rs:291-315 | the nearest file that is there at all from the start up to the toplevel governs, and no other has a say |
| `Common.TrimIs` | crates/rb-config/src/namespace.rs:333-338 | trimming takes white space off both ends and nothing else |
| `Namespace.ResolveNamespaceIn` | crates/rb-config/src/namespace.rs:157-221 | a non-blank explicit choice decides, trimmed; else the committed identity; else, in a repository whose toplevel has a name, a pinned claim or that name, with the unpinned claim reported; else the start directory's name, or Global; divergence is told by comparing worktree and committed text |
| `Namespace.UndisturbedExactlyWhen` | crates/rb-config/src/namespace.rs:291-315 | files outside the toplevel (and, in the other reading, the worktree identity file) have no say in the namespace or the reported override if and only if something stronger than frontmatter decides or every CLAUDE.md consulted on the walk leads, links followed, to a file inside |
| `Namespace.LinkedFileDecides` | crates/rb-config/src/namespace.rs:39-58 | a consulted CLAUDE.md that is a link leading outside: two file systems that agree on everything inside resolve differently, and to different namespaces once the claim is pinned |
| `Namespace.NamespacePins.Insert` | crates/rb-config/src/namespace.rs:397-400 | records a pin under the toplevel's key |
| `Namespace.NamespacePins.AcceptOverride` | crates/rb-config/src/namespace.rs:432-440 | records the accepted claim and returns it |
| `Namespace.PinReaches` | crates/rb-config/src/namespace.rs:392-422 | a pin is found from exactly the toplevels that read like the one it was recorded for; all other lookups are unchanged |
| `Namespace.Utf8LookAlikesAreEqual` | crates/rb-config/src/namespace.rs:418-422 | between UTF-8 paths that is the toplevel itself and no other |
| `Namespace.AcceptedPinReachesItsOwn` | crates/rb-config/src/namespace.rs:347-361 | with a resolver that takes only UTF-8 from git, as both callers' do, an accepted override is found from its own toplevel and no other, and every other lookup is unchanged |
| `Namespace.ForeignBytesShareAPin` | crates/rb-config/src/namespace.rs:418-422 | the pin interface itself demands no UTF-8: two toplevels told apart only by non-UTF-8 bytes in a parent share their pin |
| `Voyage.EmbedChunk` | crates/rb-embed/src/voyage.rs:177-233 | succeeds if and only if the returned indices are a permutation of the inputs (or a single item names none) and every vector has the right length; then each output is the vector declared for its input; an error names a fault that is present, never missing slots |
| `Voyage.Collect` | crates/rb-embed/src/voyage.rs:226-233 | all slots' vectors in order, or nothing if one is empty |
| `Voyage.Embed` | crates/rb-embed/src/voyage.rs:247-258 | succeeds if and only if every chunk is served well, and each chunk's part of the output pairs with its response |
| `Voyage.PairingSurvivesChunking` | crates/rb-embed/src/voyage.rs:247-258 | for inputs of any length and any order of entries, output i is the embedding of text i |
| `ContractGuard.DiffMaps` | crates/rb-contract-guard/src/check.rs:16-34 | appends one line per differing key, additions and changes in key order, then removals |
| `ContractGuard.Check` | crates/rb-contract-guard/src/check.rs:37-57 | Clean if and only if version and both maps agree, else the whole report |
| `ContractGuard.OneLinePerDifferingKey` | crates/rb-contract-guard/src/check.rs:16-34 | each differing key has exactly one line and each line names a differing key |
| `ContractGuard.ReportTells` | crates/rb-contract-guard/src/check.rs:16-57 | a report has the version line if and only if the versions differ, with both, and of each surface an added, removed or changed line for exactly the keys that were |
| `ContractGuard.EmptyReportExactlyWhenEqual` | crates/rb-contract-guard/src/check.rs:16-34 | no line if and only if the maps are equal |
| `ContractGuard.ReportUnique` | crates/rb-contract-guard/src/check.rs:16-34 | the report is determined by what it compares |
| `ContractGuard.ApplyUpdate` | crates/rb-contract-guard/src/update.rs:34-81 | accepted if and only if noted, not already current and honest about the version; the new snapshot agrees with its own observation and extends the log by one entry |
| `ContractGuard.RunKeepsLog` | crates/rb-contract-guard/src/update.rs:18-81 | over every run from a first snapshot the log only grows, keeps Initial at its head alone, rises strictly at Breaking, stays at Additive, and ends at the snapshot's version |
| `ContractGuard.VersionsNeverDecrease` | crates/rb-contract-guard/src/update.rs:34-81 | versions along the log never decrease |
| `ContractGuard.BreakingChangesAreCounted` | crates/rb-contract-guard/src/update.rs:57-67 | every breaking entry cost at least one version number |

## Left out

- HTTP, sockets, pidfiles, permissions and peer credentials; configuration files and git subprocesses:
  operating-system calls whose branches each stand alone.
- SQL, JSON and TOML text, and floating-point rounding: rows, parsed values and exact reals stand for
  them. JSON field names the exact-ID report does not use are one constructor.
- SHA-256 is an arbitrary function of the framed bytes; `Reembed.HashedCompareAndSet` asks only that it
  does not collide on the two frames compared. Lengths are assumed to fit their prefix, eight bytes in the
  code.
- The semantics of embeddings, recall ranking, linkers, enrichers and library statistics: functions
  given from outside. Median and quartiles are functions of the bag of measurements.
- Identifier patterns, secrets screening, key sets and evidence references of the pilot's files: only the
  parsed, well-formed values are modelled.
- Diagnostics sidecars and path resolution of the attribution script.
- Removal or renaming of oplog rows and of admission sidecar files; both are kept for good in the model. A
  hard forget deletes a memory's oplog rows, so `Oplog` and the writer's retention command cover archiving
  sweeps only.
- StreamExact.LegReceivedExactlyWhen: assumes every broadcast about the namespace carries a stamp. The one path on
  which the writer cannot read its sequence number and broadcasts without one is covered by the safety
  results only.
- ReviewActions.ApplyReviewAction: the queue's snooze times and the confidences a resolution returns are not
  part of the store modelled; a call that fails has changed nothing.
- ReviewSweep.NoDoubleMerge: assumes that no other writer revives or re-creates the memory, for which the
  store has no command.
- Backend.SupersedeHistoryIsSound: assumes that written notes carry no pointer of their own and that an id
  already known is written again only inside its namespace, which fresh ids ensure.
- PilotAggregate.OrderDoesNotMatter: assumes distinct slots per repository and exact sums; without distinct
  slots, `PilotOrder.ReportFixedExactlyWhen`.
- History.ErrorExactlyWhenTargetTooLarge: assumes that dropping rows does not lengthen the serialized text.
- Dedup.SuppressionIsSafe: assumes no other writer during the loop.
- WriterArms.FaithfulExactlyWhen: takes each command together with what its store call found.
- Namespace.UndisturbedExactlyWhen: a link is a map from a name to the place it finally leads; loops and
  permissions are unreadable files.
