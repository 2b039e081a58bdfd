# Verification of the sidecar's write protocol and the commit guard

This project models, in Dafny, the parts of the repository whose correctness rests on small details of
ordering and durability, and proves what those details are there for.

- **The sidecar's durable write protocol** (`crates/yaam-agent`). `Protocol` is a labelled transition
  system: any number of connections, flushers, a mutex-guarded spool over a volatile and a durable view
  of one directory, a service that may take a record and lose the answer, a configuration a restart may
  change, and crashes at any point. Over its runs: `Conservation` (nothing answered is lost), `Drops` (what
  is given up here, and when not), `Acknowledged`, `Ordering` and `SoloOrder` (order of delivery),
  `Recovery` (crashes, the bound, blocked pushes), `Silence` (records nobody was told about). `EndToEnd`
  carries them to the emitter's exit code. `Runs`, `OrderBreaks` and `Incidents` put runs together that show
  where each of these ends. `Handshake` is `flush` in detail, two threads and two channels, and `FlushSteps`
  its simulation by the protocol. `SpoolDir` is the spool as a class over a directory, `SpoolNames`, `Utf8`
  and `Frames` are what its files are called and hold, `Names` which agent names pass vetting. `Lines` is one
  connection's byte stream, `Shutdown` the life of the server.
- **The commit guard** (`crates/yaam-cli/src/guard.rs`). `FileTree` is a file system with links, hardlinks and
  unreadable directories; `Reduction` is textual path reduction against it, `Inodes` the worklist walk,
  `Guard` and `CommitGuard` the decision as functions and as the methods that compute it, `GuardExact`
  its exact meaning, `GuardLimits` how far the hardlink check reaches.
- **Reference merging** (`crates/yaam-cli/src/emit.rs`): `References`.
- **SplitMix64** (`benches/src/synth.rs`): `SplitMix`.

`dafny verify dfyconfig.toml` checks the whole project.

## Assumptions

- A successful fsync is durable. A name created or removed since the last directory sync may or may not
  survive a crash, and an unsynced file may survive torn. A failed fsync counts as a crash.
- The service answers a success only for a record it has. It may take a record and lose the answer; that
  is `TakeDirect` or `Take` followed by another verdict. It never takes a torn entry, because a
  truncated envelope does not open.
- Taking a post after it was given up on is the separate step `Stray`, for any record that may have left.
  All results hold with it except those that say otherwise (`PromptPostsInOrder`, `AcceptedInSubmissionOrder`).
- An attempt runs into a missing key or an unusable base URL exactly when the configuration in force has them. A
  header value may hold any byte from 32 on but 127 (section 5.5 of RFC 9110); every byte of a vetted name is one
  (`VettedNamesFitAHeader`), so the request can always be built.
- Nobody else edits the spool directory; in `SpoolDir`, foreign files may be there, but none carries a
  name the spool would read as an entry and not write itself. `PlusSignIsReadAsThatNumber` and
  `ShortNameSortsLate` show what such a name does.
- A task that is aborted is dropped where it next waits, and a fresh sleep is never over at its first poll.

## Where the code and its words differ

- `crates/yaam-agent/src/spool.rs:93-98` has a rejection as the service's. The drain also removes an entry,
  acknowledged or not, that names no agent, or for whose agent this side has no key or no host
  (`SpooledRecordIsDropped`, `NamelessRecordIsDropped`); `LosesExactlyUnder` and `AcknowledgedIsNeverDropped` say
  exactly when. The empty name passes vetting and is posted under, and only its spool entries do not read.
- `crates/yaam-agent/src/listener.rs:391-393` has the final flush run with nothing else competing for the spool
  lock. That holds exactly when the signal finds no retry drain alive and no poll of the timer that is still to
  start one (`OrphanExactlyWhen`); `OrphanBesideTheFinalFlush` is a run in which it does not hold.
- `crates/yaam-cli/src/emit.rs:300-367`: a socket that closes without a word is reported as "nothing was
  recorded". `TakenUnheardExactlyAt` and `SpooledUnheardExactlyAt` say at which places of a connection that is
  wrong; the comment there names one of them.
- `crates/yaam-cli/src/emit.rs:604-607` speaks of any second reference of the unit's kind; the loop stops at
  the first. `NoSecondIdExactlyWhen` and `OrderDecidesOnlyMixedLists` say exactly what that changes.
- `crates/yaam-cli/src/guard.rs:281-285` speaks of a hardlink to any file inside an excluded entry, and
  lines 22-29 of every unknown refusing. A directory that cannot be listed or searched is passed over, an entry that is
  itself a symbolic link is not followed (`WalkIsCompleteExactlyWhen`, `UnwalkedHardlinkPasses`). A candidate is judged
  by its reduced path and compared by its written one, so one whose written path does not resolve is not compared:
  behind a file's name a slash, `/.` or `/../` and the name again, or anywhere a `..` behind what is no directory
  (`WalkedFileIsSafeExactlyWhen`, `PieceBehindTheFileEscapes`, `RespelledRecordPasses`).

## Model

| member | source | states |
|---|---|---|
| Incidents.LosesExactlyUnder | crates/yaam-agent/src/upstream.rs:143-190 | For every agent and every configuration that posts for it and spools: a restart under another one can lose an acknowledged record of that agent if and only if its name passes vetting and is empty, or has no key there, or there is no host. |
| Conservation.StepKeepsInv | crates/yaam-agent/src/sidecar.rs:94-178 | Every step of every connection, flusher, push, late acceptance, crash and restart keeps the protocol's invariant. |
| Conservation.AnsweredRecordsAreNotLost | crates/yaam-agent/src/sidecar.rs:94-132 | Over every run, from its answer on: an accepted record is with the service and not in the spool; a spooled one is with it, refused by it, dropped here, or whole and durable; a rejected or turned-away one has no copy in the spool, not even a torn one. |
| Drops.AcknowledgedIsNeverDropped | crates/yaam-agent/src/spool.rs:93-119 | Over every run in which entries of its agent could be replayed throughout (a name, a key, a host), a record answered spooled is never dropped here: it is with the service, refused by it, or whole and durable. |
| Drops.AcknowledgedIsVetted | crates/yaam-agent/src/sidecar.rs:185-231 | Over every run: no record of an agent whose name has a control character is ever answered accepted or spooled. |
| Incidents.SpooledRecordIsDropped | crates/yaam-agent/src/upstream.rs:153-184 | For every vetted agent, a restart under any configuration that cannot replay its entries, in whichever of the three ways, loses an acknowledged record: never taken, never refused, gone from the spool. |
| Incidents.NamelessRecordIsDropped | crates/yaam-agent/src/sidecar.rs:247-258 | Under every configuration that posts for the empty name, a run without any restart that loses an acknowledged record of it in the same way. |
| Acknowledged.SentInOrder | crates/yaam-agent/src/sidecar.rs:115-131 | Over every run, late acceptances included: when a record is accepted, every earlier one of its connection that was answered accepted or spooled was accepted before it, unless it was refused or dropped on its way out of the spool. |
| Acknowledged.SubmittedInOrder | crates/yaam-agent/src/sidecar.rs:115-131 | The same among all records of a run with one submitter at a time. |
| OrderBreaks.OrderBreaksExactlyFor | crates/yaam-agent/src/sidecar.rs:115-131 | A later record of a connection can be accepted before an earlier one ever is if and only if the earlier one was answered with no room, an error or a rejection, or was refused or dropped from the spool: for each a run, for a held one none. |
| OrderBreaks.LateAcceptanceOvertakes | crates/yaam-agent/src/upstream.rs:143-150 | For every vetted agent and every configuration that posts for it, a run in which a record whose post timed out and whose push failed is taken after the next one. |
| Ordering.PromptPostsInOrder | crates/yaam-agent/src/sidecar.rs:115-131 | Without late acceptance, first acceptances of one connection come in the order sent whatever the answers were, and none comes while an earlier record waits unaccepted in the spool. |
| Runs.EmptySpoolPostsDirectly | crates/yaam-agent/src/sidecar.rs:85-126 | With nothing spooled, a record goes from its line to the post without touching the spool. |
| SoloOrder.AcceptedInSubmissionOrder | crates/yaam-agent/src/spool.rs:99-119 | With one submitter at a time, beside timer, aborts, timeouts and crashes, and no late acceptance: the acceptance log with equal neighbours collapsed is strictly increasing in submission order and leaves nothing out. |
| OrderBreaks.LateRepeatIsNotAdjacent | crates/yaam-agent/src/upstream.rs:143-150 | With late acceptance it is not: a run with one submitter and both records accepted whose log is 0, 1, 0. |
| Recovery.CrashFindsPending | crates/yaam-agent/src/spool.rs:52-91 | A crash at any point of any run leaves every pending entry unchanged; beyond those only the settled head whose removal was not synced or the never acknowledged tail; every spooled, unsettled record is there whole; the next number is past every name found. |
| Recovery.OneExtraExactly | crates/yaam-agent/src/spool.rs:69-119 | At most one extra entry survives any crash in a state, if and only if that state does not have both an unlinked, unsynced entry and the unsynced file of a failed write. |
| Incidents.TwoLooseEndsAreReached | crates/yaam-agent/src/spool.rs:69-119 | For every vetted agent and every configuration that replays its entries, with a capacity above one, a run into a state that has both, from which a crash leaves two. |
| Recovery.SpoolStaysInBounds | crates/yaam-agent/src/spool.rs:52-91 | Over every run, restarts with other capacities included, the spool never holds more than the larger of the capacity in force and what it was opened with; every number is at most the next one, and only an unfinished or failed write stands at it. |
| Recovery.BlockedExactlyUntilCleared | crates/yaam-agent/src/spool.rs:74-91 | With the file of a failed write at the next number, every step leaves it so, except the unlink of that file and a reopening, which both end it. |
| Recovery.NothingIsPushedUntilCleared | crates/yaam-agent/src/spool.rs:74-91 | Over every run without such a step, no push creates anything. |
| Recovery.FailedWriteStopsEveryPush | crates/yaam-agent/src/spool.rs:74-91 | So after a failed write in any run every later push is refused until such a step. |
| EndToEnd.ExitCodeIsHonest | crates/yaam-cli/src/emit.rs:219-264 | Over every run after the emitter has exited: a success code means the record is with the service, refused or dropped after being spooled, or whole and durable; 0 means the service has it; 8 and 4 mean no copy is in the spool. |
| EndToEnd.SuccessIsKeptWhileSendable | crates/yaam-cli/src/emit.rs:219-264 | While entries of its agent can be replayed, a success code means the record is with the service, refused by it, or whole and durable. |
| EndToEnd.UnreachableIsTraced | crates/yaam-cli/src/emit.rs:309-367 | Exit 9: after a failed connect nothing of that connection was ever submitted; after a silent end, where the connection was tells whether the service or the spool may have the record. |
| Silence.UnansweredIsTraced | crates/yaam-agent/src/sidecar.rs:94-132 | Over every run: a record nobody holds and nobody was told about was in the hand of a connection that vanished; it can be with the service only from posting on, and whole in the spool only from a push or an answer "spooled". |
| Incidents.TakenUnheardExactlyAt | crates/yaam-agent/src/sidecar.rs:94-132 | A connection can end unheard with its record at the service if and only if it had come as far as posting: for each such place a run, for the others none. |
| Incidents.SpooledUnheardExactlyAt | crates/yaam-agent/src/sidecar.rs:94-132 | And with its record whole in the spool if and only if it was pushing it or about to answer "spooled". |
| Incidents.SilenceMayHideASpooledRecord | crates/yaam-cli/src/emit.rs:344-367 | A run from the start, through a timed-out post and a push, into a crash before the answer: exit 9 for a record that is whole and durable in the spool. |
| Handshake.FlushRefinesDrain | crates/yaam-agent/src/sidecar.rs:140-166 | Over every run in which either side may vanish: the removals are those a sequential count makes of what the closure returned, short by at most an unlink not done; each result is the poster's verdict about that very entry, or `Spooled` in place of one lost with the poster; an entry goes only on its own final verdict; at most one is in flight. |
| FlushSteps.StepIsDrainSteps | crates/yaam-agent/src/sidecar.rs:140-166 | Forward simulation: each step of the two threads is none, one or two steps of the protocol's drain. |
| FlushSteps.FlushIsAProtocolRun | crates/yaam-agent/src/sidecar.rs:140-166 | Any run of the two threads, with anything but a crash going on beside it, other drains included once this one has given the lock back, and either thread vanishing at any moment, is a run of the protocol. |
| FlushSteps.FlushKeepsPromises | crates/yaam-agent/src/sidecar.rs:140-166 | So every answer given before a flush stands at every moment of it, aborted or not. |
| FlushSteps.FlushStarts | crates/yaam-agent/src/sidecar.rs:140-153 | Whoever has just taken the lock, in a state of any run: its flush starts out simulated, over the listing of the spool, oldest first. |
| FlushSteps.SpoolDrainCounts | crates/yaam-agent/src/spool.rs:99-119 | What the spool's own drain removes, ending without an error, is that sequential count of its closure's results. |
| Handshake.NeverStuck | crates/yaam-agent/src/sidecar.rs:140-166 | In every state short of the end, whoever has vanished, some step of the program itself can be taken. |
| Handshake.FlushEnds | crates/yaam-agent/src/sidecar.rs:140-166 | Every run of a flush is no longer than the rank of its first state, so it ends. |
| SpoolNames.NamesRoundTrip | crates/yaam-agent/src/spool.rs:74-76 | Every 64-bit number's name reads back as that number. |
| SpoolNames.NamesCompareAsNumbers | crates/yaam-agent/src/spool.rs:21-23 | For all 64-bit numbers, names compare lexically exactly as the numbers compare, and distinct numbers have distinct names. |
| SpoolNames.PlusSignIsReadAsThatNumber | crates/yaam-agent/src/spool.rs:131-148 | A foreign name with a plus sign is read as the number of an entry the spool may hold already. |
| SpoolNames.ShortNameSortsLate | crates/yaam-agent/src/spool.rs:131-148 | A foreign name with fewer digits is read as an entry out of its lexical place. |
| SpoolDir.Entries | crates/yaam-agent/src/spool.rs:131-148 | The listing is exactly the files with a sequence number, in ascending order of it. |
| SpoolDir.OrderIsUnique | crates/yaam-agent/src/spool.rs:131-148 | A directory has one replay order. |
| SpoolDir.PushedGoesLast | crates/yaam-agent/src/spool.rs:69-91 | Under a number past every entry, a pushed file replaces nothing and is last in the replay order. |
| SpoolDir.Spool.Open | crates/yaam-agent/src/spool.rs:52-63 | Opening changes nothing on disk and takes a next number past every entry, one past the highest if there is one; only the last 64-bit number has zero after it. |
| SpoolDir.Spool.Depth | crates/yaam-agent/src/spool.rs:122-124 | The depth counts exactly the entries, foreign files aside. |
| SpoolDir.Spool.Push | crates/yaam-agent/src/spool.rs:69-91 | One new file under the next number, or full, or an error; an existing file is never overwritten; after a failed write a beginning of the record stands at the next number and the number is not used up. |
| SpoolDir.Spool.Drain | crates/yaam-agent/src/spool.rs:99-119 | What is sent is the oldest entries in order; exactly the oldest ones, as many as the count returned, are gone, each on its own final verdict; every other file, foreign ones too, is unchanged; and the reason it ended. |
| Utf8.StringRoundTrip | crates/yaam-agent/src/sidecar.rs:234-256 | Every string survives being written as UTF-8 and read back (section 3 of RFC 3629). |
| Utf8.OnlyEncodingsAreRead | crates/yaam-agent/src/sidecar.rs:252-253 | A byte string is read exactly when it is some string's encoding. |
| Utf8.AsciiStaysItself | crates/yaam-agent/src/sidecar.rs:223-240 | An ASCII byte occurs in an encoding exactly when its character occurs in the string, so a newline byte means a newline. |
| Frames.FrameRoundTrips | crates/yaam-agent/src/sidecar.rs:233-258 | A frame reads back as its name and body if and only if the name is not empty and has no newline. |
| Frames.UnframeAcceptsOnlyFrames | crates/yaam-agent/src/sidecar.rs:247-258 | On arbitrary bytes: parts come out exactly when the bytes are the frame of such parts. |
| Frames.FramesAreInjective | crates/yaam-agent/src/sidecar.rs:234-240 | No two framed records share an entry. |
| Frames.VettedRecordsSurviveTheFrame | crates/yaam-agent/src/sidecar.rs:223-258 | What vetting lets through under an agent unframes under that agent, whatever the body; under the empty name, which vetting lets through, it is read as naming no agent. |
| Frames.TornEntriesNameNoOther | crates/yaam-agent/src/sidecar.rs:247-258 | An entry torn anywhere reads as its own agent with a beginning of the body, or as naming none; the first if and only if the tear is past a name that is not empty. |
| Frames.VettedExactlyWithoutControl | crates/yaam-agent/src/sidecar.rs:185-231 | Some record passes vetting under a name if and only if the name has no control character. |
| Frames.VettedNamesFitAHeader | crates/yaam-agent/src/upstream.rs:165-175 | Every byte of a vetted name may stand in a header. |
| Lines.TrimmedIsExact | crates/yaam-agent/src/listener.rs:629-635 | Trimming takes all line-break bytes at the end and nothing else. |
| Lines.TrimLine | crates/yaam-agent/src/listener.rs:629-635 | The index loop computes that trimming. |
| Lines.SegmentsLoseNothing | crates/yaam-agent/src/listener.rs:578-597 | The lines of a stream put together are the stream. |
| Lines.SegmentsAreTheLines | crates/yaam-agent/src/listener.rs:578-597 | It is cut after each newline and nowhere else. |
| Lines.Reader.ReadUntil | crates/yaam-agent/src/listener.rs:578-597 | However the bytes arrive, one read takes exactly the first line, or the limit's worth of it. |
| Lines.ServeConnection | crates/yaam-agent/src/listener.rs:559-615 | For every stream in every cutting: the submissions are a beginning of the non-blank trimmed lines before the first over-long one, all of them when undisturbed; one answer each, in order; one rejection for an over-long line; never more than the limit plus one byte held. |
| Shutdown.EveryRecordIsAnswered | crates/yaam-agent/src/listener.rs:585-613 | Over every run: a record started has its answer attempted before its connection's task ends. |
| Shutdown.NoRecordBeyondTheCurrentOne | crates/yaam-agent/src/listener.rs:570-613 | After the signal a connection starts at most one record, and only one it was already reading for with everything before it answered. |
| Shutdown.ShutdownIsOrdered | crates/yaam-agent/src/listener.rs:388-408 | The final flush starts after the signal and with every accepted connection's task ended; a socket is removed only after that flush. |
| Shutdown.TimerLeavesOneDrainAtMost | crates/yaam-agent/src/listener.rs:375-408 | Retry drains never overlap; after the signal at most one more is started, and only in a poll of the timer the signal found in progress; a drain the dropped timer leaves behind has no poster. |
| Shutdown.OrphanExactlyWhen | crates/yaam-agent/src/listener.rs:385-403 | In every reachable state, whatever the sockets, accept loops and connections: a signal there can leave a retry drain beside the final flush if and only if one is alive or a poll of the timer in progress is still to start one. |
| Shutdown.NothingCompetesOtherwise | crates/yaam-agent/src/listener.rs:391-394 | If not, no retry drain is there at any moment of any run from the signal on. |
| Shutdown.OrphanBesideTheFinalFlush | crates/yaam-agent/src/listener.rs:385-403 | For any number of sockets and accept loops, a run from the start into the final flush with such a drain beside it. |
| Reduction.Reduce | crates/yaam-cli/src/guard.rs:422-439 | The loop over components computes the textual reduction. |
| Reduction.ReductionIsIdempotent | crates/yaam-cli/src/guard.rs:422-439 | A reduced path has no `.`, no `..` and no empty piece, and is its own reduction. |
| Reduction.ReductionNamesTheSamePlace | crates/yaam-cli/src/guard.rs:375-387 | Without links, whenever the written path resolves by components (section 4.13 of POSIX.1-2017 Base Definitions), its reduction names that same place. |
| Reduction.ResolvesExactlyWhen | crates/yaam-cli/src/guard.rs:375-387 | With links, for every path in which no piece a `..` takes away is a link: as written it resolves if and only if its reduction does and every piece that stays or goes up does so from a directory; and then to the same place. |
| Reduction.ReductionKeepsPlainPaths | crates/yaam-cli/src/guard.rs:375-387 | In particular every path without `..` that resolves does so where its reduction does. |
| Reduction.UpAfterALinkDiffers | crates/yaam-cli/src/guard.rs:360-365 | After a link, `..` is one place as text and another on disk. |
| Inodes.OpeningKeepsFiles | crates/yaam-cli/src/guard.rs:328-346 | Trading a readable directory for its entries neither gains nor loses a file. |
| Inodes.FilesUnder | crates/yaam-cli/src/guard.rs:328-346 | The worklist walk ends on every finite tree and finds exactly the regular files reachable by real, readable directory edges. |
| Inodes.NothingIsHiddenExactlyWhen | crates/yaam-cli/src/guard.rs:328-346 | Every file of a tree lies at a path such a walk comes to if and only if every directory that leads to a file can be read and searched. |
| CommitGuard.ForbiddenInodes | crates/yaam-cli/src/guard.rs:328-346 | The table pairs exactly the files of excluded entries with every entry that holds them, in entry order. |
| CommitGuard.GuardReport.RefuseHardlinks | crates/yaam-cli/src/guard.rs:290-319 | Each finding becomes what the inode rule makes of it, with the walk left out only when it would change nothing. |
| CommitGuard.GuardReport.Exit | crates/yaam-cli/src/guard.rs:591-599 | The report's exit is that of its worst finding, or a rejection when something excluded stands in the work tree. |
| CommitGuard.GuardCommit | crates/yaam-cli/src/guard.rs:138-170 | The command's loops compute the decision that `GuardExact` characterises. |
| GuardExact.VerdictIsExact | crates/yaam-cli/src/guard.rs:215-319 | For one path, each severity if and only if its own condition on the paths, the manifest and the files. |
| GuardExact.ExitIsExact | crates/yaam-cli/src/guard.rs:138-170 | Ok if and only if the store reads, nothing excluded stands in the work tree and every candidate is safe; and the exact condition of each refusal, the worst one winning. |
| GuardExact.MoreCandidatesOnlyWorse | crates/yaam-cli/src/guard.rs:556-599 | Adding candidates never turns a refusal into Ok or into a milder one. |
| GuardExact.OnlyTheSetOfCandidatesMatters | crates/yaam-cli/src/guard.rs:591-599 | Neither the order of the candidates nor repetition changes the exit. |
| GuardLimits.ListedExactlyWhenWalked | crates/yaam-cli/src/guard.rs:328-346 | The table lists an identity for an entry if and only if the walk from it comes to a file that has it. |
| GuardLimits.WalkIsCompleteExactlyWhen | crates/yaam-cli/src/guard.rs:328-346 | The walk comes to every file inside an excluded entry, whoever may read it, if and only if there is none, or the entry is no link and every directory in it that leads to a file can be read and searched. |
| GuardLimits.UnwalkedHardlinkPasses | crates/yaam-cli/src/guard.rs:281-346 | Two stores, with the keys behind a link and with the keys in a directory that cannot be listed, in which a hardlink to a key exits Ok. |
| GuardLimits.WalkedFileIsSafeExactlyWhen | crates/yaam-cli/src/guard.rs:290-325 | A path that takes back no link and leads to a walked file with several names is safe if and only if the manifest lets it through by name and its written form is not the file's: a link's own, or with a piece that stays or goes up from what is no directory to search. |
| GuardLimits.PieceBehindTheFileEscapes | crates/yaam-cli/src/guard.rs:290-325 | So with an empty piece, `.` or `..` anywhere behind the file's own name, the manifest decides alone. |
| GuardLimits.SlashedIsSafeExactlyWhenLetThrough | crates/yaam-cli/src/guard.rs:290-325 | A slash behind any candidate, links taken back or not, changes nothing of what it says and where it leads, and leaves it to the manifest alone. |
| GuardLimits.RespelledRecordPasses | crates/yaam-cli/src/guard.rs:290-325 | A store in which a hardlinked record is rejected, and exits Ok with a slash, with `/.` or with `/..` and its name behind it. |
| GuardLimits.SameFileIsNeverSafe | crates/yaam-cli/src/guard.rs:281-319 | With honest link counts, a candidate that is the same file as one the walk came to is never safe, as that path or as another name: asking for more than one link loses nothing. |
| References.ParsedExactlyWhenWritten | crates/yaam-cli/src/emit.rs:655-673 | A spec reads as a reference if and only if it is that reference written out: a kind without a colon, a colon, an identifier, neither empty. |
| References.MergeErasureUnit | crates/yaam-cli/src/emit.rs:616-637 | The loop computes the merge decided by the first stated reference of the unit's kind. |
| References.NoSecondIdExactlyWhen | crates/yaam-cli/src/emit.rs:598-637 | After a merge the record names the unit, and nothing else of its kind if and only if no stated reference did. |
| References.OrderDecidesOnlyMixedLists | crates/yaam-cli/src/emit.rs:616-637 | Passing is independent of the order stated if and only if the list does not both name the unit and contradict it. |
| References.OneOrderPassesTheOtherIsRefused | crates/yaam-cli/src/emit.rs:616-637 | X then Y with unit X passes; Y then X is refused. |
| References.EntitiesAreStatedThenInferred | crates/yaam-cli/src/emit.rs:555-596 | On success: the stated references in order, then the unit if none has its kind, then in order exactly the inferred ones whose key no stated one has, for any canonicaliser and extractor. |
| References.RefusedExactlyWhen | crates/yaam-cli/src/emit.rs:555-596 | The list is refused if and only if a reference or the unit does not read, or the first of the unit's kind differs from it. |
| References.NoKeyIsBothStatedAndInferred | crates/yaam-cli/src/emit.rs:539-554 | No canonical key is in the record both as a fact and as a guess; one comes twice only if stated twice or found twice. |
| SplitMix.MixLosesNothing | benches/src/synth.rs:235-241 | The output mix is undone by an explicit inverse, so no two states give one draw. |
| SplitMix.CountIsZeroExactlyWhen | benches/src/synth.rs:235-236 | Wrapping 64-bit counting returns to zero exactly at the multiples of 2^64. |
| SplitMix.DrawsRepeatExactlyWhen | benches/src/synth.rs:221-241 | From any seed two draws are equal if and only if they are a multiple of 2^64 steps apart. |
| SplitMix.Rng.Next | benches/src/synth.rs:235-241 | The k-th call returns the k-th draw of the seed. |
| SplitMix.Rng.Below | benches/src/synth.rs:244-246 | The next draw, modulo the bound, or zero for an empty range. |
| SplitMix.EveryPointHasOneOwner | benches/src/synth.rs:249-259 | The shares of a table split the points below their total: each point has exactly one owner. |
| SplitMix.Rng.Weighted | benches/src/synth.rs:249-259 | The value picked is that of the entry owning the drawn point; the first one when no share is positive. |

## Left out

- HTTP, sockets, URI parsing, signing, peer credentials, file modes: I/O and foreign libraries; a post is what it can run into.
- Sealing, masking, `validate` and the JSON reading in `parse`: their code is elsewhere. The order of the checks after them is modelled in `Frames.Vet`.
- `redact`, `stamps`, `declared_attrs`: one pass or one chain of branches each; they would only add easy members. So would the table of exit numbers, the order of two checks in `Frames.Vet` and the table of results in `Outcomes`.
- A request that cannot be built: its result is in `Outcomes`, and no vetted name comes to it.
- Overflow of the sequence number: it wraps in `SpoolDir`, as it does where overflow is not checked; in `Protocol` numbers are unbounded.
- Listing errors, a missing spool directory and a poisoned mutex beyond the error they return.
- File names that are not UTF-8: skipped by the source as foreign; names here are strings.
- The read socket and its proxy, and binding and taking over sockets at startup.
- Wall-clock time: the retry timer and shutdown may start a flush at any moment, a timeout may happen at any moment.
- Durability is in `Protocol`; the directory of `SpoolDir` has one view.
- `Shutdown` has the drains of the timer and the final flush as whole activities; what they do to the spool is in `Protocol`.
- In the emitter, a socket timeout that cannot be set exits 1 like an unreadable answer and is not a case of its own.
- Running `git`, the hook text, report rendering and the search for excluded paths: the candidates, the manifest and the excluded paths are inputs of the guard.
- A file system that changes while the guard runs; a name's lossy conversion to text; a directory listing that fails half way.
- A confidence beside each reference's role, and the wording of usage errors.
- Ordering.PromptPostsInOrder: is about runs in which no post is taken after it was given up on; with one, the order is `Acknowledged.SentInOrder` and its limits are `OrderBreaks.OrderBreaksExactlyFor`.
- SoloOrder.AcceptedInSubmissionOrder: is about the same runs, because with a late acceptance adjacency fails (`OrderBreaks.LateRepeatIsNotAdjacent`); what holds then is `Acknowledged.SubmittedInOrder`.
- GuardLimits.SameFileIsNeverSafe: asks that the candidate's path takes back no link by a `..`, because then its text and the file system name different files.
- GuardLimits.WalkedFileIsSafeExactlyWhen: asks the same, for the same reason.
- SplitMix.Rng.Weighted: does not model an empty table or a share total past 32 bits, on which the source panics.
- Storage, search, keys, holds and erasure behind the service.
