# Proofs about Clankie's process proofs, watcher, launch protocol and accounts

This project models the parts of Clankie that decide something from evidence that keeps changing while it
is gathered, or that several callers change at once, and proves what those decisions mean. Each file is one
component:

| file | component |
|---|---|
| `ProcessTable.dfy`, `LinuxCensus.dfy`, `LinuxProof.dfy` | the Linux helper's socket census, its attempts and the ancestry it releases |
| `PidLists.dfy`, `CwdCensus.dfy`, `DarwinAncestry.dfy` | the Darwin helper's PID lists, account directory census and ancestry walk |
| `Quiescence.dfy` | the watcher that decides a whole job is quiet |
| `Launches.dfy`, `LaunchFence.dfy`, `Revalidation.dfy`, `SerialQueue.dfy` | the activity launch protocol, its room handshake, the viewer recheck, and the promise queue |
| `GithubRefresh.dfy`, `AccountFlows.dfy` | the shared rotating GitHub credential, and pending sign-ins |
| `Splitting.dfy`, `ArtifactStream.dfy` | cutting PNG and PCM streams that arrive in pieces |
| `Utf8.dfy`, `Decimals.dfy`, `JobEnvelope.dfy`, `RequestFraming.dfy`, `ArgvBlob.dfy` | the helpers' byte-level parsers and printers |
| `Netlink.dfy` | the parser of UNIX socket dumps |
| `Base.dfy` | byte strings, options and the clock |

`dafny verify dfyconfig.toml` checks everything.

## How change is modelled

* **The kernel.** A trace gives the whole process table at every instant. A kernel call starts at one
  instant, ends at a later one chosen freely, and promises only what holds of a table that changed in
  between. The one law of a trace is that a process instance (PID and inode, or PID and birth) exists over
  one stretch of time and does not come back; `DarwinAncestry`, and one lemma of `LinuxProof`, add that a
  process never gets back a parent it lost. A directory or kernel listing misses no process that was there all
  along; an open descriptor table returns every descriptor that stays open. A trace also has instants at which
  a call may fail of itself or a time budget may run out, any at all. That something stands still means that
  from that instant on nothing changes and nothing fails of itself; the statements about it are exact answers,
  while all others hold under any change and failure.
* **The service the watcher looks at.** A trace of the conversation log, the armed watches and the workers.
  The laws are the ones the watcher relies on: the log grows; only an armed watch admits a run, and it is
  cleared afterwards; only a run in flight arms watches or makes workers busy. The trace starts once the
  brief was submitted, its log is finite, and listing workers takes at least a millisecond.
* **Asynchronous code.** `Launches`, `Revalidation` and `SerialQueue` are state machines whose steps are what
  runs between two `await`s, so a run of steps is any interleaving. In `LaunchFence` and `GithubRefresh` a
  method call is such a step, and `Meanwhile` stands for any calls by others, also while a stop waits or a
  cleanup deletes an invite. In `AccountFlows` a whole operation is a step, which `SerialQueue` justifies.
* **Discord, GitHub and Linear.** Their answers are parameters or chosen freely. GitHub never issues a
  refresh token twice; flow ids and grants are fresh. Presence writes with one idempotency key are handled one
  after another, and the route asks the guard before each of its Discord effects.

## Findings

* The C helper takes request payloads of 4095 bytes, the Python helper only 4094
  (`RequestFraming.LongestLineDiffers`); they agree on a stream exactly when no such request comes up.
* A refresh token that GitHub answered for good is posted again when that very answer could not be stored
  (`GithubRefresh.SpentTokenPostedAgain`). After such an answer the next caller posts it if and only if it has
  not run out by then (`GithubRefresh.LostWriteResends`); after an answer that was stored nobody ever does.
* `slow_down` does not always add five seconds to the polling interval as section 3.5 of RFC 8628 has it; it
  can even shorten it, exactly when GitHub names a shorter one (`AccountFlows.SlowsByFive`).
* Closing the admission service can make a recheck that is under way forget a viewer admitted afterwards
  (`Revalidation.ClosingCanLose`): if and only if, at that moment, the recheck is inside a room whose map it
  can still empty, that is, while nobody left in the map was answered to be present or is done with, and no
  call to end a grant of the viewer in turn has failed (`Revalidation.ClosingForgetsExactly`). Closing between
  passes, between rooms or while the bot token is read forgets nobody.
* A room launch whose write is taken up only after its stop had settled still runs its cleanup, if and only if
  nothing else holds the channel or is about to (`LaunchFence.LateCleanup`, and the run
  `LaunchFence.SomeLateCleanup`). It has no other effect, and it deletes nothing of a newer launch
  (`LaunchFence.Fence.StopRoom`, `LaunchFence.Fence.DeleteReturned`).
* Two quiet-looking passes alone do not mean that a job is quiet (`Quiescence.LookingQuietTwiceIsNotEnough`);
  the equal run count that the watcher also asks for is needed.
* The kind of a PNG chunk is read as ASCII, which drops the top bit of each byte, so another kind can end a
  picture (`ArtifactStream.OtherKindEnds`): a chunk ends it if and only if its kind is IEND with any of its
  top bits set. Among the kinds that PNG has, which are letters, only IEND does
  (`ArtifactStream.WalkEndsExactly`).

## Model

| member | source | states |
|---|---|---|
| ProcessTable.AliveBetween | integrations/fleet-proof/linux-process-proof.py:266-283 | an instance once present and later alive was alive at every instant between, which is what confirmed exits and PID inodes are for |
| LinuxCensus.ScanFds | integrations/fleet-proof/linux-process-proof.py:394-409 | reading one open descriptor table through meets every descriptor that stayed open; a socket seen in a second process ends the attempt at once; a table that stands still tells exactly whether it shows the socket |
| LinuxCensus.ScanThread | integrations/fleet-proof/linux-process-proof.py:383-433 | a thread's table may be skipped only when it is unreadable and another user's, or when the process is confirmed gone; a thread passed is read between two equal readings of its identity; a thread that stands still is read or skipped, never refused |
| LinuxCensus.DeniedTable | integrations/fleet-proof/linux-process-proof.py:412-431 | what an unreadable table leads to: on only for a thread of another user, whose identity and denial were read again; the process dropped only when it is not alive; refused as unavailable only when it was alive |
| LinuxCensus.ReadPinned | integrations/fleet-proof/linux-process-proof.py:380-446 | a process pinned before is read whole between equal readings of its identity, every thread of every listing, or is confirmed gone; if it is found to hold the socket, the very identity read before and after the sight is what is kept; a process that changed is reported only if it is still alive |
| LinuxCensus.Scan | integrations/fleet-proof/linux-process-proof.py:361-448 | a completed read clears that very instance: every thread was read, and it held the socket nowhere readable throughout the read, or it departed. An owner is recorded with the instance that was seen with the socket and the identity that it had both before and after; on a process that stands still the read tells exactly whether it holds the socket |
| LinuxCensus.Exited | integrations/fleet-proof/linux-process-proof.py:266-283 | exit is reported only when the whole group is gone or no live process has the PID |
| LinuxCensus.ResolveOne | integrations/fleet-proof/linux-process-proof.py:317-323 | an unresolved instance leaves the books only when it is still listed, its PID names another process, or its exit is confirmed |
| LinuxCensus.ReadOne | integrations/fleet-proof/linux-process-proof.py:329-358 | reading one pending PID keeps the attempt's accounting; after a success just that PID is read, and after a failure of each kind the books and the outcome are exactly the ones that kind asks for |
| LinuxCensus.Unread | integrations/fleet-proof/linux-process-proof.py:334-358 | an instance gone is dropped only after its exit is confirmed; one that was denied is counted, and only the third denial of the very same instance ends the attempt; churn is left for the next listing; any other refusal stands |
| LinuxCensus.ReadPending | integrations/fleet-proof/linux-process-proof.py:324-358 | a round leaves every pending instance read, settled or unresolved, none forgotten |
| LinuxCensus.Relist | integrations/fleet-proof/linux-process-proof.py:312-323 | a new listing discards the attempt if an owner left it, and loses no unresolved instance; on a table that stands still it lists exactly the table and settles the books |
| LinuxCensus.CompleteCensus | integrations/fleet-proof/linux-process-proof.py:302-359 | over every interleaving, from 1 to 1024 listings, all taken within the attempt; a returned owner is in the last one, was seen with the socket between two equal readings of the identity returned, no other instance alive through the last listing kept it in one place except in an unreadable foreign table, and every instance in any listing was read, departed, displaced or is the owner. Conversely, on a table that stands still and readable the answer is exact: the one holder with its identity, that there is none, or that there are several |
| LinuxCensus.CompleteIsAVerdict | integrations/fleet-proof/linux-process-proof.py:325-328 | the account of every instance ever listed yields the verdict about every instance alive in the last listing |
| LinuxCensus.VerdictHolds | integrations/fleet-proof/linux-process-proof.py:325-328 | the settling test on listing, reads and owners implies that verdict |
| LinuxCensus.ClearedHoldsNothing | integrations/fleet-proof/linux-process-proof.py:383-444 | a cleared instance that survives cannot have held the socket in one place all its life unless that table was foreign and unreadable |
| LinuxCensus.PlainHolderIsTheOwner | integrations/fleet-proof/linux-process-proof.py:302-448 | whoever keeps the socket throughout the attempt in a readable or same-user table is the owner named |
| LinuxCensus.SharedSocketHasNoOwner | integrations/fleet-proof/linux-process-proof.py:403-409 | a socket that two such processes keep throughout never gets an owner |
| LinuxCensus.InheritorIsFound | integrations/fleet-proof/linux-process-proof.py:324-358 | a process born during the attempt that inherits the socket in plain sight excludes any other owner |
| LinuxCensus.DepartedIsFinal | integrations/fleet-proof/linux-process-proof.py:266-283 | an instance that departed is not alive at the end of the attempt |
| LinuxProof.Proof.Census | integrations/fleet-proof/linux-process-proof.py:242-264 | attempts of the whole job are counted together up to 16, each starts from nothing, only census churn is tried again and each refusal is recorded; the owner returned carries the identity read around its socket; on a table that stands still the next attempt answers exactly |
| LinuxProof.Proof.OpenPin | integrations/fleet-proof/linux-process-proof.py:187-197 | a pin is the process that had one identity both before and after its handle was opened, and was alive at the latter; a process that stands still is always pinned as it is |
| LinuxProof.Proof.PinProcess | integrations/fleet-proof/linux-process-proof.py:187-200 | a pinned PID keeps naming one instance with one identity that is read again and seen alive at each use, or the proof is refused; it is never refused for a process that stands still and was pinned as it is |
| LinuxProof.Proof.Ancestors | integrations/fleet-proof/linux-process-proof.py:458-469 | the chain starts at the PID, links each row to the next, repeats no PID, has at most 64 rows, ends at parent 1 or 0, and every row was shown in the window; if an ancestry of at most 64 living rows stands, it is released |
| LinuxProof.Proof.SocketProof | integrations/fleet-proof/linux-process-proof.py:471-494 | a released proof holds two full census verdicts, each with its account of every instance listed, for one owner with one instance, start and users, and one chain shown row by row in both windows whose first row is that owner; the connection had the released inode and cookie at an instant before the first census and at one after the second. Conversely, a provable state that stands still is proved while 2 of the 16 attempts are left, and what is released is exactly its owner, chain, inode and cookie |
| LinuxProof.ShownTwiceIsUnbroken | integrations/fleet-proof/linux-process-proof.py:471-494 | every process of a released chain was present at every instant between the two readings |
| LinuxProof.ShownTwiceStoodAtOnce | integrations/fleet-proof/linux-process-proof.py:471-494 | if no process gets a lost parent back, the whole chain was the true ancestry, at once, at every instant between the two readings |
| LinuxProof.AncestryIsUnique | integrations/fleet-proof/linux-process-proof.py:458-469 | of the rows of one table only one chain can be released for a PID |
| LinuxProof.StandsOnce | integrations/fleet-proof/linux-process-proof.py:458-469 | what a table releases when it stands still is unique, so the exact answers above have one meaning |
| PidLists.MergePids | integrations/fleet-proof/native-process-proof.c:399-414 | in place, the strictly increasing union of the PIDs above 1 of both lists, refused exactly when that union has no room, and then unchanged |
| PidLists.IncreasingIsCanonical | integrations/fleet-proof/native-process-proof.c:396-414 | a strictly increasing list is determined by its PIDs, so the merge has one possible result |
| PidLists.Find | integrations/fleet-proof/native-process-proof.c:376-394 | bisection of the merged list finds a PID exactly when it is there |
| CwdCensus.ReadCwd | integrations/fleet-proof/native-process-proof.c:814-853 | a record is the directory of the very instance it names, though the path was read by PID; a process yields none only when it is gone, or is another account's and was not asked for; a readable one that stands still always yields its record |
| CwdCensus.PathBelongs | integrations/fleet-proof/native-process-proof.c:831-853 | a path read between two equal observations is that instance's own |
| CwdCensus.CheckListed | integrations/fleet-proof/native-process-proof.c:893-927 | a listed PID is passed over only when it was seen gone, or seen as an instance of which there is a record with the same PID, birth and users, of the account; a reused PID is read; nothing new is read of a table that stands still |
| CwdCensus.Pass | integrations/fleet-proof/native-process-proof.c:887-928 | a pass that reads nothing new covers every account process that ran through its listing |
| CwdCensus.ProveCwds | integrations/fleet-proof/native-process-proof.c:866-951 | of every account process that ran through the last listing the directory had been read before that listing, and every released path was some process' directory; each repeated pass appends a record, of which there are at most 16384. Conversely, on a table that stands still, where each process of the account can be read and the limits suffice, the proof succeeds and shows exactly the directories of all readable processes, by increasing PID |
| CwdCensus.VerdictHolds | integrations/fleet-proof/native-process-proof.c:930-944 | covered listings and sound records make the released list complete and sound |
| CwdCensus.Emit | integrations/fleet-proof/native-process-proof.c:930-944 | the paths released are those of the records of the merged list in its order, then those read of reused PIDs, and nothing else |
| CwdCensus.ShowsAllOnce | integrations/fleet-proof/native-process-proof.c:930-944 | a table admits only one such answer |
| DarwinAncestry.ReadTwiceStood | integrations/fleet-proof/native-process-proof.c:1248-1276 | a row read the same way twice stood, with that parent, at every instant between the readings |
| DarwinAncestry.TwoReadingsRelease | integrations/fleet-proof/native-process-proof.c:1248-1297 | a walk, the second reading and the last socket check show the whole chain at one instant, and the owner with its socket then or later |
| DarwinAncestry.StandsOnce | integrations/fleet-proof/native-process-proof.c:1244-1263 | at most one ancestry of a process stands in a table |
| DarwinAncestry.Job.Walk | integrations/fleet-proof/native-process-proof.c:1244-1263 | the chain starts at the socket's owner as the census saw it, links row to row, repeats no PID and has at most 64 rows; if an ancestry of at most 64 living rows stands, the walk releases it |
| DarwinAncestry.Job.Recheck | integrations/fleet-proof/native-process-proof.c:1264-1276 | every row was seen again with the same parent, users and birth |
| DarwinAncestry.Job.AncestryFailure | integrations/fleet-proof/native-process-proof.c:322-352 | a new walk is asked for if and only if an ancestor was dead at some instant since it was observed, the claimant shows the same lifetime and users, the walk was not used yet and the budget holds; a claimant gone refuses; otherwise it is tried again exactly when the budget ran out |
| DarwinAncestry.Job.BracketOwner | integrations/fleet-proof/native-process-proof.c:1299-1322 | before the new walk the same process lifetime is seen holding the same socket at one instant, and nothing but its parent may have changed; a holder that stands still is taken with the parent it has now |
| DarwinAncestry.Job.ProveAncestry | integrations/fleet-proof/native-process-proof.c:1244-1323 | across the jump back, what is released is one instant's chain for the process and socket that the census found; an ancestry that stands still is released as it is |
| DarwinAncestry.Job.Execute | integrations/fleet-proof/native-process-proof.c:1325-1364 | a job makes at most 32 attempts and walks anew at most once among them all; it tries again exactly after those attempts that asked for it, and succeeds exactly when its last one did; on a table that stands still the first attempt releases the chain |
| Quiescence.RunsGrow | apps/clankie/scripts/comparison-await-job.ts:208-222 | a longer replay knows every run of a shorter one, and a run that settled stays settled |
| Quiescence.Frozen | apps/clankie/scripts/comparison-await-job.ts:224-229 | while no run is in flight and none is admitted, watches and busy workers can only disappear |
| Quiescence.QuietIsStable | apps/clankie/scripts/comparison-await-job.ts:254-259 | with nothing armed, busy or in flight, nothing ever will be |
| Quiescence.ConfirmedIsQuiet | apps/clankie/scripts/comparison-await-job.ts:230-304 | two passes in the watcher's reading order that saw equally many runs prove that the service is quiet from the second conversation read on, for ever |
| Quiescence.LookingQuietTwiceIsNotEnough | apps/clankie/scripts/comparison-await-job.ts:284-304 | a concrete run in which both passes look quiet, the run counts differ, and the service never is |
| Quiescence.Watcher.DrainConversation | apps/clankie/scripts/comparison-await-job.ts:208-220 | paging to the end leaves exactly the runs of the log as it was then |
| Quiescence.Watcher.Observe | apps/clankie/scripts/comparison-await-job.ts:230-252 | a sample reflects workers, watches and conversation at three ordered instants |
| Quiescence.Watcher.CandidateConfirmed | apps/clankie/scripts/comparison-await-job.ts:299-304 | two candidate samples with equal run counts meet the conditions of the argument |
| Quiescence.Watcher.Reconfirm | apps/clankie/scripts/comparison-await-job.ts:264-305 | the confirming pass comes after the settling wait, cut at the deadline, and says yes if and only if its sample is a candidate too and saw equally many runs |
| Quiescence.Watcher.AwaitQuiescence | apps/clankie/scripts/comparison-await-job.ts:203-309 | it ends quiescent if and only if some candidate pass and its own confirming pass agreed, and then the service is quiet from an instant of the call on; it ends at the deadline only when no such pair was taken and less than one observation's budget is left; it ends failed exactly when some observation of some pass could not be made; every pass starts with that budget left; and a service that is quiet from the start is found so unless an observation fails or there is no time for a pass |
| Quiescence.QuietServiceIsNoticed | apps/clankie/scripts/comparison-await-job.ts:284-304 | of a quiet service no complete passes can be taken without some candidate agreeing with its confirming pass |
| Quiescence.SettledMeansNobodyBlocked | apps/clankie/scripts/comparison-await-job.ts:311-356 | the receipt is settled exactly when the ending is quiescent and every worker of the last sample is idle or done; it produced no work exactly when at most one run was seen and no worker is listed |
| Launches.ApplyKeepsInv | apps/clankie/src/activity-admission.ts:303-355 | every step between awaits keeps turn order, registration, scopes and disjoint shares |
| Launches.EveryRunKeepsInv | apps/clankie/src/activity-admission.ts:432-494 | so does every interleaving of launches, stops, admissions, timeouts and answers |
| Launches.OneBodyAndDisjointShares | apps/clankie/src/activity-admission.ts:312-332 | at most one admission or cleanup body is under way, even after callers timed out, and launches of a channel that may still be cleaned up share nothing |
| Launches.GrantWasCurrent | apps/clankie/src/activity-admission.ts:448-494 | in every run a returned grant was answered, and passed its last check with its launch still current, its caller still waiting and the share among its launch's |
| Launches.AnswerIsGranted | apps/clankie/src/activity-admission.ts:486-492 | conversely, in every run an admission answered while its caller waits and its launch is current ends granted, with the very share it had picked, whoever held that share before |
| Launches.FailureHasACause | apps/clankie/src/activity-admission.ts:461-492 | an admission fails only in a call that failed, or because the share that it had opened itself was gone |
| Launches.RefusedWasUnwanted | apps/clankie/src/activity-admission.ts:456-492 | an admission is refused only after a check that came after its caller had given up or its launch had ended |
| Launches.OpenedIsWhatIsGranted | apps/clankie/src/activity-admission.ts:470-485 | an admission that opened a share is held to it: it is granted that share or none |
| Launches.PicksExactly | apps/clankie/src/activity-admission.ts:463-469 | the shares an admission may pick are exactly those in scope that it opened, or else that its own launch has or no live launch of the channel does |
| Launches.StopIsFinal | apps/clankie/src/activity-admission.ts:432-447 | after a stop of the channel, or a newer launch in it, no admission asked for before is ever granted |
| Launches.NeverCurrentAgain | apps/clankie/src/activity-admission.ts:432-447 | a launch that is not current is never current again |
| Launches.TimeoutIsFinal | apps/clankie/src/activity-admission.ts:312-332 | an admission whose caller timed out is never granted, though its body goes on |
| Launches.EveryCallIsQueued | apps/clankie/src/activity-admission.ts:312-450 | every admission and stop asked for is queued, at the end of the queue, as the very job asked for, and nothing else is |
| Launches.QueueMoves | apps/clankie/src/activity-admission.ts:312-332 | the oldest unfinished body of the queue can always move, without waiting for a timeout |
| Launches.CurrentSharesAreSafe | apps/clankie/src/activity-admission.ts:437-447 | what a cleanup stops is never a share of the channel's current launch |
| Launches.TakenIsWhatItAdds | apps/clankie/src/activity-admission.ts:454-490 | an admission's taken set grows by exactly what it adds to its launch |
| Launches.RefusalEndsWhatItTook | apps/clankie/src/activity-admission.ts:336-341 | a refused admission has sent stops for exactly the listed shares it took; one that was granted, or failed, also because that listing failed, has sent none and leaves what it took with its launch |
| Launches.SweepWasListed | apps/clankie/src/activity-admission.ts:336-347 | a sweep stops shares by a listing taken in that sweep |
| Launches.CleanupEndsTheRest | apps/clankie/src/activity-admission.ts:437-447 | what an admission left with its launch, the cleanup that ends this launch has asked to stop, as far as it is still listed |
| Launches.CleanupIsComplete | apps/clankie/src/activity-admission.ts:437-447 | a cleanup that ends without failing has let go every launch that waited for one in its channel at any time before it ended |
| Launches.NoLaunchIsAbandoned | apps/clankie/src/activity-admission.ts:348-447 | in every run each launch is current, still to be cleaned up, or was let go after a sweep asked to stop all the shares that it ever had, as far as they were listed |
| LaunchFence.Fence.RevokeLaunches | apps/clankie/src/activity-admission.ts:368-377 | every launch reserved in the channel is revoked and remembered there; other channels are untouched |
| LaunchFence.Fence.BeginStop | apps/clankie/src/activity-admission.ts:368-409 | a stop covers every launch reserved in the channel and waits for exactly the running ones among the launches it covers |
| LaunchFence.Fence.GuardEffect | apps/clankie/src/activity-admission.ts:379-382 | the check before each Discord effect of a start lets it through exactly when its launch is not revoked, and never one that a settled stop covered |
| LaunchFence.Fence.SettleRevoked | apps/clankie/src/activity-admission.ts:403-409 | a stop waits for exactly the runs of revoked launches of its channel that the route is handling |
| LaunchFence.Fence.Settled | apps/clankie/src/activity-admission.ts:410-416 | it reports success exactly when nothing had to be waited for or all of it ended in time |
| LaunchFence.Fence.StopRoom | apps/clankie/src/activity-tools.ts:132-147 | under any interleaving, the receipt is confirmed if and only if the invite was taken back and the wait settled, uncertain if only the latter failed, and otherwise what the invite's removal was; the wait settles if and only if nothing was pending or all of it ended in time, and pending are exactly the handled runs of the launches covered. A settled stop means of every launch reserved before it that it is refused for ever, that no run of it from before the wait is handled any more, by effect or by cleanup, and that no later one has an effect under way |
| LaunchFence.Fence.Register | apps/clankie/src/app/discord-routes.ts:826-832 | a start becomes the channel's current launch exactly when it is not revoked at its end |
| LaunchFence.Fence.BeginCleanup | apps/clankie/src/app/discord-routes.ts:622-652 | a revoked run begins a cleanup if and only if no current launch, reservation or other unrevoked start holds the channel |
| LaunchFence.Fence.ListInvites | apps/clankie/src/app/discord-routes.ts:622-652 | a cleanup may delete exactly the invites of its own channel that it listed |
| LaunchFence.Fence.GuardDelete | apps/clankie/src/app/discord-routes.ts:622-652 | a revoked launch goes on to delete an invite exactly while no current launch, reservation or other unrevoked start holds the channel |
| LaunchFence.Fence.DeleteReturned | apps/clankie/src/app/discord-routes.ts:642-646 | however late the deletion lands and whatever was launched meanwhile, it takes no invite of a current launch, nor of a start that may still become one |
| LaunchFence.LateCleanup | apps/clankie/src/app/discord-routes.ts:851-856 | a write taken up after the stop of its launch settled begins its cleanup if and only if nothing else holds the channel or is about to: no current launch, no reservation and no running start but revoked ones |
| LaunchFence.SomeLateCleanup | apps/clankie/src/app/discord-routes.ts:851-856 | such a run exists |
| SerialQueue.EveryRunIsInTurn | apps/clankie/src/accounts.ts:864-878 | operations of one provider begin in the order of submission, each after all earlier ones settled |
| SerialQueue.OneAtATime | apps/clankie/src/activity-tools.ts:175-188 | no two whole room operations overlap, whatever came between |
| SerialQueue.NothingIsDropped | apps/clankie/src/accounts.ts:864-878 | each submission is one operation, which has settled or begun exactly when that happened to it |
| SerialQueue.SomeoneMoves | apps/clankie/src/activity-tools.ts:175-188 | while an operation has not settled, it or an earlier one can begin or is running |
| Revalidation.StepKeeps | apps/clankie/src/activity-admission.ts:108-188 | every step of a pass, an admission or the timer keeps the maps apart and attached and every grant accounted for |
| Revalidation.NoGrantIsLost | apps/clankie/src/activity-admission.ts:108-188 | in every run that is never closed while a recheck can still empty the map of the room it is in, and so whenever it is closed outside rooms, every grant given before or after is tracked, was revoked, ran out or was let go by closing, and the timer runs while any viewer is tracked |
| Revalidation.LetGoByClosing | apps/clankie/src/activity-admission.ts:192-196 | only a close lets a grant go, so what is given after it is not |
| Revalidation.ClosingForgetsExactly | apps/clankie/src/activity-admission.ts:146-196 | from any state of any run, closing can cost a later viewer the grant if and only if a recheck is inside a room whose map it can still empty |
| Revalidation.ClosingInsideLoses | apps/clankie/src/activity-admission.ts:146-196 | after such a close any admission to that room can be dropped: its grant is then neither tracked nor revoked, run out or let go |
| Revalidation.OutageKeepsGrants | apps/clankie/src/activity-admission.ts:146-188 | over any number of passes in which Discord does not answer, whatever is interleaved, only what had expired is removed |
| Revalidation.AnswerIsCarriedOut | apps/clankie/src/activity-admission.ts:131-176 | after an answer, whatever is interleaved, once the walk of the room is over it has tried to revoke every grant that a viewer missing from the answer held when it came, and each was revoked or is tracked for the next pass |
| Revalidation.OnlyTheMissingAreEnded | apps/clankie/src/activity-admission.ts:131-176 | conversely, in every run a revoked grant was given for a room about which Discord had given an answer without that viewer |
| Revalidation.PassSkipsNoRoom | apps/clankie/src/activity-admission.ts:146-188 | a pass that ends has gone through every room that still has viewers, and leaves the timer running exactly if there is one |
| Revalidation.PassMoves | apps/clankie/src/activity-admission.ts:146-188 | a pass under way can always go on, whatever its last call gave |
| Revalidation.ClosingCanLose | apps/clankie/src/activity-admission.ts:192-196 | the service reaches a state in which closing forgets a later viewer |
| GithubRefresh.Broker.Update | apps/clankie/src/accounts.ts:290-303 | under the lock the current refresh token is posted at most once, exactly when it is due and can be; then the entry holds exactly the access token, refresh token and expiries of the reply and keeps its account binding, or is marked rejected; in every other case it stays as it is, and a missing entry stays missing |
| GithubRefresh.Broker.Answer | apps/clankie/src/accounts.ts:235-268 | a stored answer replaces the pair with exactly what GitHub gave, or marks it rejected, so the spent token is never eligible again; one that was not stored changes nothing |
| GithubRefresh.Broker.Meanwhile | apps/clankie/src/accounts.ts:281-318 | any number of connects, disconnects and refreshes by others keep the rule that a token is posted again after an answer for good only if that very answer was not stored |
| GithubRefresh.Broker.GithubConnection | apps/clankie/src/accounts.ts:281-318 | with any other callers in between, the token handed out is the access token, or the API key, of one stored version, never the refresh token, with that version's own binding, held at an instant of the call and not lapsed; a missing connection or an error is warranted by such a version too; a token that must be posted is, unless others changed the entry, and an outage on a lapsed one fails |
| GithubRefresh.LostWriteResends | apps/clankie/src/accounts.ts:290-303 | after any answer that was not stored, the next caller that finds the entry as it was posts the same token if and only if it has not run out by then |
| GithubRefresh.SpentTokenPostedAgain | apps/clankie/src/accounts.ts:290-303 | such a run exists from an empty store on |
| AccountFlows.Prune | apps/clankie/src/accounts.ts:425-428 | what is kept are the newest unexpired flows, all that are unexpired up to one less than the limit, in order |
| AccountFlows.LiveInOrder | apps/clankie/src/accounts.ts:425-428 | flows expire one by one, whatever stands before or behind them |
| AccountFlows.SlowsByFive | apps/clankie/src/accounts.ts:691-695 | exactly when slow_down adds five seconds, when it shortens the interval, and what it sets if none is named or one beyond 600 seconds is |
| AccountFlows.StoredAfterDisconnect | apps/clankie/src/accounts.ts:812-878 | a credential that a flow stored after a disconnect comes from a flow that was started after it |
| AccountFlows.Accounts.StartGithub | apps/clankie/src/accounts.ts:619-658 | a device flow is added behind the newest unexpired ones, at most 16 in all, with its interval within 1 to 600 seconds |
| AccountFlows.Accounts.PollGithub | apps/clankie/src/accounts.ts:660-737 | what each poll answers, forwards, stores and forgets; a poll reaches GitHub only when due, at least the interval last set after the previous one, and only a pending flow stores |
| AccountFlows.Accounts.Forward | apps/clankie/src/accounts.ts:679-737 | each answer of GitHub has its own result: pending with the new interval, denied, expired, connected or called off; only a final one forgets the flow, and the next poll is due an interval later |
| AccountFlows.Accounts.CompleteLinear | apps/clankie/src/accounts.ts:786-810 | a state is used up first, so it is exchanged at most once, whatever comes after |
| AccountFlows.Accounts.ConnectLinearApp | apps/clankie/src/accounts.ts:774-784 | an app's own credential is stored only when Linear accepted it and the guard let it, and touches no pending flow |
| AccountFlows.Accounts.Disconnect | apps/clankie/src/accounts.ts:812-862 | all pending flows of the provider are forgotten even when the guard then calls it off; otherwise its credentials go, the Linear app's own among them |
| Splitting.SplitExtends | apps/clankie/src/activity-artifact-source.ts:274-340 | later bytes are cut as if the rest left over stood in front of them |
| Splitting.UnitsGrow | apps/clankie/src/activity-artifact-source.ts:274-340 | what was cut off stays so whatever arrives later |
| Splitting.AnyDelivery | apps/clankie/src/activity-artifact-source.ts:274-310 | however a stream is cut into pieces, a reader that carries the rest over ends with what the whole stream holds |
| Splitting.NothingLost | apps/clankie/src/activity-artifact-source.ts:282-306 | the units taken and the rest are always exactly the bytes received |
| Splitting.UnitsAreFound | apps/clankie/src/activity-artifact-source.ts:283-306 | units laid end to end are found again, and then whatever stands behind them |
| ArtifactStream.ScanIsLocal | apps/clankie/src/activity-artifact-source.ts:284-300 | a picture that ended or was too big is so whatever follows |
| ArtifactStream.LimitIsNeverFirst | apps/clankie/src/activity-artifact-source.ts:280-282 | with pieces of at most 64 KiB the buffer limit refuses only what the frame cap refuses anyway |
| ArtifactStream.WalkEndsExactly | apps/clankie/src/activity-artifact-source.ts:284-299 | a chunk ends the picture if and only if its kind is IEND up to top bits, and among letters if and only if it is IEND |
| ArtifactStream.OtherKindEnds | apps/clankie/src/activity-artifact-source.ts:294-299 | a kind other than IEND that ends a picture |
| ArtifactStream.AdmissibleExactly | packages/interactive-environment/src/activity-share.ts:60-100 | the schema's tests on a frame, taken together, mean exactly 33 to 262144 bytes that begin with the PNG signature and a chunk of length 13 that reads as IHDR, with width and height from 1 to 4096 |
| ArtifactStream.PicturesAreRecovered | apps/clankie/src/activity-artifact-source.ts:283-306 | any stream of PNGs within the cap, whose chunk kinds are letters and whose only IEND is their last chunk, is cut back into exactly those PNGs, and an unfinished one is what is left over |
| ArtifactStream.PrefixIsNotRefused | apps/clankie/src/activity-artifact-source.ts:283-306 | no beginning of such a stream is refused |
| ArtifactStream.PacketsAreSlices | apps/clankie/src/activity-artifact-source.ts:321-339 | sound packets are the successive slices of 2560 bytes, until the count runs out, with less than one left over |
| ArtifactStream.Decoder.FindEnd | apps/clankie/src/activity-artifact-source.ts:284-300 | the chunk walk finds where the first picture ends, or that it is unfinished or too big |
| ArtifactStream.Decoder.OnPictures | apps/clankie/src/activity-artifact-source.ts:274-310 | after each piece the frames published are those of all bytes received, and the share ended exactly when they hold something refused; a share that ended or lost its peer publishes nothing more |
| ArtifactStream.Decoder.OnSound | apps/clankie/src/activity-artifact-source.ts:311-340 | likewise for sound |
| ArtifactStream.PublishedIsAdmitted | apps/clankie/src/activity-artifact-source.ts:274-340 | whatever arrived, every frame published is such an image, every packet has 2560 bytes, and neither exceeds its count |
| ArtifactStream.PublishStream | apps/clankie/src/activity-artifact-source.ts:274-310 | however such a stream is cut into pieces of at most 64 KiB, a new share publishes exactly those PNGs, no limit ends it, and nothing is left over |
| Utf8.ValidUtf8 | integrations/fleet-proof/native-process-proof.c:498-519 | a byte string passes if and only if it encodes some sequence of Unicode scalar values (RFC 3629) |
| Utf8.StepIsEncoding | integrations/fleet-proof/native-process-proof.c:500-517 | what one turn of the loop passes over is the encoding of one scalar |
| Utf8.EncodingSteps | integrations/fleet-proof/native-process-proof.c:500-517 | the encoding of any scalar is passed over, whole |
| Utf8.EncodingIsInjective | integrations/fleet-proof/native-process-proof.c:497-519 | no two texts have the same encoding |
| Decimals.Decimal | integrations/fleet-proof/native-process-proof.c:198-207 | accepts exactly digit strings whose value is within the maximum, overflow of 64 bits included |
| Decimals.DigitsRead | integrations/fleet-proof/native-process-proof.c:1428 | a printed number reads back as itself |
| JobEnvelope.QuotedReads | integrations/fleet-proof/native-process-proof.c:521-529 | a JSON reader gets the printed text back byte for byte, whatever follows (section 7 of RFC 8259) |
| JobEnvelope.EscapedIsUtf8 | integrations/fleet-proof/native-process-proof.c:521-529 | text in UTF-8 is printed as UTF-8 |
| JobEnvelope.ReplyReads | integrations/fleet-proof/native-process-proof.c:1424-1435 | a reader of the reply format gets back the number, whether the job succeeded, its result and its error text of any reply, so no two replies are confused |
| JobEnvelope.PrintString | integrations/fleet-proof/native-process-proof.c:521-529 | prints exactly the quoted form of the C string |
| JobEnvelope.CountedSize | integrations/fleet-proof/native-process-proof.c:1417-1423 | the counted size bounds the printed size, and equals it exactly when the text has no NUL |
| JobEnvelope.EncodedError | integrations/fleet-proof/native-process-proof.c:1417-1423 | counts the size of the quoted text, stopping before the limit is passed, with no subtraction below zero |
| JobEnvelope.EnvelopeSize | integrations/fleet-proof/native-process-proof.c:1424-1435 | the frame of a reply takes at most 55 of the 256 bytes set aside for it |
| JobEnvelope.EnvelopeIsOneLine | integrations/fleet-proof/native-process-proof.c:1409-1435 | the only line feed of a reply is its last byte when the result has none |
| JobEnvelope.ServeJob | integrations/fleet-proof/native-process-proof.c:1386-1439 | a reply is sent exactly when both streams were written, the output has its form and the parts fit; then it fits the limit as a whole |
| RequestFraming.JoinSplits | integrations/fleet-proof/linux-process-proof.py:680-682 | splitting inverts joining by single spaces, so a request has one reading |
| RequestFraming.Tokenise | integrations/fleet-proof/native-process-proof.c:1448-1461 | the in-place tokeniser accepts exactly payloads of 1 to 10 nonempty fields, and each token reads as its field |
| RequestFraming.ParseExactly | integrations/fleet-proof/native-process-proof.c:1448-1469 | a payload is a request if and only if its fields are a number above the last one within 53 bits, an operation and its arguments, in that order |
| RequestFraming.RequestLine | integrations/fleet-proof/native-process-proof.c:1371-1384 | a line is taken exactly when it is closed, printable and at most 4095 bytes, and lies in the buffer closed by a NUL |
| RequestFraming.NextLineExactly | integrations/fleet-proof/native-process-proof.c:1371-1384 | the next line is given if and only if it stands first in the input, closed, printable and within the limit |
| RequestFraming.ServeNative | integrations/fleet-proof/native-process-proof.c:1441-1474 | the C loop starts exactly the jobs the specification says, in order, and ends alike |
| RequestFraming.ServeLinux | integrations/fleet-proof/linux-process-proof.py:673-695 | so does the Python loop |
| RequestFraming.RequestsAreServed | integrations/fleet-proof/linux-process-proof.py:673-695 | a stream of request lines is served line by line, each with its own operation and arguments, as long as the jobs succeed, and then what follows is |
| RequestFraming.FailureEndsIt | integrations/fleet-proof/linux-process-proof.py:673-695 | the first job without a reply is the last one started |
| RequestFraming.OddLineIsRefused | integrations/fleet-proof/linux-process-proof.py:673-695 | the end of input is a clean end; anything else that is not a request line with a larger number starts no job |
| RequestFraming.NumbersRise | integrations/fleet-proof/native-process-proof.c:1462-1467 | in every run request numbers rise strictly, within 53 bits |
| RequestFraming.HelpersAgree | integrations/fleet-proof/linux-process-proof.py:663-695 | on every stream and outcome of jobs the two helpers start the same jobs and end alike if and only if no request of exactly 4095 bytes comes up |
| RequestFraming.LongestLineDiffers | integrations/fleet-proof/native-process-proof.c:1376 | a request of 4095 bytes that only the C helper takes |
| ArgvBlob.Arguments | integrations/fleet-proof/native-process-proof.c:609-655 | accepts exactly the blobs laid out as the kernel does whose observed arguments are the wanted ones, and hands out the first two whole |
| ArgvBlob.SkipPath | integrations/fleet-proof/native-process-proof.c:614-626 | finds the arguments behind the padded path exactly when there is such a path |
| ArgvBlob.AcceptedOnce | integrations/fleet-proof/native-process-proof.c:609-655 | a blob has only one reading |
| ArgvBlob.WholeBlobIsRead | integrations/fleet-proof/native-process-proof.c:627-655 | of a process' whole blob the leading arguments come back exactly, empty ones included |
| ArgvBlob.NoReading | integrations/fleet-proof/native-process-proof.c:634-652 | an argument that does not end or is not the wanted one rules out every reading |
| Netlink.ParseMessages | scripts/evals/lead-native-peer.py:12-59 | the nested loops read what the message and attribute formats say, stay inside the data and end |
| Netlink.AcceptedExactly | scripts/evals/lead-native-peer.py:12-59 | messages of any content, with anything in their padding, are read if and only if each is of this dump and not interrupted, is a well-formed socket or an end without error, and nothing follows an end; then the sockets come back in order |
| Netlink.AcceptedIsFramed | scripts/evals/lead-native-peer.py:12-59 | whatever is read was such a list of messages, up to missing padding of the last one |
| Netlink.ReadingExactly | scripts/evals/lead-native-peer.py:39-55 | the attributes of a socket are read if and only if each is well formed |
| Netlink.LastOneStands | scripts/evals/lead-native-peer.py:39-55 | of several paths or peers the last one stands; other attributes change nothing |
| Netlink.DumpRoundTrip | scripts/evals/lead-native-peer.py:12-59 | every aligned dump of sockets, with its end marker or not, is read back, whatever flags, senders, cookies and further attributes it carries |
| Netlink.RecordIsRead | scripts/evals/lead-native-peer.py:39-55 | a record with a UTF-8 path and a peer comes back as it was, whatever NULs closed the path |

## Left out

- The socket scan of the Darwin helper (`scan_process` and the census half of `prove`): the Linux census is the modelled one of the two; the ancestry walk starts from any owner.
- The checks of a caller's expected PID, birth and socket id, and the `processes`, `birth`, `cwd` and `codex-server` proofs of both helpers: comparisons of single observations.
- Order of reading within a round, the short waits for an exit, diagnostics and memory erasure in the helpers.
- The length and encoding of paths in the directory census: a path is a string, which may or may not be absolute.
- LinuxCensus.CompleteCensus: gives its exact answer for tables in which every process is alive and can be read, or is another user's without the socket in what can be read; of an exiting or same-user unreadable one that stands still only the general verdict is stated.
- Python's conversion of very long digit strings: request lines are shorter than its limit.
- The negotiation of the blob's size with the kernel before it is parsed; the blob is whatever the last read returned.
- The share store behind the launch protocol (`activity-sharing.ts`), whose answers are free.
- The check for a revoked launch before a write waits for its key: a write may be taken up at any time.
- Revoking tokens at the providers when they are disconnected, the stored metadata of a connection, and Google and mailbox accounts.
- The read fence around a GitHub connection, and credential writes that a lost lock interrupts half way: a write happens or not.
- Schemas beyond PNG signature, header and dimensions; base64, digests and timestamps of published frames.
- Rounding of floating-point durations: frame and packet limits are computed over real numbers.
- Surrounding HTTP routes, Discord, GitHub and Linear services, ffmpeg, and the kernel itself: only what is assumed of them above.
- Revalidation.NoGrantIsLost: grants that are tracked at a close are let go by it, as the source intends; `Revalidation.ClosingForgetsExactly` says when a close may also cost a later one.
- ArgvBlob.Arguments: parses without the time budget, which may refuse at any argument.
- GithubRefresh.Broker.GithubConnection: takes GitHub's reply as a parameter, and reads a repeated refresh token as no answer.
