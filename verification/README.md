# NexusGrid: a model of dispatch, pairing, workflows, deposits and groups

NexusGrid is a peer-to-peer compute grid. A *master* node holds a table of tasks and hands them to
*workers*, directly or through consent offers; nodes pair with one another and exchange tokens; a
workflow of steps is expanded into a table of tasks with dependencies; files are deposited with other
nodes in encrypted chunks and previewed by byte range; and nodes form groups with roles and a shared
key. This project models those parts in Dafny and proves what they promise over every input and every
run. Nothing was executed.

## How it is organised

Each protocol is a state, one function per handler, a `Step` datatype with one constructor per handler,
and `Exec`, which folds a sequence of steps. The theorems quantify over every sequence of steps. Where
the program updates tables in place there is also a class whose methods are proved to do exactly the
step of the same name (`DispatchNode.MasterNode`, `PairingNodes.Node`, `GroupNode.Tables`,
`NetworkCache.Shared`, `DepositKeys.KeyCache`), and loops over lists are methods with invariants.

| files | part |
|---|---|
| `Lifecycle`, `Dispatch`, `DispatchLog`, `DispatchSafety`, `DispatchTheorems`, `DispatchRows`, `DispatchTerminal`, `DispatchStranded`, `DispatchStrikes`, `DispatchOrder`, `DispatchEffects`, `DispatchOutcomes`, `DispatchNode` | task states, offers, strikes, bundles, results, background loops |
| `Pairing` | the two-node pairing and token protocol |
| `Workflow`, `WorkflowNames`, `WorkflowGraph`, `WorkflowSchedule`, `Graphs` | expansion of steps into tasks and their release |
| `Chunks`, `Deposit`, `Range`, `DepositKeys` | chunking, sealing, ranged preview, cached keys |
| `Groups`, `GroupTheorems`, `GroupEffects`, `GroupNode` | role tables, frames, grants, rosters and the group key |
| `SafePath`, `CacheKey`, `NetworkCache` | path sanitising, the dependency cache key, the revisioned cache |
| `Text`, `Wrappers` | strings and options |

The main results, hardest first:

* **Dispatch.** A log of audit events is kept beside the tables. In every run, with accept split into
  its two lock sections, the tables are exactly what replaying the log gives (`DispatchSafety.ExecInv`).
  From that follow exclusive dispatch, conservation of offers, at most one release per bundle, consent
  honoured and strikes counted. For every step and every task, the status, offer, strikes, bundles and
  membership in the disrupted set afterwards are told by cause rather than by handler
  (`DispatchEffects.StatusAfter` and those beside it). Over whole runs, refusals are bounded by the limit, the terminal moves
  and the put-backs, and every such bound is reached by some run; and a task is started only after
  everything it depends on was completed, exactly when no step of the run lets it jump.
* **Workflows.** For well-formed workflows the expanded rows reach one another exactly as their steps
  do. For any workflow with legible names, releasing ready rows in whatever order finishes every row
  exactly when every dependency resolves, none repeats another, and there is no cycle.
* **Pairing.** The credentials of two trusting nodes agree throughout a run exactly when no step of the
  run is one of those named by `Disagrees`. That moreover a trusted row carries full
  credentials and any other row none is a second invariant, with `Breaks` for its guard. After a removal
  that gets through no earlier token is honoured by either node, in whatever follows.
* **Groups.** Over every node and every order, repetition and loss of frames, grants and rosters, no
  member is locked out of reading and the founder out of anything; and every rotated key is sealed only
  to nodes that the rotating node itself admitted. What anybody may do after an assignment, a role change,
  an admission or a removal is told exactly, and a frame does elsewhere what its endpoint did at home.
* **Deposits.** Cut, seal, concatenate, slice, decrypt is the identity, and a ranged preview of the
  stored chunks is the slice section 14.1.2 of RFC 9110 asks for, exactly when the numbers in the header
  are short enough to be read or the range selects nothing.

## Where a promise does not hold

Each of these has a lemma that shows the failure and a lemma with the exact condition.

* *Strikes never decrease.* They fall exactly when there are some and the step moves the task to a
  terminal status (`StrikesFallIff`, `StrikesFallInARun`).
* *In any run a worker refuses a task at most as often as the limit.* The bound is the limit for each
  period between terminal moves of the task, plus one for each time a stranger's accept put an offer
  back, since accept pops and puts back under two locks (`RunRefusalBound`). Every such number is reached
  (`BoundIsReached`), so that the limit alone is a bound exactly when there is no terminal move and no
  put-back (`LimitBoundsIff`).
* *A terminal row stays as it is.* It does exactly when no tampered bundle of the task is being built:
  the late integrity check writes `fatal_error` over any status (`AbsorbedIff`). A run gets there
  (`LateCheckOverwrites`).
* *Every task in the disrupted set is disrupted.* Resuming a workflow queues such a task and leaves it
  in the set, so that all its results are discarded (`DisruptedStepIff`, `ResumeBreaksDisrupted`,
  `ResumeStrands`); the late integrity check does the like (`LateCheckOverwrites`).
* *A task starts only after what it depends on.* A requeue by hand jumps that queue, and so does a failing
  result for a task that was never handed out, since it schedules a retry (`StepInTurnIff`,
  `UnaskedResultJumps`).
* *Credentials of two trusting nodes agree.* They stop agreeing exactly at the steps `Disagrees` names: a
  dual rejection of an untrusted row while the other node trusts and has credentials, a rotation or the
  accept of a trusted row whose reply is lost, and an upgrade that the other side answered in vain with
  its first token or never got while this side made up its own (`RunAgreesIff`,
  `LostRotationDisagrees`). One acknowledged accept repairs it (`AcceptHeals`). The same goes for their
  roles (`RunRolesIff`, `RolesCollideInARun`).
* *A trusted row carries full credentials, any other row none, and trusting nodes agree.* This stronger
  invariant ends exactly at the steps `Breaks` names (`RunKeepsPairIff`).
* *A dependency names an expanded task.* One on a sliced step that is listed later, and one on an unknown
  step, does not (`DependencyResolvesIff`), and the workflow stalls (`LaterSlicedStalls`,
  `UnknownStalls`). So does one with a step that lists a dependency twice, or a step beside one of its
  slices, because the release pass compares the number of rows found with the number of ids listed
  (`RepeatsStall`, `FinishesIff`). A dependency name that ends in a space or holds a comma is read back as
  another (`SpacedNameFinishes`).
* *A role change reaches every node.* A frame that defines or deletes a role is stripped of white space
  and the request is not, so that two nodes come out alike exactly when there is none around the name, or
  all the change could do is done already (`DefinitionMirrorsIff`, `DeletionMirrorsIff`,
  `SpacedRoleDiverges`).
* *A private group keeps to its member limit.* Approval does not ask again (`RunCapIff`, `CapExceeded`).
* *A kicked member cannot read anything published after the kick.* It never gets the key that its kick
  minted (`KickedStaysOut`). But a node that admitted it, and has not heard of the kick, seals later keys
  to it (`NextKeyReachesIff`, `KickedReceivesLaterKey`).
* *A kick or a leave re-keys every remaining member.* Only the node that admitted a member has the key to
  seal to it, so a rotation reaches everyone in the rotating node's table exactly when that node can seal
  to all of them (`RekeysAllIff`, `SealedToAdmitted`). Nobody but the founder ever can, since no node
  admits the founder, and a member that admitted nobody re-keys nobody when it leaves
  (`PlainLeaveRekeysNobody`, `LeaverRekeysNobody`).
* *A grammatical range is answered with its slice.* Python's `int` refuses more than 4300 digits, so that
  a range with a longer end is refused although it may select bytes (`RangeMeansRfcIff`,
  `LongRangeRefused`).
* *After leaving, the leaver does not hold the new key.* So says the description of `leave_group`; the
  rotation it calls stores the new key on the node that rotates (`RemovedHoldsNewKeyIff`). The code is
  followed.
* *`unchanged` means that the client is up to date.* Revisions start again in every process, and a client
  may ask about one from an earlier process. What it is told is true exactly when it had its snapshot from
  the current process (`UnchangedIsTruthfulIff`, `RestartEqualRevision`, `RestartHigherRevision`).
* *After a change the next poll is fresh.* What is served was read after the change exactly when its
  rebuild was not reading when the change came (`ServedFreshIff`, `StaleServed`).

Other places where code and comments differ, and the code is followed: the lease sweep runs only when
some worker is dead, although its comment calls it independent; a `consent_max_strikes` of zero means
three; cancelling a task writes `disrupted`, so that `cancelled` is never the status of a row; a suffix
range of an empty file is refused.

## What is assumed

* A database session, and a section under one lock, is one step. A pairing handler is one step with the
  call it makes, which is acknowledged, undelivered, or delivered with its reply lost.
* Two handlers are coarser here than in the program: expiry pops an offer under the lock and adds the
  strike in a later session (nexus/telemetry/observability.py:152-190), and `pop_task` takes the offer
  lock several times within the assignment lock (nexus/api/peer.py:533-680). Each is one step here.
* Accept takes the offer lock twice (nexus/api/peer.py:740 and 748), and other requests are taken to run
  between the two sections. The lock is an `asyncio.Lock` (nexus/core/state.py:72) that nobody holds
  across an await, so that an acquire that finds it free does not suspend. `PutBackExceedsLimit` and the
  put-back half of `BoundIsReached` and `LimitBoundsIff` rest on this assumption.
* Clocks, timeouts, the choice among candidate tasks, delivery of frames and the outcome of a task are
  parameters of steps.
* Encryption is a pair of functions such that sealing can be undone under the same nonce and adds a
  fixed overhead (`Deposit.Lawful`); a sealed manifest opens under its own key only
  (`DepositKeys.Lawful`).
* Members' public keys are not empty.
* Tokens and group keys that are drawn are new; they are numbered in the order of drawing.

## Model

| member | source | states |
|---|---|---|
| `DispatchSafety.ExecInv` | nexus/api/peer.py:503-994 | every run keeps the tables equal to the replay of a legal log: statuses, offers, held offers, bundles, strikes, and refusals within budget |
| `DispatchTheorems.HistoryFollowsTable` | nexus/core/constants.py:53-85 | in every run a row's status is what its history gives, every unforced change is in the transition table, every change starts from the current status, and only queued tasks are assigned |
| `DispatchTheorems.ExclusiveDispatch` | nexus/api/peer.py:610-720 | between two assignments of one task in any run, some event queued that task again |
| `DispatchTheorems.OfferConservation` | nexus/api/peer.py:620-697 | every offer ever issued is in exactly one of four places: the map, one in-flight accept, one assignment, or closed |
| `DispatchTheorems.ConsentIsHonoured` | nexus/api/peer.py:735-791 | a consent assignment goes to the task and worker its offer named, and no other assignment uses that offer |
| `DispatchTheorems.EndingInLog` | nexus/api/peer.py:735-834 | a legal log records the end of an offer, accepted or closed, at most once |
| `DispatchTheorems.BundleReleasedOnce` | nexus/api/peer.py:1081-1151 | a bundle is handed out at most once, to the worker of an earlier assignment of the same task |
| `DispatchTheorems.StrikesAreCounted` | nexus/tasks/lifecycle.py:112-118 | the strikes on record are the declines and expiries since the task was last terminal |
| `DispatchTheorems.LimitIsRespected` | nexus/api/peer.py:546-558 | nobody at the limit is offered the task or assigned it directly, in any run |
| `DispatchTheorems.RefusalBound` | nexus/api/peer.py:804-834 | since the last terminal move of the task a worker has refused its own offers at most limit times, plus once per put-back since |
| `DispatchStrikes.RunRefusalBound` | nexus/api/peer.py:804-834 | in any run the refusals are at most the limit times one more than the terminal moves, plus the put-backs |
| `DispatchStrikes.RefusalBoundAtomic` | nexus/api/peer.py:804-834 | in any run without put-backs they are at most the limit times one more than the terminal moves |
| `DispatchStrikes.BoundIsReached` | nexus/api/peer.py:546-558 | for every limit and every number of terminal moves and put-backs some run has exactly that many refusals |
| `DispatchStrikes.LimitBoundsIff` | nexus/api/peer.py:546-558 | the limit bounds all runs with so many terminal moves and put-backs exactly when there are none of either |
| `DispatchStrikes.StrikesFallIff` | nexus/tasks/lifecycle.py:112-118 | a step lowers a worker's strikes for a task exactly when there are some and the step completes, fails or stops the task |
| `DispatchStrikes.StrikesRiseIff` | nexus/api/peer.py:804-834 | a step raises them exactly when the worker declines an offer of the task or lets its own expire |
| `DispatchStrikes.ThreeByDefault` | nexus/api/peer.py:547 | with a setting of zero the bound is three refusals for each period, plus the put-backs |
| `DispatchStrikes.StrikesFallInARun` | nexus/tasks/lifecycle.py:112-118 | under every limit a run refuses once and cancels, and the strike is gone |
| `DispatchOrder.StepInTurnIff` | nexus/scheduler/dag.py:40-95 | a step keeps "started only after its dependencies were completed" exactly when it is not a requeue by hand or a retry for a result nobody asked for |
| `DispatchOrder.RunInTurnIff` | nexus/scheduler/dag.py:40-95 | throughout a run a task starts only after its dependencies exactly when no step lets it jump |
| `DispatchOrder.StepsInTurn` | nexus/scheduler/dag.py:40-95 | in such a run a queued task of a well-formed workflow has behind it the completion of every task of every step its step depends on |
| `DispatchOrder.UnaskedResultJumps` | nexus/tasks/lifecycle.py:135-187 | a reachable waiting task jumps on a failing result |
| `DispatchTheorems.PutBackExceedsLimit` | nexus/api/peer.py:739-749 | a run under limit one in which a worker refuses twice because its offer was put back |
| `DispatchRows.WorkerCorrespondence` | nexus/api/peer.py:699-720 | in every run a processing task has the worker it was last assigned to, only processing and blocked rows have a worker, four registered states are never at rest, and retries stay within their maximum |
| `DispatchTerminal.TerminalAbsorbs` | nexus/api/peer.py:893-907 | until an operator revives or deletes it, a settled terminal task keeps its whole row and is never assigned, whatever arrives |
| `DispatchTerminal.AbsorbedIff` | nexus/api/peer.py:1121-1139 | a terminal row is safe from every such run exactly when no tampered bundle of the task is being built |
| `DispatchTerminal.DisruptedStepIff` | nexus/api/local.py:2471-2604 | a step keeps "every task in the disrupted set is disrupted" exactly when it is not a resume or late check of a task in the set |
| `DispatchStranded.DisruptedMeansDisrupted` | nexus/api/local.py:2539-2574 | over every run without resumes and replaced payloads the set means what it says |
| `DispatchStranded.ResumeBreaksDisrupted` | nexus/tasks/workflow_resume.py:40-82 | cancel then resume leaves a task in the set that is not disrupted |
| `DispatchStranded.LateCheckOverwrites` | nexus/api/peer.py:1121-1139 | a run reaches a terminal row with a tampered bundle in flight, whose check then writes over it and leaves the task in the set |
| `DispatchStranded.StrandedNeverCompletes` | nexus/api/peer.py:893-907 | a task queued while in the set never completes in any run until it is re-queued by hand or deleted |
| `DispatchStranded.ResumeStrands` | nexus/tasks/workflow_resume.py:40-82 | resuming a task in the set makes it queued or waiting and strands it so |
| `DispatchEffects.StatusAfter` | nexus/api/peer.py:503-994 | for every step and task, the status afterwards is the one its cause calls for, told by status: succeeded, retried, failed, stopped, queued, waiting, gated, handed out, blocked, deleted, or as before |
| `DispatchEffects.RowFollows` | nexus/tasks/lifecycle.py:135-187 | for every step and task, a retry is counted exactly when one is used, a checkpoint or payload is stored exactly when a result that is heard brings one, and dependencies, workflow and budget never change |
| `DispatchEffects.OfferAfterStep` | nexus/api/peer.py:610-697 | for every step and task, which offer of it is out afterwards |
| `DispatchEffects.StrikesAfter` | nexus/api/peer.py:804-834 | for every step, one strike more exactly for a refusal and none left exactly when the task ended |
| `DispatchEffects.BundlesAfter` | nexus/api/peer.py:1081-1151 | a bundle begins exactly when a task is handed out, with the payload as it is then |
| `DispatchEffects.BuildIsAnswered` | nexus/api/peer.py:1081-1151 | a bundle captured intact is handed over, any other withheld |
| `DispatchEffects.AcceptsAfter` | nexus/api/peer.py:735-791 | which accepts are under way after a step, with whose offer |
| `DispatchEffects.DisruptedAfter` | nexus/api/local.py:2471-2604 | a task enters the disrupted set exactly when it is stopped, and leaves it by a requeue or a deletion |
| `DispatchEffects.EndedIff` | nexus/core/constants.py:53-85 | a step ends a task exactly when it completes, fails or stops it |
| `DispatchOutcomes.EntersIff` | nexus/core/constants.py:53-85 | a task enters a status exactly by what causes it, and four statuses not at all |
| `DispatchOutcomes.CompletedIff` | nexus/api/peer.py:893-925 | in every run a task becomes completed exactly by a success for it while it is processing and not in the disrupted set |
| `DispatchOutcomes.FailingResult` | nexus/api/peer.py:940-985 | a failing or preempted result of a processing task uses up a retry or fails it, and a checkpoint it brings is stored |
| `DispatchOutcomes.CheckpointChangesIff` | nexus/api/peer.py:940-942 | a checkpoint changes only by a preempted result that is heard |
| `DispatchOutcomes.ReleasedIff` | nexus/scheduler/dag.py:40-95 | a waiting task is let go exactly when it has no dependencies, or they are distinct and all completed; behind a gate it then awaits approval |
| `DispatchOutcomes.ResumedIff` | nexus/tasks/workflow_resume.py:23-37 | a resume queues a stalled task exactly when everything it depends on is completed in its workflow, and else has it wait |
| `DispatchOutcomes.AddedRow` | nexus/api/local.py:4205-4219 | a new task is queued or waiting, nobody's, intact and as described |
| `DispatchOutcomes.TaskIsKept` | nexus/tasks/lifecycle.py:135-187 | through any run without its deletion a task keeps its dependencies, workflow and budget, and its retries only go up |
| `DispatchOutcomes.PopHandsIff` | nexus/api/peer.py:511-558 | in every run a pop for which a task is picked hands it to the worker exactly when it is queued, not on offer to that worker, and refused by it less often than the limit, where there is one |
| `DispatchOutcomes.OwnOfferStays` | nexus/api/peer.py:533-545 | a worker that polls again keeps the offer it holds and is not assigned the task unasked |
| `DispatchOutcomes.SupersededIsRedirected` | nexus/api/peer.py:619-635 | in every run a superseded offer is followed at once by an offer or an assignment of its task to another worker |
| `DispatchOutcomes.HandedThenDone` | nexus/api/peer.py:909-918 | whoever may be handed a task directly can complete it |
| `DispatchOutcomes.AcceptedThenDone` | nexus/api/peer.py:735-791 | whoever holds an offer of a queued task can accept and complete it |
| `DispatchOutcomes.DoneInARun` | nexus/scheduler/dag.py:40-95 | a run in which a task is added, handed out and completed, and the task that waited for it is queued |
| `DispatchNode.MasterNode.ClearTaskStrikes` | nexus/tasks/lifecycle.py:116-118 | the loop removes exactly this task's strikes |
| `DispatchNode.MasterNode.SetTaskStatus` | nexus/tasks/lifecycle.py:63-128 | succeeds exactly when the move is registered and allowed or forced; the row, the log and the strikes follow |
| `DispatchNode.MasterNode.TryScheduleRetry` | nexus/tasks/lifecycle.py:135-187 | succeeds exactly while retries are left, and then counts one and moves the task to retrying |
| `DispatchNode.MasterNode.Candidates` | nexus/api/peer.py:513-558 | the filter loop returns exactly the tasks a worker may be given |
| `DispatchNode.MasterNode.PopTask` | nexus/api/peer.py:503-722 | supersedes the task's offer and then offers or assigns, as the step of the same name |
| `DispatchNode.MasterNode.AcceptPop` | nexus/api/peer.py:735-745 | first lock: the offer leaves the map and is held by this request |
| `DispatchNode.MasterNode.AcceptFinish` | nexus/api/peer.py:746-791 | second lock: a stranger's offer goes back over whatever is there, one's own becomes an assignment if the task is still queued |
| `DispatchNode.MasterNode.DeclineOffer` | nexus/api/peer.py:804-834 | closes the offer and gives a strike to whoever declined |
| `DispatchNode.MasterNode.BuildBundle` | nexus/api/peer.py:1081-1151 | released exactly when the captured payload is intact; otherwise the task, if it still exists, gets `fatal_error` whatever its status |
| `DispatchNode.MasterNode.SubmitResult` | nexus/api/peer.py:847-994 | ignored for unknown, disrupted and terminal tasks; otherwise completed, retried or failed, with the worker dropped |
| `DispatchNode.MasterNode.Requeue` | nexus/api/local.py:1984-2007 | forces the task to queued, clears its worker and takes it out of the disrupted set |
| `DispatchNode.MasterNode.Cancel` | nexus/api/local.py:2539-2574 | a task that is neither processing nor terminal is forced to disrupted, loses its worker and enters the set |
| `DispatchNode.MasterNode.Disrupt` | nexus/api/local.py:2471-2530 | the same for a processing task, and for no other |
| `DispatchNode.MasterNode.Delete` | nexus/api/local.py:2583-2604 | deletes a terminal row and takes it out of the set |
| `DispatchNode.MasterNode.ApproveStep` | nexus/api/local.py:2036-2065 | every gated row becomes queued, no other row changes, and the run of approvals is the step sequence |
| `DispatchNode.MasterNode.PlanResume` | nexus/tasks/workflow_resume.py:23-37 | splits the stalled rows by whether their dependencies are done, without repeats |
| `DispatchNode.MasterNode.ResumeWorkflow` | nexus/tasks/workflow_resume.py:40-82 | every stalled row ends queued or waiting as its dependencies said beforehand, and no other row changes |
| `PairingTheorems.ActAgreesIff` | nexus/api/local.py:265-504 | if two trusting nodes agree on their credentials, an action keeps it so exactly when it is none of those `Disagrees` names by the guards of their handlers |
| `PairingTheorems.RunAgreesIff` | nexus/api/peer.py:291-350 | two trusting nodes agree on their credentials before and after every step of a run exactly when no step is one of those |
| `PairingTheorems.ActKeepsPairIff` | nexus/api/local.py:265-504 | a second invariant, full credentials in a trusted row and none in any other, beside agreement, is kept by an action exactly when it is none of those `Breaks` names |
| `PairingTheorems.RunKeepsPairIff` | nexus/api/peer.py:291-350 | that invariant holds before and after every step of a run exactly when no step is one of those |
| `PairingTheorems.RolesApartIff` | nexus/api/peer.py:327-336 | an action keeps two trusting nodes from both recording plain worker, or both plain master, exactly when it is not a named colliding one |
| `PairingTheorems.RunRolesIff` | nexus/api/peer.py:327-336 | roles are apart before and after every step of a run exactly when no step makes them collide |
| `PairingTheorems.RolesCollideInARun` | nexus/api/local.py:345-402 | a run after which each of two trusting nodes takes the other for its worker |
| `PairingTheorems.CarefulPairing` | nexus/api/local.py:310-432 | over every run that loses no such reply and rejects duals only when trusted, credentials agree and roles are apart |
| `PairingTheorems.AcceptHeals` | nexus/api/local.py:345-402 | one acknowledged accept makes any two existing rows trust and agree |
| `PairingTheorems.RevokedTokenStaysDead` | nexus/security/auth.py:76-104 | once a node dropped its row, no token it issued before authenticates to it again in any later run |
| `PairingTheorems.Handshake` | nexus/api/local.py:137-252 | request and accept leave both trusted, agreeing, worker and master |
| `PairingTheorems.DualHandshake` | nexus/api/local.py:310-343 | with a dual accept both become dual only once the requester accepts in turn |
| `PairingTheorems.LostRotationDisagrees` | nexus/api/local.py:463-504 | a rotation whose reply is lost leaves two trusting nodes that disagree |
| `PairingTheorems.RemovalClears` | nexus/api/local.py:279-294 | a removal takes the acting node's row, and the other's exactly when the call gets through |
| `PairingTheorems.RemovedTokensStayDead` | nexus/api/peer.py:267-281 | after a removal that got through no token issued before it authenticates to either node in any later run |
| `PairingTheorems.FlipRun` | nexus/api/local.py:265-450 | every run looks the same from either node |
| `PairingTheorems.PairAnew` | nexus/api/local.py:137-252 | from there request and accept end in two trusted rows that agree on credentials all of which are new |
| `PairingTheorems.RequestPends` | nexus/api/local.py:137-252 | a request between strangers leaves both pending, and nothing here unless it was acknowledged |
| `PairingTheorems.RejectionUndoes` | nexus/api/local.py:295-308 | an upgrade that is asked for and rejected leaves both rows as they were |
| `PairingTheorems.UpgradeMakesDual` | nexus/api/local.py:310-343 | an upgrade that is asked for and accepted makes both dual with the credentials they had |
| `PairingTheorems.SecondRequestUpgrades` | nexus/api/local.py:137-252 | a second request by the node that records a master is such a request |
| `PairingTheorems.RotationReplaces` | nexus/api/local.py:463-504 | an acknowledged rotation keeps two trusting nodes agreeing, on a new token, and kills the old one |
| `PairingTheorems.UndeliveredKeeps` | nexus/api/local.py:345-432 | a call that never arrives leaves both rows, unless it is a removal, a rejection or the accept of an upgrade |
| `PairingNodes.Node.Remove` | nexus/api/local.py:279-294 | both rows after a removal, for each way its call can go |
| `PairingNodes.Node.ReceiveRemove` | nexus/api/peer.py:267-281 | the row goes |
| `PairingNodes.Node.RejectDual` | nexus/api/local.py:295-308 | both rows after a rejected upgrade, for each way its call can go |
| `PairingNodes.Node.ReceiveRejectDual` | nexus/api/peer.py:370-381 | a node that had asked for an upgrade is trusted as before |
| `PairingNodes.Node.RequestDual` | nexus/api/local.py:404-433 | both rows after an upgrade was asked for, for each way its call can go |
| `PairingNodes.Node.ReceiveJoin` | nexus/api/peer.py:196-225 | a stranger becomes pending, a trusted single-role peer awaits a dual upgrade, anything else stays |
| `PairingNodes.Node.ReceiveAccept` | nexus/api/peer.py:307-349 | an unknown caller is refused; otherwise the row takes the offered token and key and the reply carries its own |
| `PairingNodes.Node.Accept` | nexus/api/local.py:345-402 | both rows after an accept, for each way its call can go |
| `PairingNodes.Node.RequestPeer` | nexus/api/local.py:137-252 | both rows after a request, for each way its call can go |
| `PairingNodes.Node.Rotate` | nexus/api/local.py:463-504 | both rows after a rotation, for each way its call can go |
| `Workflow.ResolveDeps` | nexus/api/local.py:3931-3941 | each dependency is replaced by the slices known so far, in order |
| `Workflow.EmitStep` | nexus/api/local.py:4056-4125 | one row per slice, all with the same dependencies |
| `Workflow.Expand` | nexus/api/local.py:3931-4125 | the loop over steps builds the rows of the workflow |
| `WorkflowGraph.RowCount` | nexus/api/local.py:4056-4125 | there are as many rows as the sum of max(1, slice_count) |
| `WorkflowGraph.RowIdsDistinct` | nexus/api/local.py:4056-4125 | no two rows of a well-formed workflow have the same id |
| `WorkflowNames.SuffixInjective` | nexus/api/local.py:4059 | slice names of different steps or positions differ |
| `WorkflowGraph.StoredDepsIff` | nexus/scheduler/dag.py:57-58 | a stored dependency list reads back unchanged exactly when its ids are stripped, non-empty and free of commas |
| `WorkflowGraph.RowEdgeIff` | nexus/api/local.py:3931-3941 | for legible names a row waits for another exactly when a dependency of its step names the other's step, settled by then, or that very slice |
| `WorkflowNames.ShareIff` | nexus/api/local.py:3931-3941 | two dependencies turn into a common id exactly when they are equal or one names an earlier step and the other a slice of it |
| `WorkflowGraph.EdgeIff` | nexus/api/local.py:3931-4125 | a row waits for another exactly when its step depends on the other's step |
| `WorkflowGraph.DependenciesExist` | nexus/api/local.py:3931-4125 | every id a row waits for is the id of a row |
| `WorkflowGraph.DependencyResolvesIff` | nexus/api/local.py:3931-3941 | the ids a dependency turns into are all ids of rows exactly when it names a step whose slices are settled by then, or a slice by its own name |
| `WorkflowGraph.ReachIff` | nexus/api/local.py:3931-4125 | a row reaches another through dependencies exactly when its step reaches the other's step |
| `WorkflowSchedule.RunToEnd` | nexus/scheduler/dag.py:40-95 | every schedule extends to one at which nothing more can be released |
| `WorkflowSchedule.GoodRowsFinish` | nexus/scheduler/dag.py:40-95 | rows whose ids waited for all exist, once each and without a cycle, are all finished by every schedule that cannot go on |
| `WorkflowSchedule.MissingStalls` | nexus/scheduler/dag.py:73 | a table with a row that waits for an id nobody has comes to a stop unfinished |
| `WorkflowSchedule.RepeatsStall` | nexus/scheduler/dag.py:73 | so does one with a row that lists an id twice |
| `WorkflowSchedule.CycleStalls` | nexus/scheduler/dag.py:40-95 | so does one with a cycle |
| `WorkflowSchedule.RowsFinishIff` | nexus/scheduler/dag.py:40-95 | rows with different ids always finish exactly when every id waited for exists, none is listed twice, and there is no cycle |
| `WorkflowSchedule.FinishesIff` | nexus/scheduler/dag.py:40-95 | a workflow with legible names always finishes exactly when every dependency resolves, none repeats another or a slice of it, and there is no cycle, counting dependencies on single slices |
| `WorkflowSchedule.WellFormedFinishesIff` | nexus/scheduler/dag.py:40-95 | a well-formed one exactly when it has no cycle and no repeated dependency |
| `WorkflowSchedule.LaterSlicedStalls` | nexus/api/local.py:3936-3941 | a workflow with a dependency on a sliced step listed later, which stalls |
| `WorkflowSchedule.UnknownStalls` | nexus/api/local.py:3936-3941 | a workflow with a dependency on no step, which stalls |
| `WorkflowSchedule.SpacedNameFinishes` | nexus/scheduler/dag.py:57-58 | a dependency that names nothing is met because its trailing space is lost |
| `Chunks.CutCount` | nexus/api/local.py:5924 | the ceiling division counts the chunks a file is cut into |
| `Chunks.CutFlatten` | nexus/api/local.py:5576-5585 | slicing a concatenation of regular chunks gives those chunks back |
| `Chunks.Reslice` | nexus/api/local.py:5576-5585 | the slicing loop cuts the blob into pieces of the given size |
| `Deposit.BigEndianInjective` | nexus/security/deposit_crypto.py:50-54 | no two chunk indices share a nonce |
| `Deposit.ChunkRoundTrip` | nexus/security/deposit_crypto.py:56-76 | a chunk decrypts at its index to what was encrypted, and sealing adds a fixed overhead |
| `Deposit.ChunkOutOfPlace` | nexus/security/deposit_crypto.py:64-76 | a chunk opens at no index but its own |
| `Deposit.DecryptAll` | nexus/api/local.py:7952-7959 | the loop writes the concatenated plaintext, or fails with the first chunk that fails |
| `Deposit.DepositRoundTrip` | nexus/api/local.py:5576-5585 | cut, seal, concatenate, slice and decrypt give the file back, in as many chunks as recorded |
| `Deposit.OrderIsChecked` | nexus/security/deposit_crypto.py:64-76 | chunks of one deposit, rearranged, decrypt exactly when they are its first so many in order |
| `Range.RangeInBounds` | nexus/api/local.py:7231-7260 | whatever the header, an accepted range lies inside the file |
| `Range.RangeMeansRfcIff` | nexus/api/local.py:7231-7260 | a grammatical range is answered with exactly the positions section 14.1.2 of RFC 9110 selects, or refused for want of any, exactly when neither end has more than 4300 digits or it selects nothing |
| `Range.FirstOfSeveral` | nexus/api/local.py:7237-7239 | of several ranges the first is answered and the others are ignored |
| `Range.LongRangeRefused` | nexus/api/local.py:7231-7260 | a range from 0 to 4301 nines is refused for every file that is not empty, although it selects position 0 |
| `Range.StreamWithLength` | nexus/api/local.py:7344-7383 | the pieces of an inclusive range are its slice and as long as the announced length, and an empty file has none |
| `Range.FetchSlice` | nexus/api/local.py:7344-7383 | a decrypted and clamped chunk is the next stretch of the file within the range |
| `Range.StreamRange` | nexus/api/local.py:7362-7383 | the streamed pieces of a stored deposit concatenate to the slice of the deposited file |
| `Range.ServePreview` | nexus/api/local.py:7322-7383 | without a header the whole file, with one its slice or a refusal, and as many bytes as the Content-Length says |
| `DepositKeys.CachedKeysAreRight` | nexus/runtime/foreign_storage_keys.py:71-84 | in every run, whatever passwords are tried and whatever is rescued, a key that `get` returns opens its row's manifest and is the key the deposit was made with |
| `DepositKeys.RescueKeepsKeys` | nexus/scheduler/dag.py:1056-1065 | a rescue changes no answer of `get`: what is locked stays locked and what is unlocked keeps its key |
| `DepositKeys.UnlockGives` | nexus/api/local.py:6891-6949 | an unlock gives the key of a password that opens the deposit, and with any other changes no answer |
| `DepositKeys.LockForgets` | nexus/api/local.py:7141-7154 | locking forgets this key and no other |
| `DepositKeys.RetrieveGives` | nexus/api/local.py:6417-6441 | a retrieve forgets the key on a wrong password, gives it on a right one, and clears the path |
| `DepositKeys.CollectForgets` | nexus/runtime/foreign_storage_keys.py:131-143 | collecting forgets exactly the keys last used before the cutoff |
| `DepositKeys.ResumeOutcome` | nexus/api/local.py:7009-7107 | what a resume comes to: nothing, the end of the deposit, or the deposit armed with this file and its key |
| `DepositKeys.DepositThenUnlock` | nexus/api/local.py:6891-6949 | whatever happened since a deposit, the password it was made with gives its key back, and one that derives another key changes no answer |
| `DepositKeys.BoundFilesAgree` | nexus/api/local.py:7062-7107 | every file a deposit was bound to has the recorded digest and, unless recorded as empty, the recorded size |
| `DepositKeys.CachedPathsAgree` | nexus/api/local.py:7107 | a cached path was bound to a file that agreed with the manifest |
| `DepositKeys.KeyCache.Remember` | nexus/runtime/foreign_storage_keys.py:45-68 | the entry gets the key and keeps its path unless given one |
| `DepositKeys.KeyCache.Ask` | nexus/runtime/foreign_storage_keys.py:71-84 | returns the key unless it is empty or missing, and only then counts as a use |
| `DepositKeys.KeyCache.RescueDeposit` | nexus/scheduler/dag.py:1056-1065 | an unlocked deposit is only marked used; a locked one gets an empty key |
| `DepositKeys.KeyCache.Forget` | nexus/runtime/foreign_storage_keys.py:102-114 | the entry is gone, and the answer says whether it was there |
| `DepositKeys.KeyCache.EvictIdle` | nexus/runtime/foreign_storage_keys.py:131-143 | exactly the idle entries are dropped and reported |
| `DepositKeys.KeyCache.MakeDeposit` | nexus/api/local.py:5988-6075 | a new row sealed under the derived key, which is cached with the path |
| `DepositKeys.KeyCache.UnlockDeposit` | nexus/api/local.py:6891-6949 | succeeds exactly when the manifest opens, and only then caches |
| `DepositKeys.KeyCache.RetrieveDeposit` | nexus/api/local.py:6417-6441 | the same, but a wrong password also drops what was cached |
| `DepositKeys.KeyCache.FailDeposit` | nexus/api/local.py:6952-6985 | the row fails in transit and the key is dropped |
| `DepositKeys.KeyCache.ResumeDeposit` | nexus/api/local.py:7009-7107 | armed only for a row in progress, with a key that opens the manifest and a file that agrees; another digest fails the deposit |
| `GroupTheorems.NoLockOut` | nexus/api/groups.py:2506-2698 | at every node after every run the founder is a member holding `founder`, assignments name existing members and roles, every member may read, and the founder may do everything |
| `GroupTheorems.NobodyLockedOut` | nexus/security/group_permissions.py:89-117 | in sound tables every member's permissions include reading, the founder's include all |
| `GroupTheorems.FrameSoundIff` | nexus/runtime/group_inbox.py:249-410 | whatever frame arrives, tables stay sound exactly when it is refused or does not remove the founder from another node's tables |
| `GroupTheorems.WithoutSoundIff` | nexus/api/groups.py:2741-2793 | removing a member keeps tables sound exactly when it is not the founder |
| `GroupTheorems.StepCapIff` | nexus/api/group_peer.py:490-510 | a step takes the founder's list past the cap exactly when it admits someone to a full group other than through the join endpoint |
| `GroupTheorems.RunCapIff` | nexus/api/groups.py:2938-3001 | the cap is kept throughout a run exactly when no step crowds a full group |
| `GroupTheorems.CapExceeded` | nexus/api/groups.py:2938-3001 | a private group of at most two comes to have three members |
| `GroupTheorems.KickedStaysOut` | nexus/api/groups.py:2741-2793 | in every run a kicked node holds the key its kick minted only if a later grant to it carried that key |
| `GroupTheorems.KeyHolders` | nexus/runtime/group_inbox.py:1793-1867 | in every run a node holds a rotated key only if it rotated, the key was sealed to it, or a grant carried it |
| `GroupTheorems.NextKeyReachesIff` | nexus/runtime/group_inbox.py:1817-1836 | a rotation's key reaches another node that accepts the frame exactly when the rotating node lists it with a key to seal to |
| `GroupTheorems.SealedToAdmitted` | nexus/api/group_peer.py:315-323 | in every run a rotation is sealed only to nodes that the rotating node itself admitted, and never to the founder |
| `GroupTheorems.RekeysAllIff` | nexus/runtime/group_inbox.py:1817-1836 | a removal re-keys every member the rotating node still lists exactly when that node can seal to them all, which only the founder's node ever can |
| `GroupTheorems.PlainLeaveRekeysNobody` | nexus/api/groups.py:2819-2872 | a member that admitted nobody seals the key of its leave to nobody, with the founder in its table |
| `GroupTheorems.LeaverRekeysNobody` | nexus/api/groups.py:2819-2872 | a run that gets to such a leave |
| `GroupTheorems.KickedReceivesLaterKey` | nexus/api/groups.py:2819-2872 | a run in which one member admits another, the founder kicks that one, and the first leaves before it hears of it: the kicked node, not admitted again, holds the key minted after its kick |
| `GroupTheorems.RemovedHoldsNewKeyIff` | nexus/runtime/group_inbox.py:1793-1867 | right after a rotation the removed node holds the new key exactly when it left by itself |
| `GroupEffects.AssignMeans` | nexus/api/groups.py:2631-2698 | after an assignment the member holds exactly the requested roles and the baseline, may exactly what one of them grants, and nobody else's assignments change |
| `GroupEffects.AssignFrameMeans` | nexus/runtime/group_inbox.py:740-794 | an authorised frame does the same for the roles that exist here, and the founder stays founder |
| `GroupEffects.AdminDemoted` | nexus/api/groups.py:2631-2698 | a run in which a member is made admin and could kick, and is demoted, so that every kick it tries is refused |
| `GroupEffects.DefinedMay` | nexus/api/groups.py:2506-2546 | a role defined anew grants what it says and no longer what it said |
| `GroupEffects.DeletedMay` | nexus/api/groups.py:2579-2613 | a deleted role is held by nobody and grants nothing; other roles grant what they did |
| `GroupEffects.RemovedMay` | nexus/api/groups.py:2741-2793 | a removed member may nothing, nobody else loses anything |
| `GroupEffects.AdmittedMay` | nexus/api/group_peer.py:315-340 | an admitted member may what the baseline grants, nobody else gains anything |
| `GroupEffects.RefreshCatchesUp` | nexus/api/groups.py:3546-3662 | after a refresh every member the founder lists is listed and may at least what it may at the founder's |
| `GroupEffects.RefreshKeeps` | nexus/api/groups.py:3546-3662 | and nobody is taken away |
| `GroupEffects.KickRemovesIff` | nexus/api/groups.py:2741-2793 | a kick removes exactly the one it names, if the kicker may and it is neither the kicker nor the founder |
| `GroupEffects.LeaveRemovesIff` | nexus/api/groups.py:2819-2872 | leaving removes exactly the leaver, unless it is the founder |
| `GroupEffects.JoinAdmitsIff` | nexus/api/group_peer.py:457-558 | a join request adds exactly the joiner to an open group with room, and is parked by a private one |
| `GroupEffects.ApprovalAdmitsIff` | nexus/api/groups.py:2938-2968 | an approval adds exactly the joiner of a waiting request, if the approver may |
| `GroupEffects.AdmissionSends` | nexus/api/group_peer.py:343-360 | the grant carries the group key exactly when the joiner named a key to seal it to |
| `GroupEffects.GrantMeans` | nexus/api/groups.py:3402-3495 | a grant that arrives makes the joiner a member of its own node; its key is kept exactly if there were no tables |
| `GroupEffects.RoleEndpointsIff` | nexus/api/groups.py:2506-2613 | when a role definition or deletion is published |
| `GroupEffects.AssignEndpointIff` | nexus/api/groups.py:2631-2680 | when an assignment is published |
| `GroupEffects.UnauthorisedChangesNothing` | nexus/runtime/group_inbox.py:1895-1960 | a frame from somebody who may not send it changes nothing |
| `GroupEffects.AdmissionMirrors` | nexus/runtime/group_inbox.py:249-320 | two nodes that are alike stay alike when one admits and the other hears of it |
| `GroupEffects.AssignmentMirrors` | nexus/runtime/group_inbox.py:740-794 | the same for an assignment of roles |
| `GroupEffects.RemovalMirrors` | nexus/runtime/group_inbox.py:323-410 | the same for a kick or a leave, exactly at every node but the removed one's |
| `GroupEffects.DefinitionMirrorsIff` | nexus/runtime/group_inbox.py:1035-1065 | the same for a role definition, exactly when its name has no white space around it or the change is there already |
| `GroupEffects.DeletionMirrorsIff` | nexus/runtime/group_inbox.py:1066-1082 | the same for a deleted role, exactly when there is none around its name |
| `GroupEffects.SpacedRoleDiverges` | nexus/runtime/group_inbox.py:1040-1045 | a name with a space in front keeps two nodes from agreeing |
| `GroupNode.Tables.constructor` | nexus/api/groups.py:312-358 | a new group has the default roles and the founder as its only member |
| `GroupNode.Tables.FromGrant` | nexus/api/groups.py:3402-3495 | a joiner starts with the default roles, the founder and itself |
| `GroupNode.Tables.EffectivePermissions` | nexus/security/group_permissions.py:89-117 | the loop collects the union over the roles held |
| `GroupNode.Tables.UpsertRole` | nexus/api/groups.py:2506-2546 | refused without role:assign and for the two immutable roles |
| `GroupNode.Tables.DeleteRole` | nexus/api/groups.py:2579-2613 | refused for default and unknown roles; otherwise the role goes with all its assignments |
| `GroupNode.Tables.AssignMemberRoles` | nexus/api/groups.py:2631-2698 | replaces the member's roles by the requested ones and the baseline; refused for strangers, unknown roles and a founder without `founder` |
| `GroupNode.Tables.SealEnvelopes` | nexus/runtime/group_inbox.py:1817-1836 | the loop seals to exactly the listed members that have a key to seal to, but for the node itself and the one removed |
| `GroupNode.Tables.KickMember` | nexus/api/groups.py:2741-2793 | refused for oneself, the founder and strangers; otherwise the rows go and the key is sealed to the listed members that have one to seal to |
| `GroupNode.Tables.LeaveGroup` | nexus/api/groups.py:2819-2872 | refused for the founder and non-members; otherwise the node's rows go, the key is sealed in the same way, and the node keeps the key it minted |
| `GroupNode.Tables.IssueMemberGrant` | nexus/api/group_peer.py:266-363 | the joiner becomes a member with the baseline role and the key it brought; the group key is minted on first use and goes only to a joiner that brought one |
| `GroupNode.Tables.JoinRequest` | nexus/api/group_peer.py:457-558 | members and full groups refuse; private groups park the request; open groups admit |
| `GroupNode.Tables.ApprovePending` | nexus/api/groups.py:2938-2968 | admits exactly a waiting request of a non-member, for a holder of group:approve |
| `GroupNode.Tables.ReceiveFrame` | nexus/runtime/group_inbox.py:1895-1960 | every frame that touches the tables has its authorised effect and no other |
| `GroupNode.Tables.RefreshMembers` | nexus/api/groups.py:3546-3662 | merges the founder's roster, adding rows and overwriting role definitions |
| `SafePath.SanitizeContained` | nexus/core/config.py:380-397 | every result, also a truncated one, stays inside the base directory and is relative, printable and without colon or backslash |
| `SafePath.CutStaysInside` | nexus/core/config.py:397 | a joined path cut anywhere past its second character never rises above its base |
| `SafePath.CutLeavesDotDot` | nexus/core/config.py:397 | the cut can leave `..` at the end of a path that had none |
| `SafePath.SanitizeMeans` | nexus/core/config.py:380-397 | a path is accepted exactly when it is acceptable, and then, within the limit, keeps exactly its moving components |
| `SafePath.NormalizedIff` | nexus/core/config.py:360-377 | an entry is kept exactly when it has a link and an acceptable destination, with its own link stripped and cut |
| `SafePath.KeptInOrder` | nexus/core/config.py:360-377 | entries are taken one by one and in order |
| `SafePath.NormalizeInputs` | nexus/core/config.py:360-377 | of the first twenty entries, those with a link and an acceptable destination, all usable |
| `SafePath.LastFileCounts` | nexus/core/config.py:415-419 | of several files under one name the last counts |
| `SafePath.NormalizeBuildContext` | nexus/core/config.py:400-420 | no context without a Dockerfile; otherwise the files with acceptable names, all contained |
| `CacheKey.MeaningfulCount` | nexus/caches/paths.py:64-77 | the requirement lines are those neither blank nor comments, stripped, as often as they occur |
| `CacheKey.NormalizeCanonical` | nexus/caches/paths.py:64-77 | two texts normalise alike exactly when they have the same multiset of requirement lines |
| `CacheKey.NormalizeIdempotent` | nexus/caches/paths.py:64-77 | normalising twice is normalising once, and keeps the requirement lines |
| `CacheKey.SortIsSorting` | nexus/caches/paths.py:70-76 | the lines are sorted and none is lost or added |
| `NetworkCache.PollDelivers` | nexus/api/local.py:4270-4286 | in every run whoever polls a warm cache with nothing, or with the revision of a snapshot held from this process, holds the cached snapshot afterwards |
| `NetworkCache.FirstPollIsAnswered` | nexus/api/local.py:4270-4286 | a client with nothing to name is never told `unchanged`: it gets the data, or a rebuild begins for it |
| `NetworkCache.RebuildDelivers` | nexus/api/local.py:4278-4286 | what a rebuild has read reaches its client under the next revision, and whoever polls within the lifetime |
| `NetworkCache.Shared.Answer` | nexus/api/local.py:4270-4286 | unchanged, the cached data, or a rebuild, as the cache and the clock say |
| `NetworkCache.Shared.Commit` | nexus/api/local.py:4444-4458 | the next revision names the new content |
| `NetworkCache.Shared.StateChanged` | nexus/ui/broadcaster.py:39-50 | the cached data goes stale and stays |
| `NetworkCache.RevisionsNameSnapshots` | nexus/api/local.py:4444-4458 | within a process revisions increase and a revision names one snapshot |
| `NetworkCache.UnchangedIsTruthfulIff` | nexus/api/local.py:4270-4286 | in every run, restarts included, a client told `unchanged` about a snapshot it holds holds the cached one exactly when it had it from the current process |
| `NetworkCache.OutdatedIsReplaced` | nexus/api/local.py:4270-4286 | a client with an outdated snapshot of the current process is sent the cached one |
| `NetworkCache.RestartEqualRevision` | nexus/api/network_cache.py:22 | a run in which a client is told `unchanged` at the current revision and holds another content |
| `NetworkCache.RestartHigherRevision` | nexus/api/network_cache.py:22 | the same above the current revision |
| `NetworkCache.ServedFreshIff` | nexus/ui/broadcaster.py:39-50 | what is served after a change was read altogether after it exactly when its rebuild was not reading when the change came |
| `NetworkCache.StaleServed` | nexus/ui/broadcaster.py:39-50 | a run in which what was read before a change is served after it |

## Left out

- HTTP, SQL, relay transport, Docker, telemetry and the user interface: each handler is reduced to its effect on rows and maps.
- The worker side of a task, services and preemption: the master sees them only as results.
- `clear_database`: it wipes tasks without the disrupted set, and is outside the runs.
- Pair-invite links, peers seeded from the command line and trusted rows made without tokens: they bypass the token exchange.
- Group invites, their slot counters, the replication of pending requests, deletion of groups, mutes, chat and relays: a join request comes with a good invite.
- Dispatch.ExpireOffer, SweepDeadWorker, SweepLease, QueueTimeout, ReleaseReady and RetryElapsed are steps on values only; the loops over rows that call them are not methods here.
- DispatchTheorems.LimitIsRespected: for a positive limit, which the settings clamp ensures.
- DispatchTerminal.TerminalAbsorbs: for a terminal task without a tampered bundle in flight; `AbsorbedIff` shows that this is needed.
- PairingTheorems.RevokedTokenStaysDead: says nothing of the row the other side still holds.
- Range.RangeMeansRfcIff: for a single range; `FirstOfSeveral` reduces several to the first.
- Range: `int()` is modelled on ASCII digits, signs and underscores; other Unicode digits are not.
- NetworkCache.ServedFreshIff: says when reading began, not which of its later reads saw the change; assumes clocks that read at least one second.
- GroupTheorems.KickedStaysOut: the key of the member's own kick only; `NextKeyReachesIff` and `KickedReceivesLaterKey` show why not more.
- WorkflowSchedule.FinishesIff: names a caller can check not to be garbled in storage (`Legible`); `RowsFinishIff` covers the rows of any other workflow whose ids differ.
- Groups: a frame may be delivered to a node whose key does not open it, which only adds runs.
- Groups: a brought key that cannot be sealed to (nexus/runtime/group_inbox.py:1837-1842) counts as none.
- GroupTheorems.NoLockOut: every frame is one that an endpoint of some node published; `FrameSoundIff` covers any other.
- Hosts' copies of deposit keys, group-shared views and the deposit transfer loop.
- The hash of the normalised requirements: only the hashed text is modelled.
