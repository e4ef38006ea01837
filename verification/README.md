# Swarm OS: a verified model of its organization, queue, mission control and routing

Swarm OS runs missions: a controller agent grows an organization of specialist agents, gives them tasks,
talks to a human, and calls models and tools within limits. This project models the parts of it whose
correctness spans several functions or a whole run, and proves what they promise.

Where the code changes objects step by step, so does the model: agents, tasks, the runtime, the queue and
lease tables, the stored mission, the router's history and the token account are classes whose methods
carry the code's own branches and loops. Each method is proved against a relation or a function on values
(tables, trees, event logs), and the theorems are about those.

| Files | What they hold |
|---|---|
| `QueueSpec`, `QueueRuns`, `QueueFacts`, `WorkQueue`, `Worker` | the durable queue and its leases: one-transaction steps, runs under an advancing clock, what each call does to the rows, the queue and lease objects, one worker's loop |
| `OrgTree`, `Changes`, `Legality`, `Organization`, `Designer`, `Apply` | the agent tree as a value, what a change does to it and when it is accepted, which changes are legal, the tree walks, subtree surgery in place, validate and apply |
| `Events`, `Runtime`, `Closing` | the event log and its replay, agents and tasks saved and logged in place, the loops that close unfinished work |
| `Approval`, `Missions`, `MissionFacts`, `Control` | reading an approval, the mission's steps and runs, what each control does to tasks and agents, the runtime's controls on the objects |
| `Text` | stripping white space, used by the queue, approvals, notes, keys and summaries |
| `Answers` | compare-and-swap acceptance and consumption of answers under any interleaving |
| `Routing`, `Selection`, `Failover` | rejection, scoring and relative cost, ranking, the failover walk |
| `Budget`, `Memory`, `Effects` | token charging, bounded recall, payments and tool calls once per key |

Conventions. Time is an integer and every store transaction is one atomic step; a claim reads the clock
twice, the second reading no earlier than the first. Ids are numbers; a fresh id is a parameter required to
be unused. Providers, verifiers, wallets and humans are parameters: any result they may give. Money is
counted in units of 1e-8 USD where the code rounds to eight places, and is an integer for payments; scores
and prices are reals.

Results worth knowing about the code:

- A replacement whose new parent lies inside the replaced subtree passes `validate` but cannot leave a good
  organization: `OrgChanges.ReplaceInsideIsAccepted` gives an input, and
  `OrgChanges.ReplaceKeepsOrgExactly` shows that "the parent lies outside the target's subtree" is exactly
  the missing condition. `OrgApply.Apply` is proved for such replacements too: it ends with exactly the
  parent links that make the result no good organization. Only the history theorems take the condition
  (`ReplacesOutside`) as a hypothesis, for replacements only.
- When a change names no parent, the code attaches the recruit to the controller: the fallback to the
  target's own parent (app/org.py:153-155) is reached only in a tree without a controller.
- The checks on the lease row inside complete, fail and heartbeat are never what refuses a live claimant:
  the step relation of `QueueSpec` leaves them out, and the methods that make them are proved to take
  exactly those steps.

## Model

| member | source | states |
|---|---|---|
| QueueSpec.ClaimIsGrant | app/queue.py:177-228 | a claim either leaves both tables alone or grants exactly one job, on the job's own lease row or a new one |
| QueueSpec.TakingKeepsScopesUnique | app/leases.py:100-149 | taking the row of its own scope, or adding one for a scope that had none, keeps (scope, scope id) unique |
| QueueSpec.GrantKeepsAgreement | app/queue.py:196-228 | a grant leaves every job in agreement with its lease, the granted one and all others |
| QueueSpec.ChangeKeepsAgreement | app/queue.py:230-367 | changing one job together with its own lease keeps the joint invariant whenever that pair agrees afterwards |
| QueueSpec.HeartbeatKeepsAgreement | app/queue.py:230-278 | a heartbeat moves both expiries together |
| QueueSpec.FinishKeepsAgreement | app/queue.py:280-367 | completing, failing or requeueing a job releases its lease in the same step |
| QueueSpec.StepKeepsAgreement | app/queue.py:139-367 | every transaction, refused or accepted, keeps the two tables in agreement |
| QueueRuns.RunInv | app/queue.py:177-367 | in every state of every run a record kept from requests and replies alone tells the same story as the job rows |
| QueueRuns.RecordKnowsOwner | app/queue.py:209-226 | whether a claim continues a spell can be told from the record alone: exactly when the row still shows its live owner |
| QueueRuns.TablesAlwaysAgree | app/queue.py:177-367 | in every reachable state a claimed job names the one lease of its scope with the same owner, mission and expiry; pending jobs have none, terminal jobs a released one |
| QueueRuns.TenuresNeverOverlap | app/queue.py:177-228 | over any run the spells of ownership granted on one job never overlap |
| QueueRuns.AttemptCountsTenures | app/queue.py:209-226 | `attempt` equals the number of spells begun, so a live owner's re-claim or heartbeat never bumps it |
| QueueRuns.OwnerIsLatestClaimant | app/queue.py:196-228 | between claims a job stays with its last claimant or has no owner |
| QueueRuns.AcceptedComesFromLatestClaimant | app/queue.py:230-367 | an accepted heartbeat, completion or failure comes from the latest claimant while its spell is running |
| QueueRuns.StaleWorkerIsLockedOut | app/queue.py:230-367 | once another worker has claimed the job, every call by the earlier owner is refused and changes nothing |
| QueueRuns.TerminalRowsAreFrozen | app/queue.py:294-297 | completed and failed jobs never change again |
| QueueRuns.ClaimTakesLeastAvailable | app/queue.py:369-398 | a claim without an id takes, of the free jobs it asks for, the one created first, ties going to the lower id; it finds nothing exactly when no such job is free, and is never refused for a conflict |
| QueueRuns.ClaimRespectsNotBefore | app/queue.py:121-126 | no claim starts a job before its not-before time or while another worker's spell is running |
| QueueFacts.ClaimWrites | app/queue.py:196-228 | a granted claim gives the job to its caller until the lease ends, counts a new attempt unless the caller held it, and changes nothing else |
| QueueFacts.ClaimTakesLease | app/leases.py:100-149 | the job's own lease row, or a new one, then says the same; no other lease changes |
| QueueFacts.UpdateWrites | app/queue.py:230-367 | a heartbeat moves the end of the claim; completion and final failure end the job with its result; a failure with a retry time puts it back, unowned, not before that time |
| QueueFacts.UpdateMovesLease | app/queue.py:230-367 | with the job its lease is extended or given up; no other lease changes |
| QueueFacts.EnqueueWrites | app/queue.py:139-175 | accepted exactly for a kind that is not blank, a mission and an unused id; adds one pending job that may be taken at once |
| QueueFacts.UpdateAcceptedExactly | app/queue.py:230-367 | only the worker that holds the job, while it holds it, can extend, complete or fail it, and then it can |
| QueueFacts.NamedClaimAcceptedExactly | app/queue.py:369-388 | a claim of a named job is granted exactly when the job fits and is free or the caller's own, and there is a lease row to take |
| QueueFacts.RefusalsAreDeserved | app/queue.py:139-398 | every refusal has, in the call and the tables, the reason its message gives, and changes nothing |
| QueueFacts.RetryIsNotEarly | app/queue.py:345-355 | over any run a job put back with a retry time is not claimed before it, and then as a new attempt |
| WorkQueues.WorkerLeases.ClaimInSession | app/leases.py:100-149 | the lease transaction itself: refused for a live lease of another owner, otherwise renewed, reclaimed or inserted |
| WorkQueues.WorkerLeases.Renew | app/leases.py:176-190 | renews exactly when the caller owns a held lease that has not expired; a refusal changes nothing |
| WorkQueues.WorkerLeases.ReleaseInSession | app/leases.py:192-203 | releases exactly for the owner |
| WorkQueues.SelectedRowMeetsNoConflict | app/leases.py:139-141 | under the joint invariant the selected row is never held by another worker in the lease table |
| WorkQueues.WorkQueue.Enqueue | app/queue.py:139-175 | stores the stripped kind under the given or a new id, refusing a blank kind and a taken id; the method takes the enqueue step and keeps the invariant |
| WorkQueues.WorkQueue.Query | app/queue.py:389-394 | the unfinished rows of the mission and kinds, each once, by creation time and then id |
| WorkQueues.WorkQueue.SelectRow | app/queue.py:369-398 | without an id the free row created first, ties to the lower id; otherwise the row a claim step may take, or the refusal it must give |
| WorkQueues.WorkQueue.Claim | app/queue.py:177-228 | the method, with its own lease checks, takes the claim step and keeps the invariant |
| WorkQueues.WorkQueue.Heartbeat | app/queue.py:230-278 | the method takes the heartbeat step: its inner lease checks never refuse a live claimant |
| WorkQueues.WorkQueue.Complete | app/queue.py:280-312 | the method takes the completion step: its inner lease checks never refuse a live claimant |
| WorkQueues.WorkQueue.Fail | app/queue.py:314-367 | the method takes the failure or requeue step, likewise |
| Workers.OthersLeaveHolder | app/queue.py:369-398 | while a lease runs nobody but its owner changes the job's row, whatever the others do |
| Workers.HolderRenews | app/workers.py:152-166 | a heartbeat inside the lease is accepted and extends it |
| Workers.HolderSettles | app/workers.py:171-178 | a report inside the lease is accepted and is what the row then shows |
| Workers.OnlyOwnReportIsTerminal | app/workers.py:114-131 | no step but the worker's own report puts a terminal result under its name |
| Workers.PromptTurnsArePunctual | app/workers.py:251-252 | if every delay with its overhead is shorter than the TTL, every turn falls inside the lease it relies on |
| Workers.KeepAlive | app/workers.py:147-166 | punctual heartbeats keep the lease live to the end of the loop; nothing terminal is written meanwhile |
| Workers.Report | app/workers.py:171-178 | an accepted report is what the row then shows, a refused one changes nothing |
| Workers.ExecuteClaimed | app/workers.py:135-178 | with punctual turns the handler's outcome is accepted and stored; in every case an accepted report is what the row shows, and a worker whose lease is lost, noticed by a heartbeat or only by the refused report, makes no terminal write |
| OrgTree.UnderIsDeeper | app/org.py:74-82 | right cached depths make descendants strictly deeper, hence no cycle |
| OrgTree.AllUnderRoot | app/org.py:61-64 | every agent of a rooted, levelled tree is in the root's subtree |
| OrgTree.MovedLevelled | app/org.py:306-318 | moving a subtree to a parent outside it leaves every parent present and every depth one more than the parent's |
| OrgTree.CycleHasNoLevels | app/org.py:267-268 | no depths at all fit parent links that hang an agent below itself |
| OrgTree.PartStays | app/org.py:284-304 | after a move, even one that makes a cycle, what lies outside the moved subtree is still a tree that holds all its agents' children |
| OrgTree.MovedWellFormed | app/org.py:257-271 | a move keeps the tree well formed if and only if the parent is outside the subtree and the subtree fits at its new level |
| OrgChanges.RehungStep | app/org.py:194-196 | hanging one more child under the replacement is one more legal subtree move, and the partial result has a closed form |
| OrgChanges.RehangTurn | app/org.py:194-196 | wherever the recruit was enlisted, one more turn of the loop leaves exactly the intended parent links, and the children still to come in a part that is a tree |
| OrgChanges.ReplaceKeepsOrg | app/org.py:190-199 | a replacement keeps the organization good and its live count unchanged, and leaves the target a stopped leaf |
| OrgChanges.ChangeKeepsTree | app/org.py:126-165 | every accepted change keeps the tree well formed, whoever is stopped, and moves the live count by exactly +1, 0 or -1 |
| OrgChanges.ChangeKeepsOrg | app/org.py:126-165 | every accepted change keeps a live root, no live agent under a stopped one, and the agent limit |
| OrgChanges.ReplaceInsideBreaks | app/org.py:153-165 | with the parent inside the replaced subtree the links form a cycle or a live agent hangs under the stopped target |
| OrgChanges.ReplaceKeepsOrgExactly | app/org.py:153-165 | an accepted replacement can leave a good organization if and only if its parent lies outside the target's subtree |
| OrgChanges.ReplaceInsideIsAccepted | app/org.py:153-165 | `validate` accepts such a replacement: a concrete three-agent tree |
| OrgChanges.OrgStaysGood | app/org.py:167-199 | over any history of accepted changes and status changes that stop nobody: well formed, no live agent under a stopped one, never more live agents than allowed |
| OrgChanges.TreeStaysWellFormed | app/org.py:167-199 | over any history that also stops any agents at any time (kills, mission ends): well formed, never more live agents than allowed |
| OrgLegality.AcceptedIffLegal | app/org.py:126-165 | a change is accepted exactly when it names whom it must, the target is free to go, and what results is well formed and within the limits |
| OrgLegality.RefusalsAreEarned | app/org.py:126-271 | each error says what is wrong: a controller named, a request that makes no sense, a limit broken, or a capability not on offer, in that order |
| OrgLegality.EffectIsRight | app/org.py:167-199 | field by field, an accepted change does to every agent what it should and nothing else |
| Organization.ChildrenMap | app/org.py:67-71 | groups the agents by parent in list order |
| Organization.HeightIsDepthDifference | app/org.py:85-89 | the recursive height is the greatest depth difference in the subtree |
| Organization.WalkStep | app/org.py:78-81 | popping a node keeps the stack walk complete, disjoint and free of repeats |
| Organization.Descendants | app/org.py:74-82 | the stack loop ends with exactly the strict descendants, each once |
| Designer.ApplyDepth | app/org.py:306-318 | the in-place recursion ends although it changes depths as it goes, shifts exactly the subtree, and leaves every agent but the top saved and logged; only the part of the organization it works on need be a tree |
| Designer.Reparent | app/org.py:284-304 | in place, exactly the agent's subtree is moved under the new parent, nothing else changed, and rows and log agree, wherever the new parent is |
| OrgApply.Find | app/org.py:50-54 | finds the agent with the id, or there is none |
| OrgApply.ResolveParent | app/org.py:201-212 | gives the named live parent or the root; refuses exactly an unknown or stopped one |
| OrgApply.ValidateRetire | app/org.py:236-255 | refuses exactly agents that are stopped or have a pending or running task and, unless replacing, those with a live descendant |
| OrgApply.ValidateReparent | app/org.py:257-271 | refuses exactly a parent in the target's own subtree, or a move whose result would pass the depth limit |
| OrgApply.ValidateReplace | app/org.py:153-165 | accepts exactly a free target, capabilities on offer, room among the agents, and room below the parent for the recruit and the target's subtree |
| OrgApply.Validate | app/org.py:126-165 | accepts exactly the legal changes and gives the reason for any other; which refusal comes first is as in the verdict on the tree |
| OrgApply.LiveCount | app/org.py:225-226 | the agents counted for the limit are the live ids of the tree |
| OrgApply.Recruit | app/runtime.py:388-408 | after `validate`, the second limit check on the way never refuses |
| OrgApply.RetireAndRecruit | app/org.py:190-193 | nor after the target has been retired |
| OrgApply.RehangAll | app/org.py:194-196 | the re-hanging loop ends, with exactly the links of a replacement, wherever the recruit was enlisted |
| OrgApply.Replace | app/org.py:190-199 | retire, recruit and re-hang in place have exactly the effect of a replacement: the closed form for an outside parent, the replacement's links for one inside |
| OrgApply.EffectIsAchieved | app/org.py:126-199 | the effect of an accepted change is done right and leaves a well-formed tree, or for a replacement with an inside parent never a good organization |
| OrgApply.Apply | app/org.py:167-199 | accepts exactly the legal changes (a reparenting exactly when the moved tree is well formed); does to the agents exactly what it should, or nothing and says why; rows, log and objects agree either way; well formed afterwards but for a replacement with an inside parent, which is always broken |
| Events.RecoveryLosesNothing | app/store.py:250-262 | whatever saved rows are lost, merging the log's replay restores every field of all of them |
| Events.EventsShowChanges | app/store.py:264-298 | replaying a reparenting, retirement or kill changes what it names of that agent and nothing else |
| Events.EntriesReplace | app/store.py:264-298 | replaying a full entry shows the agent or task exactly as it was logged |
| Events.EndsShowChanges | app/store.py:292-297 | replaying a mission's stop or failure stops or fails exactly the agents still created or running |
| Runtimes.Runtime.SyncedMeansReplay | app/store.py:264-298 | between operations folding the log gives exactly the saved rows, and those are the objects |
| Runtimes.Runtime.SetAgentStatus | app/runtime.py:410-413 | a status change is saved and logged, and settles that agent's entry only |
| Runtimes.Runtime.Spawn | app/runtime.py:388-408 | refuses exactly for depth, number of live agents or a capability not on offer, in that order, or adds exactly one agent as asked, saved and logged |
| Closing.CloseTasks | app/runtime.py:1276-1283 | closes exactly the tasks in flight (of one agent, or all), each saved and logged |
| Closing.ShutAgents | app/runtime.py:1498-1500 | gives exactly the agents of the given statuses the new one, each saved and logged |
| Approval.FirstWordDecides | app/policy.py:83-90 | the first word of a reply decides, whatever its case, the spaces before and the text after it |
| Approval.RepliesDecide | app/policy.py:46-47 | a reply approves exactly when its first word is approve, approved, yes or allow, denies exactly when it is deny, denied, no, reject or refuse, in any case, and otherwise decides nothing |
| Text.StripIsMiddle | app/memory.py:100-108 | stripping takes off white space at both ends, all of it and nothing else |
| Approval.NoWordNoVerdict | app/policy.py:83-90 | a reply that does not begin with a word decides nothing |
| Missions.CompletionIsEarned | app/runtime.py:1016-1037 | a claim completes the mission if and only if no task is pending or running, no question is open, the summary is not blank, the verifier accepts and, where required, the newest answer begins with an approving word |
| Missions.AssignKeepsInv | app/runtime.py:808-829 | assigning keeps one open task per agent |
| Missions.EndKeepsInv | app/runtime.py:1126-1141 | ending, pausing or stopping leaves nothing under way |
| Missions.AcceptedChangeIsMove | app/org.py:126-165 | every accepted organization change keeps the known agents and stops only idle ones, which is all a mission relies on |
| Missions.ActSettles | app/runtime.py:918-1141 | every other action, kills, ends and restarts among them, revives no stopped agent and leaves links and depths alone |
| Missions.RunKeepsTree | app/runtime.py:918-1141 | so in every run whose organization changes are accepted ones the tree stays well formed, within the depth and agent limits |
| Missions.NextKeepsRunInv | app/runtime.py:918-1141 | every control action, waiting, suspension and a restart that forgets who was killed among them, keeps the mission invariant |
| Missions.OnlyClaimCompletes | app/runtime.py:1016-1037 | no action but a claim the verifier accepted makes a mission completed |
| Missions.RestIsQuiet | app/runtime.py:1126-1141 | in every run, whenever a terminal or paused status is stored no task is pending or running and no agent created or running; of two tasks of one agent one is always stopped or failed |
| Missions.CompletedMeansEarned | app/runtime.py:1016-1037 | in every run a completed mission has nothing pending or running, no open question, if required a newest answer that approves, and one claim the verifier accepted |
| MissionFacts.FinishFacts | app/runtime.py:1016-1037 | a claim to be finished ends by what is open, by the first word of the newest answer and by the verifier; it asks only when there is no answer, and only a claim that is done completes the mission |
| MissionFacts.UnapprovedIsUnfinished | app/runtime.py:723-741 | in every run with approval required, without a newest answer whose first word is one of the four approving ones the mission is not completed |
| MissionFacts.ConcludeFacts | app/runtime.py:1126-1141 | a stopped run leaves its unfinished tasks and agents stopped, any other ended run leaves them failed; all others stay |
| MissionFacts.PauseFacts | app/runtime.py:1487-1511 | a pause stops exactly the unfinished tasks and pauses exactly the created and running agents |
| MissionFacts.IdleStopFacts | app/runtime.py:1545-1569 | stopping also stops paused agents, and a finished mission keeps its status |
| MissionFacts.KillFacts | app/runtime.py:1460-1485 | a kill stops one agent still of use and its unfinished tasks, and nothing else |
| MissionFacts.RestartFacts | app/runtime.py:967-991 | a restart stops the tasks cut off; their agents and the paused ones start over without output, the root runs, all others stay |
| MissionFacts.AssignFacts | app/runtime.py:808-829 | new tasks go only to created or running agents below the root, not killed, all of whose tasks are stopped or failed |
| MissionFacts.WorkFacts | app/runtime.py:1304-1319 | work is taken up and reported only on an unfinished task of an agent not killed; task and agent change together |
| MissionFacts.WaitFacts | app/runtime.py:1054-1074 | waiting is for unfinished work, with no question open |
| MissionFacts.WorkCanGoOn | app/runtime.py:1054-1074 | while a mission runs or waits every unfinished task can be started and reported, and waited for with no question open |
| MissionFacts.RunsCanGoOn | app/runtime.py:1000-1124 | nor is the run itself ever stuck: it can carry on, be paused or ended, and ask when nothing is open or under way |
| Control.CloseAll | app/runtime.py:1126-1141 | the shared end: everything closed, nothing under way, and the final event leaves the replay unchanged |
| Control.MissionRun.Conclude | app/runtime.py:1126-1141 | the end of a run takes the concluding step; rows and log agree |
| Control.MissionRun.CheckpointPause | app/runtime.py:1487-1511 | a pause takes the pausing step; rows and log agree |
| Control.MissionRun.StopIdle | app/runtime.py:1545-1569 | stopping an idle mission takes the stopping step; rows and log agree |
| Control.MissionRun.Kill | app/runtime.py:1460-1485 | refuses exactly finished missions and finished or killed agents, otherwise stops that agent's work only |
| Control.StopAgentWork | app/runtime.py:1274-1293 | the agent's tasks in flight and the agent are stopped and logged; nothing else changes |
| Control.MissionRun.AssignUnassigned | app/runtime.py:808-829 | new pending tasks only where they belong; afterwards every created or running agent below the root that was not killed has a task neither stopped nor failed, unless the task limit stopped it; the limit is never passed |
| Control.MissionRun.StartTask | app/runtime.py:1304-1309 | task and agent become running together; rows and log agree |
| Control.MissionRun.ReportTask | app/runtime.py:1310-1319 | task and agent are completed or blocked together with the output; rows and log agree |
| Control.MissionRun.Wait | app/runtime.py:1054-1074 | unassigned agents get tasks and the waiting status is stored, refused with a question open or nothing in flight |
| Control.MissionRun.Suspend | app/runtime.py:1116-1124 | a shutdown stores waiting if a question is open or the mission waits, and running otherwise, with the work left as it is |
| Control.MissionRun.Recover | app/runtime.py:967-991 | a run taken up again stops what was in flight and restarts exactly those agents, the paused ones and the root |
| Control.MissionRun.MatchingApproval | app/runtime.py:710-714 | the backward search finds the newest matching approval |
| Control.MissionRun.EnforceApproval | app/runtime.py:723-741 | goes on exactly when the newest answer begins with an approving word; a denying word or no such word ends it, each with its own error; it asks exactly when there is no answer |
| Control.MissionRun.Finish | app/runtime.py:1016-1037 | the claim ends and leaves the mission as it should; with approval required and no approving newest answer it does not complete it |
| Answers.AcceptKeepsRow | app/store.py:156-188 | accepting keeps ids unique and the open question unanswered, and loses no answer |
| Answers.ConsumeKeepsRow | app/store.py:195-214 | consuming sets one time stamp and changes nothing else |
| Answers.StepKeepsShared | app/store.py:147-214 | every read, swap, question and status change keeps the invariant of row and calls |
| Answers.AnswersOnlyGrow | app/store.py:147-214 | under any interleaving answered ids stay unique, the open id is not among them, and answers are never lost or rewritten |
| Answers.EachQuestionWonOnce | app/store.py:147-214 | each question has at most one accepting call and at most one that reports it changed; both find it in the store |
| Answers.AnswersMatchQuestions | app/store.py:174-184 | over any history every stored answer carries the id and the purpose of a question that was asked |
| Answers.AcceptedIsKept | app/store.py:174-188 | what a call has accepted is its own text, for a question that was asked, and stays in the store |
| Answers.AskedCanBeAnswered | app/runtime.py:697-708 | a question just asked leaves the mission waiting, keeps the answers, and can be answered at once by its own id and by no other |
| Answers.SwapsUseAttempts | app/store.py:147-188 | however calls interleave, no call swaps more than three times and a conflict is reported only after the third |
| Answers.MissionStore.AcceptAnswer | app/store.py:147-188 | the retry loop, interrupted at will, makes only moves of a history; it accepts only for the open question of a waiting or paused mission, storing its text with that question's purpose; any refusal has the reason it gives, a conflict that the row had changed again |
| Answers.MissionStore.MarkAnswerConsumed | app/store.py:190-214 | likewise; it stamps the question's answer once, reports the change only then, and is refused only for want of a mission or an answer, or in conflict |
| Answers.MissionStore.WonOnce | app/store.py:147-214 | so every question is accepted and marked consumed at most once on the store itself |
| Routing.EligibleIffSuits | app/router.py:169-200 | a model is eligible exactly when it has what the request needs, levels compared case by case, and its context and cost are known and within limits where asked for |
| Routing.ReasonApplies | app/router.py:175-200 | a reason is recorded exactly when it applies |
| Routing.WorthOfReasoning | app/router.py:254-297 | a known reasoning level is worth 12 more than an unknown one, each level up 1 |
| Routing.WorthOfCoding | app/router.py:254-297 | where coding is asked for, a known level is worth 9 more than an unknown one, each level up 1; otherwise coding counts nothing |
| Routing.WorthOfFeatures | app/router.py:254-297 | required tools are worth 10, structured output 5, health 5, degraded health 1 |
| Routing.WorthOfTheRest | app/router.py:254-297 | history counts with its score, a listed price with a thousandth, an estimate used in its place in full, each place in the catalog a hundredth |
| Routing.PureHistories | app/router.py:123-127 | a window of successes only scores 8, one of failures only -8 |
| Routing.HistoryScoreBounded | app/router.py:123-127 | recent outcomes move a score by at most 8 either way |
| Routing.NoWorseScoresNoLess | app/router.py:254-297 | a model no worse in any respect and listed no later never scores less; among equals the earlier scores strictly higher |
| Routing.OutcomeMovesHistory | app/router.py:102-127 | through the sliding window of eight, one more success never lowers the history score and one more failure never raises it |
| Routing.PenaltyIsFair | app/router.py:219-239 | the cost penalty is between 0 and 2, 0 for the cheapest of its kind, 2 for a dearer dearest, and grows with cost |
| Routing.PenaltyIsEven | app/router.py:219-239 | between the cheapest and the dearest the penalty grows in proportion |
| Routing.ApplyRelativeCost | app/router.py:219-239 | the pass over the scores takes off exactly the penalty |
| Selection.RankByScore | app/router.py:440 | all positions, each once, by descending score, ties in catalog order |
| Selection.CatalogExactly | app/router.py:357-384 | the catalog has exactly the models that configured providers list, or their default when they list none |
| Selection.CatalogGrows | app/router.py:357-384 | in the order of the providers |
| Selection.DroppedExactly | app/router.py:357-384 | exactly the configured providers that bring no model are dropped |
| Selection.FailedExactly | app/router.py:444-448 | discovery has failed exactly if a configured provider's listing did |
| Selection.Select | app/router.py:405-458 | the chain holds exactly the models that suit the request, ranked by final score; every other model is rejected for exactly the reasons that apply, after the dropped providers; no route exactly when none suits, an outage exactly when a listing failed |
| Selection.RejectionsAreRight | app/router.py:420-427 | every unsuitable model is recorded, and every record gives exactly the reasons that apply |
| Selection.ChainIsPartitioned | app/router.py:405-458 | chain and rejections partition the catalog; ahead in the chain are higher final scores, or the same and an earlier place in the catalog |
| Selection.CheaperStaysAhead | app/router.py:219-239 | the cost pass never puts a dearer model of the same kind ahead of a cheaper one that was no worse |
| Failover.ModelRouter.RecordOutcome | app/router.py:102-110 | a provider's history is the last eight outcomes recorded for it, and other histories stay |
| Failover.ModelRouter.Complete | app/router.py:468-508 | the answer is the first candidate's that is neither skipped nor out, an other error stops the walk, each call made leaves one outcome, and the response says whom it stands in for and why |
| Failover.ServesRightly | app/router.py:468-508 | missing and skipped candidates and outages are passed and nothing else; a stand-in's response names the first choice and why the last candidate was passed over; with all passed it is an outage unless nothing is configured and no call failed |
| Failover.OneOutcomePerCall | app/router.py:481-497 | as many outcomes as candidates called |
| Failover.OutcomesInOrder | app/router.py:481-497 | in the order of the calls, each for its candidate's provider and saying whether it answered |
| Failover.ReasonMatches | app/router.py:474-496 | the recorded reason is that of the last candidate passed over |
| Budget.RoundIsNear | app/resources.py:51-52 | rounding is off by at most half a unit, ties going to even |
| Budget.CostIsFee | app/resources.py:181-216 | a call costs its tokens at the listed or default price of each, marked up, and is known exactly when both prices are listed or both have defaults |
| Budget.ExactCostNotNegative | app/resources.py:202-206 | a call never costs less than nothing |
| Budget.ResolvePrices | app/resources.py:237-257 | listed prices are filled up with defaults and never below zero; unknown exactly when a price is missing and the defaults are not complete |
| Budget.Account.BudgetFor | app/resources.py:226-229 | the wanted budget rounded, zero for a negative one, the hard cap for one above it |
| Budget.Account.Consume | app/resources.py:277-309 | a charge is within half a unit of the exact cost, over-budget is recorded and reported, unknown cost never charges |
| Budget.Account.Spend | app/resources.py:269-309 | over a run stopped at the first refusal spend never decreases, overspend is at most the last call, the warning fires at most once, and n charges are within n half-units of the exact sum |
| Memory.Bound | app/memory.py:206-221 | the longest run of newest notes within the cap; refused exactly when the newest alone exceeds it |
| Memory.StoreMemory.Remember | app/memory.py:145-158 | stores the stripped text, refusing exactly empty and oversized notes, so that no stored row is ever unusable |
| Memory.StoreMemory.LoadScoped | app/memory.py:174-188 | the mission's notes in time order that the agent may see, or a failure exactly when some row is unusable |
| Memory.StoreMemory.Recall | app/memory.py:160-172 | recall of remembered notes fails only for a bad cap or a newest note that alone exceeds it |
| Memory.RecallCap | app/memory.py:85-97 | refuses exactly two caps at once and caps that are not positive; otherwise the characters, four per token, or the default |
| Effects.IdempotencyGuard.Record | app/leases.py:233-258 | whoever writes a key first fixes its outcome, even against a rival between lookup and insert; nothing stored changes |
| Effects.EffectRunner.CreatePayment | app/runtime.py:1592-1618 | pays at most once for each stripped key, within budget and cap; a replay gives the first outcome and charges nothing; keys that differ stay different |
| Effects.LedgerPays | app/runtime.py:1612-1617 | what is spent stays the sum over distinct payment keys |
| Effects.EffectRunner.ToolCallsUsed | app/runtime.py:493-498 | the cached count is the number of started calls in the log |
| Effects.EffectRunner.ConsumeToolCall | app/runtime.py:509-515 | charges exactly while below the limit |
| Effects.EffectRunner.InvokeTool | app/runtime.py:542-622 | starts at most one call per key and within the limit; whatever happened is what every later attempt gets |

## Left out

- `kill_agent` and stopping a whole mission in the live-parent property: a kill may stop an agent with live children, and a mission end stops created, running and paused agents but not blocked ones. Well-formedness and the agent limit survive both (`OrgChanges.TreeStaysWellFormed`).
- OrgApply.Apply: takes a well-formed tree, because on a parent cycle the code's own walks do not end; stop signals (app/org.py:168, app/runtime.py:390) are not modelled, the operation is atomic here.
- OrgChanges.OrgStaysGood: status changes in a history neither stop nor revive an agent, because kill and mission stop do not keep the live-parent property.
- Missions.RunKeepsTree: replacements must have their parent outside the replaced subtree, as in the history theorems, and the run is followed from a state that has its root.
- A job's payload and a task's other fields: carried along unread.
- Organization.Descendants: takes a well-formed tree, because on a parent cycle the code's loop does not end.
- Crashes in the middle of an operation, and lost updates from plain mission saves that race with an answer: the answer model covers only the two compare-and-swap methods, and other writers there change only the open question and the status.
- Answers.MissionStore.AcceptAnswer: the check that the payload is unchanged compares the modelled fields and one stamp for the rest of the payload.
- Process workers that execute mission tasks in another process (app/runtime.py:1330-1430), and durable cross-process stop and pause signals: the run is controlled from one process.
- Mission and task leases over a run: any transaction on them may happen between queue steps, but their exclusion is not proved; the mission lease is not renewed during a run.
- Workers.ExecuteClaimed: a handler that itself raises a timeout is read by the code as a heartbeat tick and is not modelled; threads appear only as interleaved queue transactions.
- Effects.EffectRunner.InvokeTool: calls are sequential, because two concurrent calls with one key may both run the tool (lookup and record are separate steps; only first-write-wins holds then); a key the caller supplies is taken to differ from every key the runtime makes itself.
- Budget.Account.Consume: floating-point error inside the product is not modelled; only the final rounding is.
- Routing.ApplyRelativeCost: scores are reals, so float ties and the explanatory texts are not modelled.
- Approval.FirstWordDecides: case folding and white space outside ASCII.
- Memory.StoreMemory.Recall: rows with a missing time stamp or a malformed id.
- Verification of a finish claim, evidence runs, planning and token retries around a model call: the verifier's answer is a parameter.
- Provider adapters, credentials, health checks, browser, HTTP API, user interface, migrations, workspaces, self-modification: input and output with straight-line checks, where no property spans several operations.
