/** Controlling a mission (app/runtime.py): what assigning, running, killing, pausing, finishing and
    ending do to its state, and what holds over every run. */
module Missions {
  import opened Base
  import opened OrgTree
  import opened Events
  import opened Runtimes
  import opened OrgChanges
  import opened Closing
  import opened Approval
  import opened Text

  datatype MissionStatus =
    | MPending | MRunning | MWaiting | MPaused | MCompleted | MFailed | MStopped | MBlocked

  predicate TerminalMission(s: MissionStatus) {
    s in {MCompleted, MFailed, MStopped, MBlocked}
  }

  datatype Purpose = Plain | ApprovalOf(action: string)
  datatype Question = Question(id: nat, purpose: Purpose)
  datatype Answer = Answer(question: nat, purpose: Purpose, text: string)

  /** `saved` is the status last written to the store. */
  datatype MState = MState(agents: Tree, tasks: TaskTable, killed: set<Id>, status: MissionStatus,
                           saved: MissionStatus, pending: Option<Question>, answers: seq<Answer>)

  // ------------------------------------------------------------ what must always hold

  predicate Open(row: TaskRow) {
    row.status != TStopped && row.status != TFailed
  }

  /** No agent has two tasks that are neither stopped nor failed. */
  ghost predicate OneOpen(t: TaskTable) {
    forall x, y :: x in t && y in t && t[x].agent == t[y].agent && Open(t[x]) && Open(t[y]) ==> x == y
  }

  ghost predicate KilledIdle(t: TaskTable, killed: set<Id>) {
    forall x :: x in t && InFlight(t[x].status) ==> t[x].agent !in killed
  }

  ghost predicate NoneInFlight(t: TaskTable, a: Id) {
    forall x :: x in t && t[x].agent == a ==> !InFlight(t[x].status)
  }

  /** Stopped agents have no task in flight. */
  ghost predicate StoppedIdle(agents: Tree, t: TaskTable) {
    forall a :: a in agents && agents[a].status == Stopped ==> NoneInFlight(t, a)
  }

  /** No task pending or running, no agent created or running. */
  ghost predicate Quiet(agents: Tree, tasks: TaskTable) {
    && (forall x :: x in tasks ==> tasks[x].status != TPending && tasks[x].status != TRunning)
    && (forall a :: a in agents ==> agents[a].status != Created && agents[a].status != Running)
  }

  /** The mission's stored status says that nothing is under way. */
  predicate AtRest(saved: MissionStatus) {
    TerminalMission(saved) || saved == MPaused
  }

  ghost predicate MissionInv(s: MState) {
    && OneOpen(s.tasks) && KilledIdle(s.tasks, s.killed) && StoppedIdle(s.agents, s.tasks)
    && (AtRest(s.saved) ==> Quiet(s.agents, s.tasks))
  }

  // ------------------------------------------------------------ approvals

  /** The newest answer to an approval question about `action`. */
  function Newest(answers: seq<Answer>, action: string): Option<Answer> {
    if answers == [] then None
    else if answers[|answers| - 1].purpose == ApprovalOf(action) then Some(answers[|answers| - 1])
    else Newest(answers[..|answers| - 1], action)
  }

  predicate Granted(answers: seq<Answer>, action: string) {
    Newest(answers, action).Some? && ParseApproval(Newest(answers, action).value.text) == Some(Approve)
  }

  /** The newest answer to the question whether to finish is the i-th. */
  ghost predicate LastOnFinish(answers: seq<Answer>, i: nat) {
    && i < |answers| && answers[i].purpose == ApprovalOf("finish")
    && forall k :: i < k < |answers| ==> answers[k].purpose != ApprovalOf("finish")
  }

  /** It begins with one of the four approving words. */
  ghost predicate FinishApproved(answers: seq<Answer>) {
    exists i: nat :: LastOnFinish(answers, i) && SaysYes(answers[i].text)
  }

  lemma {:induction false} NewestIsLast(answers: seq<Answer>, i: nat)
    requires LastOnFinish(answers, i)
    ensures Newest(answers, FINISH) == Some(answers[i])
  {
    if i < |answers| - 1 {
      var before := answers[..|answers| - 1];
      assert answers[|answers| - 1].purpose != ApprovalOf("finish");
      assert LastOnFinish(before, i);
      NewestIsLast(before, i);
    }
  }

  lemma {:induction false} LastOfNewest(answers: seq<Answer>) returns (i: nat)
    requires Newest(answers, FINISH).Some?
    ensures LastOnFinish(answers, i)
  {
    if answers[|answers| - 1].purpose == ApprovalOf("finish") {
      i := |answers| - 1;
    } else {
      i := LastOfNewest(answers[..|answers| - 1]);
    }
  }

  lemma GrantedIsApproved(answers: seq<Answer>)
    ensures Granted(answers, FINISH) <==> FinishApproved(answers)
  {
    hide ParseApproval, SaysYes, SaysNo;
    if Newest(answers, FINISH).Some? {
      var i := LastOfNewest(answers);
      NewestIsLast(answers, i);
      RepliesDecide(answers[i].text);
      forall k | LastOnFinish(answers, k) ensures k == i {
      }
    }
    if i: nat :| LastOnFinish(answers, i) && SaysYes(answers[i].text) {
      NewestIsLast(answers, i);
      RepliesDecide(answers[i].text);
    }
  }

  /** How a controller action ends: it goes on, an error ends the run, or the run is cut short while
      it waits for a human. */
  datatype Ending = Done | Raised(error: PolicyError) | Cut

  function Interpret(text: string): Ending {
    match ParseApproval(text)
    case Some(Approve) => Done
    case Some(Deny) => Raised(PolicyRefusal)
    case None => Raised(AuthorizationRequired)
  }

  function Unkilled(t: TaskTable, killed: set<Id>): set<Id> {
    set x | x in t && InFlight(t[x].status) && t[x].agent !in killed
  }

  const FINISH := "finish"

  /** The controller claims the mission is finished.  `reply` is what a human answers if asked, and
      `accepted` whether the verifier accepts the claim. */
  function FinishVerdict(s: MState, required: bool, summary: string, reply: Option<string>, accepted: bool): Ending {
    if s.pending.Some? then Raised(InvalidOutput)
    else if Unkilled(s.tasks, s.killed) != {} then Raised(InvalidOutput)
    else if Spaces(summary) then Raised(InvalidOutput)
    else
      var known := Newest(s.answers, FINISH);
      var word := if !required then Done
                  else if known.Some? then Interpret(known.value.text)
                  else if reply.None? then Cut
                  else Interpret(reply.value);
      if word != Done then word else if !accepted then Raised(VerificationFailure) else Done
  }

  /** Does this claim make the runtime ask a human? */
  predicate Asks(s: MState, required: bool, summary: string) {
    && s.pending.None? && Unkilled(s.tasks, s.killed) == {} && !Spaces(summary)
    && required && Newest(s.answers, FINISH).None?
  }

  /** The state after a claim: the question and its answer, and the new mission status. */
  predicate FinishStep(s: MState, required: bool, summary: string, reply: Option<string>, accepted: bool,
                       newQuestion: nat, e: Ending, s': MState)
  {
    var q := Question(newQuestion, ApprovalOf(FINISH));
    var heard :=
      if !Asks(s, required, summary) then s
      else if reply.None? then s.(pending := Some(q), status := MWaiting, saved := MWaiting)
      else s.(answers := s.answers + [Answer(q.id, q.purpose, reply.value)], status := MRunning, saved := MRunning);
    && e == FinishVerdict(s, required, summary, reply, accepted)
    && s' == if e == Done then heard.(status := MCompleted) else heard
  }

  /** A claim completes the mission only with nothing in flight, no open question, an accepted
      verification and, where required, an approval by the newest answer. */
  lemma CompletionIsEarned(s: MState, required: bool, summary: string, reply: Option<string>, accepted: bool,
                           newQuestion: nat, e: Ending, s': MState)
    requires MissionInv(s) && FinishStep(s, required, summary, reply, accepted, newQuestion, e, s')
    ensures e == Done <==>
              && s.pending == None
              && (forall x :: x in s.tasks ==> s.tasks[x].status != TPending && s.tasks[x].status != TRunning)
              && (exists i :: 0 <= i < |summary| && !Blank(summary[i])) && accepted
              && (required ==> FinishApproved(s'.answers) && s'.pending == None)
    ensures e == Done ==> s'.status == MCompleted && s'.pending == None && s'.tasks == s.tasks
    ensures e != Done && s.status != MCompleted ==> s'.status != MCompleted
  {
    assert Unkilled(s.tasks, s.killed) == {} <==> forall x :: x in s.tasks ==> !InFlight(s.tasks[x].status) by {
      if x :| x in s.tasks && InFlight(s.tasks[x].status) {
        assert x in Unkilled(s.tasks, s.killed);
      }
    }
    GrantedIsApproved(s'.answers);
    assert Spaces(summary) <==> forall i :: 0 <= i < |summary| ==> Blank(summary[i]);
    if Asks(s, required, summary) && reply.Some? {
      var added := s.answers + [Answer(newQuestion, ApprovalOf(FINISH), reply.value)];
      assert added[|added| - 1].text == reply.value;
    }
  }

  // ------------------------------------------------------------ the other steps

  /** Work can be given to this agent: it has a parent, is created or running and was not killed. */
  predicate Employable(s: MState, a: Id) {
    && a in s.agents && s.agents[a].parent != None && a !in s.killed
    && (s.agents[a].status == Created || s.agents[a].status == Running)
  }

  ghost predicate HasOpen(t: TaskTable, a: Id) {
    exists x :: x in t && t[x].agent == a && Open(t[x])
  }

  /** The tasks in `xs` belong to different agents. */
  ghost predicate OneEach(t: TaskTable, xs: set<Id>)
    requires xs <= t.Keys
  {
    forall x, y | x in xs && y in xs :: t[x].agent == t[y].agent ==> x == y
  }

  /** New pending tasks for employable agents that had no open one, at most one each. */
  ghost predicate AssignStep(s: MState, s': MState) {
    && s' == s.(tasks := s'.tasks)
    && (forall x :: x in s.tasks ==> x in s'.tasks && s'.tasks[x] == s.tasks[x])
    && (forall x :: x in s'.tasks && x !in s.tasks ==>
          s'.tasks[x] == TaskRow(x, s'.tasks[x].agent, TPending, None)
          && Employable(s, s'.tasks[x].agent) && !HasOpen(s.tasks, s'.tasks[x].agent))
    && OneEach(s'.tasks, s'.tasks.Keys - s.tasks.Keys)
  }

  predicate StartStep(s: MState, x: Id, s': MState) {
    && x in s.tasks && InFlight(s.tasks[x].status) && s.tasks[x].agent !in s.killed && s.tasks[x].agent in s.agents
    && var a := s.tasks[x].agent;
       s' == s.(tasks := s.tasks[x := s.tasks[x].(status := TRunning)],
                agents := s.agents[a := s.agents[a].(status := Running)])
  }

  predicate ReportStep(s: MState, x: Id, completed: bool, output: string, s': MState) {
    && x in s.tasks && InFlight(s.tasks[x].status) && s.tasks[x].agent !in s.killed && s.tasks[x].agent in s.agents
    && var a := s.tasks[x].agent;
       var task := s.tasks[x].(status := if completed then TCompleted else TBlocked, output := Some(output));
       var row := s.agents[a].(status := if completed then Completed else Blocked, output := Some(output));
       s' == s.(tasks := s.tasks[x := task], agents := s.agents[a := row])
  }

  ghost predicate KillStep(s: MState, a: Id, s': MState) {
    && a in s.agents && a !in s.killed && !TerminalMission(s.saved)
    && s.agents[a].status != Completed && s.agents[a].status != Failed && s.agents[a].status != Stopped
    && s' == s.(tasks := Closed(s.tasks, Some(a), TStopped), killed := s.killed + {a},
                agents := s.agents[a := s.agents[a].(status := Stopped)])
  }

  /** The end of a run whose mission status has become terminal. */
  ghost predicate ConcludeStep(s: MState, s': MState) {
    && TerminalMission(s.status)
    && var stopped := s.status == MStopped;
       s' == s.(tasks := Closed(s.tasks, None, if stopped then TStopped else TFailed),
                agents := Shut(s.agents, {Created, Running}, if stopped then Stopped else Failed),
                saved := s.status)
  }

  ghost predicate PauseStep(s: MState, s': MState) {
    s' == s.(tasks := Closed(s.tasks, None, TStopped), agents := Shut(s.agents, {Created, Running}, Paused),
             status := MPaused, saved := MPaused)
  }

  /** Stopping a mission that is not being run. */
  ghost predicate IdleStopStep(s: MState, s': MState) {
    s' == s.(tasks := Closed(s.tasks, None, TStopped), agents := Shut(s.agents, {Created, Running, Paused}, Stopped),
             status := if TerminalMission(s.saved) then s.status else MStopped,
             saved := if TerminalMission(s.saved) then s.saved else MStopped)
  }

  // ------------------------------------------------------------ the invariant over runs

  lemma ClosedKeepsOneOpen(t: TaskTable, agent: Option<Id>, to: TaskStatus, killed: set<Id>)
    requires OneOpen(t) && KilledIdle(t, killed) && (to == TStopped || to == TFailed)
    ensures OneOpen(Closed(t, agent, to)) && KilledIdle(Closed(t, agent, to), killed)
    ensures agent.Some? ==> KilledIdle(Closed(t, agent, to), killed + {agent.value})
    ensures agent.None? ==> forall x :: x in t ==> !InFlight(Closed(t, agent, to)[x].status)
  {
  }

  lemma AssignKeepsInv(s: MState, s': MState)
    requires MissionInv(s) && AssignStep(s, s') && !AtRest(s.saved)
    ensures MissionInv(s')
  {
    forall a | a in s.agents && s.agents[a].status == Stopped ensures NoneInFlight(s'.tasks, a) {
      assert NoneInFlight(s.tasks, a);
    }
    forall x, y | x in s'.tasks && y in s'.tasks && s'.tasks[x].agent == s'.tasks[y].agent
                  && Open(s'.tasks[x]) && Open(s'.tasks[y])
      ensures x == y
    {
      assert x in s.tasks ==> HasOpen(s.tasks, s'.tasks[x].agent);
      assert y in s.tasks ==> HasOpen(s.tasks, s'.tasks[y].agent);
    }
  }

  lemma EndKeepsInv(s: MState, s': MState)
    requires MissionInv(s) && (ConcludeStep(s, s') || PauseStep(s, s') || IdleStopStep(s, s'))
    ensures MissionInv(s') && Quiet(s'.agents, s'.tasks) && AtRest(s'.saved)
  {
    var to := if ConcludeStep(s, s') && s.status != MStopped then TFailed else TStopped;
    ClosedKeepsOneOpen(s.tasks, None, to, s.killed);
  }

  /** A run taken up again: tasks that were in flight are stopped, and their agents and the paused ones
      start over. */
  function Restarted(row: AgentRow, interrupted: bool, root: bool): AgentRow {
    if interrupted then row.(status := Created, output := None)
    else if row.status == Paused then row.(status := if root then Running else Created, output := None)
    else row
  }

  ghost function RestartedAmong(t: Tree, ids: set<Id>, interrupted: set<Id>, r: Id): Tree {
    map a | a in t :: if a in ids then Restarted(t[a], a in interrupted, a == r) else t[a]
  }

  /** A root that is not finished runs. */
  function RootRuns(t: Tree, r: Id): Tree {
    if r in t && (t[r].status == Created || t[r].status == Running || t[r].status == Blocked)
    then t[r := t[r].(status := Running)] else t
  }

  ghost function Interrupted(t: TaskTable): set<Id> {
    set x | x in t && InFlight(t[x].status) :: t[x].agent
  }

  /** Which agents were killed is known in memory only, so a restart may have forgotten it. */
  ghost predicate RecoverStep(s: MState, r: Id, s': MState) {
    && !TerminalMission(s.saved)
    && (s'.killed == s.killed || s'.killed == {})
    && s' == s.(tasks := Closed(s.tasks, None, TStopped), killed := s'.killed,
                agents := RootRuns(RestartedAmong(s.agents, s.agents.Keys, Interrupted(s.tasks), r), r),
                status := MRunning, saved := MRunning)
  }

  /** The controller waits for work that is under way. */
  predicate WaitStep(s: MState, s': MState) {
    && s.pending == None && Unkilled(s.tasks, s.killed) != {}
    && s' == s.(status := MWaiting, saved := MWaiting)
  }

  /** The process shuts down and leaves unfinished work to be recovered. */
  function Suspended(s: MState): MState {
    var left := if s.pending.Some? || s.status == MWaiting then MWaiting else MRunning;
    s.(status := left, saved := left)
  }

  /** What a mission relies on when the organization changes: agents stay known, and those it stops were
      idle. */
  ghost predicate OrgMove(t: Tree, tasks: TaskTable, t': Tree) {
    && t.Keys <= t'.Keys
    && forall a :: a in t' && t'[a].status == Stopped ==> (a in t && t[a].status == Stopped) || NoneInFlight(tasks, a)
  }

  /** Every accepted organization change is such a move, wherever a replacement's parent lies. */
  lemma AcceptedChangeIsMove(t: Tree, r: Id, tasks: TaskTable, limits: Limits, demo: bool, c: OrgChange, newId: Id,
        t': Tree)
    requires WellFormed(t, r, limits.maxDepth) && Acceptable(t, r, tasks, limits, demo, c) && newId !in t
    requires Effect(t, r, c, newId, t')
    ensures OrgMove(t, tasks, t')
  {
    if c.op == ReplaceOp {
      var target, p, row := c.agentId.value, ParentId(c, r), Newcomer(t, r, c, newId);
      if ReplacesOutside(t, r, c) {
        forall x | x in t ensures t'[x].status == if x == target then AgentStatus.Stopped else t[x].status {
          RehungStatus(t, target, p, row, x);
        }
      }
      assert NoneInFlight(tasks, target);
    }
  }

  datatype Act =
    | WaitAct | SuspendAct | OrgAct | AssignAct
    | StartAct(task: Id) | ReportAct(task: Id, completed: bool, output: string)
    | KillAct(agent: Id) | AskAct(question: Question) | HearAct(text: string) | CarryOnAct
    | ClaimAct(summary: string, reply: Option<string>, accepted: bool, newQuestion: nat, ending: Ending)
    | EndAct(to: MissionStatus) | ConcludeAct | PauseAct | IdleStopAct | RecoverAct(root: Id)

  /** The controller loop is running and has not decided the mission's end. */
  predicate Active(s: MState) {
    !AtRest(s.saved) && (s.status == MRunning || s.status == MWaiting)
  }

  ghost predicate MNext(s: MState, act: Act, s': MState, required: bool) {
    match act
    case WaitAct => Active(s) && WaitStep(s, s')
    case SuspendAct => !AtRest(s.saved) && s' == Suspended(s)
    case OrgAct => !AtRest(s.saved) && s' == s.(agents := s'.agents) && OrgMove(s.agents, s.tasks, s'.agents)
    case AssignAct => Active(s) && AssignStep(s, s')
    case StartAct(x) => Active(s) && StartStep(s, x, s')
    case ReportAct(x, completed, output) => Active(s) && ReportStep(s, x, completed, output, s')
    case KillAct(a) => KillStep(s, a, s')
    case AskAct(q) =>
      Active(s) && s.pending == None && s' == s.(pending := Some(q), status := MWaiting, saved := MWaiting)
    case HearAct(text) =>
      && s.pending.Some? && (s.saved == MWaiting || s.saved == MPaused)
      && s' == s.(pending := None, answers := s.answers + [Answer(s.pending.value.id, s.pending.value.purpose, text)])
    case CarryOnAct => Active(s) && s' == s.(status := MRunning, saved := MRunning)
    case ClaimAct(summary, reply, accepted, q, e) =>
      Active(s) && FinishStep(s, required, summary, reply, accepted, q, e, s')
    case EndAct(to) => !AtRest(s.saved) && TerminalMission(to) && to != MCompleted && s' == s.(status := to)
    case ConcludeAct => !AtRest(s.saved) && ConcludeStep(s, s')
    case PauseAct => !TerminalMission(s.saved) && PauseStep(s, s')
    case IdleStopAct => IdleStopStep(s, s')
    case RecoverAct(r) => RecoverStep(s, r, s')
  }

  /** What being completed implies. */
  ghost predicate Earned(s: MState, required: bool) {
    && s.pending == None
    && (forall x :: x in s.tasks ==> s.tasks[x].status != TPending && s.tasks[x].status != TRunning)
    && (required ==> FinishApproved(s.answers))
  }

  ghost predicate RunInv(s: MState, required: bool) {
    && MissionInv(s)
    && (s.status == MCompleted || s.saved == MCompleted ==> Earned(s, required))
    && (TerminalMission(s.saved) ==> s.status == s.saved)
  }

  lemma WorkKeepsInv(s: MState, act: Act, s': MState, required: bool)
    requires RunInv(s, required) && MNext(s, act, s', required) && (act.StartAct? || act.ReportAct?)
    ensures RunInv(s', required)
  {
    hide FinishApproved;
  }

  lemma KillKeepsInv(s: MState, act: Act, s': MState, required: bool)
    requires RunInv(s, required) && MNext(s, act, s', required) && act.KillAct?
    ensures RunInv(s', required)
  {
    hide FinishApproved;
    ClosedKeepsOneOpen(s.tasks, Some(act.agent), TStopped, s.killed);
  }

  lemma AssigningKeepsInv(s: MState, act: Act, s': MState, required: bool)
    requires RunInv(s, required) && MNext(s, act, s', required) && act.AssignAct?
    ensures RunInv(s', required)
  {
    hide FinishApproved, OneOpen, KilledIdle, StoppedIdle, AssignStep;
    AssignKeepsInv(s, s');
    AssignIsForTasks(s, s');
  }

  lemma AssignIsForTasks(s: MState, s': MState)
    requires AssignStep(s, s')
    ensures s' == s.(tasks := s'.tasks)
  {
  }

  lemma TalkKeepsInv(s: MState, act: Act, s': MState, required: bool)
    requires RunInv(s, required) && MNext(s, act, s', required)
    requires act.OrgAct? || act.AskAct? || act.HearAct? || act.CarryOnAct? || act.WaitAct? || act.SuspendAct?
             || act.EndAct?
    ensures RunInv(s', required)
  {
  }

  lemma RestKeepsInv(s: MState, act: Act, s': MState, required: bool)
    requires RunInv(s, required) && MNext(s, act, s', required)
    requires act.ConcludeAct? || act.PauseAct? || act.IdleStopAct?
    ensures RunInv(s', required)
  {
    hide OneOpen, KilledIdle, StoppedIdle;
    EndKeepsInv(s, s');
  }

  lemma RestartKeepsInv(s: MState, act: Act, s': MState, required: bool)
    requires RunInv(s, required) && MNext(s, act, s', required) && act.RecoverAct?
    ensures RunInv(s', required)
  {
    ClosedKeepsOneOpen(s.tasks, None, TStopped, s.killed);
  }

  lemma ClaimKeepsInv(s: MState, act: Act, s': MState, required: bool)
    requires RunInv(s, required) && MNext(s, act, s', required) && act.ClaimAct?
    ensures RunInv(s', required)
  {
    hide Interpret, ParseApproval, OneOpen, KilledIdle, Quiet;
    CompletionIsEarned(s, required, act.summary, act.reply, act.accepted, act.newQuestion, act.ending, s');
  }

  lemma NextKeepsRunInv(s: MState, act: Act, s': MState, required: bool)
    requires RunInv(s, required) && MNext(s, act, s', required)
    ensures RunInv(s', required)
  {
    hide RunInv, MNext;
    if act.ClaimAct? {
      ClaimKeepsInv(s, act, s', required);
    } else if act.StartAct? || act.ReportAct? {
      WorkKeepsInv(s, act, s', required);
    } else if act.KillAct? {
      KillKeepsInv(s, act, s', required);
    } else if act.AssignAct? {
      AssigningKeepsInv(s, act, s', required);
    } else if act.ConcludeAct? || act.PauseAct? || act.IdleStopAct? {
      RestKeepsInv(s, act, s', required);
    } else if act.RecoverAct? {
      RestartKeepsInv(s, act, s', required);
    } else {
      TalkKeepsInv(s, act, s', required);
    }
  }

  lemma WorkSettles(s: MState, act: Act, s': MState, required: bool)
    requires MissionInv(s) && MNext(s, act, s', required) && (act.StartAct? || act.ReportAct? || act.KillAct?)
    ensures Settled(s.agents, s'.agents)
  {
    hide Closed, OneOpen, KilledIdle, Quiet;
    if !act.KillAct? {
      assert s.agents[s.tasks[act.task].agent].status != Stopped;
    }
  }

  lemma EndSettles(s: MState, s': MState)
    requires ConcludeStep(s, s') || PauseStep(s, s') || IdleStopStep(s, s')
    ensures Settled(s.agents, s'.agents)
  {
    hide Closed;
  }

  /** Every action but an organization change is one of the status changes of an organization's history:
      it may stop agents, and revives none. */
  lemma ActSettles(s: MState, act: Act, s': MState, required: bool)
    requires MissionInv(s) && MNext(s, act, s', required) && !act.OrgAct?
    ensures Settled(s.agents, s'.agents)
  {
    hide MissionInv, StartStep, ReportStep, KillStep, ConcludeStep, PauseStep, IdleStopStep, RecoverStep;
    match act {
      case StartAct(_) => WorkSettles(s, act, s', required);
      case ReportAct(_, _, _) => WorkSettles(s, act, s', required);
      case KillAct(_) => WorkSettles(s, act, s', required);
      case RecoverAct(r) => RestartSettles(s, r, s');
      case ConcludeAct => EndSettles(s, s');
      case PauseAct => EndSettles(s, s');
      case IdleStopAct => EndSettles(s, s');
      case _ => SameAgents(s, act, s', required);
    }
  }

  lemma SameAgents(s: MState, act: Act, s': MState, required: bool)
    requires MNext(s, act, s', required)
    requires act.WaitAct? || act.SuspendAct? || act.AssignAct? || act.AskAct? || act.HearAct? || act.CarryOnAct?
             || act.ClaimAct? || act.EndAct?
    ensures s'.agents == s.agents
  {
    hide FinishVerdict, Asks;
  }

  lemma RestartSettles(s: MState, r: Id, s': MState)
    requires MissionInv(s) && RecoverStep(s, r, s')
    ensures Settled(s.agents, s'.agents)
  {
    forall a | a in s.agents
      ensures s'.agents[a] == s.agents[a].(status := s'.agents[a].status, output := s'.agents[a].output)
      ensures s.agents[a].status == Stopped ==> s'.agents[a].status == Stopped
    {
      assert s.agents[a].status == Stopped ==> a !in Interrupted(s.tasks);
    }
  }

  /** A mission just created. */
  predicate NewMission(s: MState) {
    s == MState(map[], map[], {}, MPending, MPending, None, [])
  }

  ghost predicate MRun(states: seq<MState>, acts: seq<Act>, required: bool) {
    && |states| == |acts| + 1 && NewMission(states[0])
    && forall i :: 0 <= i < |acts| ==> MNext(states[i], acts[i], states[i + 1], required)
  }

  lemma {:induction false} EveryStateKeepsInv(states: seq<MState>, acts: seq<Act>, required: bool, n: nat)
    requires MRun(states, acts, required) && n < |states|
    ensures RunInv(states[n], required)
  {
    if n > 0 {
      EveryStateKeepsInv(states, acts, required, n - 1);
      NextKeepsRunInv(states[n - 1], acts[n - 1], states[n - 1 + 1], required);
    }
  }

  /** In every run in which the organization only changes as it may, there is one root, every depth is right
      and within the limit, and there are never more live agents than allowed, from any state on in which
      that holds. */
  lemma {:induction false} RunKeepsTree(states: seq<MState>, acts: seq<Act>, required: bool, r: Id, limits: Limits,
        m: nat, n: nat)
    requires MRun(states, acts, required) && m <= n < |states|
    requires WellFormed(states[m].agents, r, limits.maxDepth) && |LiveIds(states[m].agents)| <= limits.maxAgents
    requires forall i :: m <= i < n && acts[i].OrgAct? ==> TreeStep(states[i].agents, states[i + 1].agents, r, limits)
    ensures WellFormed(states[n].agents, r, limits.maxDepth) && |LiveIds(states[n].agents)| <= limits.maxAgents
    decreases n
  {
    hide MNext, MissionInv, Settled, WellFormed, ChangeStep;
    if m < n {
      RunKeepsTree(states, acts, required, r, limits, m, n - 1);
      EveryStateKeepsInv(states, acts, required, n - 1);
      if !acts[n - 1].OrgAct? {
        ActSettles(states[n - 1], acts[n - 1], states[n - 1 + 1], required);
      }
      TreeStepKeeps(states[n - 1].agents, states[n - 1 + 1].agents, r, limits);
    }
  }

  /** In every run: whenever a terminal or paused status stands in the store nothing is under way, and no
      agent ever has two open tasks. */
  lemma RestIsQuiet(states: seq<MState>, acts: seq<Act>, required: bool, n: nat)
    requires MRun(states, acts, required) && n < |states|
    ensures var tasks := states[n].tasks;
            forall x, y :: x in tasks && y in tasks && x != y && tasks[x].agent == tasks[y].agent ==>
              tasks[x].status in {TStopped, TFailed} || tasks[y].status in {TStopped, TFailed}
    ensures states[n].saved in {MCompleted, MFailed, MStopped, MBlocked, MPaused} ==>
              Quiet(states[n].agents, states[n].tasks)
  {
    EveryStateKeepsInv(states, acts, required, n);
  }

  /** Only an accepted claim makes a mission completed that was not. */
  lemma OnlyClaimCompletes(s: MState, act: Act, s': MState, required: bool)
    requires MNext(s, act, s', required) && (s'.saved == MCompleted || s'.status == MCompleted)
    ensures s.saved == MCompleted || s.status == MCompleted || (act.ClaimAct? && act.ending == Done && act.accepted)
  {
    hide Newest, Interpret, ParseApproval;
    if act.ClaimAct? {
      assert FinishStep(s, required, act.summary, act.reply, act.accepted, act.newQuestion, act.ending, s');
    }
  }

  /** In every run: a mission stored as completed has no task in flight and no open question, and its newest
      finish approval, where one is required, says approve; it got there by one claim that the verifier
      accepted. */
  lemma {:induction false} CompletedMeansEarned(states: seq<MState>, acts: seq<Act>, required: bool, n: nat)
    returns (i: nat)
    requires MRun(states, acts, required) && n < |states|
    requires states[n].saved == MCompleted || states[n].status == MCompleted
    ensures Earned(states[n], required)
    ensures i < n && acts[i].ClaimAct? && acts[i].accepted && acts[i].ending == Done
  {
    hide MNext, Earned;
    EveryStateKeepsInv(states, acts, required, n);
    OnlyClaimCompletes(states[n - 1], acts[n - 1], states[n - 1 + 1], required);
    if states[n - 1].saved == MCompleted || states[n - 1].status == MCompleted {
      i := CompletedMeansEarned(states, acts, required, n - 1);
    } else {
      i := n - 1;
    }
  }
}
