/** The running mission's controls on the objects themselves (app/runtime.py), each proved to make the
    step Missions describes and to leave rows, log and objects in agreement. */
module Control {
  import opened Base
  import opened OrgTree
  import opened Events
  import opened Runtimes
  import opened OrgChanges
  import opened Closing
  import opened Approval
  import opened Text
  import opened Missions
  import opened MissionFacts

  lemma NothingToClose(rows: Tree, p: Projection, to: AgentStatus)
    requires p.agents == DumpAgents(rows) && !p.keyError
    requires forall a :: a in rows ==> rows[a].status != Created && rows[a].status != Running
    ensures CloseOpen(p, to) == p
  {
    assert forall x :: x in p.agents ==> p.agents[x].status == Given(rows[x].status);
  }

  /** Logs the mission's end or pause; with nothing left under way the replay is unaffected. */
  method LogEnd(rt: Runtime, e: Event)
    requires rt.Synced() && Quiet(rt.agentRows, rt.taskRows)
    requires e.MissionStopped? || e.MissionFailed? || e.OtherEvent?
    modifies rt`log, rt`projection
    ensures rt.Synced()
  {
    hide TreeOf, TasksOf, DistinctAgents, DistinctTasks, Ids, TaskIds, Project;
    BooksAreRows(rt.agents, rt.agentRows, rt.projection.agents);
    NothingToClose(rt.agentRows, rt.projection, Stopped);
    NothingToClose(rt.agentRows, rt.projection, Failed);
    rt.EmitIdle(e);
  }

  /** Sets, saves and logs what an agent's work has come to. */
  method SetAgentWork(rt: Runtime, a: Agent, to: AgentStatus, output: Option<string>)
    requires rt.LogBooks() && rt.AgentBooks({}) && a in rt.agents
    modifies a`status, a`output, rt`agentRows, rt`log, rt`projection
    ensures rt.LogBooks() && rt.AgentBooks({}) && rt.projection.tasks == old(rt.projection.tasks)
    ensures rt.agentRows == old(rt.agentRows)[a.id := old(a.Row()).(status := to, output := output)]
  {
    hide TreeOf, TasksOf, DistinctAgents, DistinctTasks, Ids, TaskIds, Project;
    a.output := output;
    a.status := to;
    assert rt.AgentBooks({a.id});
    ghost var row := a.Row();
    BooksSettled(rt.agents, rt.agentRows, rt.projection.agents, {}, a) by {
      assert {} + {a.id} == {a.id};
    }
    rt.SaveAgent(a);
    rt.Emit(AgentUpdated(a.id, Dump(a.Row())));
  }

  /** The status task and agents are closed to when the mission ends. */
  function TaskEnd(s: MissionStatus): TaskStatus {
    if s == MStopped then TStopped else TFailed
  }

  function AgentEnd(s: MissionStatus): AgentStatus {
    if s == MStopped then Stopped else Failed
  }

  function EndEvent(s: MissionStatus): Event {
    match s
    case MStopped => MissionStopped
    case MFailed => MissionFailed
    case _ => OtherEvent("mission.ended")
  }

  lemma ClosedAndShutIsQuiet(agents: Tree, tasks: TaskTable, from: set<AgentStatus>, to: AgentStatus,
        taskTo: TaskStatus)
    requires Created in from && Running in from && to != Created && to != Running && !InFlight(taskTo)
    ensures Quiet(Shut(agents, from, to), Closed(tasks, None, taskTo))
  {
  }

  /** The end every pause, stop and finished run shares: nothing is left under way, and that is logged. */
  method CloseAll(rt: Runtime, taskTo: TaskStatus, from: set<AgentStatus>, to: AgentStatus, e: Option<Event>)
    requires e.Some? ==> e.value.MissionStopped? || e.value.MissionFailed? || e.value.OtherEvent?
    requires rt.Synced() && Created in from && Running in from && to != Created && to != Running && !InFlight(taskTo)
    modifies rt.tasks`status, rt.agents`status, rt`taskRows, rt`agentRows, rt`log, rt`projection
    ensures rt.Synced() && Quiet(rt.agentRows, rt.taskRows)
    ensures rt.taskRows == Closed(old(rt.taskRows), None, taskTo) && rt.agentRows == Shut(old(rt.agentRows), from, to)
  {
    hide TreeOf, TasksOf, DistinctAgents, DistinctTasks, Ids, TaskIds, Project, Fold;
    ClosedAndShutIsQuiet(rt.agentRows, rt.taskRows, from, to, taskTo);
    CloseTasks(rt, None, taskTo);
    ShutAgents(rt, from, to);
    if e.Some? {
      LogEnd(rt, e.value);
    }
  }

  class MissionRun {
    const rt: Runtime
    const requireApproval: bool
    var killed: set<Id>
    var status: MissionStatus
    var saved: MissionStatus
    var pending: Option<Question>
    var answers: seq<Answer>

    ghost function State(): MState
      reads this, rt
    {
      MState(rt.agentRows, rt.taskRows, killed, status, saved, pending, answers)
    }

    constructor (rt: Runtime, requireApproval: bool)
      requires rt.Synced() && rt.agents == [] && rt.tasks == []
      ensures this.rt == rt && this.requireApproval == requireApproval && rt.Synced() && NewMission(State())
    {
      this.rt, this.requireApproval := rt, requireApproval;
      killed, status, saved, pending, answers := {}, MPending, MPending, None, [];
    }

    /** Sets and saves the mission's status. */
    method PersistStatus(to: MissionStatus)
      requires rt.Synced()
      modifies this`status, this`saved
      ensures rt.Synced() && State() == old(State()).(status := to, saved := to)
    {
      hide TreeOf, TasksOf, DistinctAgents, DistinctTasks, Ids, TaskIds, Project, Fold;
      status, saved := to, to;
    }

    /** The last part of a run that ends: what was under way is closed, then the status is saved. */
    method Conclude()
      requires rt.Synced() && TerminalMission(status)
      modifies this`saved, this`status, rt.tasks`status, rt.agents`status
      modifies rt`taskRows, rt`agentRows, rt`log, rt`projection
      ensures rt.Synced() && ConcludeStep(old(State()), State())
    {
      hide TreeOf, TasksOf, DistinctAgents, DistinctTasks, Ids, TaskIds, Project, Fold;
      CloseAll(rt, TaskEnd(status), {Created, Running}, AgentEnd(status), Some(EndEvent(status)));
      PersistStatus(status);
    }

    /** The checkpoint of a paused run. */
    method CheckpointPause()
      requires rt.Synced()
      modifies this`saved, this`status, rt.tasks`status, rt.agents`status
      modifies rt`taskRows, rt`agentRows, rt`log, rt`projection
      ensures rt.Synced() && PauseStep(old(State()), State())
    {
      hide TreeOf, TasksOf, DistinctAgents, DistinctTasks, Ids, TaskIds, Project, Fold;
      CloseAll(rt, TStopped, {Created, Running}, Paused, Some(OtherEvent("mission.paused")));
      PersistStatus(MPaused);
    }

    /** Stops a mission that is not being run. */
    method StopIdle()
      requires rt.Synced()
      modifies this`saved, this`status, rt.tasks`status, rt.agents`status
      modifies rt`taskRows, rt`agentRows, rt`log, rt`projection
      ensures rt.Synced() && IdleStopStep(old(State()), State())
    {
      hide TreeOf, TasksOf, DistinctAgents, DistinctTasks, Ids, TaskIds, Project, Fold;
      var e := if TerminalMission(saved) then None else Some(MissionStopped);
      CloseAll(rt, TStopped, {Created, Running, Paused}, Stopped, e);
      if !TerminalMission(saved) {
        PersistStatus(MStopped);
      }
    }

    /** May this agent be killed? */
    predicate Killable(a: Agent)
      reads this, a
    {
      !TerminalMission(saved) && a.id !in killed && a.status !in {Completed, Failed, Stopped}
    }

    /** A human kills one agent: its unfinished tasks are stopped, and so is the agent. */
    method Kill(a: Agent) returns (refusal: Option<PolicyError>)
      requires rt.Synced() && a in rt.agents
      modifies this`killed, rt.tasks`status, a`status, rt`taskRows, rt`agentRows, rt`log, rt`projection
      ensures rt.Synced()
      ensures refusal == None <==>
                && old(saved) !in {MCompleted, MFailed, MStopped, MBlocked}
                && a.id !in old(killed) && old(a.status) !in {Completed, AgentStatus.Failed, Stopped}
      ensures if refusal == None then KillStep(old(State()), a.id, State()) else State() == old(State())
    {
      hide TreeOf, TasksOf, DistinctAgents, DistinctTasks, Ids, TaskIds, Project, Fold;
      if !Killable(a) {
        return Some(PolicyRefusal);
      }
      refusal := None;
      assert ShownIn(rt.agentRows, rt.projection.agents, a);
      AddKilled(a.id);
      StopAgentWork(rt, a);
    }

    method AddKilled(a: Id)
      requires rt.Synced()
      modifies this`killed
      ensures rt.Synced() && State() == old(State()).(killed := killed) && killed == old(killed) + {a}
    {
      hide TreeOf, TasksOf, DistinctAgents, DistinctTasks, Ids, TaskIds, Project, Fold;
      killed := killed + {a};
    }

    /** Gives one agent a pending task. */
    method AssignOne(a: Agent, id: Id, ghost busy: set<Id>, ghost s: MState)
      requires rt.Synced() && id !in TaskIds(rt.tasks) && a in rt.agents
      requires AssignStep(s, State()) && Employable(s, a.id) && AreBusy(busy, rt.taskRows) && a.id !in busy
      modifies rt`tasks, rt`taskRows, rt`log, rt`projection
      ensures rt.Synced() && AssignStep(s, State())
      ensures |rt.tasks| == old(|rt.tasks|) + 1 && TaskIds(rt.tasks) == old(TaskIds(rt.tasks)) + {id}
      ensures AreBusy(busy + {a.id}, rt.taskRows)
    {
      hide TreeOf, TasksOf, DistinctAgents, DistinctTasks, Ids, TaskIds, Project, Fold;
      KeysAreIds(rt);
      AssignMore(s, State(), id, a.id, busy);
      ghost var t := rt.taskRows[id := TaskRow(id, a.id, TPending, None)];
      ghost var u := State().(tasks := t);
      AddTask(rt, id, a);
      assert State() == u;
    }

    /** Gives every employable agent without an open task a new pending one, up to the task limit.
        `newIds` are unused ids, one for each agent in the list. */
    method AssignUnassigned(newIds: seq<Id>) returns (refusal: Option<PolicyError>)
      requires rt.Synced() && |newIds| == |rt.agents| && Unused(newIds, 0, rt.tasks)
      modifies rt`tasks, rt`taskRows, rt`log, rt`projection
      ensures rt.Synced() && AssignStep(old(State()), State())
      ensures refusal == None ==>
                forall a :: a in rt.agents && a.parent.Some? && a.status in {Created, Running} && a.id !in killed ==>
                  exists x :: x in rt.taskRows && rt.taskRows[x].agent == a.id
                              && rt.taskRows[x].status !in {TStopped, TFailed}
      ensures refusal.Some? ==> refusal.value == ResourceExhausted && |rt.tasks| >= rt.limits.maxTasks
      ensures |rt.tasks| == old(|rt.tasks|) || |rt.tasks| <= rt.limits.maxTasks
    {
      hide TreeOf, TasksOf, DistinctAgents, DistinctTasks, Ids, TaskIds, Project, Fold;
      ghost var s := State();
      var busy := BusyAgents(rt);
      for i := 0 to |rt.agents|
        invariant rt.Synced() && Unused(newIds, i, rt.tasks) && AssignStep(s, State()) && AreBusy(busy, rt.taskRows)
        invariant Served(rt.agents, i, s, busy)
        invariant |rt.tasks| == old(|rt.tasks|) || |rt.tasks| <= rt.limits.maxTasks
      {
        refusal, busy := AssignTurn(i, newIds[i], busy, s);
        if refusal.Some? {
          return;
        }
      }
      AllServed(rt, s, State(), busy);
      return None;
    }

    /** One agent's turn. */
    method AssignTurn(i: nat, id: Id, busy: set<Id>, ghost s: MState) returns (refusal: Option<PolicyError>,
          now: set<Id>)
      requires rt.Synced() && i < |rt.agents| && id !in TaskIds(rt.tasks)
      requires AssignStep(s, State()) && AreBusy(busy, rt.taskRows) && Served(rt.agents, i, s, busy)
      modifies rt`tasks, rt`taskRows, rt`log, rt`projection
      ensures rt.Synced() && AssignStep(s, State()) && AreBusy(now, rt.taskRows)
      ensures refusal.None? ==> Served(rt.agents, i + 1, s, now)
      ensures refusal.Some? ==> refusal.value == ResourceExhausted && |rt.tasks| >= rt.limits.maxTasks
      ensures |rt.tasks| == old(|rt.tasks|) || |rt.tasks| <= rt.limits.maxTasks
      ensures old(TaskIds(rt.tasks)) <= TaskIds(rt.tasks) <= old(TaskIds(rt.tasks)) + {id}
    {
      hide TreeOf, TasksOf, DistinctAgents, DistinctTasks, Ids, TaskIds, Project, Fold;
      var a := rt.agents[i];
      now := busy;
      assert ShownIn(rt.agentRows, rt.projection.agents, a);
      ServedMore(rt.agents, i, s, busy);
      if a.parent.None? || a.id in busy || a.id in killed || !(a.status == Created || a.status == Running) {
        return None, busy;
      }
      if |rt.tasks| >= rt.limits.maxTasks {
        return Some(ResourceExhausted), busy;
      }
      AssignOne(a, id, busy, s);
      return None, busy + {a.id};
    }

    /** The controller waits: unassigned agents get tasks, and the mission waits for those in flight.
        Refused while a question is open, when the task limit is reached, and with nothing in flight. */
    method Wait(newIds: seq<Id>) returns (refusal: Option<PolicyError>)
      requires rt.Synced() && |newIds| == |rt.agents| && Unused(newIds, 0, rt.tasks)
      modifies this`status, this`saved, rt`tasks, rt`taskRows, rt`log, rt`projection
      ensures rt.Synced()
      ensures old(pending).Some? ==> refusal == Some(InvalidOutput) && State() == old(State())
      ensures refusal.Some? ==> AssignStep(old(State()), State()) || State() == old(State())
      ensures refusal.None? ==>
                && var mid := State().(status := old(status), saved := old(saved));
                AssignStep(old(State()), mid) && WaitStep(mid, State())
      ensures refusal == Some(InvalidOutput) ==> old(pending).Some? || Unkilled(rt.taskRows, killed) == {}
    {
      hide TreeOf, TasksOf, DistinctAgents, DistinctTasks, Ids, TaskIds, Project, Fold;
      if pending.Some? {
        return Some(InvalidOutput);
      }
      refusal := AssignUnassigned(newIds);
      if refusal.Some? {
        return;
      }
      var busy := set k | k in rt.tasks && InFlight(k.status) && k.agent !in killed;
      BusyIsUnkilled(rt, killed, busy);
      if busy == {} {
        return Some(InvalidOutput);
      }
      PersistStatus(MWaiting);
    }

    /** Leaves unfinished work to be recovered by the next process. */
    method Suspend()
      requires rt.Synced()
      modifies this`status, this`saved
      ensures rt.Synced() && State() == Suspended(old(State()))
      ensures status == saved == if old(pending) != None || old(status) == MWaiting then MWaiting else MRunning
    {
      hide TreeOf, TasksOf, DistinctAgents, DistinctTasks, Ids, TaskIds, Project, Fold;
      PersistStatus(if pending.Some? || status == MWaiting then MWaiting else MRunning);
    }

    /** Takes an unfinished mission up again. */
    method Recover(root: Agent)
      requires rt.Synced() && root in rt.agents && !TerminalMission(saved)
      modifies this`status, this`saved, rt.tasks`status, rt.agents`status, rt.agents`output
      modifies rt`taskRows, rt`agentRows, rt`log, rt`projection
      ensures rt.Synced() && RecoverStep(old(State()), root.id, State())
    {
      hide TreeOf, TasksOf, DistinctAgents, DistinctTasks, Ids, TaskIds, Project, Fold;
      RestartAll(rt, root);
      PersistStatus(MRunning);
    }

    /** The newest matching approval, searched from the end. */
    method MatchingApproval(action: string) returns (found: Option<Answer>)
      ensures found == Newest(answers, action)
      ensures if found.None? then forall k :: 0 <= k < |answers| ==> answers[k].purpose != ApprovalOf(action)
              else exists i :: && 0 <= i < |answers| && answers[i] == found.value
                               && answers[i].purpose == ApprovalOf(action)
                               && forall k :: i < k < |answers| ==> answers[k].purpose != ApprovalOf(action)
    {
      var i := |answers|;
      assert answers[..i] == answers;
      while i > 0
        invariant 0 <= i <= |answers| && Newest(answers[..i], action) == Newest(answers, action)
        invariant forall k :: i <= k < |answers| ==> answers[k].purpose != ApprovalOf(action)
      {
        assert answers[..i][..i - 1] == answers[..i - 1];
        if answers[i - 1].purpose == ApprovalOf(action) {
          return Some(answers[i - 1]);
        }
        i := i - 1;
      }
      return None;
    }

    /** The controller claims the mission is finished. */
    method Finish(summary: string, accepted: bool, reply: Option<string>, newQuestion: nat) returns (e: Ending)
      requires rt.Synced()
      modifies this`pending, this`answers, this`status, this`saved
      ensures FinishStep(old(State()), requireApproval, summary, reply, accepted, newQuestion, e, State())
      ensures EndsRightly(old(State()), requireApproval, summary, reply, accepted, e, State())
      ensures LeavesRightly(old(State()), requireApproval, summary, reply, newQuestion, e, State())
      ensures requireApproval && old(status) != MCompleted && !FinishApproved(answers) ==> status != MCompleted
    {
      hide TreeOf, TasksOf, DistinctAgents, DistinctTasks, Ids, TaskIds, Project, Fold;
      hide EndsRightly, LeavesRightly, FinishApproved;
      ghost var s := State();
      e := DecideFinish(summary, accepted, reply, newQuestion);
      FinishFacts(s, requireApproval, summary, reply, accepted, newQuestion, e, State());
      NeverUnapproved(s, requireApproval, summary, reply, accepted, newQuestion, e, State());
    }

    /** See FinishVerdict. */
    method DecideFinish(summary: string, accepted: bool, reply: Option<string>, newQuestion: nat) returns (e: Ending)
      requires rt.Synced()
      modifies this`pending, this`answers, this`status, this`saved
      ensures FinishStep(old(State()), requireApproval, summary, reply, accepted, newQuestion, e, State())
    {
      hide TreeOf, TasksOf, DistinctAgents, DistinctTasks, Ids, TaskIds, Project, Fold;
      if pending.Some? {
        return Raised(InvalidOutput);
      }
      var busy := set k | k in rt.tasks && InFlight(k.status) && k.agent !in killed;
      BusyIsUnkilled(rt, killed, busy);
      if busy != {} || Spaces(summary) {
        return Raised(InvalidOutput);
      }
      if requireApproval {
        e := EnforceApproval(reply, newQuestion);
        if e != Done {
          return;
        }
      }
      if !accepted {
        return Raised(VerificationFailure);
      }
      status := MCompleted;
      return Done;
    }

    /** Continues only on an approval by the newest answer, asking for one if there is none yet. */
    method EnforceApproval(reply: Option<string>, newQuestion: nat) returns (e: Ending)
      requires pending.None?
      modifies this`pending, this`answers, this`status, this`saved
      ensures var known := old(Newest(answers, FINISH));
              e == match (if known.Some? then Some(known.value.text) else reply)
                   case None => Cut
                   case Some(text) => Interpret(text)
      ensures e == Cut <==> old(Unasked(answers)) && reply == None
      ensures e == Done <==> FinishApproved(answers)
      ensures e == Raised(PolicyRefusal) <==> FinishDenied(answers)
      ensures e == Raised(AuthorizationRequired) <==> FinishUnclear(answers)
      ensures var q := Question(newQuestion, ApprovalOf(FINISH));
              State() == if old(Newest(answers, FINISH)).Some? then old(State())
                         else if reply.None? then
                           old(State()).(pending := Some(q), status := MWaiting, saved := MWaiting)
                         else old(State()).(answers := old(answers) + [Answer(q.id, q.purpose, reply.value)],
                                            status := MRunning, saved := MRunning)
    {
      NewestDecides(answers);
      var known := MatchingApproval(FINISH);
      if known.None? {
        var q := Question(newQuestion, ApprovalOf(FINISH));
        pending, status, saved := Some(q), MWaiting, MWaiting;
        if reply.None? {
          return Cut;
        }
        answers, pending := answers + [Answer(q.id, q.purpose, reply.value)], None;
        status, saved := MRunning, MRunning;
        known := MatchingApproval(FINISH);
        NewestDecides(answers);
      }
      e := Interpret(known.value.text);
    }

    /** A worker takes up one of its agent's tasks. */
    method StartTask(k: Task, a: Agent)
      requires rt.Synced() && k in rt.tasks && a in rt.agents && k.agent == a.id
      requires InFlight(k.status) && a.id !in killed
      modifies k`status, k`output, a`status, a`output, rt`taskRows, rt`agentRows, rt`log, rt`projection
      ensures rt.Synced() && StartStep(old(State()), k.id, State())
    {
      hide TreeOf, TasksOf, DistinctAgents, DistinctTasks, Ids, TaskIds, Project, Fold;
      assert TaskShownIn(rt.taskRows, rt.projection.tasks, k) && ShownIn(rt.agentRows, rt.projection.agents, a);
      WorkOn(rt, k, TRunning, k.output, a, Running, a.output);
    }

    /** A worker's result: the task and its agent are completed, or both blocked. */
    method ReportTask(k: Task, a: Agent, completed: bool, output: string)
      requires rt.Synced() && k in rt.tasks && a in rt.agents && k.agent == a.id
      requires InFlight(k.status) && a.id !in killed
      modifies k`status, k`output, a`status, a`output, rt`taskRows, rt`agentRows, rt`log, rt`projection
      ensures rt.Synced() && ReportStep(old(State()), k.id, completed, output, State())
    {
      hide TreeOf, TasksOf, DistinctAgents, DistinctTasks, Ids, TaskIds, Project, Fold;
      assert TaskShownIn(rt.taskRows, rt.projection.tasks, k) && ShownIn(rt.agentRows, rt.projection.agents, a);
      WorkOn(rt, k, if completed then TCompleted else TBlocked, Some(output),
             a, if completed then Completed else Blocked, Some(output));
    }
  }

  /** From the i-th on, `ids` are distinct and not yet used. */
  ghost predicate Unused(ids: seq<Id>, i: nat, tasks: seq<Task>)
    requires i <= |ids|
  {
    && (forall n :: i <= n < |ids| ==> ids[n] !in TaskIds(tasks))
    && (forall n, m :: i <= n < m < |ids| ==> ids[n] != ids[m])
  }

  /** `busy` are the agents that have an open task. */
  ghost predicate AreBusy(busy: set<Id>, t: TaskTable) {
    forall a :: a in busy <==> HasOpen(t, a)
  }

  /** Each of the first `i` agents that is employable has an open task. */
  ghost predicate Served(agents: seq<Agent>, i: nat, s: MState, busy: set<Id>)
    requires i <= |agents|
  {
    forall n :: 0 <= n < i && Employable(s, agents[n].id) ==> agents[n].id in busy
  }

  lemma AllServed(rt: Runtime, s: MState, s': MState, busy: set<Id>)
    requires rt.Synced() && rt.agentRows == s.agents && rt.taskRows == s'.tasks && s.killed == s'.killed
    requires Served(rt.agents, |rt.agents|, s, busy) && AreBusy(busy, s'.tasks)
    ensures forall a :: a in rt.agents && a.parent.Some? && a.status in {Created, Running} && a.id !in s.killed ==>
              exists x :: x in s'.tasks && s'.tasks[x].agent == a.id && s'.tasks[x].status !in {TStopped, TFailed}
  {
    hide TreeOf, TasksOf, DistinctAgents, DistinctTasks, Ids, TaskIds, Project, Fold;
    forall a | a in rt.agents && a.parent.Some? && a.status in {Created, Running} && a.id !in s.killed
      ensures exists x :: x in s'.tasks && s'.tasks[x].agent == a.id && s'.tasks[x].status !in {TStopped, TFailed}
    {
      assert ShownIn(rt.agentRows, rt.projection.agents, a);
      var n :| 0 <= n < |rt.agents| && rt.agents[n] == a;
      assert a.id in busy && HasOpen(s'.tasks, a.id);
    }
  }

  lemma ServedMore(agents: seq<Agent>, i: nat, s: MState, busy: set<Id>)
    requires i < |agents| && Served(agents, i, s, busy)
    ensures (Employable(s, agents[i].id) ==> agents[i].id in busy) ==> Served(agents, i + 1, s, busy)
    ensures Served(agents, i + 1, s, busy + {agents[i].id})
  {
  }

  method BusyAgents(rt: Runtime) returns (busy: set<Id>)
    requires rt.Synced()
    ensures AreBusy(busy, rt.taskRows)
  {
    hide TreeOf, TasksOf, DistinctAgents, DistinctTasks, Ids, TaskIds, Project, Fold;
    busy := set k | k in rt.tasks && k.status != TStopped && k.status != TFailed :: k.agent;
    KeysAreIds(rt);
    forall a ensures a in busy <==> HasOpen(rt.taskRows, a) {
      if HasOpen(rt.taskRows, a) {
        var x :| x in rt.taskRows && rt.taskRows[x].agent == a && Open(rt.taskRows[x]);
        var k := TaskNamed(rt.tasks, x);
        assert TaskShownIn(rt.taskRows, rt.projection.tasks, k);
      }
      if a in busy {
        var k :| k in rt.tasks && k.status != TStopped && k.status != TFailed && k.agent == a;
        assert TaskShownIn(rt.taskRows, rt.projection.tasks, k);
        assert Open(rt.taskRows[k.id]);
      }
    }
  }

  /** One more task for an employable agent without an open one. */
  lemma AssignMore(s: MState, mid: MState, x: Id, a: Id, busy: set<Id>)
    requires AssignStep(s, mid) && x !in mid.tasks && Employable(s, a) && AreBusy(busy, mid.tasks) && a !in busy
    ensures var t := mid.tasks[x := TaskRow(x, a, TPending, None)];
            AssignStep(s, mid.(tasks := t)) && AreBusy(busy + {a}, t)
  {
    var t := mid.tasks[x := TaskRow(x, a, TPending, None)];
    forall b ensures HasOpen(t, b) <==> HasOpen(mid.tasks, b) || b == a {
      if HasOpen(mid.tasks, b) {
        var y :| y in mid.tasks && mid.tasks[y].agent == b && Open(mid.tasks[y]);
        assert y in t && t[y].agent == b && Open(t[y]);
      }
      if b == a { assert x in t && t[x].agent == a && Open(t[x]); }
    }
    forall y | y in mid.tasks ensures mid.tasks[y].agent == a ==> !Open(mid.tasks[y]) {
      assert !HasOpen(mid.tasks, a);
    }
    assert t.Keys - s.tasks.Keys == (mid.tasks.Keys - s.tasks.Keys) + {x};
  }

  method AddTask(rt: Runtime, id: Id, a: Agent)
    requires rt.Synced() && id !in TaskIds(rt.tasks)
    modifies rt`tasks, rt`taskRows, rt`log, rt`projection
    ensures rt.Synced() && |rt.tasks| == old(|rt.tasks|) + 1 && TaskIds(rt.tasks) == old(TaskIds(rt.tasks)) + {id}
    ensures rt.taskRows == old(rt.taskRows)[id := TaskRow(id, a.id, TPending, None)]
  {
    hide TreeOf, TasksOf, DistinctAgents, DistinctTasks, Ids, TaskIds, Project, Fold;
    var k := new Task(id, a.id);
    TaskBooksGrow(rt.tasks, rt.taskRows, rt.projection.tasks, k);
    rt.tasks := rt.tasks + [k];
    PublishTask(rt, k);
  }

  lemma BusyIsUnkilled(rt: Runtime, killed: set<Id>, busy: set<Task>)
    requires rt.Synced() && busy == set k | k in rt.tasks && InFlight(k.status) && k.agent !in killed
    ensures busy == {} <==> Unkilled(rt.taskRows, killed) == {}
  {
    hide TreeOf, TasksOf, DistinctAgents, DistinctTasks, Ids, TaskIds, Project, Fold;
    KeysAreIds(rt);
    if x :| x in Unkilled(rt.taskRows, killed) {
      var k := TaskNamed(rt.tasks, x);
      assert TaskShownIn(rt.taskRows, rt.projection.tasks, k);
      assert k in busy;
    }
    if k :| k in busy {
      assert TaskShownIn(rt.taskRows, rt.projection.tasks, k);
      assert k.id in Unkilled(rt.taskRows, killed);
    }
  }

  lemma RestartedOneMore(t: Tree, ids: set<Id>, x: Id, interrupted: set<Id>, r: Id, now: Tree)
    requires x in t && x !in ids && now == RestartedAmong(t, ids, interrupted, r)
    ensures now[x] == t[x]
    ensures RestartedAmong(t, ids + {x}, interrupted, r) == now[x := Restarted(t[x], x in interrupted, x == r)]
  {
  }

  method InterruptedAgents(rt: Runtime) returns (agents: set<Id>)
    requires rt.Synced()
    ensures agents == Interrupted(rt.taskRows)
  {
    hide TreeOf, TasksOf, DistinctAgents, DistinctTasks, Ids, TaskIds, Project, Fold;
    agents := set k | k in rt.tasks && InFlight(k.status) :: k.agent;
    KeysAreIds(rt);
    forall a ensures a in agents <==> a in Interrupted(rt.taskRows) {
      if a in Interrupted(rt.taskRows) {
        var x :| x in rt.taskRows && InFlight(rt.taskRows[x].status) && rt.taskRows[x].agent == a;
        var k := TaskNamed(rt.tasks, x);
        assert TaskShownIn(rt.taskRows, rt.projection.tasks, k);
      }
      if a in agents {
        var k :| k in rt.tasks && InFlight(k.status) && k.agent == a;
        assert TaskShownIn(rt.taskRows, rt.projection.tasks, k);
        assert InFlight(rt.taskRows[k.id].status);
      }
    }
  }

  /** One agent's turn when a run is taken up again. */
  method RestartOne(rt: Runtime, i: nat, interrupted: set<Id>, root: Agent, ghost t: Tree)
    requires rt.Synced() && i < |rt.agents| && root in rt.agents
    requires rt.agentRows == RestartedAmong(t, Ids(rt.agents[..i]), interrupted, root.id)
    modifies rt.agents`status, rt.agents`output, rt`agentRows, rt`log, rt`projection
    ensures rt.Synced() && rt.agentRows == RestartedAmong(t, Ids(rt.agents[..i + 1]), interrupted, root.id)
  {
    hide TreeOf, TasksOf, DistinctAgents, DistinctTasks, Ids, TaskIds, Project, Fold;
    var a := rt.agents[i];
    assert ShownIn(rt.agentRows, rt.projection.agents, a);
    OneMoreId(rt.agents, i);
    RestartedOneMore(t, Ids(rt.agents[..i]), a.id, interrupted, root.id, rt.agentRows);
    if a.id in interrupted {
      SetAgentAfresh(rt, a, Created);
    } else if a.status == Paused {
      SetAgentAfresh(rt, a, if a.id == root.id then Running else Created);
    }
  }

  method SetAgentAfresh(rt: Runtime, a: Agent, to: AgentStatus)
    requires rt.Synced() && a in rt.agents
    modifies a`status, a`output, rt`agentRows, rt`log, rt`projection
    ensures rt.Synced()
    ensures rt.agentRows == old(rt.agentRows)[a.id := old(a.Row()).(status := to, output := None)]
  {
    hide TreeOf, TasksOf, DistinctAgents, DistinctTasks, Ids, TaskIds, Project, Fold;
    SetAgentWork(rt, a, to, None);
  }

  method RestartAgents(rt: Runtime, interrupted: set<Id>, root: Agent)
    requires rt.Synced() && root in rt.agents
    modifies rt.agents`status, rt.agents`output, rt`agentRows, rt`log, rt`projection
    ensures rt.Synced()
    ensures rt.agentRows == RestartedAmong(old(rt.agentRows), old(rt.agentRows).Keys, interrupted, root.id)
  {
    hide TreeOf, TasksOf, DistinctAgents, DistinctTasks, TaskIds, Project, Fold;
    ghost var t := rt.agentRows;
    KeysAreIds(rt);
    for i := 0 to |rt.agents|
      invariant rt.Synced() && rt.agentRows == RestartedAmong(t, Ids(rt.agents[..i]), interrupted, root.id)
    {
      RestartOne(rt, i, interrupted, root, t);
    }
    assert rt.agents[..|rt.agents|] == rt.agents;
  }

  method RestartAll(rt: Runtime, root: Agent)
    requires rt.Synced() && root in rt.agents
    modifies rt.tasks`status, rt.agents`status, rt.agents`output, rt`taskRows, rt`agentRows, rt`log, rt`projection
    ensures rt.Synced() && rt.taskRows == Closed(old(rt.taskRows), None, TStopped)
    ensures rt.agentRows == RootRuns(RestartedAmong(old(rt.agentRows), old(rt.agentRows).Keys,
                                                    Interrupted(old(rt.taskRows)), root.id), root.id)
  {
    hide TreeOf, TasksOf, DistinctAgents, DistinctTasks, Ids, TaskIds, Project, Fold;
    var interrupted := InterruptedAgents(rt);
    CloseTasks(rt, None, TStopped);
    RestartAgents(rt, interrupted, root);
    RunRoot(rt, root);
  }

  method RunRoot(rt: Runtime, root: Agent)
    requires rt.Synced() && root in rt.agents
    modifies root`status, rt`agentRows, rt`log, rt`projection
    ensures rt.Synced() && rt.agentRows == RootRuns(old(rt.agentRows), root.id)
  {
    hide TreeOf, TasksOf, DistinctAgents, DistinctTasks, Ids, TaskIds, Project, Fold;
    assert ShownIn(rt.agentRows, rt.projection.agents, root);
    if root.status == Created || root.status == Running || root.status == Blocked {
      SetAgent(rt, root, Running);
    }
  }

  /** Changes a task and its agent together: the task's row is saved first and its event logged last. */
  method WorkOn(rt: Runtime, k: Task, taskTo: TaskStatus, taskOutput: Option<string>,
                a: Agent, to: AgentStatus, output: Option<string>)
    requires rt.Synced() && k in rt.tasks && a in rt.agents
    modifies k`status, k`output, a`status, a`output, rt`taskRows, rt`agentRows, rt`log, rt`projection
    ensures rt.Synced()
    ensures rt.taskRows == old(rt.taskRows)[k.id := old(k.Row()).(status := taskTo, output := taskOutput)]
    ensures rt.agentRows == old(rt.agentRows)[a.id := old(a.Row()).(status := to, output := output)]
  {
    hide TreeOf, TasksOf, DistinctAgents, DistinctTasks, Ids, TaskIds, Project, Fold;
    SaveTaskWork(rt, k, taskTo, taskOutput);
    SetAgentWork(rt, a, to, output);
    LogTask(rt, k);
  }

  /** The task's row is saved; only its event is outstanding. */
  ghost predicate AllButLogged(rt: Runtime, k: Task)
    reads rt, rt.tasks, k
  {
    TaskBooksOf(rt.tasks, rt.taskRows, rt.projection.tasks[k.id := DumpTask(k.Row())], {})
  }

  method SaveTaskWork(rt: Runtime, k: Task, to: TaskStatus, output: Option<string>)
    requires rt.Synced() && k in rt.tasks
    modifies k`status, k`output, rt`taskRows
    ensures rt.LogBooks() && rt.AgentBooks({}) && AllButLogged(rt, k)
    ensures rt.taskRows == old(rt.taskRows)[k.id := old(k.Row()).(status := to, output := output)]
    ensures k.Row() == old(k.Row()).(status := to, output := output)
  {
    hide TreeOf, TasksOf, DistinctAgents, DistinctTasks, Ids, TaskIds, Project, Fold;
    k.output := output;
    k.status := to;
    assert rt.TaskBooks({k.id});
    assert {} + {k.id} == {k.id};
    TaskBooksSettled(rt.tasks, rt.taskRows, rt.projection.tasks, {}, k);
    rt.SaveTask(k);
  }

  method LogTask(rt: Runtime, k: Task)
    requires rt.LogBooks() && rt.AgentBooks({}) && AllButLogged(rt, k)
    modifies rt`log, rt`projection
    ensures rt.Synced()
  {
    hide TreeOf, TasksOf, DistinctAgents, DistinctTasks, Ids, TaskIds, Project;
    rt.Emit(TaskChanged(k.id, k.status, DumpTask(k.Row())));
  }

  method StopAgentWork(rt: Runtime, a: Agent)
    requires rt.Synced() && a in rt.agents && a.status !in {Completed, Failed, Stopped}
    modifies rt.tasks`status, a`status, rt`taskRows, rt`agentRows, rt`log, rt`projection
    ensures rt.Synced() && rt.taskRows == Closed(old(rt.taskRows), Some(a.id), TStopped)
    ensures rt.agentRows == old(rt.agentRows)[a.id := old(a.Row()).(status := Stopped)]
  {
    hide TreeOf, TasksOf, DistinctAgents, DistinctTasks, Ids, TaskIds, Project, Fold;
    CloseTasks(rt, Some(a.id), TStopped);
    if a.status in {Created, Running, Blocked, Paused} {
      SetAgent(rt, a, Stopped);
    }
    LogKilled(rt, a);
  }

  /** The kill event repeats the role and status already logged. */
  method LogKilled(rt: Runtime, a: Agent)
    requires rt.Synced() && a in rt.agents && a.status == Stopped
    modifies rt`log, rt`projection
    ensures rt.Synced()
  {
    hide TreeOf, TasksOf, DistinctAgents, DistinctTasks, Ids, TaskIds, Project;
    assert ShownIn(rt.agentRows, rt.projection.agents, a);
    assert PutAgent(rt.projection, a.id, NoFields.(role := Given(a.role), status := Given(Stopped))).agents
           == rt.projection.agents;
    rt.EmitIdle(AgentKilled(a.id, a.role, Stopped));
  }
}
