/** Closing unfinished work in place: the loops over tasks and agents that every pause, stop, kill and
    mission end runs (app/runtime.py). */
module Closing {
  import opened Base
  import opened OrgTree
  import opened Events
  import opened Runtimes
  import opened OrgChanges

  /** The tasks in flight, of one agent or of all, are closed to status `to`. */
  predicate Closes(row: TaskRow, agent: Option<Id>) {
    InFlight(row.status) && (agent.None? || agent.value == row.agent)
  }

  ghost function ClosedAmong(t: TaskTable, ids: set<Id>, agent: Option<Id>, to: TaskStatus): TaskTable {
    map x | x in t :: if x in ids && Closes(t[x], agent) then t[x].(status := to) else t[x]
  }

  ghost function Closed(t: TaskTable, agent: Option<Id>, to: TaskStatus): TaskTable {
    ClosedAmong(t, t.Keys, agent, to)
  }

  /** The agents whose status is in `from` are given status `to`. */
  ghost function ShutAmong(t: Tree, ids: set<Id>, from: set<AgentStatus>, to: AgentStatus): Tree {
    map x | x in t :: if x in ids && t[x].status in from then t[x].(status := to) else t[x]
  }

  ghost function Shut(t: Tree, from: set<AgentStatus>, to: AgentStatus): Tree {
    ShutAmong(t, t.Keys, from, to)
  }

  lemma ClosedOneMore(t: TaskTable, ids: set<Id>, x: Id, agent: Option<Id>, to: TaskStatus, now: TaskTable)
    requires x in t && x !in ids && now == ClosedAmong(t, ids, agent, to)
    ensures now[x] == t[x]
    ensures ClosedAmong(t, ids + {x}, agent, to) == if Closes(t[x], agent) then now[x := t[x].(status := to)] else now
  {
  }

  lemma ShutOneMore(t: Tree, ids: set<Id>, x: Id, from: set<AgentStatus>, to: AgentStatus, now: Tree)
    requires x in t && x !in ids && now == ShutAmong(t, ids, from, to)
    ensures now[x] == t[x]
    ensures ShutAmong(t, ids + {x}, from, to) == if t[x].status in from then now[x := t[x].(status := to)] else now
  {
  }

  /** Exactly the pending and running tasks, of one agent or of all, get the status `to`. */
  ghost predicate TasksClosed(t: TaskTable, whose: Option<Id>, to: TaskStatus, t': TaskTable) {
    && t'.Keys == t.Keys
    && forall x :: x in t ==>
         t'[x] == if t[x].status in {TPending, TRunning} && (whose == None || whose == Some(t[x].agent))
                  then t[x].(status := to) else t[x]
  }

  /** Exactly the agents with a status in `from` get the status `to`. */
  ghost predicate AgentsShut(t: Tree, from: set<AgentStatus>, to: AgentStatus, t': Tree) {
    && t'.Keys == t.Keys
    && forall a :: a in t ==> t'[a] == if t[a].status in from then t[a].(status := to) else t[a]
  }

  lemma ClosedIsClosed(t: TaskTable, whose: Option<Id>, to: TaskStatus)
    ensures TasksClosed(t, whose, to, Closed(t, whose, to))
    ensures ClosedAmong(t, TaskIds([]), whose, to) == t && ClosedAmong(t, t.Keys, whose, to) == Closed(t, whose, to)
  {
  }

  lemma ShutIsShut(t: Tree, from: set<AgentStatus>, to: AgentStatus)
    ensures AgentsShut(t, from, to, Shut(t, from, to))
    ensures ShutAmong(t, Ids([]), from, to) == t && ShutAmong(t, t.Keys, from, to) == Shut(t, from, to)
  {
  }

  /** Saves and logs one task as it stands, once its status has changed. */
  method PublishTask(rt: Runtime, k: Task)
    requires rt.LogBooks() && rt.TaskBooks({k.id}) && rt.AgentBooks({}) && k in rt.tasks
    modifies rt`taskRows, rt`log, rt`projection
    ensures rt.Synced() && rt.taskRows == old(rt.taskRows)[k.id := k.Row()]
  {
    hide TreeOf, TasksOf, DistinctAgents, DistinctTasks, Ids, TaskIds, Project;
    assert {} + {k.id} == {k.id};
    TaskBooksSettled(rt.tasks, rt.taskRows, rt.projection.tasks, {}, k);
    rt.SaveTask(k);
    rt.Emit(TaskChanged(k.id, k.status, DumpTask(k.Row())));
  }

  method SetTaskStatus(rt: Runtime, k: Task, to: TaskStatus)
    requires rt.Synced() && k in rt.tasks
    modifies k`status, rt`taskRows, rt`log, rt`projection
    ensures rt.Synced() && rt.taskRows == old(rt.taskRows)[k.id := old(k.Row()).(status := to)]
  {
    hide TreeOf, TasksOf, DistinctAgents, DistinctTasks, Ids, TaskIds, Project, Fold;
    k.status := to;
    assert rt.TaskBooks({k.id});
    PublishTask(rt, k);
  }

  /** One turn of the closing loop. */
  method CloseOne(rt: Runtime, i: nat, agent: Option<Id>, to: TaskStatus, ghost t: TaskTable)
    requires rt.Synced() && i < |rt.tasks| && rt.taskRows == ClosedAmong(t, TaskIds(rt.tasks[..i]), agent, to)
    modifies rt.tasks`status, rt`taskRows, rt`log, rt`projection
    ensures rt.Synced() && rt.taskRows == ClosedAmong(t, TaskIds(rt.tasks[..i + 1]), agent, to)
  {
    hide TreeOf, TasksOf, DistinctAgents, DistinctTasks, Ids, TaskIds, Project, Fold;
    var k := rt.tasks[i];
    assert TaskShownIn(rt.taskRows, rt.projection.tasks, k);
    OneMoreTaskId(rt.tasks, i);
    ClosedOneMore(t, TaskIds(rt.tasks[..i]), k.id, agent, to, rt.taskRows);
    if Closes(k.Row(), agent) {
      SetTaskStatus(rt, k, to);
    }
  }

  lemma KeysAreIds(rt: Runtime)
    requires rt.Synced()
    ensures rt.taskRows.Keys == TaskIds(rt.tasks) && rt.agentRows.Keys == Ids(rt.agents)
  {
    BooksAreRows(rt.agents, rt.agentRows, rt.projection.agents);
    TaskBooksAreRows(rt.tasks, rt.taskRows, rt.projection.tasks);
  }

  /** Closes every task in flight, or every one of one agent's, to status `to`. */
  method CloseTasks(rt: Runtime, agent: Option<Id>, to: TaskStatus)
    requires rt.Synced()
    modifies rt.tasks`status, rt`taskRows, rt`log, rt`projection
    ensures rt.Synced() && rt.taskRows == Closed(old(rt.taskRows), agent, to)
    ensures TasksClosed(old(rt.taskRows), agent, to, rt.taskRows)
  {
    hide TreeOf, TasksOf, DistinctAgents, DistinctTasks, Ids, TaskIds, Project, Fold;
    hide TasksClosed, Closed, ClosedAmong;
    ghost var t := rt.taskRows;
    ClosedIsClosed(t, agent, to);
    KeysAreIds(rt);
    assert rt.tasks[..0] == [];
    for i := 0 to |rt.tasks|
      invariant rt.Synced() && rt.taskRows == ClosedAmong(t, TaskIds(rt.tasks[..i]), agent, to)
    {
      CloseOne(rt, i, agent, to, t);
    }
    assert rt.tasks[..|rt.tasks|] == rt.tasks;
  }

  method SetAgent(rt: Runtime, a: Agent, to: AgentStatus)
    requires rt.Synced() && a in rt.agents
    modifies a`status, rt`agentRows, rt`log, rt`projection
    ensures rt.Synced() && rt.agentRows == old(rt.agentRows)[a.id := old(a.Row()).(status := to)]
  {
    hide TreeOf, TasksOf, DistinctAgents, DistinctTasks, Ids, TaskIds, Project, Fold;
    BooksAreRows(rt.agents, rt.agentRows, rt.projection.agents);
    assert {} + {a.id} == {a.id};
    rt.SetAgentStatus(a, to, {});
    BooksAreRows(rt.agents, rt.agentRows, rt.projection.agents);
  }

  method ShutOne(rt: Runtime, i: nat, from: set<AgentStatus>, to: AgentStatus, ghost t: Tree)
    requires rt.Synced() && i < |rt.agents| && rt.agentRows == ShutAmong(t, Ids(rt.agents[..i]), from, to)
    modifies rt.agents`status, rt`agentRows, rt`log, rt`projection
    ensures rt.Synced() && rt.agentRows == ShutAmong(t, Ids(rt.agents[..i + 1]), from, to)
  {
    hide TreeOf, TasksOf, DistinctAgents, DistinctTasks, Ids, TaskIds, Project, Fold;
    var a := rt.agents[i];
    assert ShownIn(rt.agentRows, rt.projection.agents, a);
    OneMoreId(rt.agents, i);
    ShutOneMore(t, Ids(rt.agents[..i]), a.id, from, to, rt.agentRows);
    if a.status in from {
      SetAgent(rt, a, to);
    }
  }

  /** Gives every agent whose status is in `from` the status `to`. */
  method ShutAgents(rt: Runtime, from: set<AgentStatus>, to: AgentStatus)
    requires rt.Synced()
    modifies rt.agents`status, rt`agentRows, rt`log, rt`projection
    ensures rt.Synced() && rt.agentRows == Shut(old(rt.agentRows), from, to)
    ensures AgentsShut(old(rt.agentRows), from, to, rt.agentRows)
  {
    hide TreeOf, TasksOf, DistinctAgents, DistinctTasks, Ids, TaskIds, Project, Fold;
    hide AgentsShut, Shut, ShutAmong;
    ghost var t := rt.agentRows;
    ShutIsShut(t, from, to);
    KeysAreIds(rt);
    assert rt.agents[..0] == [];
    for i := 0 to |rt.agents|
      invariant rt.Synced() && rt.agentRows == ShutAmong(t, Ids(rt.agents[..i]), from, to)
    {
      ShutOne(rt, i, from, to, t);
    }
    assert rt.agents[..|rt.agents|] == rt.agents;
  }
}
