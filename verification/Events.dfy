/** The mission event log and the fold that rebuilds agents and tasks from it (app/store.py,
    app/events.py).  A JSON payload is a record of fields that may be absent. */
module Events {
  import opened Base
  import opened OrgTree

  datatype TaskStatus = TPending | TRunning | TCompleted | TFailed | TStopped | TBlocked

  datatype TaskRow = TaskRow(id: Id, agent: Id, status: TaskStatus, output: Option<string>)
  type TaskTable = map<Id, TaskRow>

  datatype Field<+T> = Absent | Given(v: T)

  datatype AgentPatch = AgentPatch(parent: Field<Option<Id>>, role: Field<string>, skills: Field<set<Capability>>,
                                   depth: Field<int>, status: Field<AgentStatus>, output: Field<Option<string>>)
  datatype TaskPatch = TaskPatch(agent: Field<Id>, status: Field<TaskStatus>, output: Field<Option<string>>)

  datatype Event =
    | AgentSpawned(id: Id, agent: AgentPatch)
    | AgentUpdated(id: Id, agent: AgentPatch)
    | AgentReparented(id: Id, parent: Option<Id>, depth: int)
    | AgentRetired(id: Id, status: AgentStatus)
    | AgentKilled(id: Id, role: string, status: AgentStatus)
    | TaskChanged(id: Id, to: TaskStatus, task: TaskPatch)
    | MissionStopped
    | MissionFailed
    | ToolStarted
    | OtherEvent(name: string)

  const NoFields := AgentPatch(Absent, Absent, Absent, Absent, Absent, Absent)
  const NoTaskFields := TaskPatch(Absent, Absent, Absent)

  function Pick<T>(before: Field<T>, after: Field<T>): Field<T> {
    if after.Given? then after else before
  }

  /** `{**before, **after}` */
  function Overlay(before: AgentPatch, after: AgentPatch): AgentPatch {
    AgentPatch(Pick(before.parent, after.parent), Pick(before.role, after.role),
               Pick(before.skills, after.skills), Pick(before.depth, after.depth),
               Pick(before.status, after.status), Pick(before.output, after.output))
  }

  function OverlayTask(before: TaskPatch, after: TaskPatch): TaskPatch {
    TaskPatch(Pick(before.agent, after.agent), Pick(before.status, after.status), Pick(before.output, after.output))
  }

  /** `keyError` records that the fold read a status that was never given. */
  datatype Projection = Projection(agents: map<Id, AgentPatch>, tasks: map<Id, TaskPatch>, keyError: bool)

  function AgentAt(p: Projection, id: Id): AgentPatch {
    if id in p.agents then p.agents[id] else NoFields
  }

  function TaskAt(p: Projection, id: Id): TaskPatch {
    if id in p.tasks then p.tasks[id] else NoTaskFields
  }

  function PutAgent(p: Projection, id: Id, patch: AgentPatch): Projection {
    p.(agents := p.agents[id := Overlay(AgentAt(p, id), patch)])
  }

  /** The end of a mission closes agents that were still created or running. */
  function CloseOpen(p: Projection, to: AgentStatus): Projection {
    Projection(
      map x | x in p.agents ::
        if p.agents[x].status in {Given(AgentStatus.Created), Given(AgentStatus.Running)}
        then p.agents[x].(status := Given(to)) else p.agents[x],
      p.tasks,
      p.keyError || exists x :: x in p.agents && p.agents[x].status == Absent)
  }

  ghost function Fold(p: Projection, e: Event): Projection {
    match e
    case AgentSpawned(id, agent) => PutAgent(p, id, agent)
    case AgentUpdated(id, agent) => PutAgent(p, id, agent)
    case AgentReparented(id, parent, depth) =>
      PutAgent(p, id, NoFields.(parent := Given(parent), depth := Given(depth)))
    case AgentRetired(id, status) => PutAgent(p, id, NoFields.(status := Given(status)))
    case AgentKilled(id, role, status) => PutAgent(p, id, NoFields.(role := Given(role), status := Given(status)))
    case TaskChanged(id, to, task) =>
      p.(tasks := p.tasks[id := OverlayTask(TaskAt(p, id), task).(status := Given(to))])
    case MissionStopped => CloseOpen(p, AgentStatus.Stopped)
    case MissionFailed => CloseOpen(p, AgentStatus.Failed)
    case _ => p
  }

  ghost function Project(log: seq<Event>): Projection {
    if log == [] then Projection(map[], map[], false)
    else Fold(Project(log[..|log| - 1]), log[|log| - 1])
  }

  lemma ProjectAppend(log: seq<Event>, e: Event)
    ensures Project(log + [e]) == Fold(Project(log), e)
  {
    assert (log + [e])[..|log|] == log;
  }

  /** The full payload a row is dumped as. */
  function Dump(row: AgentRow): AgentPatch {
    AgentPatch(Given(row.parent), Given(row.role), Given(row.skills), Given(row.depth), Given(row.status),
               Given(row.output))
  }

  function DumpTask(row: TaskRow): TaskPatch {
    TaskPatch(Given(row.agent), Given(row.status), Given(row.output))
  }

  function DumpAgents(rows: Tree): map<Id, AgentPatch> {
    map x | x in rows :: Dump(rows[x])
  }

  function DumpTasks(rows: TaskTable): map<Id, TaskPatch> {
    map x | x in rows :: DumpTask(rows[x])
  }

  /** The log rebuilds exactly the saved rows. */
  ghost predicate InSync(rows: Tree, tasks: TaskTable, log: seq<Event>) {
    Project(log) == Projection(DumpAgents(rows), DumpTasks(tasks), false)
  }

  /** Recovery from the rows that are left, filling the gaps from the log. */
  ghost function Recover(rows: Tree, tasks: TaskTable, log: seq<Event>): (map<Id, AgentPatch>, map<Id, TaskPatch>) {
    var p := Project(log);
    (p.agents + DumpAgents(rows), p.tasks + DumpTasks(tasks))
  }

  /** The entry shows every field of the agent's row. */
  predicate Shows(entry: AgentPatch, row: AgentRow) {
    && entry.parent == Given(row.parent) && entry.role == Given(row.role) && entry.skills == Given(row.skills)
    && entry.depth == Given(row.depth) && entry.status == Given(row.status) && entry.output == Given(row.output)
  }

  predicate ShowsTask(entry: TaskPatch, row: TaskRow) {
    entry.agent == Given(row.agent) && entry.status == Given(row.status) && entry.output == Given(row.output)
  }

  /** Whatever saved rows are lost, the log supplies them unchanged. */
  lemma RecoveryLosesNothing(rows: Tree, tasks: TaskTable, log: seq<Event>, keptAgents: set<Id>, keptTasks: set<Id>)
    requires InSync(rows, tasks, log)
    ensures var (agents', tasks') := Recover(map x | x in rows && x in keptAgents :: rows[x],
                                             map x | x in tasks && x in keptTasks :: tasks[x], log);
            && agents'.Keys == rows.Keys && (forall x :: x in rows ==> Shows(agents'[x], rows[x]))
            && tasks'.Keys == tasks.Keys && (forall x :: x in tasks ==> ShowsTask(tasks'[x], tasks[x]))
  {
    var some := map x | x in rows && x in keptAgents :: rows[x];
    var someTasks := map x | x in tasks && x in keptTasks :: tasks[x];
    var p := Project(log);
    assert p.agents + DumpAgents(some) == DumpAgents(rows);
    assert p.tasks + DumpTasks(someTasks) == DumpTasks(tasks);
  }

  /** An event about one agent changes in the replay what it names, and nothing else. */
  lemma EventsShowChanges(p: Projection, row: AgentRow, parent: Option<Id>, depth: int, role: string,
        status: AgentStatus)
    requires row.id in p.agents && Shows(p.agents[row.id], row)
    ensures var p' := Fold(p, AgentReparented(row.id, parent, depth));
            Shows(p'.agents[row.id], row.(parent := parent, depth := depth)) && OnlyAgent(p, row.id, p')
    ensures var p' := Fold(p, AgentRetired(row.id, status));
            Shows(p'.agents[row.id], row.(status := status)) && OnlyAgent(p, row.id, p')
    ensures var p' := Fold(p, AgentKilled(row.id, role, status));
            Shows(p'.agents[row.id], row.(role := role, status := status)) && OnlyAgent(p, row.id, p')
  {
  }

  /** A full entry replaces what the replay knew of the agent or task. */
  lemma EntriesReplace(p: Projection, row: AgentRow, task: TaskRow)
    ensures var p' := Fold(p, AgentSpawned(row.id, Dump(row)));
            Shows(p'.agents[row.id], row) && OnlyAgent(p, row.id, p')
    ensures Fold(p, AgentUpdated(row.id, Dump(row))) == Fold(p, AgentSpawned(row.id, Dump(row)))
    ensures var p' := Fold(p, TaskChanged(task.id, task.status, DumpTask(task)));
            && task.id in p'.tasks && ShowsTask(p'.tasks[task.id], task)
            && p' == p.(tasks := p.tasks[task.id := p'.tasks[task.id]])
  {
  }

  ghost predicate OnlyAgent(p: Projection, id: Id, p': Projection) {
    id in p'.agents && p' == p.(agents := p.agents[id := p'.agents[id]])
  }

  /** The end of a mission, replayed, stops or fails exactly the agents still created or running. */
  lemma EndsShowChanges(p: Projection, rows: Tree, stopped: bool)
    requires p.agents.Keys == rows.Keys && forall x :: x in rows ==> Shows(p.agents[x], rows[x])
    ensures var p' := Fold(p, if stopped then MissionStopped else MissionFailed);
            && p'.agents.Keys == rows.Keys && p'.tasks == p.tasks && p'.keyError == p.keyError
            && forall x :: x in rows ==>
                 Shows(p'.agents[x], if rows[x].status in {AgentStatus.Created, AgentStatus.Running}
                                     then rows[x].(status := if stopped then AgentStatus.Stopped
                                                             else AgentStatus.Failed)
                                     else rows[x])
  {
  }
}
