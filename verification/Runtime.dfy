/** The running mission: agents and tasks changed in place, each change saved as a row and logged as an
    event (app/runtime.py, app/store.py). */
module Runtimes {
  import opened Base
  import opened OrgTree
  import opened Events

  datatype PolicyError =
    | InvalidOutput | PolicyRefusal | ResourceExhausted | CapabilityMismatch
    | AuthorizationRequired | VerificationFailure

  datatype Limits = Limits(maxDepth: int, maxAgents: int, maxTasks: int)

  const CONTROLLER_ROLE := "mission_controller"

  /** The row of an agent just created. */
  function NewRow(id: Id, role: string, skills: set<Capability>, parent: Option<Id>, depth: int): AgentRow {
    AgentRow(id, parent, role, skills, depth, AgentStatus.Created, None)
  }

  class Agent {
    const id: Id
    const role: string
    const skills: set<Capability>
    var parent: Option<Id>
    var depth: int
    var status: AgentStatus
    var output: Option<string>

    constructor (id: Id, role: string, skills: set<Capability>, parent: Option<Id>, depth: int)
      ensures this.id == id && Row() == NewRow(id, role, skills, parent, depth)
    {
      this.id, this.role, this.skills, this.parent, this.depth := id, role, skills, parent, depth;
      status, output := AgentStatus.Created, None;
    }

    function Row(): AgentRow
      reads this
    {
      AgentRow(id, parent, role, skills, depth, status, output)
    }
  }

  class Task {
    const id: Id
    const agent: Id
    var status: TaskStatus
    var output: Option<string>

    constructor (id: Id, agent: Id)
      ensures this.id == id && this.agent == agent && status == TPending && output == None
    {
      this.id, this.agent, this.status, this.output := id, agent, TPending, None;
    }

    function Row(): TaskRow
      reads this
    {
      TaskRow(id, agent, status, output)
    }
  }

  ghost function Ids(agents: seq<Agent>): (ids: set<Id>)
    ensures forall a :: a in agents ==> a.id in ids
  {
    if agents == [] then {}
    else
      var n := |agents| - 1;
      assert agents == agents[..n] + [agents[n]];
      Ids(agents[..n]) + {agents[n].id}
  }

  ghost function TaskIds(tasks: seq<Task>): (ids: set<Id>)
    ensures forall t :: t in tasks ==> t.id in ids
  {
    if tasks == [] then {}
    else
      var n := |tasks| - 1;
      assert tasks == tasks[..n] + [tasks[n]];
      TaskIds(tasks[..n]) + {tasks[n].id}
  }

  lemma {:induction false} AgentNamed(agents: seq<Agent>, x: Id) returns (a: Agent)
    requires x in Ids(agents)
    ensures a in agents && a.id == x
  {
    var n := |agents| - 1;
    if agents[n].id == x {
      a := agents[n];
    } else {
      a := AgentNamed(agents[..n], x);
    }
  }

  lemma {:induction false} TaskNamed(tasks: seq<Task>, x: Id) returns (t: Task)
    requires x in TaskIds(tasks)
    ensures t in tasks && t.id == x
  {
    var n := |tasks| - 1;
    if tasks[n].id == x {
      t := tasks[n];
    } else {
      t := TaskNamed(tasks[..n], x);
    }
  }

  /** No two entries of the list share an id. */
  ghost predicate DistinctAgents(agents: seq<Agent>) {
    agents == [] || (var n := |agents| - 1; agents[n].id !in Ids(agents[..n]) && DistinctAgents(agents[..n]))
  }

  ghost predicate DistinctTasks(tasks: seq<Task>) {
    tasks == [] || (var n := |tasks| - 1; tasks[n].id !in TaskIds(tasks[..n]) && DistinctTasks(tasks[..n]))
  }

  lemma {:induction false} AgentsDiffer(agents: seq<Agent>, i: nat, k: nat)
    requires DistinctAgents(agents) && i < |agents| && k < |agents|
    ensures agents[i].id == agents[k].id ==> i == k
  {
    var n := |agents| - 1;
    if i < n && k < n {
      AgentsDiffer(agents[..n], i, k);
    } else if i < n {
      assert agents[i] in agents[..n];
    } else if k < n {
      assert agents[k] in agents[..n];
    }
  }

  lemma {:induction false} TasksDiffer(tasks: seq<Task>, i: nat, k: nat)
    requires DistinctTasks(tasks) && i < |tasks| && k < |tasks|
    ensures tasks[i].id == tasks[k].id ==> i == k
  {
    var n := |tasks| - 1;
    if i < n && k < n {
      TasksDiffer(tasks[..n], i, k);
    } else if i < n {
      assert tasks[i] in tasks[..n];
    } else if k < n {
      assert tasks[k] in tasks[..n];
    }
  }

  lemma SameAgent(agents: seq<Agent>, a: Agent, b: Agent)
    requires DistinctAgents(agents) && a in agents && b in agents
    ensures a.id == b.id ==> a == b
  {
    var m, n :| 0 <= m < |agents| && 0 <= n < |agents| && agents[m] == a && agents[n] == b;
    AgentsDiffer(agents, m, n);
  }

  lemma SameTask(tasks: seq<Task>, a: Task, b: Task)
    requires DistinctTasks(tasks) && a in tasks && b in tasks
    ensures a.id == b.id ==> a == b
  {
    var m, n :| 0 <= m < |tasks| && 0 <= n < |tasks| && tasks[m] == a && tasks[n] == b;
    TasksDiffer(tasks, m, n);
  }

  lemma OneMoreTaskId(tasks: seq<Task>, i: nat)
    requires DistinctTasks(tasks) && i < |tasks|
    ensures TaskIds(tasks[..i + 1]) == TaskIds(tasks[..i]) + {tasks[i].id} && tasks[i].id !in TaskIds(tasks[..i])
  {
    assert tasks[..i + 1][..i] == tasks[..i];
    if tasks[i].id in TaskIds(tasks[..i]) {
      var k := TaskNamed(tasks[..i], tasks[i].id);
      var n :| 0 <= n < i && tasks[..i][n] == k;
      TasksDiffer(tasks, i, n);
    }
  }

  lemma OneMoreId(agents: seq<Agent>, i: nat)
    requires DistinctAgents(agents) && i < |agents|
    ensures Ids(agents[..i + 1]) == Ids(agents[..i]) + {agents[i].id} && agents[i].id !in Ids(agents[..i])
  {
    assert agents[..i + 1][..i] == agents[..i];
    if agents[i].id in Ids(agents[..i]) {
      var a := AgentNamed(agents[..i], agents[i].id);
      var n :| 0 <= n < i && agents[..i][n] == a;
      AgentsDiffer(agents, i, n);
    }
  }

  /** The agents as a value. */
  ghost function TreeOf(agents: seq<Agent>): (t: Tree)
    requires DistinctAgents(agents)
    reads agents
    ensures t.Keys == Ids(agents)
    ensures forall a :: a in agents ==> a.id in t && t[a.id] == a.Row()
  {
    if agents == [] then map[]
    else
      var n := |agents| - 1;
      assert agents == agents[..n] + [agents[n]];
      assert forall a :: a in agents[..n] ==> a.id in Ids(agents[..n]);
      TreeOf(agents[..n])[agents[n].id := agents[n].Row()]
  }

  ghost function TasksOf(tasks: seq<Task>): (t: TaskTable)
    requires DistinctTasks(tasks)
    reads tasks
    ensures t.Keys == TaskIds(tasks)
    ensures forall k :: k in tasks ==> k.id in t && t[k.id] == k.Row()
  {
    if tasks == [] then map[]
    else
      var n := |tasks| - 1;
      assert tasks == tasks[..n] + [tasks[n]];
      assert forall k :: k in tasks[..n] ==> k.id in TaskIds(tasks[..n]);
      TasksOf(tasks[..n])[tasks[n].id := tasks[n].Row()]
  }

  /** If only `a` differs from the tree `t`, the agents are `t` with `a`'s row replaced. */
  lemma OneAgentChanged(agents: seq<Agent>, a: Agent, t: Tree)
    requires DistinctAgents(agents) && a in agents && t.Keys == Ids(agents)
    requires forall b :: b in agents && b != a ==> t[b.id] == b.Row()
    ensures TreeOf(agents) == t[a.id := a.Row()]
  {
    var now := TreeOf(agents);
    forall x | x in now ensures now[x] == t[a.id := a.Row()][x] {
      var b := AgentNamed(agents, x);
      SameAgent(agents, a, b);
    }
  }

  /** The agents that are not stopped. */
  function Live(agents: seq<Agent>): set<Agent>
    reads agents
  {
    set a | a in agents && a.status != AgentStatus.Stopped
  }

  predicate Offered(k: Capability, demo: bool) {
    match k
    case Unlisted(_) => false
    case ProjectWork => demo
    case Report => demo
    case _ => true
  }

  /** Does a spawn ask for a capability its mode does not offer? */
  predicate Unavailable(capabilities: set<Capability>, demo: bool) {
    exists k :: k in capabilities && !Offered(k, demo)
  }

  lemma UnavailableSpelled(capabilities: set<Capability>, demo: bool)
    ensures Unavailable(capabilities, demo) <==>
              exists k :: k in capabilities && (k.Unlisted? || (!demo && (k == ProjectWork || k == Report)))
  {
    forall k | k in capabilities
      ensures !Offered(k, demo) <==> k.Unlisted? || (!demo && (k == ProjectWork || k == Report))
    {
    }
  }

  /** The policy gate's answer to a spawn. */
  function SpawnRefusal(limits: Limits, depth: int, count: int, capabilities: set<Capability>, demo: bool)
    : Option<PolicyError>
  {
    if depth > limits.maxDepth || count >= limits.maxAgents then Some(ResourceExhausted)
    else if Unavailable(capabilities, demo) then Some(CapabilityMismatch)
    else None
  }

  /** Row and log entry both show agent `a` as it stands. */
  ghost predicate ShownIn(rows: Tree, logged: map<Id, AgentPatch>, a: Agent)
    reads a
  {
    a.id in rows && rows[a.id] == a.Row() && a.id in logged && logged[a.id] == Dump(a.Row())
  }

  ghost predicate TaskShownIn(rows: TaskTable, logged: map<Id, TaskPatch>, k: Task)
    reads k
  {
    k.id in rows && rows[k.id] == k.Row() && k.id in logged && logged[k.id] == DumpTask(k.Row())
  }

  /** No two agents share an id, neither table nor log knows a stranger, and every agent outside `late`
      is saved and logged as it stands. */
  ghost predicate BooksOf(agents: seq<Agent>, rows: Tree, logged: map<Id, AgentPatch>, late: set<Id>)
    reads agents
  {
    && DistinctAgents(agents) && rows.Keys <= Ids(agents) && logged.Keys <= Ids(agents)
    && forall a :: a in agents && a.id !in late ==> ShownIn(rows, logged, a)
  }

  ghost predicate TaskBooksOf(tasks: seq<Task>, rows: TaskTable, logged: map<Id, TaskPatch>, late: set<Id>)
    reads tasks
  {
    && DistinctTasks(tasks) && rows.Keys <= TaskIds(tasks) && logged.Keys <= TaskIds(tasks)
    && forall k :: k in tasks && k.id !in late ==> TaskShownIn(rows, logged, k)
  }

  /** Saving and logging `a` as it stands settles its entry. */
  lemma BooksSettled(agents: seq<Agent>, rows: Tree, logged: map<Id, AgentPatch>, late: set<Id>, a: Agent)
    requires BooksOf(agents, rows, logged, late + {a.id}) && a in agents
    ensures BooksOf(agents, rows[a.id := a.Row()], logged[a.id := Dump(a.Row())], late)
  {
    var rows', logged' := rows[a.id := a.Row()], logged[a.id := Dump(a.Row())];
    forall b | b in agents && b.id !in late ensures ShownIn(rows', logged', b) {
      SameAgent(agents, a, b);
    }
  }

  lemma TaskBooksSettled(tasks: seq<Task>, rows: TaskTable, logged: map<Id, TaskPatch>, late: set<Id>, k: Task)
    requires TaskBooksOf(tasks, rows, logged, late + {k.id}) && k in tasks
    ensures TaskBooksOf(tasks, rows[k.id := k.Row()], logged[k.id := DumpTask(k.Row())], late)
  {
    var rows', logged' := rows[k.id := k.Row()], logged[k.id := DumpTask(k.Row())];
    forall b | b in tasks && b.id !in late ensures TaskShownIn(rows', logged', b) {
      SameTask(tasks, k, b);
    }
  }

  /** A newcomer's entry is outstanding. */
  lemma BooksGrow(agents: seq<Agent>, rows: Tree, logged: map<Id, AgentPatch>, a: Agent)
    requires BooksOf(agents, rows, logged, {}) && a.id !in Ids(agents)
    ensures BooksOf(agents + [a], rows, logged, {a.id})
    ensures TreeOf(agents + [a]) == TreeOf(agents)[a.id := a.Row()]
  {
    assert (agents + [a])[..|agents|] == agents;
  }

  lemma TaskBooksGrow(tasks: seq<Task>, rows: TaskTable, logged: map<Id, TaskPatch>, k: Task)
    requires TaskBooksOf(tasks, rows, logged, {}) && k.id !in TaskIds(tasks)
    ensures TaskBooksOf(tasks + [k], rows, logged, {k.id})
    ensures TasksOf(tasks + [k]) == TasksOf(tasks)[k.id := k.Row()]
  {
    assert (tasks + [k])[..|tasks|] == tasks;
  }

  /** Settled books are the agents themselves. */
  lemma BooksAreRows(agents: seq<Agent>, rows: Tree, logged: map<Id, AgentPatch>)
    requires BooksOf(agents, rows, logged, {})
    ensures rows == TreeOf(agents) && logged == DumpAgents(rows)
  {
    forall x | x in Ids(agents)
      ensures x in rows && x in logged && rows[x] == TreeOf(agents)[x] && logged[x] == Dump(rows[x])
    {
      var a := AgentNamed(agents, x);
      assert ShownIn(rows, logged, a);
    }
  }

  lemma TaskBooksAreRows(tasks: seq<Task>, rows: TaskTable, logged: map<Id, TaskPatch>)
    requires TaskBooksOf(tasks, rows, logged, {})
    ensures rows == TasksOf(tasks) && logged == DumpTasks(rows)
  {
    forall x | x in TaskIds(tasks)
      ensures x in rows && x in logged && rows[x] == TasksOf(tasks)[x] && logged[x] == DumpTask(rows[x])
    {
      var k := TaskNamed(tasks, x);
      assert TaskShownIn(rows, logged, k);
    }
  }

  class Runtime {
    const limits: Limits
    const demo: bool
    var agents: seq<Agent>
    var tasks: seq<Task>
    var agentRows: Tree
    var taskRows: TaskTable
    var log: seq<Event>
    ghost var projection: Projection

    /** The saved row and the log both show agent `a` as it stands. */
    ghost predicate Shown(a: Agent)
      reads this, a
    {
      ShownIn(agentRows, projection.agents, a)
    }

    /** The tables and the log know these agents, and show them all as they stand except those in `late`. */
    ghost predicate AgentBooks(late: set<Id>)
      reads this, agents
    {
      BooksOf(agents, agentRows, projection.agents, late)
    }

    ghost predicate TaskBooks(late: set<Id>)
      reads this, tasks
    {
      TaskBooksOf(tasks, taskRows, projection.tasks, late)
    }

    /** The ghost projection is the fold of the log, and the fold never failed. */
    ghost predicate LogBooks()
      reads this
    {
      projection == Project(log) && !projection.keyError
    }

    /** Rows, log and objects all agree. */
    ghost predicate Synced()
      reads this, agents, tasks
    {
      LogBooks() && AgentBooks({}) && TaskBooks({})
    }

    /** Between operations the saved rows are the objects, and the log rebuilds them. */
    lemma SyncedMeansReplay()
      requires Synced()
      ensures agentRows == TreeOf(agents) && taskRows == TasksOf(tasks)
      ensures InSync(agentRows, taskRows, log)
    {
      BooksAreRows(agents, agentRows, projection.agents);
      TaskBooksAreRows(tasks, taskRows, projection.tasks);
    }

    constructor (limits: Limits, demo: bool)
      ensures Synced() && agents == [] && tasks == [] && this.limits == limits && this.demo == demo
    {
      this.limits, this.demo := limits, demo;
      agents, tasks, agentRows, taskRows, log := [], [], map[], map[], [];
      projection := Projection(map[], map[], false);
    }

    method Emit(e: Event)
      requires LogBooks()
      modifies this`log, this`projection
      ensures log == old(log) + [e] && projection == Fold(old(projection), e) == Project(log)
    {
      ProjectAppend(log, e);
      log := log + [e];
      projection := Fold(projection, e);
    }

    /** Logs an event that leaves the replay as it is. */
    method EmitIdle(e: Event)
      requires Synced() && Fold(projection, e) == projection
      modifies this`log, this`projection
      ensures Synced() && TreeOf(agents) == old(TreeOf(agents))
    {
      hide TreeOf, TasksOf, DistinctAgents, DistinctTasks, Ids, TaskIds, Project, Fold;
      Emit(e);
    }

    method SaveAgent(a: Agent)
      modifies this`agentRows
      ensures agentRows == old(agentRows)[a.id := a.Row()]
    {
      agentRows := agentRows[a.id := a.Row()];
    }

    method SaveTask(t: Task)
      modifies this`taskRows
      ensures taskRows == old(taskRows)[t.id := t.Row()]
    {
      taskRows := taskRows[t.id := t.Row()];
    }

    /** Saves one agent and logs it as it stands, as new or as updated. */
    method Publish(a: Agent, e: Event, ghost late: set<Id>)
      requires LogBooks() && AgentBooks(late + {a.id}) && a in agents
      requires e == AgentUpdated(a.id, Dump(a.Row())) || e == AgentSpawned(a.id, Dump(a.Row()))
      modifies this`agentRows, this`log, this`projection
      ensures LogBooks() && AgentBooks(late)
      ensures TreeOf(agents) == old(TreeOf(agents))
      ensures projection.tasks == old(projection.tasks)
      ensures log == old(log) + [e]
    {
      hide TreeOf, TasksOf, DistinctAgents, DistinctTasks, Ids, TaskIds, Project;
      BooksSettled(agents, agentRows, projection.agents, late, a);
      SaveAgent(a);
      Emit(e);
    }

    /** Sets, saves and logs one agent's status. */
    method SetAgentStatus(a: Agent, status: AgentStatus, ghost late: set<Id>)
      requires LogBooks() && AgentBooks(late + {a.id}) && a in agents
      modifies a`status, this`agentRows, this`log, this`projection
      ensures LogBooks() && AgentBooks(late) && a.status == status
      ensures TreeOf(agents) == old(TreeOf(agents))[a.id := old(a.Row()).(status := status)]
      ensures projection.tasks == old(projection.tasks)
      ensures log == old(log) + [AgentUpdated(a.id, Dump(a.Row()))]
    {
      hide TreeOf, TasksOf, DistinctAgents, DistinctTasks, Ids, TaskIds, Project, Fold;
      ghost var before := TreeOf(agents);
      a.status := status;
      assert AgentBooks(late + {a.id});
      OneAgentChanged(agents, a, before);
      Publish(a, AgentUpdated(a.id, Dump(a.Row())), late);
    }

    /** Appends a new agent, not yet saved or logged. */
    method Append(a: Agent)
      requires AgentBooks({}) && a.id !in Ids(agents)
      modifies this`agents
      ensures AgentBooks({a.id}) && agents == old(agents) + [a]
      ensures TreeOf(agents) == old(TreeOf(agents))[a.id := a.Row()]
    {
      hide TreeOf, TasksOf, DistinctAgents, DistinctTasks, Ids, TaskIds, Project, Fold;
      BooksGrow(agents, agentRows, projection.agents, a);
      agents := agents + [a];
    }

    /** Appends, saves and logs a new agent. */
    method Enlist(a: Agent)
      requires LogBooks() && AgentBooks({}) && a.id !in Ids(agents)
      modifies this`agents, this`agentRows, this`log, this`projection
      ensures LogBooks() && AgentBooks({}) && agents == old(agents) + [a]
      ensures TreeOf(agents) == old(TreeOf(agents))[a.id := a.Row()]
      ensures projection.tasks == old(projection.tasks)
      ensures log == old(log) + [AgentSpawned(a.id, Dump(a.Row()))]
    {
      hide TreeOf, TasksOf, DistinctAgents, DistinctTasks, Ids, TaskIds, Project, Fold;
      Append(a);
      assert {} + {a.id} == {a.id};
      Publish(a, AgentSpawned(a.id, Dump(a.Row())), {});
    }

    function IdOf(a: Option<Agent>): Option<Id> {
      if a.Some? then Some(a.value.id) else None
    }

    /** The level a child of `parent` stands at; a root stands at 0. */
    function ChildDepth(parent: Option<Agent>): int
      reads if parent.Some? then {parent.value} else {}
    {
      if parent.Some? then parent.value.depth + 1 else 0
    }

    /** Admits one agent under `parent`, or refuses. */
    method Spawn(role: string, parent: Option<Agent>, capabilities: set<Capability>, newId: Id)
      returns (r: Result<Agent, PolicyError>)
      requires LogBooks() && AgentBooks({}) && newId !in Ids(agents)
      requires parent.Some? ==> parent.value in agents
      modifies this`agents, this`agentRows, this`log, this`projection
      ensures LogBooks() && AgentBooks({}) && projection.tasks == old(projection.tasks)
      ensures var refusal := SpawnRefusal(limits, old(ChildDepth(parent)), old(|Live(agents)|), capabilities, demo);
              if refusal.Some? then
                r == Err(refusal.value) && agents == old(agents) && agentRows == old(agentRows) && log == old(log)
              else r.Ok?
      // Said of depth, number and capabilities themselves.
      ensures var depth := if parent.Some? then old(parent.value.depth) + 1 else 0;
              var live := old(set a | a in agents && a.status != AgentStatus.Stopped);
              if depth > limits.maxDepth || |live| >= limits.maxAgents then r == Err(ResourceExhausted)
              else if exists k :: k in capabilities && (k.Unlisted? || (!demo && (k == ProjectWork || k == Report)))
              then r == Err(CapabilityMismatch)
              else && r.Ok? && newId in TreeOf(agents)
                   && TreeOf(agents)[newId]
                      == AgentRow(newId, if parent.Some? then Some(parent.value.id) else None, role, capabilities,
                                  depth, AgentStatus.Created, None)
      ensures r.Ok? ==>
                && fresh(r.value) && r.value.id == newId && agents == old(agents) + [r.value]
                && TreeOf(agents)
                   == old(TreeOf(agents))[newId := NewRow(newId, role, capabilities, IdOf(parent),
                                                   old(ChildDepth(parent)))]
    {
      hide TreeOf, TasksOf, DistinctAgents, DistinctTasks, Ids, TaskIds, Project, Fold;
      UnavailableSpelled(capabilities, demo);
      assert Live(agents) == set a | a in agents && a.status != AgentStatus.Stopped;
      var depth := ChildDepth(parent);
      var refusal := SpawnRefusal(limits, depth, |Live(agents)|, capabilities, demo);
      if refusal.Some? {
        return Err(refusal.value);
      }
      var a := new Agent(newId, role, capabilities, IdOf(parent), depth);
      Enlist(a);
      r := Ok(a);
    }
  }
}
