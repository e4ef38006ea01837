/** Validating and applying organization changes on the running mission (app/org.py). */
module OrgApply {
  import opened Base
  import opened OrgTree
  import opened Events
  import opened Runtimes
  import opened Organization
  import opened Designer
  import opened OrgChanges
  import opened OrgLegality

  lemma OneMoreRow(t: Tree, row: AgentRow)
    requires row.id !in t
    ensures |LiveIds(t[row.id := row])| == |LiveIds(t)| + if row.status == Stopped then 0 else 1
  {
    var more := t[row.id := row];
    forall x ensures x in LiveIds(more) <==> x in LiveIds(t) || (x == row.id && row.status != Stopped) {
      assert x in more <==> x in t || x == row.id;
    }
    if row.status == Stopped {
      assert LiveIds(more) == LiveIds(t);
    } else {
      assert LiveIds(more) == LiveIds(t) + {row.id};
    }
  }

  lemma OneMoreAgent(rest: seq<Agent>, last: Agent)
    requires last !in rest
    ensures |Live(rest + [last])| == |Live(rest)| + if last.status == Stopped then 0 else 1
  {
    if last.status == Stopped {
      assert Live(rest + [last]) == Live(rest);
    } else {
      assert Live(rest + [last]) == Live(rest) + {last};
    }
  }

  /** Agents and their ids can be counted either way. */
  lemma {:induction false} LiveCount(agents: seq<Agent>)
    requires DistinctAgents(agents)
    ensures |Live(agents)| == |LiveIds(TreeOf(agents))|
  {
    if agents == [] {
      assert Live(agents) == {} && LiveIds(TreeOf(agents)) == {};
    } else {
      var n := |agents| - 1;
      LiveCount(agents[..n]);
      OneMoreRow(TreeOf(agents[..n]), agents[n].Row());
      assert agents[n] !in agents[..n];
      OneMoreAgent(agents[..n], agents[n]);
      assert agents == agents[..n] + [agents[n]];
    }
  }

  /** The first agent with the given id. */
  method Find(agents: seq<Agent>, id: Option<Id>) returns (found: Option<Agent>)
    ensures found.Some? ==> found.value in agents && id == Some(found.value.id)
    ensures found.None? ==> id.None? || id.value !in Ids(agents)
  {
    if id.None? {
      return None;
    }
    for i := 0 to |agents|
      invariant forall k :: 0 <= k < i ==> agents[k].id != id.value
    {
      if agents[i].id == id.value {
        return Some(agents[i]);
      }
    }
    if id.value in Ids(agents) {
      var a := AgentNamed(agents, id.value);
    }
    return None;
  }

  /** The agent without a parent, or else the first one with the controller role. */
  method Controller(agents: seq<Agent>) returns (found: Option<Agent>)
    ensures found.Some? ==> found.value in agents
    ensures (exists a :: a in agents && a.parent == None) ==> found.Some? && found.value.parent == None
  {
    for i := 0 to |agents|
      invariant forall k :: 0 <= k < i ==> agents[k].parent != None
    {
      if agents[i].parent == None {
        return Some(agents[i]);
      }
    }
    for i := 0 to |agents| {
      if agents[i].role == CONTROLLER_ROLE {
        return Some(agents[i]);
      }
    }
    return None;
  }

  /** In a rooted tree the controller is the root. */
  lemma ControllerIsRoot(agents: seq<Agent>, r: Id)
    requires DistinctAgents(agents) && Rooted(TreeOf(agents), r)
    ensures exists a :: a in agents && a.parent == None
    ensures forall a :: a in agents && a.parent == None ==> a.id == r
  {
    var t := TreeOf(agents);
    assert r in Ids(agents);
    var a := AgentNamed(agents, r);
    assert t[r] == a.Row();
    forall b | b in agents && b.parent == None ensures b.id == r {
      assert t[b.id] == b.Row();
    }
  }

  method ResolveParent(agents: seq<Agent>, parentId: Option<Id>, ghost c: OrgChange, ghost r: Id)
    returns (found: Result<Agent, PolicyError>)
    requires DistinctAgents(agents) && Rooted(TreeOf(agents), r) && parentId == c.parentId
    ensures found.Ok? <==> ParentOk(TreeOf(agents), c)
    ensures found.Ok? ==> found.value in agents && found.value.id == ParentId(c, r)
    ensures found.Err? ==> found.error == InvalidOutput
  {
    if parentId.None? {
      ControllerIsRoot(agents, r);
      var root := Controller(agents);
      return if root.None? then Err(InvalidOutput) else Ok(root.value);
    }
    var p := Find(agents, parentId);
    if p.None? {
      return Err(InvalidOutput);
    }
    if p.value.status == Stopped {
      return Err(InvalidOutput);
    }
    return Ok(p.value);
  }

  function InFlightOf(tasks: seq<Task>, a: Agent): (busy: bool)
    reads tasks
  {
    exists k :: k in tasks && k.agent == a.id && InFlight(k.status)
  }

  lemma IdleMeansNoneInFlight(agents: seq<Agent>, tasks: seq<Task>, a: Agent)
    requires DistinctAgents(agents) && DistinctTasks(tasks) && a in agents
    ensures Idle(TreeOf(agents), TasksOf(tasks), a.id) <==> a.status != Stopped && !InFlightOf(tasks, a)
  {
    var table := TasksOf(tasks);
    forall k | k in tasks ensures k.id in table && table[k.id] == k.Row() {}
    if !InFlightOf(tasks, a) {
      forall x | x in table && table[x].agent == a.id ensures !InFlight(table[x].status) {
        var k := TaskNamed(tasks, x);
      }
    }
  }

  /** Refuses to retire a stopped or busy agent, and, unless it is being replaced, one that still has
      live descendants. */
  method ValidateRetire(target: Agent, agents: seq<Agent>, tasks: seq<Task>, allowLiveChildren: bool, ghost limit: int)
    returns (refusal: Option<PolicyError>)
    requires DistinctAgents(agents) && DistinctTasks(tasks) && target in agents
    requires Levelled(TreeOf(agents)) && Within(TreeOf(agents), limit)
    ensures !allowLiveChildren ==> refusal == RetireVerdict(TreeOf(agents), TasksOf(tasks), target.id)
    ensures allowLiveChildren ==>
              refusal == if Idle(TreeOf(agents), TasksOf(tasks), target.id) then None else Some(InvalidOutput)
    ensures refusal == None <==>
              && FreeToGo(TreeOf(agents), TasksOf(tasks), target.id)
              && (allowLiveChildren
                  || forall x :: x in TreeOf(agents) && Under(TreeOf(agents), x, target.id) ==>
                       TreeOf(agents)[x].status == Stopped)
  {
    hide TreeOf, TasksOf, DistinctAgents, DistinctTasks, Ids, TaskIds, Project, Fold;
    IdleMeansNoneInFlight(agents, tasks, target);
    if target.status == Stopped {
      return Some(InvalidOutput);
    }
    if InFlightOf(tasks, target) {
      return Some(InvalidOutput);
    }
    if allowLiveChildren {
      return None;
    }
    var below := Descendants(agents, target, limit);
    LeftoverMeansLiveBelow(agents, target, below);
    if exists a :: a in below && a.status != Stopped {
      return Some(InvalidOutput);
    }
    return None;
  }

  lemma LeftoverMeansLiveBelow(agents: seq<Agent>, target: Agent, below: seq<Agent>)
    requires DistinctAgents(agents) && target in agents && Levelled(TreeOf(agents))
    requires forall a :: a in below <==> a in agents && Under(TreeOf(agents), a.id, target.id)
    ensures (exists a :: a in below && a.status != Stopped) <==> LiveBelow(TreeOf(agents), target.id)
  {
    var t := TreeOf(agents);
    if LiveBelow(t, target.id) {
      var x :| x in t && Under(t, x, target.id) && t[x].status != Stopped;
      var a := AgentNamed(agents, x);
      RowOf(agents, a);
      assert a in below;
    }
    if a :| a in below && a.status != Stopped {
      RowOf(agents, a);
      assert Under(t, a.id, target.id);
    }
  }

  lemma RowOf(agents: seq<Agent>, a: Agent)
    requires DistinctAgents(agents) && a in agents
    ensures a.id in TreeOf(agents) && TreeOf(agents)[a.id] == a.Row()
  {
  }

  method ValidateReparent(limits: Limits, agents: seq<Agent>, target: Agent, parent: Agent)
    returns (refusal: Option<PolicyError>)
    requires DistinctAgents(agents) && target in agents && parent in agents
    requires Levelled(TreeOf(agents)) && Within(TreeOf(agents), limits.maxDepth)
    ensures refusal == ReparentVerdict(TreeOf(agents), limits, target.id, parent.id)
    ensures var t := TreeOf(agents);
            && (refusal == Some(InvalidOutput) <==> InSubtree(t, parent.id, target.id))
            && (refusal == None <==> !InSubtree(t, parent.id, target.id)
                                     && Within(Moved(t, target.id, parent.id), limits.maxDepth))
  {
    hide TreeOf, TasksOf, DistinctAgents, DistinctTasks, Ids, TaskIds, Project, Fold;
    MoveWithinExactly(TreeOf(agents), limits.maxDepth, target.id, parent.id);
    if parent.id == target.id {
      return Some(InvalidOutput);
    }
    var below := Descendants(agents, target, limits.maxDepth);
    BelowById(agents, target, parent, below);
    if exists a :: a in below && a.id == parent.id {
      return Some(InvalidOutput);
    }
    var fits := FitsAt(limits, agents, target, parent.depth + 1);
    return if fits then None else Some(ResourceExhausted);
  }

  lemma BelowById(agents: seq<Agent>, target: Agent, parent: Agent, below: seq<Agent>)
    requires DistinctAgents(agents) && target in agents && parent in agents && Levelled(TreeOf(agents))
    requires forall a :: a in below <==> a in agents && Under(TreeOf(agents), a.id, target.id)
    ensures (exists a :: a in below && a.id == parent.id) <==> Under(TreeOf(agents), parent.id, target.id)
  {
    if a :| a in below && a.id == parent.id {
      SameAgent(agents, a, parent);
    }
  }

  /** Does `target`'s whole subtree fit under the depth limit when `target` stands at `level`? */
  method FitsAt(limits: Limits, agents: seq<Agent>, target: Agent, level: int) returns (fits: bool)
    requires DistinctAgents(agents) && target in agents
    requires Levelled(TreeOf(agents)) && Within(TreeOf(agents), limits.maxDepth)
    ensures fits <==> Fits(TreeOf(agents), target.id, level, limits.maxDepth)
  {
    hide TreeOf, TasksOf, DistinctAgents, DistinctTasks, Ids, TaskIds, Project, Fold;
    var grouped := ChildrenMap(agents);
    ChildrenMapGroups(grouped, agents);
    HeightIsDepthDifference(grouped, target, agents, TreeOf(agents), limits.maxDepth);
    var h := Height(grouped, target, agents, TreeOf(agents), limits.maxDepth);
    FitsByHeight(TreeOf(agents), target.id, h, level, limits.maxDepth);
    fits := level + h <= limits.maxDepth;
  }

  /** A replacement: the target must be idle, and both the recruit and the target's children must fit. */
  method ValidateReplace(rt: Runtime, c: OrgChange, target: Agent, p: Agent) returns (refusal: Option<PolicyError>)
    requires DistinctAgents(rt.agents) && DistinctTasks(rt.tasks) && target in rt.agents && p in rt.agents
    requires Levelled(TreeOf(rt.agents)) && Within(TreeOf(rt.agents), rt.limits.maxDepth)
    requires c.agentId == Some(target.id)
    ensures refusal == if !Idle(TreeOf(rt.agents), TasksOf(rt.tasks), target.id) then Some(InvalidOutput)
                       else ReplaceVerdict(TreeOf(rt.agents), rt.limits, rt.demo, c, p.id)
    ensures var t := TreeOf(rt.agents);
            refusal == None <==>
              && FreeToGo(t, TasksOf(rt.tasks), target.id) && AllOnOffer(c.capabilities, rt.demo)
              && |LiveIds(t)| <= rt.limits.maxAgents
              && forall x :: x in t && InSubtree(t, x, target.id) ==>
                   t[p.id].depth + 1 + t[x].depth - t[target.id].depth <= rt.limits.maxDepth
  {
    hide TreeOf, TasksOf, DistinctAgents, DistinctTasks, Ids, TaskIds, Project, Fold;
    OnOfferIsOffered(c.capabilities, rt.demo);
    assert InSubtree(TreeOf(rt.agents), target.id, target.id);
    refusal := ValidateRetire(target, rt.agents, rt.tasks, true, rt.limits.maxDepth);
    if refusal.Some? {
      return;
    }
    refusal := ValidateRoom(rt, c, target, p);
  }

  method ValidateRoom(rt: Runtime, c: OrgChange, target: Agent, p: Agent) returns (refusal: Option<PolicyError>)
    requires DistinctAgents(rt.agents) && target in rt.agents && p in rt.agents
    requires Levelled(TreeOf(rt.agents)) && Within(TreeOf(rt.agents), rt.limits.maxDepth)
    requires c.agentId == Some(target.id)
    ensures refusal == ReplaceVerdict(TreeOf(rt.agents), rt.limits, rt.demo, c, p.id)
  {
    hide TreeOf, TasksOf, DistinctAgents, DistinctTasks, Ids, TaskIds, Project, Fold;
    LiveCount(rt.agents);
    refusal := SpawnRefusal(rt.limits, p.depth + 1, |Live(rt.agents)| - 1, c.capabilities, rt.demo);
    if refusal.None? {
      var fits := FitsAt(rt.limits, rt.agents, target, p.depth + 1);
      refusal := if fits then None else Some(ResourceExhausted);
    }
  }

  /** What `validate` ends in when the target is known. */
  ghost predicate Answers(rt: Runtime, c: OrgChange, r: Id, answer: Result<Agent, PolicyError>)
    requires DistinctAgents(rt.agents) && DistinctTasks(rt.tasks)
    requires WellFormed(TreeOf(rt.agents), r, rt.limits.maxDepth)
    reads rt, rt.agents, rt.tasks
  {
    match answer
    case Ok(p) =>
      && Verdict(TreeOf(rt.agents), r, TasksOf(rt.tasks), rt.limits, rt.demo, c) == None
      && p in rt.agents && (c.op != RetireOp ==> p.id == ParentId(c, r))
    case Err(e) => Verdict(TreeOf(rt.agents), r, TasksOf(rt.tasks), rt.limits, rt.demo, c) == Some(e)
  }

  method ValidateTargeted(rt: Runtime, c: OrgChange, ghost r: Id) returns (answer: Result<Agent, PolicyError>)
    requires DistinctAgents(rt.agents) && DistinctTasks(rt.tasks)
    requires WellFormed(TreeOf(rt.agents), r, rt.limits.maxDepth) && c.op != SpawnOp
    ensures Answers(rt, c, r, answer)
  {
    hide TreeOf, TasksOf, DistinctAgents, DistinctTasks, Ids, TaskIds, Project, Fold;
    var found := Find(rt.agents, c.agentId);
    if found.None? {
      return Err(InvalidOutput);
    }
    var target := found.value;
    if IsController(target.Row()) {
      return Err(PolicyRefusal);
    }
    if c.op == RetireOp {
      var refusal := ValidateRetire(target, rt.agents, rt.tasks, false, rt.limits.maxDepth);
      return if refusal.Some? then Err(refusal.value) else Ok(target);
    }
    var parent := ResolveParent(rt.agents, c.parentId, c, r);
    match parent {
      case Err(e) => return Err(e);
      case Ok(p) =>
        var refusal;
        if c.op == ReparentOp {
          refusal := ValidateReparent(rt.limits, rt.agents, target, p);
        } else {
          refusal := ValidateReplace(rt, c, target, p);
        }
        return if refusal.Some? then Err(refusal.value) else Ok(p);
    }
  }

  /** `validate`: the resolved parent (the target itself for a retirement), or the refusal. */
  method Validate(rt: Runtime, c: OrgChange, ghost r: Id) returns (answer: Result<Agent, PolicyError>)
    requires DistinctAgents(rt.agents) && DistinctTasks(rt.tasks)
    requires WellFormed(TreeOf(rt.agents), r, rt.limits.maxDepth)
    ensures Answers(rt, c, r, answer)
    ensures forall newId :: newId !in TreeOf(rt.agents) ==>
              (answer.Ok? <==> Legal(TreeOf(rt.agents), r, TasksOf(rt.tasks), rt.limits, rt.demo, c, newId))
    ensures answer.Err? ==>
              RefusedFor(TreeOf(rt.agents), r, TasksOf(rt.tasks), rt.limits, rt.demo, c, answer.error)
  {
    hide TreeOf, TasksOf, DistinctAgents, DistinctTasks, Ids, TaskIds, Project, Fold;
    hide Legal, RefusedFor;
    forall newId | newId !in TreeOf(rt.agents)
      ensures var t, tasks := TreeOf(rt.agents), TasksOf(rt.tasks);
              Verdict(t, r, tasks, rt.limits, rt.demo, c) == None
              <==> Legal(t, r, tasks, rt.limits, rt.demo, c, newId)
    {
      AcceptedIffLegal(TreeOf(rt.agents), r, TasksOf(rt.tasks), rt.limits, rt.demo, c, newId);
    }
    RefusalsAreEarned(TreeOf(rt.agents), r, TasksOf(rt.tasks), rt.limits, rt.demo, c);
    LiveCount(rt.agents);
    var limits := rt.limits;
    if c.op == SpawnOp {
      var parent := ResolveParent(rt.agents, c.parentId, c, r);
      match parent {
        case Err(e) => return Err(e);
        case Ok(p) =>
          var refusal := SpawnRefusal(limits, p.depth + 1, |Live(rt.agents)|, c.capabilities, rt.demo);
          return if refusal.Some? then Err(refusal.value) else Ok(p);
      }
    }
    answer := ValidateTargeted(rt, c, r);
  }

  /** Stops an agent and logs its retirement. */
  method Retire(rt: Runtime, a: Agent)
    requires rt.LogBooks() && rt.AgentBooks({}) && a in rt.agents
    modifies a`status, rt`agentRows, rt`log, rt`projection
    ensures rt.LogBooks() && rt.AgentBooks({}) && rt.projection.tasks == old(rt.projection.tasks)
    ensures TreeOf(rt.agents) == Retired(old(TreeOf(rt.agents)), a.id)
  {
    hide TreeOf, TasksOf, DistinctAgents, DistinctTasks, Ids, TaskIds, Project, Fold;
    assert {} + {a.id} == {a.id};
    rt.SetAgentStatus(a, Stopped, {});
    LogRetired(rt, a);
  }

  /** The retirement event repeats the logged status, so the replay is unchanged. */
  method LogRetired(rt: Runtime, a: Agent)
    requires rt.LogBooks() && rt.AgentBooks({}) && a in rt.agents
    modifies rt`log, rt`projection
    ensures rt.LogBooks() && rt.AgentBooks({}) && rt.projection.tasks == old(rt.projection.tasks)
    ensures TreeOf(rt.agents) == old(TreeOf(rt.agents))
  {
    hide TreeOf, TasksOf, DistinctAgents, DistinctTasks, Ids, TaskIds, Project;
    assert rt.Shown(a);
    rt.Emit(AgentRetired(a.id, a.status));
    assert rt.projection.agents == old(rt.projection.agents);
  }

  lemma RoomForRecruit(agents: seq<Agent>, limits: Limits, depth: int, capabilities: set<Capability>, demo: bool)
    requires DistinctAgents(agents)
    requires SpawnRefusal(limits, depth, |LiveIds(TreeOf(agents))|, capabilities, demo) == None
    ensures SpawnRefusal(limits, depth, |Live(agents)|, GrantedSkills(capabilities), demo) == None
  {
    LiveCount(agents);
  }

  lemma RoomAfterRetiring(t: Tree, a: Id, p: Id, limits: Limits, capabilities: set<Capability>, demo: bool)
    requires a in t && p in t && t[a].status != Stopped
    requires SpawnRefusal(limits, t[p].depth + 1, |LiveIds(t)| - 1, capabilities, demo) == None
    ensures p in Retired(t, a) && Retired(t, a)[p].depth == t[p].depth
    ensures SpawnRefusal(limits, Retired(t, a)[p].depth + 1, |LiveIds(Retired(t, a))|, capabilities, demo) == None
  {
    RetiredHeads(t, a);
  }

  /** Spawning with the limits already checked: the second check made on the way never refuses. */
  method Recruit(rt: Runtime, c: OrgChange, parent: Agent, newId: Id, ghost t: Tree, ghost depth: int, ghost u: Tree)
    returns (a: Agent)
    requires rt.LogBooks() && rt.AgentBooks({}) && newId !in Ids(rt.agents) && parent in rt.agents
    requires t == TreeOf(rt.agents) && depth == t[parent.id].depth + 1
    requires SpawnRefusal(rt.limits, depth, |LiveIds(t)|, c.capabilities, rt.demo) == None
    requires u == Grown(t, NewRow(newId, c.role, GrantedSkills(c.capabilities), Some(parent.id), depth))
    modifies rt`agents, rt`agentRows, rt`log, rt`projection
    ensures rt.LogBooks() && rt.AgentBooks({}) && rt.projection.tasks == old(rt.projection.tasks)
    ensures fresh(a) && a.id == newId && rt.agents == old(rt.agents) + [a]
    ensures TreeOf(rt.agents) == u
  {
    hide TreeOf, TasksOf, DistinctAgents, DistinctTasks, Ids, TaskIds, Project, Fold;
    RoomForRecruit(rt.agents, rt.limits, depth, c.capabilities, rt.demo);
    var r := rt.Spawn(c.role, Some(parent), GrantedSkills(c.capabilities), newId);
    match r {
      case Ok(child) =>
        a := child;
        assert NewRow(newId, c.role, GrantedSkills(c.capabilities), rt.IdOf(Some(parent)),
                      old(rt.ChildDepth(Some(parent))))
               == NewRow(newId, c.role, GrantedSkills(c.capabilities), Some(parent.id), depth);
      case Err(_) => assert false;
    }
  }

  /** A replacement's first half: the target is retired and its recruit enlisted. */
  method RetireAndRecruit(rt: Runtime, c: OrgChange, target: Agent, parent: Agent, newId: Id, ghost t: Tree)
    returns (a: Agent)
    requires rt.LogBooks() && rt.AgentBooks({}) && newId !in Ids(rt.agents)
    requires target in rt.agents && parent in rt.agents && t == TreeOf(rt.agents) && t[target.id].status != Stopped
    requires SpawnRefusal(rt.limits, t[parent.id].depth + 1, |LiveIds(t)| - 1, c.capabilities, rt.demo) == None
    modifies target`status, rt`agents, rt`agentRows, rt`log, rt`projection
    ensures rt.LogBooks() && rt.AgentBooks({}) && rt.projection.tasks == old(rt.projection.tasks)
    ensures fresh(a) && a.id == newId && rt.agents == old(rt.agents) + [a]
    ensures TreeOf(rt.agents) == Grown(Retired(t, target.id),
                                       NewRow(newId, c.role, GrantedSkills(c.capabilities), Some(parent.id),
                                              t[parent.id].depth + 1))
  {
    hide TreeOf, TasksOf, DistinctAgents, DistinctTasks, Ids, TaskIds, Project, Fold;
    RoomAfterRetiring(t, target.id, parent.id, rt.limits, c.capabilities, rt.demo);
    Retire(rt, target);
    ghost var row := NewRow(newId, c.role, GrantedSkills(c.capabilities), Some(parent.id), t[parent.id].depth + 1);
    a := Recruit(rt, c, parent, newId, Retired(t, target.id), row.depth, Grown(Retired(t, target.id), row));
  }

  /** Re-hangs the target's children under its replacement, one at a time, wherever that was enlisted. */
  method RehangAll(rt: Runtime, children: seq<Agent>, recruit: Agent, ghost t: Tree, ghost target: Id,
        ghost p: Id, ghost row: AgentRow)
    requires rt.LogBooks() && rt.AgentBooks({}) && recruit in rt.agents && recruit.id == row.id
    requires DistinctAgents(children) && Ids(children) == ChildrenOf(t, target)
    requires forall k :: k in children ==> k in rt.agents
    requires Recruiting(t, target, p, row) && row.status != Stopped
    requires TreeOf(rt.agents) == Grown(Retired(t, target), row)
    modifies rt.agents`parent, rt.agents`depth, rt.agents`status, rt`agentRows, rt`log, rt`projection
    ensures rt.LogBooks() && rt.AgentBooks({}) && rt.projection.tasks == old(rt.projection.tasks)
    ensures exists s :: Rehanging(t, target, p, row, ChildrenOf(t, target), s, TreeOf(rt.agents))
  {
    hide TreeOf, TasksOf, DistinctAgents, DistinctTasks, TaskIds, Project, Fold, Rehanging;
    ghost var done: set<Id>, some, s := {}, rt.agents, TreeOf(rt.agents);
    RehangStart(t, target, p, row);
    StartPortion(rt.agents, t, target, p, row);
    for i := 0 to |children|
      invariant rt.LogBooks() && rt.AgentBooks({}) && rt.projection.tasks == old(rt.projection.tasks)
      invariant done == Ids(children[..i]) && Portion(rt.agents, some, s)
      invariant Rehanging(t, target, p, row, done, s, TreeOf(rt.agents))
    {
      OneMoreId(children, i);
      assert children[i].id in Ids(children);
      some, s := RehangOne(rt, children[i], recruit, t, target, p, row, done, some, s);
      done := done + {children[i].id};
    }
    assert children[..|children|] == children;
  }

  lemma StartPortion(agents: seq<Agent>, t: Tree, target: Id, p: Id, row: AgentRow)
    requires DistinctAgents(agents) && Levelled(t) && target in t && p in t
    requires Rehanging(t, target, p, row, {}, TreeOf(agents), TreeOf(agents))
    ensures Portion(agents, agents, TreeOf(agents))
  {
    WholePortion(agents);
  }

  /** One turn of that loop.  While the part of the organization around the child is a tree, the move goes
      through; what is then still a tree is handed on. */
  method RehangOne(rt: Runtime, child: Agent, recruit: Agent, ghost t: Tree, ghost target: Id, ghost p: Id,
        ghost row: AgentRow, ghost done: set<Id>, ghost some: seq<Agent>, ghost s: Tree)
    returns (ghost some': seq<Agent>, ghost s': Tree)
    requires rt.LogBooks() && rt.AgentBooks({}) && recruit in rt.agents && recruit.id == row.id
    requires child in rt.agents && child.id in ChildrenOf(t, target) && child.id !in done
    requires Recruiting(t, target, p, row) && Portion(rt.agents, some, s)
    requires Rehanging(t, target, p, row, done, s, TreeOf(rt.agents))
    modifies rt.agents`parent, rt.agents`depth, rt.agents`status, rt`agentRows, rt`log, rt`projection
    ensures rt.LogBooks() && rt.AgentBooks({}) && rt.projection.tasks == old(rt.projection.tasks)
    ensures Portion(rt.agents, some', s')
    ensures Rehanging(t, target, p, row, done + {child.id}, s', TreeOf(rt.agents))
  {
    hide TreeOf, TasksOf, DistinctAgents, DistinctTasks, Ids, TaskIds, Project, Fold;
    hide Rehanging, Levelled, MovedIn, PartAfter, Those;
    ghost var now := TreeOf(rt.agents);
    RehangTurn(t, target, p, row, done, s, now, child.id);
    InPortion(rt.agents, some, s, child);
    PartStays(s, now, child.id, row.id);
    Reparent(rt, child, recruit, some, s);
    s' := PartAfter(s, child.id, row.id);
    some' := Those(some, s'.Keys);
    SmallerPortion(rt.agents, some, s, s');
  }

  lemma InPortion(agents: seq<Agent>, some: seq<Agent>, s: Tree, a: Agent)
    requires DistinctAgents(agents) && Portion(agents, some, s) && a in agents && a.id in s
    ensures a in some
  {
    var b := AgentNamed(some, a.id);
    SameAgent(agents, a, b);
  }

  lemma SmallerPortion(agents: seq<Agent>, some: seq<Agent>, s: Tree, s': Tree)
    requires DistinctAgents(agents) && DistinctAgents(some) && Ids(some) == s.Keys && s'.Keys <= s.Keys
    requires (forall k :: k in some ==> k in agents) && PartOf(s', TreeOf(agents))
    ensures Portion(agents, Those(some, s'.Keys), s')
  {
    ThoseMembers(some, s'.Keys);
    ThoseIds(some, s'.Keys);
    var fewer := Those(some, s'.Keys);
    assert Ids(fewer) == s.Keys * s'.Keys == s'.Keys;
    assert DistinctAgents(fewer);
    assert forall k :: k in fewer ==> k in agents;
    assert PartOf(s', TreeOf(agents));
  }

  /** The agents hanging directly under `target`. */
  method DirectReports(agents: seq<Agent>, target: Id) returns (children: seq<Agent>)
    ensures children == WithParent(agents, Some(target))
  {
    children := [];
    for i := 0 to |agents|
      invariant children == WithParent(agents[..i], Some(target))
    {
      assert agents[..i + 1][..i] == agents[..i];
      if agents[i].parent == Some(target) {
        children := children + [agents[i]];
      }
    }
    assert agents[..|agents|] == agents;
  }

  lemma {:induction false} ReportIds(agents: seq<Agent>, target: Id)
    requires DistinctAgents(agents)
    ensures DistinctAgents(WithParent(agents, Some(target)))
    ensures Ids(WithParent(agents, Some(target))) == ChildrenOf(TreeOf(agents), target)
  {
    if agents == [] {
      assert ChildrenOf(TreeOf(agents), target) == {};
    } else {
      var n := |agents| - 1;
      ReportIds(agents[..n], target);
      OneMoreChild(TreeOf(agents[..n]), agents[n].Row(), target);
      var some := WithParent(agents[..n], Some(target));
      assert agents[n].id !in ChildrenOf(TreeOf(agents[..n]), target);
      AppendDistinct(some, agents[n]);
    }
  }

  /** The direct reports are the children in the tree, each once. */
  lemma ReportsAreChildren(agents: seq<Agent>, target: Id)
    requires DistinctAgents(agents)
    ensures var children := WithParent(agents, Some(target));
            && DistinctAgents(children) && Ids(children) == ChildrenOf(TreeOf(agents), target)
            && forall k :: k in children ==> k in agents && k.id in ChildrenOf(TreeOf(agents), target)
  {
    ReportIds(agents, target);
    WithParentIsExact(agents, Some(target));
  }

  lemma OneMoreChild(t: Tree, row: AgentRow, target: Id)
    requires row.id !in t
    ensures ChildrenOf(t[row.id := row], target)
            == ChildrenOf(t, target) + if row.parent == Some(target) then {row.id} else {}
  {
  }

  /** Rows, log and agents agree, `t` is their tree, and `newId` is unused. */
  ghost predicate Ready(rt: Runtime, newId: Id, t: Tree, r: Id)
    reads rt, rt.agents
  {
    && rt.LogBooks() && rt.AgentBooks({}) && newId !in Ids(rt.agents)
    && t == TreeOf(rt.agents) && WellFormed(t, r, rt.limits.maxDepth)
  }

  /** The end of the loop is the effect of the change. */
  lemma ReplaceDone(t: Tree, r: Id, c: OrgChange, newId: Id, now: Tree)
    requires Levelled(t) && c.op == ReplaceOp && c.agentId.Some? && c.agentId.value in t && ParentId(c, r) in t
    requires exists s :: Rehanging(t, c.agentId.value, ParentId(c, r), Newcomer(t, r, c, newId),
                                   ChildrenOf(t, c.agentId.value), s, now)
    ensures Effect(t, r, c, newId, now)
  {
    hide Rehung, HalfLinked;
  }

  /** The re-hanging when the replacement has just been enlisted. */
  method RehangUnderNewcomer(rt: Runtime, children: seq<Agent>, recruit: Agent, ghost before: seq<Agent>,
        ghost t: Tree, ghost target: Id, ghost p: Id, ghost row: AgentRow)
    requires rt.LogBooks() && rt.AgentBooks({}) && rt.agents == before + [recruit] && recruit.id == row.id
    requires DistinctAgents(children) && Ids(children) == ChildrenOf(t, target)
    requires forall k :: k in children ==> k in before
    requires Recruiting(t, target, p, row) && row.status != Stopped
    requires TreeOf(rt.agents) == Grown(Retired(t, target), row)
    modifies before`parent, before`depth, before`status, recruit`parent, recruit`depth, recruit`status
    modifies rt`agentRows, rt`log, rt`projection
    ensures rt.LogBooks() && rt.AgentBooks({}) && rt.projection.tasks == old(rt.projection.tasks)
    ensures recruit in rt.agents
    ensures exists s :: Rehanging(t, target, p, row, ChildrenOf(t, target), s, TreeOf(rt.agents))
  {
    hide TreeOf, TasksOf, DistinctAgents, DistinctTasks, Ids, TaskIds, Project, Fold, Rehanging;
    RehangAll(rt, children, recruit, t, target, p, row);
  }

  /** Retires the target, recruits its replacement and hangs the target's children under it. */
  method Replace(rt: Runtime, c: OrgChange, target: Agent, parent: Agent, newId: Id, ghost t: Tree, ghost r: Id)
    returns (a: Agent)
    requires Ready(rt, newId, t, r) && target in rt.agents && parent in rt.agents
    requires c.op == ReplaceOp && c.agentId == Some(target.id) && parent.id == ParentId(c, r)
    requires t[target.id].status != Stopped && ReplaceVerdict(t, rt.limits, rt.demo, c, parent.id) == None
    modifies rt.agents`parent, rt.agents`depth, rt.agents`status, rt`agents, rt`agentRows, rt`log, rt`projection
    ensures rt.LogBooks() && rt.AgentBooks({}) && rt.projection.tasks == old(rt.projection.tasks)
    ensures a in rt.agents && a.id == newId && Effect(t, r, c, newId, TreeOf(rt.agents))
  {
    hide TreeOf, TasksOf, DistinctAgents, DistinctTasks, Ids, TaskIds, Project, Fold, Effect, Rehanging;
    ghost var before := rt.agents;
    var children := DirectReports(rt.agents, target.id);
    ReportsAreChildren(rt.agents, target.id);
    ghost var row := NewRow(newId, c.role, GrantedSkills(c.capabilities), Some(parent.id), t[parent.id].depth + 1);
    assert row == Newcomer(t, r, c, newId);
    a := RetireAndRecruit(rt, c, target, parent, newId, t);
    RehangUnderNewcomer(rt, children, a, before, t, target.id, parent.id, row);
    ReplaceDone(t, r, c, newId, TreeOf(rt.agents));
  }

  method Announce(rt: Runtime)
    requires rt.Synced()
    modifies rt`log, rt`projection
    ensures rt.Synced() && TreeOf(rt.agents) == old(TreeOf(rt.agents))
  {
    hide TreeOf, TasksOf, DistinctAgents, DistinctTasks, Ids, TaskIds, Project;
    rt.EmitIdle(OtherEvent("org.changed"));
  }

  /** The move of a reparenting, the organization being a tree. */
  method Move(rt: Runtime, a: Agent, parent: Agent)
    requires rt.LogBooks() && rt.AgentBooks({}) && a in rt.agents && parent in rt.agents
    requires Levelled(TreeOf(rt.agents))
    modifies rt.agents`parent, rt.agents`depth, rt.agents`status, rt`agentRows, rt`log, rt`projection
    ensures rt.LogBooks() && rt.AgentBooks({}) && rt.projection.tasks == old(rt.projection.tasks)
    ensures TreeOf(rt.agents) == Moved(old(TreeOf(rt.agents)), a.id, parent.id)
  {
    hide TreeOf, TasksOf, DistinctAgents, DistinctTasks, Ids, TaskIds, Project, Fold, MovedIn;
    WholePortion(rt.agents);
    Reparent(rt, a, parent, rt.agents, TreeOf(rt.agents));
  }

  /** Carries out an accepted change on a known target. */
  method CarryOutOn(rt: Runtime, c: OrgChange, target: Agent, parent: Agent, newId: Id, ghost t: Tree, ghost r: Id)
    returns (a: Agent)
    requires Ready(rt, newId, t, r) && target in rt.agents && parent in rt.agents
    requires c.op != SpawnOp && c.agentId == Some(target.id) && (c.op != RetireOp ==> parent.id == ParentId(c, r))
    requires c.op == ReplaceOp ==>
               t[target.id].status != Stopped && ReplaceVerdict(t, rt.limits, rt.demo, c, parent.id) == None
    modifies rt.agents`parent, rt.agents`depth, rt.agents`status, rt`agents, rt`agentRows, rt`log, rt`projection
    ensures rt.LogBooks() && rt.AgentBooks({}) && rt.projection.tasks == old(rt.projection.tasks)
    ensures a in rt.agents && Effect(t, r, c, newId, TreeOf(rt.agents))
  {
    hide TreeOf, TasksOf, DistinctAgents, DistinctTasks, Ids, TaskIds, Project, Fold;
    a := target;
    if c.op == RetireOp {
      Retire(rt, a);
    } else if c.op == ReparentOp {
      Move(rt, a, parent);
    } else {
      a := Replace(rt, c, a, parent, newId, t, r);
    }
  }

  lemma AfterSpawn(t: Tree, r: Id, c: OrgChange, row: AgentRow)
    requires Levelled(t) && c.op == SpawnOp && ParentId(c, r) in t && row == Newcomer(t, r, c, row.id)
    ensures After(t, r, c, row.id) == Grown(t, row) && Effect(t, r, c, row.id, Grown(t, row))
  {
  }

  /** Carries out a change `validate` has accepted, with `parent` as it resolved it. */
  method CarryOut(rt: Runtime, c: OrgChange, parent: Agent, newId: Id, ghost t: Tree, ghost tasks: TaskTable,
        ghost r: Id)
    returns (a: Agent)
    requires Ready(rt, newId, t, r) && Verdict(t, r, tasks, rt.limits, rt.demo, c) == None
    requires parent in rt.agents && (c.op != RetireOp ==> parent.id == ParentId(c, r))
    modifies rt.agents`parent, rt.agents`depth, rt.agents`status, rt`agents, rt`agentRows, rt`log, rt`projection
    ensures rt.LogBooks() && rt.AgentBooks({}) && rt.projection.tasks == old(rt.projection.tasks)
    ensures a in rt.agents && Effect(t, r, c, newId, TreeOf(rt.agents))
  {
    hide TreeOf, TasksOf, DistinctAgents, DistinctTasks, Ids, TaskIds, Project, Fold, Effect;
    if c.op == SpawnOp {
      ghost var row := NewRow(newId, c.role, GrantedSkills(c.capabilities), Some(parent.id), t[parent.id].depth + 1);
      AfterSpawn(t, r, c, row);
      a := Recruit(rt, c, parent, newId, t, t[parent.id].depth + 1, Grown(t, row));
    } else {
      var found := Find(rt.agents, c.agentId);
      a := CarryOutOn(rt, c, found.value, parent, newId, t, r);
    }
  }

  /** The same, with the tasks and their rows left alone, and the change announced. */
  method CarryOutAndAnnounce(rt: Runtime, c: OrgChange, parent: Agent, newId: Id, ghost t: Tree,
        ghost tasks: TaskTable, ghost r: Id)
    returns (a: Agent)
    requires rt.Synced() && Ready(rt, newId, t, r) && Verdict(t, r, tasks, rt.limits, rt.demo, c) == None
    requires parent in rt.agents && (c.op != RetireOp ==> parent.id == ParentId(c, r))
    modifies rt.agents`parent, rt.agents`depth, rt.agents`status, rt`agents, rt`agentRows, rt`log, rt`projection
    ensures rt.Synced() && a in rt.agents && Effect(t, r, c, newId, TreeOf(rt.agents))
  {
    hide TreeOf, TasksOf, DistinctAgents, DistinctTasks, Ids, TaskIds, Project, Fold, Effect;
    a := CarryOut(rt, c, parent, newId, t, tasks, r);
    assert rt.TaskBooks({});
    Announce(rt);
  }

  /** A replacement whose parent lies inside the subtree it replaces. */
  ghost predicate Inside(t: Tree, r: Id, c: OrgChange)
    requires Levelled(t)
  {
    && c.op == ReplaceOp && c.agentId.Some?
    && InSubtree(t, if c.parentId == None then r else c.parentId.value, c.agentId.value)
  }

  /** The change is done as it should, and the tree well formed unless the parent was inside. */
  ghost predicate Achieved(t: Tree, r: Id, limits: Limits, c: OrgChange, newId: Id, t': Tree)
    requires Levelled(t) && r in t
  {
    && (c.op != SpawnOp ==> c.agentId.Some? && c.agentId.value in t)
    && (c.op != RetireOp && c.parentId.Some? ==> c.parentId.value in t)
    && DoneRight(t, r, c, newId, t')
    && (!Inside(t, r, c) ==> WellFormed(t', r, limits.maxDepth))
    && (Inside(t, r, c) ==> !(Levelled(t') && LiveParents(t')))
  }

  lemma EffectIsAchieved(t: Tree, r: Id, tasks: TaskTable, limits: Limits, demo: bool, c: OrgChange, newId: Id,
        t': Tree)
    requires WellFormed(t, r, limits.maxDepth) && Acceptable(t, r, tasks, limits, demo, c) && newId !in t
    requires Effect(t, r, c, newId, t')
    ensures Achieved(t, r, limits, c, newId, t')
  {
    hide DoneRight;
    EffectIsRight(t, r, c, newId, t');
    if ReplacesOutside(t, r, c) {
      ChangeKeepsTree(t, r, tasks, limits, demo, c, newId);
    } else {
      ReplaceInsideBreaks(t, c.agentId.value, ParentId(c, r), Newcomer(t, r, c, newId), t');
    }
  }

  /** `apply`: a change is accepted exactly when it is legal; then it does to the agents exactly what it should,
      and a refused one does nothing and gives the reason.  Rows, log and objects agree at the end in any
      case.  The tree stays well formed, except after a replacement whose parent lies inside the replaced
      subtree: then it never is a good organization. */
  method Apply(rt: Runtime, c: OrgChange, newId: Id, ghost t: Tree, ghost tasks: TaskTable, ghost r: Id)
    returns (answer: Result<Agent, PolicyError>)
    requires rt.Synced() && Ready(rt, newId, t, r) && tasks == TasksOf(rt.tasks)
    modifies rt.agents`parent, rt.agents`depth, rt.agents`status, rt`agents, rt`agentRows, rt`log, rt`projection
    ensures rt.Synced()
    ensures answer.Ok? <==> Legal(t, r, tasks, rt.limits, rt.demo, c, newId)
    ensures c.op == ReparentOp && NamesSpecialist(t, c) && NamesLiveParent(t, c) ==>
              (answer.Ok? <==> WellFormed(Moved(t, c.agentId.value, if c.parentId == None then r else c.parentId.value),
                                          r, rt.limits.maxDepth))
    ensures answer.Err? ==> RefusedFor(t, r, tasks, rt.limits, rt.demo, c, answer.error)
    ensures answer.Err? ==> TreeOf(rt.agents) == t && rt.log == old(rt.log)
    ensures answer.Ok? ==> answer.value in rt.agents && Achieved(t, r, rt.limits, c, newId, TreeOf(rt.agents))
  {
    hide TreeOf, TasksOf, DistinctAgents, DistinctTasks, Ids, TaskIds, Project, Fold;
    hide Effect, Achieved, Legal, RefusedFor;
    answer := Validate(rt, c, r);
    AcceptedIffLegal(t, r, tasks, rt.limits, rt.demo, c, newId);
    RefusalsAreEarned(t, r, tasks, rt.limits, rt.demo, c);
    LegalReparent(t, r, tasks, rt.limits, rt.demo, c, newId);
    match answer {
      case Err(_) =>
      case Ok(parent) =>
        var a := CarryOutAndAnnounce(rt, c, parent, newId, t, tasks, r);
        answer := Ok(a);
        EffectIsAchieved(t, r, tasks, rt.limits, rt.demo, c, newId, TreeOf(rt.agents));
    }
  }
}
