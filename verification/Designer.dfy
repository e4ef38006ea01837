/** Applying organization changes in place (app/org.py): re-hanging subtrees and re-levelling them. */
module Designer {
  import opened Base
  import opened OrgTree
  import opened Events
  import opened Runtimes
  import opened Organization

  /** Subtrees of different children share no agent. */
  lemma KidSubtreesApart(grouped: Groups, agents: seq<Agent>, t: Tree, limit: int, a: Agent, x: Id, i: nat, k: nat)
    requires Shape(grouped, agents, t, limit) && a in agents && x in t
    requires i < |Kids(grouped, Some(a.id))| && k < |Kids(grouped, Some(a.id))|
    requires InSubtree(t, x, Kids(grouped, Some(a.id))[i].id) && InSubtree(t, x, Kids(grouped, Some(a.id))[k].id)
    ensures i == k
  {
    var kids := Kids(grouped, Some(a.id));
    KidIsChild(grouped, agents, t, limit, a, kids[i]);
    KidIsChild(grouped, agents, t, limit, a, kids[k]);
    SameDepthAncestors(t, x, kids[i].id, kids[k].id);
    SameAgent(agents, kids[i], kids[k]);
    assert KidsExact(grouped, agents, t, Some(a.id));
  }

  /** `now` is `was`, except that what lies below the first `n` kids of `a` in `t` stands where it
      belongs when `a` stands at `depth`. */
  ghost predicate Relevelled(t: Tree, kids: seq<Agent>, n: nat, a: Id, depth: int, was: Tree, now: Tree)
    requires Levelled(t) && n <= |kids| && a in t && t.Keys <= was.Keys == now.Keys
  {
    forall x :: x in was && x != a ==>
      now[x] == if x in t && AmongKids(t, kids, n, x) then was[x].(depth := t[x].depth - t[a].depth + depth) else was[x]
  }

  /** `now` is `was` with the whole subtree that `a` has in `t` moved to stand at `depth`. */
  ghost predicate Shifted(t: Tree, a: Id, depth: int, was: Tree, now: Tree)
    requires Levelled(t) && a in t && t.Keys <= was.Keys == now.Keys
  {
    forall x :: x in was ==>
      now[x] == if x in t && InSubtree(t, x, a) then was[x].(depth := t[x].depth - t[a].depth + depth) else was[x]
  }

  lemma AmongOneMore(t: Tree, kids: seq<Agent>, n: nat, x: Id)
    requires Levelled(t) && n < |kids|
    ensures AmongKids(t, kids, n + 1, x) <==> AmongKids(t, kids, n, x) || InSubtree(t, x, kids[n].id)
  {
    if AmongKids(t, kids, n + 1, x) {
      var i :| 0 <= i < n + 1 && InSubtree(t, x, kids[i].id);
    }
  }

  lemma OneKidShifted(t: Tree, kids: seq<Agent>, n: nat, a: Id, depth: int, was: Tree, mid: Tree, now: Tree)
    requires Levelled(t) && n < |kids| && a in t && t.Keys <= was.Keys == mid.Keys == now.Keys
    requires ChildOf(t, kids[n].id, a) && !InSubtree(t, a, kids[n].id)
    requires Relevelled(t, kids, n, a, depth, was, mid)
    requires Shifted(t, kids[n].id, depth + 1, mid, now)
    ensures Relevelled(t, kids, n + 1, a, depth, was, now)
    ensures now[a] == mid[a]
  {
    assert LevelAt(t, kids[n].id);
    forall x | x in was && x != a
      ensures now[x] == if x in t && AmongKids(t, kids, n + 1, x) then was[x].(depth := t[x].depth - t[a].depth + depth)
                        else was[x]
    {
      AmongOneMore(t, kids, n, x);
    }
  }

  lemma AllKidsShifted(t: Tree, kids: seq<Agent>, a: Id, depth: int, was: Tree, now: Tree)
    requires Levelled(t) && a in t && t.Keys <= was.Keys == now.Keys
    requires forall x :: x in t ==> (Under(t, x, a) <==> AmongKids(t, kids, |kids|, x))
    requires Relevelled(t, kids, |kids|, a, depth, was, now)
    requires now[a] == was[a].(depth := depth)
    ensures Shifted(t, a, depth, was, now)
  {
  }

  /** No agent strictly below `a` is among `late`. */
  ghost predicate NoneBelow(t: Tree, late: set<Id>, a: Id)
    requires Levelled(t)
  {
    forall x :: x in late ==> !Under(t, x, a)
  }

  lemma NoneBelowKid(t: Tree, late: set<Id>, a: Id, kid: Id)
    requires Levelled(t) && a in t && ChildOf(t, kid, a) && NoneBelow(t, late, a)
    ensures NoneBelow(t, late + {a}, kid) && kid !in late && kid != a
  {
    assert LevelAt(t, kid);
    forall x | x in late + {a} ensures !Under(t, x, kid) {
      if Under(t, x, kid) {
        UnderIsDeeper(t, x, kid);
        UnderTransitive(t, x, kid, a);
      }
    }
  }

  lemma AddTwice(x: Id)
    ensures {x} + {x} == {x}
  {
  }

  lemma SameUpdate(t: Tree, x: Id, row: AgentRow)
    requires x in t && t[x] == row
    ensures t[x := row] == t
  {
  }

  lemma AllUnderAmongKids(grouped: Groups, a: Agent, agents: seq<Agent>, t: Tree, limit: int)
    requires Shape(grouped, agents, t, limit) && a in agents
    ensures var kids := Kids(grouped, Some(a.id));
            forall x :: x in t ==> (Under(t, x, a.id) <==> AmongKids(t, kids, |kids|, x))
  {
    var kids := Kids(grouped, Some(a.id));
    forall x | x in t ensures Under(t, x, a.id) <==> AmongKids(t, kids, |kids|, x) {
      UnderIsAmongKids(grouped, a, agents, t, limit, x);
    }
  }

  /** Sets one agent's depth and saves its row if that changed. */
  method SetDepth(rt: Runtime, a: Agent, depth: int, ghost late: set<Id>)
    requires rt.AgentBooks(late) && a in rt.agents
    modifies a`depth, rt`agentRows
    ensures rt.AgentBooks(late + {a.id}) && a.depth == depth
    ensures TreeOf(rt.agents) == old(TreeOf(rt.agents))[a.id := old(a.Row()).(depth := depth)]
  {
    hide TreeOf, TasksOf, DistinctAgents, DistinctTasks, Ids, TaskIds, Project, Fold;
    ghost var before, row := TreeOf(rt.agents), a.Row();
    if a.depth != depth {
      a.depth := depth;
      rt.SaveAgent(a);
      OneAgentChanged(rt.agents, a, before);
    } else {
      SameUpdate(before, a.id, row);
    }
  }

  /** The portion `some` of the runtime's agents is grouped as the tree `t`. */
  ghost predicate Works(rt: Runtime, some: seq<Agent>, grouped: Groups, t: Tree, limit: int)
    requires DistinctAgents(rt.agents)
    reads rt
  {
    && Shape(grouped, some, t, limit) && t.Keys <= Ids(rt.agents)
    && forall k :: k in some ==> k in rt.agents
  }

  /** One turn of the loop: re-levels below the kid, then saves and logs the kid itself. */
  method ApplyToKid(rt: Runtime, a: Agent, i: nat, depth: int, grouped: Groups, ghost some: seq<Agent>, ghost t: Tree,
        ghost limit: int, ghost was: Tree, ghost late: set<Id>)
    requires rt.LogBooks() && rt.AgentBooks(late + {a.id}) && a in some
    requires Works(rt, some, grouped, t, limit) && NoneBelow(t, late, a.id)
    requires i < |Kids(grouped, Some(a.id))| && was.Keys == Ids(rt.agents)
    requires Relevelled(t, Kids(grouped, Some(a.id)), i, a.id, depth, was, TreeOf(rt.agents))
    modifies rt.agents`depth, rt.agents`status, rt`agentRows, rt`log, rt`projection
    decreases limit - t[a.id].depth, 0
    ensures rt.LogBooks() && rt.AgentBooks(late + {a.id}) && rt.projection.tasks == old(rt.projection.tasks)
    ensures Relevelled(t, Kids(grouped, Some(a.id)), i + 1, a.id, depth, was, TreeOf(rt.agents))
    ensures TreeOf(rt.agents)[a.id] == old(TreeOf(rt.agents))[a.id]
  {
    hide TreeOf, TasksOf, DistinctAgents, DistinctTasks, Ids, TaskIds, Project, Fold;
    ghost var mid := TreeOf(rt.agents);
    var kid := Kids(grouped, Some(a.id))[i];
    KidIsChild(grouped, some, t, limit, a, kid);
    NoneBelowKid(t, late, a.id, kid.id);
    ApplyDepth(rt, kid, depth + 1, grouped, some, t, limit, late + {a.id});
    ghost var now := TreeOf(rt.agents);
    rt.SetAgentStatus(kid, kid.status, late + {a.id});
    SameUpdate(now, kid.id, kid.Row());
    KidsApart(grouped, some, t, limit, a, a.id, kid);
    OneKidShifted(t, Kids(grouped, Some(a.id)), i, a.id, depth, was, mid, now);
  }

  /** The loop over `a`'s kids. */
  method ApplyToKids(rt: Runtime, a: Agent, depth: int, grouped: Groups, ghost some: seq<Agent>, ghost t: Tree,
        ghost limit: int, ghost was: Tree, ghost late: set<Id>)
    requires rt.LogBooks() && rt.AgentBooks(late + {a.id}) && a in some
    requires Works(rt, some, grouped, t, limit) && NoneBelow(t, late, a.id)
    requires was.Keys == Ids(rt.agents)
    requires Relevelled(t, Kids(grouped, Some(a.id)), 0, a.id, depth, was, TreeOf(rt.agents))
    modifies rt.agents`depth, rt.agents`status, rt`agentRows, rt`log, rt`projection
    decreases limit - t[a.id].depth, 1
    ensures rt.LogBooks() && rt.AgentBooks(late + {a.id}) && rt.projection.tasks == old(rt.projection.tasks)
    ensures Relevelled(t, Kids(grouped, Some(a.id)), |Kids(grouped, Some(a.id))|, a.id, depth, was, TreeOf(rt.agents))
    ensures TreeOf(rt.agents)[a.id] == old(TreeOf(rt.agents))[a.id]
  {
    hide TreeOf, TasksOf, DistinctAgents, DistinctTasks, Ids, TaskIds, Project, Fold;
    var kids := Kids(grouped, Some(a.id));
    ghost var row := TreeOf(rt.agents)[a.id];
    for i := 0 to |kids|
      invariant rt.LogBooks() && rt.AgentBooks(late + {a.id}) && rt.projection.tasks == old(rt.projection.tasks)
      invariant Relevelled(t, kids, i, a.id, depth, was, TreeOf(rt.agents))
      invariant TreeOf(rt.agents)[a.id] == row
    {
      ApplyToKid(rt, a, i, depth, grouped, some, t, limit, was, late);
    }
  }

  lemma NoKidsYet(t: Tree, kids: seq<Agent>, a: Id, depth: int, was: Tree)
    requires Levelled(t) && a in t && t.Keys <= was.Keys
    ensures Relevelled(t, kids, 0, a, depth, was, was[a := was[a].(depth := depth)])
  {
  }

  /** Sets `a`'s depth and re-levels the subtree below it, child by child. */
  method ApplyDepth(rt: Runtime, a: Agent, depth: int, grouped: Groups, ghost some: seq<Agent>, ghost t: Tree,
        ghost limit: int, ghost late: set<Id>)
    requires rt.LogBooks() && rt.AgentBooks(late) && a in some
    requires Works(rt, some, grouped, t, limit) && NoneBelow(t, late, a.id)
    modifies rt.agents`depth, rt.agents`status, rt`agentRows, rt`log, rt`projection
    decreases limit - t[a.id].depth, 2
    ensures rt.LogBooks() && rt.AgentBooks(late + {a.id}) && rt.projection.tasks == old(rt.projection.tasks)
    ensures Shifted(t, a.id, depth, old(TreeOf(rt.agents)), TreeOf(rt.agents))
  {
    hide TreeOf, TasksOf, DistinctAgents, DistinctTasks, Ids, TaskIds, Project, Fold;
    ghost var was := TreeOf(rt.agents);
    SetDepth(rt, a, depth, late);
    NoKidsYet(t, Kids(grouped, Some(a.id)), a.id, depth, was);
    ApplyToKids(rt, a, depth, grouped, some, t, limit, was, late);
    AllUnderAmongKids(grouped, a, some, t, limit);
    AllKidsShifted(t, Kids(grouped, Some(a.id)), a.id, depth, was, TreeOf(rt.agents));
  }

  lemma ShiftedIsMoved(s: Tree, t: Tree, a: Id, p: Id, depth: int, now: Tree)
    requires PartOf(s, t) && a in s && now.Keys == t.Keys
    requires Shifted(s, a, depth, t[a := t[a].(parent := Some(p))], now)
    ensures now == MovedIn(s, t, a, p, depth)
  {
    hide Levelled;
    var was := t[a := t[a].(parent := Some(p))];
    forall x | x in t ensures now[x] == MovedIn(s, t, a, p, depth)[x] {
      assert x in was && (x != a ==> was[x] == t[x]);
    }
  }

  /** Logs that an agent has a new parent; only its own logged state is affected. */
  method LogReparented(rt: Runtime, a: Agent)
    requires rt.LogBooks() && rt.AgentBooks({a.id}) && a in rt.agents
    modifies rt`log, rt`projection
    ensures rt.LogBooks() && rt.AgentBooks({a.id}) && rt.projection.tasks == old(rt.projection.tasks)
    ensures TreeOf(rt.agents) == old(TreeOf(rt.agents))
  {
    hide TreeOf, TasksOf, DistinctAgents, DistinctTasks, Ids, TaskIds, Project;
    rt.Emit(AgentReparented(a.id, a.parent, a.depth));
  }

  lemma NotBelowItself(t: Tree, a: Id)
    requires Levelled(t) && a in t
    ensures NoneBelow(t, {a}, a)
  {
    if Under(t, a, a) {
      UnderIsDeeper(t, a, a);
    }
  }

  method SetParent(rt: Runtime, a: Agent, parent: Id)
    requires rt.AgentBooks({}) && a in rt.agents
    modifies a`parent
    ensures rt.AgentBooks({a.id}) && a.parent == Some(parent)
    ensures TreeOf(rt.agents) == old(TreeOf(rt.agents))[a.id := old(a.Row()).(parent := Some(parent))]
  {
    hide TreeOf, TasksOf, DistinctAgents, DistinctTasks, Ids, TaskIds, Project, Fold;
    ghost var before := TreeOf(rt.agents);
    a.parent := Some(parent);
    OneAgentChanged(rt.agents, a, before);
  }

  /** Gives `a` its new parent and re-levels; `a` itself is not yet saved or logged. */
  method Rehang(rt: Runtime, a: Agent, parent: Id, depth: int, grouped: Groups, ghost some: seq<Agent>, ghost s: Tree,
        ghost limit: int)
    requires rt.LogBooks() && rt.AgentBooks({}) && a in some
    requires Works(rt, some, grouped, s, limit) && PartOf(s, TreeOf(rt.agents))
    modifies rt.agents`parent, rt.agents`depth, rt.agents`status, rt`agentRows, rt`log, rt`projection
    ensures rt.LogBooks() && rt.AgentBooks({a.id}) && rt.projection.tasks == old(rt.projection.tasks)
    ensures TreeOf(rt.agents) == MovedIn(s, old(TreeOf(rt.agents)), a.id, parent, depth)
  {
    hide TreeOf, TasksOf, DistinctAgents, DistinctTasks, Ids, TaskIds, Project, Fold;
    ghost var t := TreeOf(rt.agents);
    SetParent(rt, a, parent);
    NotBelowItself(s, a.id);
    AddTwice(a.id);
    ApplyDepth(rt, a, depth, grouped, some, s, limit, {a.id});
    ShiftedIsMoved(s, t, a.id, parent, depth, TreeOf(rt.agents));
  }

  /** Logs the move, then saves and logs the moved agent. */
  method AnnounceMove(rt: Runtime, a: Agent)
    requires rt.LogBooks() && rt.AgentBooks({a.id}) && a in rt.agents
    modifies a`status, rt`agentRows, rt`log, rt`projection
    ensures rt.LogBooks() && rt.AgentBooks({}) && rt.projection.tasks == old(rt.projection.tasks)
    ensures TreeOf(rt.agents) == old(TreeOf(rt.agents))
  {
    hide TreeOf, TasksOf, DistinctAgents, DistinctTasks, Ids, TaskIds, Project, Fold;
    ghost var t, row := TreeOf(rt.agents), a.Row();
    SameUpdate(t, a.id, row);
    LogReparented(rt, a);
    assert {} + {a.id} == {a.id};
    rt.SetAgentStatus(a, a.status, {});
    assert a.Row() == row;
  }

  /** Hangs `a` under `parent`: exactly the subtree of `a` moves, and all of it ends saved and logged.  Only
      the part `s` of the organization that holds `a` must be a tree. */
  method Reparent(rt: Runtime, a: Agent, parent: Agent, ghost some: seq<Agent>, ghost s: Tree)
    requires rt.LogBooks() && rt.AgentBooks({}) && Portion(rt.agents, some, s) && a in some && parent in rt.agents
    modifies rt.agents`parent, rt.agents`depth, rt.agents`status, rt`agentRows, rt`log, rt`projection
    ensures rt.LogBooks() && rt.AgentBooks({}) && rt.projection.tasks == old(rt.projection.tasks)
    ensures TreeOf(rt.agents) == MovedIn(s, old(TreeOf(rt.agents)), a.id, parent.id, old(parent.depth) + 1)
  {
    hide TreeOf, TasksOf, DistinctAgents, DistinctTasks, Ids, TaskIds, Project, Fold;
    hide KidsExact, Levelled, Under, MovedIn;
    var grouped := ChildrenMap(rt.agents);
    PortionGrouped(grouped, rt.agents, some, s);
    ghost var limit := DepthBound(s);
    Rehang(rt, a, parent.id, parent.depth + 1, grouped, some, s, limit);
    AnnounceMove(rt, a);
  }
}
