/** Which organization changes may be made (app/org.py), said by the fields of agents and tasks and by the
    tree that would result, and that exactly these are accepted. */
module OrgLegality {
  import opened Base
  import opened OrgTree
  import opened Events
  import opened Runtimes
  import opened OrgChanges

  /** The change names an agent that is not a controller. */
  predicate NamesSpecialist(t: Tree, c: OrgChange) {
    && c.agentId.Some? && c.agentId.value in t
    && t[c.agentId.value].parent.Some? && t[c.agentId.value].role != "mission_controller"
  }

  /** The change names a live parent, or none at all. */
  predicate NamesLiveParent(t: Tree, c: OrgChange) {
    c.parentId == None || (c.parentId.value in t && t[c.parentId.value].status != Stopped)
  }

  /** The agent is alive and has nothing to do. */
  predicate FreeToGo(t: Tree, tasks: TaskTable, a: Id)
    requires a in t
  {
    t[a].status != Stopped && forall k :: k in tasks && tasks[k].status in {TPending, TRunning} ==> tasks[k].agent != a
  }

  /** Unlisted capabilities are never on offer; working on the project and reporting only in the demo. */
  predicate AllOnOffer(capabilities: set<Capability>, demo: bool) {
    forall k :: k in capabilities ==> !k.Unlisted? && (demo || (k != ProjectWork && k != Report))
  }

  /** A recruit for whom nothing is asked can at least reason. */
  function AtLeastReason(asked: set<Capability>): set<Capability> {
    if |asked| > 0 then asked else {Reason}
  }

  /** The change may be made, and what it leads to is within the limits. */
  ghost predicate Legal(t: Tree, r: Id, tasks: TaskTable, limits: Limits, demo: bool, c: OrgChange, newId: Id)
    requires WellFormed(t, r, limits.maxDepth)
  {
    match c.op
    case SpawnOp =>
      && NamesLiveParent(t, c) && AllOnOffer(c.capabilities, demo)
      && var p := if c.parentId == None then r else c.parentId.value;
         var t' := t[newId := AgentRow(newId, Some(p), c.role, AtLeastReason(c.capabilities), t[p].depth + 1, Created,
                                       None)];
         WellFormed(t', r, limits.maxDepth) && |LiveIds(t')| <= limits.maxAgents
    case RetireOp =>
      && NamesSpecialist(t, c)
      && var a := c.agentId.value;
         FreeToGo(t, tasks, a) && forall x :: x in t && Under(t, x, a) ==> t[x].status == Stopped
    case ReparentOp =>
      && NamesSpecialist(t, c) && NamesLiveParent(t, c)
      && var p := if c.parentId == None then r else c.parentId.value;
         WellFormed(Moved(t, c.agentId.value, p), r, limits.maxDepth)
    case ReplaceOp =>
      && NamesSpecialist(t, c) && NamesLiveParent(t, c) && AllOnOffer(c.capabilities, demo)
      && var a := c.agentId.value;
         var p := if c.parentId == None then r else c.parentId.value;
         && FreeToGo(t, tasks, a) && |LiveIds(t)| <= limits.maxAgents
         && forall x :: x in t && InSubtree(t, x, a) ==> t[p].depth + 1 + t[x].depth - t[a].depth <= limits.maxDepth
  }

  lemma OnOfferIsOffered(capabilities: set<Capability>, demo: bool)
    ensures AllOnOffer(capabilities, demo) <==> !Unavailable(capabilities, demo)
  {
    forall k | k in capabilities
      ensures Offered(k, demo) <==> !k.Unlisted? && (demo || (k != ProjectWork && k != Report))
    {
    }
  }

  lemma MoveWithinExactly(t: Tree, limit: int, a: Id, p: Id)
    requires Levelled(t) && Within(t, limit) && a in t && p in t
    ensures Within(Moved(t, a, p), limit) <==> Fits(t, a, t[p].depth + 1, limit)
  {
    var t' := Moved(t, a, p);
    if Within(t', limit) {
      forall x | x in t && InSubtree(t, x, a) ensures t[p].depth + 1 + t[x].depth - t[a].depth <= limit {
        assert x in t' && t'[x].depth <= limit;
      }
    }
  }

  lemma MoveFitsExactly(t: Tree, r: Id, limit: int, a: Id, p: Id)
    requires WellFormed(t, r, limit) && a in t && p in t && a != r
    ensures WellFormed(Moved(t, a, p), r, limit) <==> !InSubtree(t, p, a) && Within(Moved(t, a, p), limit)
    ensures Within(Moved(t, a, p), limit) <==> Fits(t, a, t[p].depth + 1, limit)
  {
    MoveWithinExactly(t, limit, a, p);
    if InSubtree(t, p, a) {
      CycleHasNoLevels(t, Moved(t, a, p), a, p);
    } else if Fits(t, a, t[p].depth + 1, limit) {
      ReparentWellFormed(t, r, limit, a, p);
    }
  }

  lemma SpawnFitsExactly(t: Tree, r: Id, limits: Limits, p: Id, row: AgentRow)
    requires WellFormed(t, r, limits.maxDepth) && p in t && row.id !in t && row.status != Stopped
    requires row.parent == Some(p) && row.depth == t[p].depth + 1
    ensures WellFormed(t[row.id := row], r, limits.maxDepth) <==> t[p].depth + 1 <= limits.maxDepth
    ensures |LiveIds(t[row.id := row])| == |LiveIds(t)| + 1
  {
    GrownHeads(t, row);
    if t[p].depth + 1 <= limits.maxDepth {
      GrownWellFormed(t, r, limits.maxDepth, row);
    } else {
      assert row.id in t[row.id := row];
    }
  }

  lemma SpawnIffLegal(t: Tree, r: Id, tasks: TaskTable, limits: Limits, demo: bool, c: OrgChange, newId: Id)
    requires WellFormed(t, r, limits.maxDepth) && newId !in t && c.op == SpawnOp
    ensures Verdict(t, r, tasks, limits, demo, c) == None <==> Legal(t, r, tasks, limits, demo, c, newId)
  {
    OnOfferIsOffered(c.capabilities, demo);
    var p := if c.parentId == None then r else c.parentId.value;
    if p in t {
      SpawnFitsExactly(t, r, limits, p, AgentRow(newId, Some(p), c.role, AtLeastReason(c.capabilities), t[p].depth + 1,
                                                 Created, None));
    }
  }

  lemma ReparentIffLegal(t: Tree, r: Id, tasks: TaskTable, limits: Limits, demo: bool, c: OrgChange, newId: Id)
    requires WellFormed(t, r, limits.maxDepth) && c.op == ReparentOp
    ensures Verdict(t, r, tasks, limits, demo, c) == None <==> Legal(t, r, tasks, limits, demo, c, newId)
  {
    var p := if c.parentId == None then r else c.parentId.value;
    if NamesSpecialist(t, c) && p in t {
      MoveFitsExactly(t, r, limits.maxDepth, c.agentId.value, p);
    }
  }

  lemma ReplaceIffLegal(t: Tree, r: Id, tasks: TaskTable, limits: Limits, demo: bool, c: OrgChange, newId: Id)
    requires WellFormed(t, r, limits.maxDepth) && c.op == ReplaceOp
    ensures Verdict(t, r, tasks, limits, demo, c) == None <==> Legal(t, r, tasks, limits, demo, c, newId)
  {
    OnOfferIsOffered(c.capabilities, demo);
    if NamesSpecialist(t, c) {
      assert InSubtree(t, c.agentId.value, c.agentId.value);
    }
  }

  /** A change is accepted exactly when it is legal. */
  lemma AcceptedIffLegal(t: Tree, r: Id, tasks: TaskTable, limits: Limits, demo: bool, c: OrgChange, newId: Id)
    requires WellFormed(t, r, limits.maxDepth) && newId !in t
    ensures Verdict(t, r, tasks, limits, demo, c) == None <==> Legal(t, r, tasks, limits, demo, c, newId)
  {
    match c.op {
      case SpawnOp => SpawnIffLegal(t, r, tasks, limits, demo, c, newId);
      case ReparentOp => ReparentIffLegal(t, r, tasks, limits, demo, c, newId);
      case ReplaceOp => ReplaceIffLegal(t, r, tasks, limits, demo, c, newId);
      case RetireOp =>
    }
  }

  lemma LegalReparent(t: Tree, r: Id, tasks: TaskTable, limits: Limits, demo: bool, c: OrgChange, newId: Id)
    requires WellFormed(t, r, limits.maxDepth)
    ensures c.op == ReparentOp && NamesSpecialist(t, c) && NamesLiveParent(t, c) ==>
              (Legal(t, r, tasks, limits, demo, c, newId)
               <==> WellFormed(Moved(t, c.agentId.value, if c.parentId == None then r else c.parentId.value), r,
                               limits.maxDepth))
  {
  }

  /** What an error says: a controller was named; the request makes no sense as it stands; it would break a
      limit; or it asks for a capability that is not on offer. */
  ghost predicate RefusedFor(t: Tree, r: Id, tasks: TaskTable, limits: Limits, demo: bool, c: OrgChange,
        e: PolicyError)
    requires WellFormed(t, r, limits.maxDepth)
  {
    var known := c.agentId.Some? && c.agentId.value in t;
    var p := if c.parentId == None then r else c.parentId.value;
    match e
    case PolicyRefusal => c.op != SpawnOp && known && !NamesSpecialist(t, c)
    case InvalidOutput =>
      || (c.op != SpawnOp && !known)
      || (c.op != RetireOp && !NamesLiveParent(t, c))
      || ((c.op == RetireOp || c.op == ReplaceOp) && known && !FreeToGo(t, tasks, c.agentId.value))
      || (c.op == RetireOp && known && exists x :: x in t && Under(t, x, c.agentId.value) && t[x].status != Stopped)
      || (c.op == ReparentOp && known && InSubtree(t, p, c.agentId.value))
    case ResourceExhausted =>
      && p in t
      && (|| (c.op == SpawnOp && (t[p].depth + 1 > limits.maxDepth || |LiveIds(t)| + 1 > limits.maxAgents))
          || (c.op == ReparentOp && known && !Within(Moved(t, c.agentId.value, p), limits.maxDepth))
          || (c.op == ReplaceOp && known && |LiveIds(t)| > limits.maxAgents)
          || (c.op == ReplaceOp && known
              && exists x :: x in t && InSubtree(t, x, c.agentId.value)
                             && t[p].depth + 1 + t[x].depth - t[c.agentId.value].depth > limits.maxDepth))
    case CapabilityMismatch => (c.op == SpawnOp || c.op == ReplaceOp) && !AllOnOffer(c.capabilities, demo)
    case _ => false
  }

  /** The refusal `v` has the reason its error names, and controllers and bad requests come first. */
  ghost predicate Earned(t: Tree, r: Id, tasks: TaskTable, limits: Limits, demo: bool, c: OrgChange,
        v: Option<PolicyError>)
    requires WellFormed(t, r, limits.maxDepth)
  {
    && (v.Some? ==> RefusedFor(t, r, tasks, limits, demo, c, v.value))
    && (RefusedFor(t, r, tasks, limits, demo, c, PolicyRefusal) ==> v == Some(PolicyRefusal))
    && (v == Some(ResourceExhausted) || v == Some(CapabilityMismatch) ==>
          !RefusedFor(t, r, tasks, limits, demo, c, InvalidOutput))
  }

  lemma ReparentRefusal(t: Tree, r: Id, tasks: TaskTable, limits: Limits, demo: bool, c: OrgChange)
    requires WellFormed(t, r, limits.maxDepth) && c.op == ReparentOp
    ensures Earned(t, r, tasks, limits, demo, c, Verdict(t, r, tasks, limits, demo, c))
  {
    hide Levelled, Within, Moved, Fits, FreeToGo, Idle, Under;
    var p := if c.parentId == None then r else c.parentId.value;
    if NamesSpecialist(t, c) && p in t {
      MoveFitsExactly(t, r, limits.maxDepth, c.agentId.value, p);
    }
  }

  lemma ReplaceRefusal(t: Tree, r: Id, tasks: TaskTable, limits: Limits, demo: bool, c: OrgChange)
    requires WellFormed(t, r, limits.maxDepth) && c.op == ReplaceOp
    ensures Earned(t, r, tasks, limits, demo, c, Verdict(t, r, tasks, limits, demo, c))
  {
    OnOfferIsOffered(c.capabilities, demo);
    var p := if c.parentId == None then r else c.parentId.value;
    if NamesSpecialist(t, c) && p in t {
      assert InSubtree(t, c.agentId.value, c.agentId.value);
    }
  }

  lemma RetireRefusal(t: Tree, r: Id, tasks: TaskTable, limits: Limits, demo: bool, c: OrgChange)
    requires WellFormed(t, r, limits.maxDepth) && c.op == RetireOp
    ensures Earned(t, r, tasks, limits, demo, c, Verdict(t, r, tasks, limits, demo, c))
  {
  }

  /** Every refusal is earned. */
  lemma RefusalsAreEarned(t: Tree, r: Id, tasks: TaskTable, limits: Limits, demo: bool, c: OrgChange)
    requires WellFormed(t, r, limits.maxDepth)
    ensures Earned(t, r, tasks, limits, demo, c, Verdict(t, r, tasks, limits, demo, c))
  {
    match c.op {
      case SpawnOp => OnOfferIsOffered(c.capabilities, demo);
      case ReparentOp => ReparentRefusal(t, r, tasks, limits, demo, c);
      case ReplaceOp => ReplaceRefusal(t, r, tasks, limits, demo, c);
      case RetireOp => RetireRefusal(t, r, tasks, limits, demo, c);
    }
  }

  // ------------------------------------------------------------ what an accepted change does

  /** The agents after the change, field by field; only a replacement with an inside parent leaves depths
      open. */
  ghost predicate DoneRight(t: Tree, r: Id, c: OrgChange, newId: Id, t': Tree)
    requires Levelled(t) && r in t && (c.op != RetireOp && c.parentId.Some? ==> c.parentId.value in t)
    requires c.op != SpawnOp ==> c.agentId.Some? && c.agentId.value in t
  {
    var p := if c.parentId == None then r else c.parentId.value;
    match c.op
    case SpawnOp =>
      t' == t[newId := AgentRow(newId, Some(p), c.role, AtLeastReason(c.capabilities), t[p].depth + 1, Created, None)]
    case RetireOp => t' == t[c.agentId.value := t[c.agentId.value].(status := Stopped)]
    case ReparentOp =>
      var a := c.agentId.value;
      && t'.Keys == t.Keys
      && forall x :: x in t ==>
           t'[x] == t[x].(parent := if x == a then Some(p) else t[x].parent,
                          depth := if InSubtree(t, x, a) then t[x].depth - t[a].depth + t[p].depth + 1 else t[x].depth)
    case ReplaceOp =>
      var a := c.agentId.value;
      && t'.Keys == t.Keys + {newId}
      && t'[newId] == AgentRow(newId, Some(p), c.role, AtLeastReason(c.capabilities), t'[newId].depth, Created, None)
      && (forall x :: x in t ==>
            t'[x] == t[x].(parent := if t[x].parent == Some(a) then Some(newId) else t[x].parent,
                           status := if x == a then Stopped else t[x].status, depth := t'[x].depth))
      && (!InSubtree(t, p, a) ==>
            && t'[newId].depth == t[p].depth + 1
            && forall x :: x in t ==>
                 t'[x].depth == if Under(t, x, a) then t[x].depth - t[a].depth + t[p].depth + 1 else t[x].depth)
  }

  lemma ReplaceDoneRight(t: Tree, r: Id, c: OrgChange, newId: Id, t': Tree)
    requires Levelled(t) && r in t && (c.parentId.Some? ==> c.parentId.value in t) && newId !in t
    requires c.op == ReplaceOp && c.agentId.Some? && c.agentId.value in t && Effect(t, r, c, newId, t')
    ensures DoneRight(t, r, c, newId, t')
  {
    var a, p, row := c.agentId.value, ParentId(c, r), Newcomer(t, r, c, newId);
    if ReplacesOutside(t, r, c) {
      forall x | x in t
        ensures t'[x].depth == if Under(t, x, a) then t[x].depth - t[a].depth + t[p].depth + 1 else t[x].depth
        ensures t'[x] == t[x].(parent := if t[x].parent == Some(a) then Some(newId) else t[x].parent,
                               status := if x == a then Stopped else t[x].status, depth := t'[x].depth)
      {
        RehungStatus(t, a, p, row, x);
        RehungDepth(t, a, p, row, x);
      }
    }
  }

  /** In the end exactly the target's descendants have moved. */
  lemma RehungDepth(t: Tree, target: Id, p: Id, row: AgentRow, x: Id)
    requires Replacing(t, target, p, row, ChildrenOf(t, target)) && x in t
    ensures Rehung(t, target, p, row, ChildrenOf(t, target))[x].depth
            == if Under(t, x, target) then t[x].depth - t[target].depth + t[p].depth + 1 else t[x].depth
  {
    var done := ChildrenOf(t, target);
    assert LevelAt(t, x);
    if Under(t, x, target) {
      UnderIsDeeper(t, x, target);
      var k := UnderViaChild(t, x, target);
      assert k in done;
    } else if x in done || BelowOne(t, x, done) {
      BelowDoneIsUnder(t, target, p, row, done, x);
    }
  }

  /** The effect of a change is the one described. */
  lemma EffectIsRight(t: Tree, r: Id, c: OrgChange, newId: Id, t': Tree)
    requires Levelled(t) && r in t && (c.op != RetireOp && c.parentId.Some? ==> c.parentId.value in t)
    requires newId !in t
    requires c.op != SpawnOp ==> c.agentId.Some? && c.agentId.value in t
    requires Effect(t, r, c, newId, t')
    ensures DoneRight(t, r, c, newId, t')
  {
    if c.op == ReplaceOp {
      ReplaceDoneRight(t, r, c, newId, t');
    }
  }
}
