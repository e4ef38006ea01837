/** What one organization change does to the tree, and when it is allowed (app/org.py, app/policy.py). */
module OrgChanges {
  import opened Base
  import opened OrgTree
  import opened Events
  import opened Runtimes

  datatype OrgOp = SpawnOp | ReplaceOp | ReparentOp | RetireOp
  datatype OrgChange = OrgChange(op: OrgOp, agentId: Option<Id>, parentId: Option<Id>, role: string,
                                 capabilities: set<Capability>)

  /** Everything from `a` down still fits when `a` stands at `level`. */
  ghost predicate Fits(t: Tree, a: Id, level: int, limit: int)
    requires Levelled(t) && a in t
  {
    forall x :: x in t && InSubtree(t, x, a) ==> level + t[x].depth - t[a].depth <= limit
  }

  lemma FitsByHeight(t: Tree, a: Id, h: int, level: int, limit: int)
    requires Levelled(t) && a in t && IsHeight(t, a, h)
    ensures Fits(t, a, level, limit) <==> level + h <= limit
  {
    var x :| x in t && InSubtree(t, x, a) && t[x].depth - t[a].depth == h;
    assert Fits(t, a, level, limit) ==> level + t[x].depth - t[a].depth <= limit;
  }

  /** A well-formed tree with a live root, no live agent under a stopped one, and not too many agents. */
  ghost predicate GoodOrg(t: Tree, r: Id, limits: Limits) {
    && WellFormed(t, r, limits.maxDepth) && LiveParents(t)
    && t[r].status != Stopped && |LiveIds(t)| <= limits.maxAgents
  }

  predicate InFlight(status: TaskStatus) {
    status == TPending || status == TRunning
  }

  /** The parent a change names, or else the root. */
  function ParentId(c: OrgChange, r: Id): Id {
    if c.parentId.Some? then c.parentId.value else r
  }

  /** A named parent must be known and not stopped. */
  predicate ParentOk(t: Tree, c: OrgChange) {
    c.parentId.Some? ==> c.parentId.value in t && t[c.parentId.value].status != Stopped
  }

  /** Controllers cannot be reorganized. */
  predicate IsController(row: AgentRow) {
    row.parent == None || row.role == CONTROLLER_ROLE
  }

  /** The target is not stopped already and has no task in flight. */
  predicate Idle(t: Tree, tasks: TaskTable, a: Id)
    requires a in t
  {
    t[a].status != Stopped && forall k :: k in tasks && tasks[k].agent == a ==> !InFlight(tasks[k].status)
  }

  /** What `validate` answers: the first refusal, or None for an accepted change. */
  ghost function Verdict(t: Tree, r: Id, tasks: TaskTable, limits: Limits, demo: bool, c: OrgChange)
    : Option<PolicyError>
    requires WellFormed(t, r, limits.maxDepth)
  {
    if c.op == SpawnOp then
      if !ParentOk(t, c) then Some(InvalidOutput)
      else SpawnRefusal(limits, t[ParentId(c, r)].depth + 1, |LiveIds(t)|, c.capabilities, demo)
    else if c.agentId.None? || c.agentId.value !in t then Some(InvalidOutput)
    else if IsController(t[c.agentId.value]) then Some(PolicyRefusal)
    else if c.op == RetireOp then RetireVerdict(t, tasks, c.agentId.value)
    else if !ParentOk(t, c) then Some(InvalidOutput)
    else if c.op == ReparentOp then ReparentVerdict(t, limits, c.agentId.value, ParentId(c, r))
    else if !Idle(t, tasks, c.agentId.value) then Some(InvalidOutput)
    else ReplaceVerdict(t, limits, demo, c, ParentId(c, r))
  }

  /** A live agent stands strictly below `a`. */
  ghost predicate LiveBelow(t: Tree, a: Id)
    requires Levelled(t)
  {
    exists x :: x in t && Under(t, x, a) && t[x].status != Stopped
  }

  ghost function RetireVerdict(t: Tree, tasks: TaskTable, a: Id): Option<PolicyError>
    requires Levelled(t) && a in t
  {
    if !Idle(t, tasks, a) then Some(InvalidOutput)
    else if LiveBelow(t, a) then Some(InvalidOutput)
    else None
  }

  ghost function ReparentVerdict(t: Tree, limits: Limits, a: Id, p: Id): Option<PolicyError>
    requires Levelled(t) && a in t && p in t
  {
    if InSubtree(t, p, a) then Some(InvalidOutput)
    else if !Fits(t, a, t[p].depth + 1, limits.maxDepth) then Some(ResourceExhausted)
    else None
  }

  ghost function ReplaceVerdict(t: Tree, limits: Limits, demo: bool, c: OrgChange, p: Id): Option<PolicyError>
    requires Levelled(t) && p in t && c.agentId.Some? && c.agentId.value in t
  {
    var refusal := SpawnRefusal(limits, t[p].depth + 1, |LiveIds(t)| - 1, c.capabilities, demo);
    if refusal.Some? then refusal
    else if !Fits(t, c.agentId.value, t[p].depth + 1, limits.maxDepth) then Some(ResourceExhausted)
    else None
  }

  ghost predicate Acceptable(t: Tree, r: Id, tasks: TaskTable, limits: Limits, demo: bool, c: OrgChange)
    requires WellFormed(t, r, limits.maxDepth)
  {
    Verdict(t, r, tasks, limits, demo, c) == None
  }

  /** `validate` does not ask this of a replacement's parent. */
  ghost predicate ReplacesOutside(t: Tree, r: Id, c: OrgChange)
    requires Levelled(t)
  {
    c.op == ReplaceOp && c.agentId.Some? ==> !InSubtree(t, ParentId(c, r), c.agentId.value)
  }

  /** The capabilities a recruit is given: at least reasoning. */
  function GrantedSkills(capabilities: set<Capability>): set<Capability> {
    if capabilities == {} then {Reason} else capabilities
  }

  /** The agent a change recruits. */
  function Newcomer(t: Tree, r: Id, c: OrgChange, newId: Id): AgentRow
    requires ParentId(c, r) in t
  {
    NewRow(newId, c.role, GrantedSkills(c.capabilities), Some(ParentId(c, r)), t[ParentId(c, r)].depth + 1)
  }

  function Grown(t: Tree, row: AgentRow): Tree {
    t[row.id := row]
  }

  function Retired(t: Tree, a: Id): Tree
    requires a in t
  {
    t[a := t[a].(status := AgentStatus.Stopped)]
  }

  ghost function ChildrenOf(t: Tree, a: Id): set<Id> {
    set x | x in t && t[x].parent == Some(a)
  }

  ghost predicate BelowOne(t: Tree, x: Id, tops: set<Id>)
    requires Levelled(t)
  {
    exists d :: d in tops && Under(t, x, d)
  }

  /** `target` stopped, `row` recruited under `p`, and those of `target`'s children that are in `done`
      hung, with their subtrees, under the recruit. */
  ghost function Rehung(t: Tree, target: Id, p: Id, row: AgentRow, done: set<Id>): Tree
    requires Levelled(t) && target in t && p in t
  {
    map x | x in t.Keys + {row.id} ::
      if x == row.id then row
      else if x == target then t[x].(status := AgentStatus.Stopped)
      else if x in done then t[x].(parent := Some(row.id), depth := t[p].depth + 2)
      else if BelowOne(t, x, done) then t[x].(depth := t[x].depth - t[target].depth + t[p].depth + 1)
      else t[x]
  }

  /** `row` is a recruit to replace `target`, wherever its parent `p` lies. */
  ghost predicate Recruiting(t: Tree, target: Id, p: Id, row: AgentRow) {
    && Levelled(t) && target in t && p in t
    && row.id !in t && row.parent == Some(p) && row.depth == t[p].depth + 1
  }

  /** The shape of a replacement whose parent lies outside the target's subtree. */
  ghost predicate Replacing(t: Tree, target: Id, p: Id, row: AgentRow, done: set<Id>) {
    Recruiting(t, target, p, row) && !InSubtree(t, p, target) && done <= ChildrenOf(t, target)
  }

  lemma BelowDoneIsUnder(t: Tree, target: Id, p: Id, row: AgentRow, done: set<Id>, x: Id)
    requires Replacing(t, target, p, row, done) && x in t && (x in done || BelowOne(t, x, done))
    ensures Under(t, x, target) && x != target && t[x].depth > t[target].depth
  {
    if BelowOne(t, x, done) && x !in done {
      var d :| d in done && Under(t, x, d);
      UnderTransitive(t, x, d, target);
    } else {
      assert LevelAt(t, x);
    }
    UnderIsDeeper(t, x, target);
  }

  /** Moving some of the children leaves every level right. */
  lemma RehungLevelled(t: Tree, target: Id, p: Id, row: AgentRow, done: set<Id>)
    requires Replacing(t, target, p, row, done)
    ensures Levelled(Rehung(t, target, p, row, done))
  {
    var t' := Rehung(t, target, p, row, done);
    forall x | x in t' ensures LevelAt(t', x) {
      if x == row.id {
        if p in done || BelowOne(t, p, done) { BelowDoneIsUnder(t, target, p, row, done, p); }
        assert LevelAt(t, p);
      } else {
        assert LevelAt(t, x);
        RehungLevelAt(t, target, p, row, done, x);
      }
    }
  }

  lemma BelowDoneDown(t: Tree, x: Id, done: set<Id>)
    requires Levelled(t) && x in t && LevelAt(t, x) && t[x].parent.Some?
    requires t[x].parent.value in done || BelowOne(t, t[x].parent.value, done)
    ensures BelowOne(t, x, done)
  {
    var q := t[x].parent.value;
    if q in done {
      assert Under(t, x, q);
    } else {
      var d :| d in done && Under(t, q, d);
      assert Under(t, x, d);
    }
  }

  lemma RehungLevelAt(t: Tree, target: Id, p: Id, row: AgentRow, done: set<Id>, x: Id)
    requires Replacing(t, target, p, row, done) && x in t && LevelAt(t, x)
    ensures LevelAt(Rehung(t, target, p, row, done), x)
  {
    assert LevelAt(t, p);
    if x in done || BelowOne(t, x, done) {
      BelowDoneIsUnder(t, target, p, row, done, x);
    }
    if t[x].parent.Some? {
      var q := t[x].parent.value;
      if q in done || BelowOne(t, q, done) {
        BelowDoneIsUnder(t, target, p, row, done, q);
        BelowDoneDown(t, x, done);
      }
      if BelowOne(t, x, done) {
        var d :| d in done && Under(t, x, d);
        assert q == d || Under(t, q, d);
      }
    }
  }

  /** Seen from a child not yet moved, the subtree is the one it had before. */
  lemma {:induction false} RehungUnder(t: Tree, target: Id, p: Id, row: AgentRow, done: set<Id>, x: Id, k: Id)
    requires Replacing(t, target, p, row, done) && Levelled(Rehung(t, target, p, row, done))
    requires k in ChildrenOf(t, target) && k !in done && x in t
    ensures Under(Rehung(t, target, p, row, done), x, k) <==> Under(t, x, k)
    decreases t[x].depth
  {
    var t' := Rehung(t, target, p, row, done);
    assert LevelAt(t, x) && LevelAt(t', x) && LevelAt(t, k) && LevelAt(t', row.id);
    if x in done {
      assert t'[x].parent == Some(row.id) && t[x].parent == Some(target);
      RehungOutside(t, target, p, row, done, p, k);
      NotUnderKid(t, target, k);
    } else if t[x].parent.Some? {
      RehungUnder(t, target, p, row, done, t[x].parent.value, k);
    }
  }

  lemma NotUnderKid(t: Tree, target: Id, k: Id)
    requires Levelled(t) && target in t && k in ChildrenOf(t, target)
    ensures !InSubtree(t, target, k)
  {
    assert LevelAt(t, k);
    if Under(t, target, k) { UnderIsDeeper(t, target, k); }
  }

  /** Outside the target's subtree nothing moves. */
  lemma {:induction false} RehungOutside(t: Tree, target: Id, p: Id, row: AgentRow, done: set<Id>, x: Id, k: Id)
    requires Replacing(t, target, p, row, done) && Levelled(Rehung(t, target, p, row, done))
    requires k in ChildrenOf(t, target) && x in t && !InSubtree(t, x, target)
    ensures !InSubtree(Rehung(t, target, p, row, done), x, k)
    decreases t[x].depth
  {
    assert LevelAt(t, x);
    if x in done || BelowOne(t, x, done) { BelowDoneIsUnder(t, target, p, row, done, x); }
    if t[x].parent.Some? {
      RehungOutside(t, target, p, row, done, t[x].parent.value, k);
    }
  }

  /** Moving one more child is one more subtree move. */
  lemma RehungStep(t: Tree, target: Id, p: Id, row: AgentRow, done: set<Id>, k: Id)
    requires Replacing(t, target, p, row, done) && k in ChildrenOf(t, target) && k !in done
    ensures var t' := Rehung(t, target, p, row, done);
            && Levelled(t') && k in t' && row.id in t' && !InSubtree(t', row.id, k)
            && Moved(t', k, row.id) == Rehung(t, target, p, row, done + {k})
  {
    var t' := Rehung(t, target, p, row, done);
    RehungLevelled(t, target, p, row, done);
    RehungOutside(t, target, p, row, done, p, k);
    assert LevelAt(t', row.id) && LevelAt(t, k);
    KidUntouched(t, target, p, row, done, k);
    forall x | x in t' ensures Moved(t', k, row.id)[x] == Rehung(t, target, p, row, done + {k})[x] {
      if x != row.id {
        RehungUnder(t, target, p, row, done, x, k);
        RehungRow(t, target, p, row, done, k, x);
      }
    }
  }

  lemma KidUntouched(t: Tree, target: Id, p: Id, row: AgentRow, done: set<Id>, k: Id)
    requires Replacing(t, target, p, row, done) && k in ChildrenOf(t, target) && k !in done
    ensures Rehung(t, target, p, row, done)[k] == t[k] && !BelowOne(t, k, done) && k != target && k != row.id
  {
    assert LevelAt(t, k);
    if BelowOne(t, k, done) {
      var d :| d in done && Under(t, k, d);
      assert LevelAt(t, d);
      UnderIsDeeper(t, k, d);
    }
  }

  lemma RehungRow(t: Tree, target: Id, p: Id, row: AgentRow, done: set<Id>, k: Id, x: Id)
    requires Replacing(t, target, p, row, done) && k in ChildrenOf(t, target) && k !in done && x in t
    ensures var now, next := Rehung(t, target, p, row, done)[x], Rehung(t, target, p, row, done + {k})[x];
            next == if x == k then now.(parent := Some(row.id), depth := t[p].depth + 2)
                    else if Under(t, x, k) then now.(depth := now.depth - t[k].depth + t[p].depth + 2)
                    else now
  {
    assert LevelAt(t, k);
    KidUntouched(t, target, p, row, done, k);
    assert BelowOne(t, x, done + {k}) <==> BelowOne(t, x, done) || Under(t, x, k) by {
      if BelowOne(t, x, done) { var d :| d in done && Under(t, x, d); assert d in done + {k}; }
      if Under(t, x, k) { assert k in done + {k}; }
    }
    if Under(t, x, k) {
      NotUnderKid(t, target, k);
      assert x != target;
      if x in done || BelowOne(t, x, done) {
        var d :| d in done && InSubtree(t, x, d);
        assert LevelAt(t, d);
        SameDepthAncestors(t, x, d, k);
      }
    }
  }

  /** The tree after an accepted change; `newId` is the id of the agent it recruits, if any. */
  ghost function After(t: Tree, r: Id, c: OrgChange, newId: Id): Tree
    requires Levelled(t) && (c.op != RetireOp ==> ParentId(c, r) in t)
    requires c.op != SpawnOp ==> c.agentId.Some? && c.agentId.value in t
  {
    match c.op
    case SpawnOp => Grown(t, Newcomer(t, r, c, newId))
    case RetireOp => Retired(t, c.agentId.value)
    case ReparentOp => Moved(t, c.agentId.value, ParentId(c, r))
    case ReplaceOp =>
      Rehung(t, c.agentId.value, ParentId(c, r), Newcomer(t, r, c, newId), ChildrenOf(t, c.agentId.value))
  }

  lemma GrownWellFormed(t: Tree, r: Id, limit: int, row: AgentRow)
    requires WellFormed(t, r, limit) && row.id !in t && row.parent.Some? && row.parent.value in t
    requires row.depth == t[row.parent.value].depth + 1 <= limit
    ensures WellFormed(Grown(t, row), r, limit)
  {
    var t' := Grown(t, row);
    assert LevelAt(t, row.parent.value);
    forall x | x in t' ensures LevelAt(t', x) {
      if x != row.id { assert LevelAt(t, x); }
    }
  }

  lemma GrownHeads(t: Tree, row: AgentRow)
    requires row.id !in t && row.status != Stopped
    ensures LiveIds(Grown(t, row)) == LiveIds(t) + {row.id} && |LiveIds(Grown(t, row))| == |LiveIds(t)| + 1
  {
    assert LiveIds(Grown(t, row)) == LiveIds(t) + {row.id};
  }

  lemma SpawnKeepsOrg(t: Tree, r: Id, limits: Limits, row: AgentRow)
    requires GoodOrg(t, r, limits) && row.id !in t && row.parent.Some? && row.parent.value in t
    requires row.depth == t[row.parent.value].depth + 1 <= limits.maxDepth
    requires t[row.parent.value].status != Stopped && |LiveIds(t)| < limits.maxAgents && row.status != Stopped
    ensures GoodOrg(Grown(t, row), r, limits)
  {
    var t' := Grown(t, row);
    GrownWellFormed(t, r, limits.maxDepth, row);
    GrownHeads(t, row);
    forall x | x in t' ensures LiveParentAt(t', x) {
      if x != row.id { assert LiveParentAt(t, x) && LevelAt(t, x); }
    }
  }

  /** Stopping an agent changes neither links nor depths. */
  lemma RetiredWellFormed(t: Tree, r: Id, limit: int, a: Id)
    requires WellFormed(t, r, limit) && a in t
    ensures WellFormed(Retired(t, a), r, limit)
  {
    var t' := Retired(t, a);
    forall x | x in t' ensures LevelAt(t', x) {
      assert LevelAt(t, x);
    }
  }

  lemma RetiredLiveParents(t: Tree, a: Id)
    requires Levelled(t) && LiveParents(t) && a in t
    requires forall x :: x in t && Under(t, x, a) ==> t[x].status == Stopped
    ensures LiveParents(Retired(t, a))
  {
    var t' := Retired(t, a);
    forall x | x in t' ensures LiveParentAt(t', x) {
      assert LiveParentAt(t, x) && LevelAt(t, x);
      if t[x].parent == Some(a) { assert Under(t, x, a); }
    }
  }

  lemma RetiredHeads(t: Tree, a: Id)
    requires a in t
    ensures LiveIds(Retired(t, a)) == LiveIds(t) - {a} && |LiveIds(Retired(t, a))| <= |LiveIds(t)|
    ensures t[a].status != Stopped ==> |LiveIds(Retired(t, a))| == |LiveIds(t)| - 1
  {
    assert LiveIds(Retired(t, a)) == LiveIds(t) - {a};
  }

  lemma RetireKeepsOrg(t: Tree, r: Id, limits: Limits, a: Id)
    requires GoodOrg(t, r, limits) && a in t && a != r
    requires forall x :: x in t && Under(t, x, a) ==> t[x].status == Stopped
    ensures GoodOrg(Retired(t, a), r, limits)
  {
    RetiredWellFormed(t, r, limits.maxDepth, a);
    RetiredLiveParents(t, a);
    RetiredHeads(t, a);
  }

  lemma ReparentWellFormed(t: Tree, r: Id, limit: int, a: Id, p: Id)
    requires WellFormed(t, r, limit) && a in t && a != r && p in t
    requires !InSubtree(t, p, a) && Fits(t, a, t[p].depth + 1, limit)
    ensures WellFormed(Moved(t, a, p), r, limit)
  {
    MovedLevelled(t, a, p);
    MovedRooted(t, r, a, p);
  }

  lemma MovedHeads(t: Tree, a: Id, p: Id)
    requires Levelled(t) && a in t && p in t
    ensures LiveIds(Moved(t, a, p)) == LiveIds(t)
  {
  }

  lemma MoveKeepsOrg(t: Tree, r: Id, limits: Limits, a: Id, p: Id)
    requires GoodOrg(t, r, limits) && a in t && a != r && p in t && t[p].status != Stopped
    requires !InSubtree(t, p, a) && Fits(t, a, t[p].depth + 1, limits.maxDepth)
    ensures GoodOrg(Moved(t, a, p), r, limits)
  {
    var t' := Moved(t, a, p);
    ReparentWellFormed(t, r, limits.maxDepth, a, p);
    MovedHeads(t, a, p);
    forall x | x in t' ensures LiveParentAt(t', x) {
      assert LiveParentAt(t, x);
      assert t'[x].parent == if x == a then Some(p) else t[x].parent;
    }
  }

  lemma RehungStatus(t: Tree, target: Id, p: Id, row: AgentRow, x: Id)
    requires Replacing(t, target, p, row, ChildrenOf(t, target)) && x in t
    ensures var x' := Rehung(t, target, p, row, ChildrenOf(t, target))[x];
            && x'.status == (if x == target then AgentStatus.Stopped else t[x].status)
            && x'.parent == (if t[x].parent == Some(target) then Some(row.id) else t[x].parent)
            && (x'.depth == t[x].depth
                || (InSubtree(t, x, target) && x'.depth == t[x].depth - t[target].depth + t[p].depth + 1))
  {
    var done := ChildrenOf(t, target);
    if x in done || BelowOne(t, x, done) {
      BelowDoneIsUnder(t, target, p, row, done, x);
    }
    assert LevelAt(t, x);
  }

  lemma ReplacedRooted(t: Tree, r: Id, limits: Limits, target: Id, p: Id, row: AgentRow)
    requires Replacing(t, target, p, row, ChildrenOf(t, target)) && Rooted(t, r) && Within(t, limits.maxDepth)
    requires row.depth <= limits.maxDepth && Fits(t, target, t[p].depth + 1, limits.maxDepth)
    ensures Rooted(Rehung(t, target, p, row, ChildrenOf(t, target)), r)
    ensures Within(Rehung(t, target, p, row, ChildrenOf(t, target)), limits.maxDepth)
  {
    var t' := Rehung(t, target, p, row, ChildrenOf(t, target));
    forall x | x in t' ensures t'[x].depth <= limits.maxDepth && (t'[x].parent == None <==> x == r) {
      if x != row.id { RehungStatus(t, target, p, row, x); }
    }
  }

  lemma ReplacedLiveParents(t: Tree, target: Id, p: Id, row: AgentRow)
    requires Replacing(t, target, p, row, ChildrenOf(t, target)) && LiveParents(t)
    requires t[p].status != Stopped && row.status != Stopped
    ensures LiveParents(Rehung(t, target, p, row, ChildrenOf(t, target)))
  {
    var t' := Rehung(t, target, p, row, ChildrenOf(t, target));
    forall x | x in t' ensures LiveParentAt(t', x) {
      RehungStatus(t, target, p, row, p);
      if x != row.id {
        RehungStatus(t, target, p, row, x);
        assert LiveParentAt(t, x) && LevelAt(t, x);
        if t[x].parent.Some? { RehungStatus(t, target, p, row, t[x].parent.value); }
      }
    }
  }

  lemma ReplacedHeads(t: Tree, target: Id, p: Id, row: AgentRow)
    requires Replacing(t, target, p, row, ChildrenOf(t, target))
    requires t[target].status != Stopped && row.status != Stopped
    ensures var t' := Rehung(t, target, p, row, ChildrenOf(t, target));
            && LiveIds(t') == LiveIds(t) - {target} + {row.id} && |LiveIds(t')| == |LiveIds(t)|
            && t'[target].status == Stopped && ChildrenOf(t', target) == {}
  {
    var t' := Rehung(t, target, p, row, ChildrenOf(t, target));
    forall x | x in t'
      ensures x in LiveIds(t') <==> x in LiveIds(t) - {target} + {row.id}
      ensures t'[x].parent != Some(target)
    {
      if x != row.id { RehungStatus(t, target, p, row, x); }
    }
  }

  /** Replacing an agent keeps the organization good and its live head count unchanged, and leaves the
      target a stopped leaf. */
  lemma ReplaceKeepsOrg(t: Tree, r: Id, limits: Limits, target: Id, p: Id, row: AgentRow)
    requires GoodOrg(t, r, limits) && Replacing(t, target, p, row, ChildrenOf(t, target)) && target != r
    requires t[target].status != Stopped && t[p].status != Stopped && row.status != Stopped
    requires row.depth <= limits.maxDepth && Fits(t, target, t[p].depth + 1, limits.maxDepth)
    ensures var t' := Rehung(t, target, p, row, ChildrenOf(t, target));
            && GoodOrg(t', r, limits) && |LiveIds(t')| == |LiveIds(t)|
            && t'[target].status == Stopped && ChildrenOf(t', target) == {}
  {
    RehungLevelled(t, target, p, row, ChildrenOf(t, target));
    ReplacedRooted(t, r, limits, target, p, row);
    ReplacedLiveParents(t, target, p, row);
    ReplacedHeads(t, target, p, row);
    RehungStatus(t, target, p, row, r);
  }

  /** Every accepted change keeps the tree well formed, whoever is stopped; a replacement additionally
      needs its parent to lie outside the subtree it replaces. */
  lemma ChangeKeepsTree(t: Tree, r: Id, tasks: TaskTable, limits: Limits, demo: bool, c: OrgChange, newId: Id)
    requires WellFormed(t, r, limits.maxDepth) && Acceptable(t, r, tasks, limits, demo, c)
    requires newId !in t && ReplacesOutside(t, r, c)
    ensures WellFormed(After(t, r, c, newId), r, limits.maxDepth)
    ensures c.op == SpawnOp ==> |LiveIds(After(t, r, c, newId))| == |LiveIds(t)| + 1 <= limits.maxAgents
    ensures c.op == ReparentOp || c.op == ReplaceOp ==> |LiveIds(After(t, r, c, newId))| == |LiveIds(t)|
    ensures c.op == RetireOp ==> |LiveIds(After(t, r, c, newId))| == |LiveIds(t)| - 1
  {
    match c.op {
      case SpawnOp =>
        GrownWellFormed(t, r, limits.maxDepth, Newcomer(t, r, c, newId));
        GrownHeads(t, Newcomer(t, r, c, newId));
      case RetireOp =>
        RetiredWellFormed(t, r, limits.maxDepth, c.agentId.value);
        RetiredHeads(t, c.agentId.value);
      case ReparentOp =>
        ReparentWellFormed(t, r, limits.maxDepth, c.agentId.value, ParentId(c, r));
        MovedHeads(t, c.agentId.value, ParentId(c, r));
      case ReplaceOp =>
        var target, p, row := c.agentId.value, ParentId(c, r), Newcomer(t, r, c, newId);
        RehungLevelled(t, target, p, row, ChildrenOf(t, target));
        ReplacedRooted(t, r, limits, target, p, row);
        ReplacedHeads(t, target, p, row);
    }
  }

  /** Every accepted change keeps the organization good, on the same condition. */
  lemma ChangeKeepsOrg(t: Tree, r: Id, tasks: TaskTable, limits: Limits, demo: bool, c: OrgChange, newId: Id)
    requires GoodOrg(t, r, limits) && Acceptable(t, r, tasks, limits, demo, c)
    requires newId !in t && ReplacesOutside(t, r, c)
    ensures GoodOrg(After(t, r, c, newId), r, limits)
  {
    match c.op {
      case SpawnOp => SpawnKeepsOrg(t, r, limits, Newcomer(t, r, c, newId));
      case RetireOp => RetireKeepsOrg(t, r, limits, c.agentId.value);
      case ReparentOp => MoveKeepsOrg(t, r, limits, c.agentId.value, ParentId(c, r));
      case ReplaceOp => ReplaceKeepsOrg(t, r, limits, c.agentId.value, ParentId(c, r), Newcomer(t, r, c, newId));
    }
  }

  /** The parent links and statuses of a replacement once the children in `done` have been moved, whatever
      the depths. */
  ghost predicate HalfLinked(t: Tree, target: Id, p: Id, row: AgentRow, done: set<Id>, t': Tree) {
    && t'.Keys == t.Keys + {row.id} && t'[row.id].parent == Some(p) && t'[row.id].status != Stopped
    && t'[row.id] == row.(depth := t'[row.id].depth)
    && forall x :: x in t ==>
         && t'[x].status == (if x == target then AgentStatus.Stopped else t[x].status)
         && t'[x].parent == (if x in done then Some(row.id) else t[x].parent)
         && t'[x] == t[x].(status := t'[x].status, parent := t'[x].parent, depth := t'[x].depth)
  }

  ghost predicate ReplaceLinks(t: Tree, target: Id, p: Id, row: AgentRow, t': Tree) {
    HalfLinked(t, target, p, row, ChildrenOf(t, target), t')
  }

  /** Half-way through a replacement: the links, a part `s` that is still a tree and holds the children yet
      to be moved, and for an outside parent the exact tree. */
  ghost predicate Rehanging(t: Tree, target: Id, p: Id, row: AgentRow, done: set<Id>, s: Tree, now: Tree)
    requires Levelled(t) && target in t && p in t
  {
    && done <= ChildrenOf(t, target) && HalfLinked(t, target, p, row, done, now)
    && PartOf(s, now) && ChildrenOf(t, target) - done <= s.Keys
    && (!InSubtree(t, p, target) ==> s == now == Rehung(t, target, p, row, done))
  }

  lemma NothingRehung(t: Tree, target: Id, p: Id, row: AgentRow)
    requires Levelled(t) && target in t && p in t && row.id !in t
    ensures Grown(Retired(t, target), row) == Rehung(t, target, p, row, {})
  {
  }

  lemma RehangStart(t: Tree, target: Id, p: Id, row: AgentRow)
    requires Recruiting(t, target, p, row) && row.status != Stopped
    ensures var u := Grown(Retired(t, target), row); Rehanging(t, target, p, row, {}, u, u)
  {
    var u := Grown(Retired(t, target), row);
    NothingRehung(t, target, p, row);
    forall x | x in u ensures LevelAt(u, x) {
      assert LevelAt(t, p) && (x != row.id ==> LevelAt(t, x));
    }
  }

  lemma OneMoreLinked(t: Tree, target: Id, p: Id, row: AgentRow, done: set<Id>, s: Tree, now: Tree, k: Id, depth: int)
    requires row.id !in t && HalfLinked(t, target, p, row, done, now) && PartOf(s, now)
    requires k in s && k in t && k !in done
    ensures HalfLinked(t, target, p, row, done + {k}, MovedIn(s, now, k, row.id, depth))
  {
    hide Levelled, Under;
    var next := MovedIn(s, now, k, row.id, depth);
    assert next.Keys == now.Keys;
    forall x | x in now
      ensures next[x].status == now[x].status && next[x].parent == if x == k then Some(row.id) else now[x].parent
    {
    }
  }

  lemma OthersStay(t: Tree, target: Id, p: Id, row: AgentRow, done: set<Id>, s: Tree, now: Tree, k: Id)
    requires HalfLinked(t, target, p, row, done, now) && PartOf(s, now) && ChildrenOf(t, target) - done <= s.Keys
    requires k in ChildrenOf(t, target) && k !in done
    ensures ChildrenOf(t, target) - (done + {k}) <= PartAfter(s, k, row.id).Keys
  {
    forall b | b in ChildrenOf(t, target) - (done + {k}) ensures b in PartAfter(s, k, row.id) {
      assert b in t && k in t && b in s && k in s;
      assert s[b].parent == now[b].parent == Some(target) && s[k].parent == now[k].parent == Some(target);
      SiblingStays(s, k, row.id, b);
    }
  }

  /** One turn of the loop, wherever the recruit's parent lies. */
  lemma RehangTurn(t: Tree, target: Id, p: Id, row: AgentRow, done: set<Id>, s: Tree, now: Tree, k: Id)
    requires Recruiting(t, target, p, row) && Rehanging(t, target, p, row, done, s, now)
    requires k in ChildrenOf(t, target) && k !in done
    ensures k in s && row.id in now
    ensures Rehanging(t, target, p, row, done + {k}, PartAfter(s, k, row.id),
                      MovedIn(s, now, k, row.id, now[row.id].depth + 1))
  {
    hide PartOf, MovedIn, Moved, Rehung, PartAfter, Levelled, Under;
    assert k in ChildrenOf(t, target) - done;
    PartStays(s, now, k, row.id);
    OneMoreLinked(t, target, p, row, done, s, now, k, now[row.id].depth + 1);
    OthersStay(t, target, p, row, done, s, now, k);
    if !InSubtree(t, p, target) {
      RehungStep(t, target, p, row, done, k);
      WholeMoves(s, k, row.id);
    }
  }

  /** If the replacement's parent is inside the replaced subtree, no depths make the result a good
      organization: either the links form a cycle, or a live agent hangs under the stopped target. */
  lemma ReplaceInsideBreaks(t: Tree, target: Id, p: Id, row: AgentRow, t': Tree)
    requires Levelled(t) && target in t && p in t && row.id !in t && InSubtree(t, p, target)
    requires ReplaceLinks(t, target, p, row, t')
    ensures !(Levelled(t') && LiveParents(t'))
  {
    if p == target {
      assert !LiveParentAt(t', row.id);
    } else {
      var k := UnderViaChild(t, p, target);
      var u := t[row.id := row.(id := row.id, parent := Some(p), depth := t[p].depth + 1)];
      assert Levelled(u) by {
        forall x | x in u ensures LevelAt(u, x) {
          if x != row.id { assert LevelAt(t, x); } else { assert LevelAt(t, p); }
        }
      }
      assert LevelAt(t, k) && LevelAt(u, row.id);
      GrownUnder(t, u, row.id, p, k);
      assert InSubtree(u, row.id, k);
      forall y | y in u && Under(u, y, k) && y != k ensures y in t' && t'[y].parent == u[y].parent {
        if y != row.id && t[y].parent == Some(target) {
          assert LevelAt(t, y);
          GrownUnder(t, u, row.id, y, k);
          UnderIsDeeper(t, y, k);
        }
      }
      CycleHasNoLevels(u, t', k, row.id);
    }
  }

  /** Adding a leaf changes no other agent's ancestors. */
  lemma {:induction false} GrownUnder(t: Tree, u: Tree, leaf: Id, x: Id, k: Id)
    requires Levelled(t) && Levelled(u) && leaf !in t && u.Keys == t.Keys + {leaf}
    requires forall y :: y in t ==> u[y] == t[y]
    requires x in t
    ensures Under(u, x, k) <==> Under(t, x, k)
    decreases t[x].depth
  {
    assert LevelAt(t, x) && LevelAt(u, x);
    if t[x].parent.Some? {
      GrownUnder(t, u, leaf, t[x].parent.value, k);
    }
  }

  /** What an accepted change makes of the tree: for a replacement whose parent lies inside the subtree it
      replaces, the links are certain and the result is no good organization. */
  ghost predicate Effect(t: Tree, r: Id, c: OrgChange, newId: Id, t': Tree)
    requires Levelled(t) && (c.op != RetireOp ==> ParentId(c, r) in t)
    requires c.op != SpawnOp ==> c.agentId.Some? && c.agentId.value in t
  {
    if ReplacesOutside(t, r, c) then t' == After(t, r, c, newId)
    else ReplaceLinks(t, c.agentId.value, ParentId(c, r), Newcomer(t, r, c, newId), t')
  }

  lemma RehungLinked(t: Tree, target: Id, p: Id, row: AgentRow)
    requires Replacing(t, target, p, row, ChildrenOf(t, target)) && row.status != Stopped
    ensures ReplaceLinks(t, target, p, row, Rehung(t, target, p, row, ChildrenOf(t, target)))
  {
    var t' := Rehung(t, target, p, row, ChildrenOf(t, target));
    forall x | x in t
      ensures t'[x].status == (if x == target then AgentStatus.Stopped else t[x].status)
      ensures t'[x].parent == (if x in ChildrenOf(t, target) then Some(row.id) else t[x].parent)
    {
      RehungStatus(t, target, p, row, x);
    }
  }

  /** The exact condition under which an accepted replacement leaves a good organization. */
  lemma ReplaceKeepsOrgExactly(t: Tree, r: Id, tasks: TaskTable, limits: Limits, demo: bool, c: OrgChange, newId: Id)
    requires GoodOrg(t, r, limits) && c.op == ReplaceOp && Acceptable(t, r, tasks, limits, demo, c) && newId !in t
    ensures (exists t' :: ReplaceLinks(t, c.agentId.value, ParentId(c, r),
                                       Newcomer(t, r, c, newId), t')
                          && GoodOrg(t', r, limits))
            <==> ReplacesOutside(t, r, c)
  {
    var target, p := c.agentId.value, ParentId(c, r);
    var row := Newcomer(t, r, c, newId);
    if ReplacesOutside(t, r, c) {
      ChangeKeepsOrg(t, r, tasks, limits, demo, c, newId);
      var t' := After(t, r, c, newId);
      RehungLinked(t, target, p, row);
    } else {
      forall t' | ReplaceLinks(t, target, p, row, t') ensures !GoodOrg(t', r, limits) {
        ReplaceInsideBreaks(t, target, p, row, t');
      }
    }
  }

  /** Such a replacement is accepted: here the target's own child is named as the parent. */
  lemma ReplaceInsideIsAccepted() returns (t: Tree, limits: Limits, c: OrgChange)
    ensures GoodOrg(t, 0, limits) && c.op == ReplaceOp && Acceptable(t, 0, map[], limits, false, c)
    ensures !ReplacesOutside(t, 0, c)
  {
    t := map[0 := AgentRow(0, None, CONTROLLER_ROLE, {}, 0, Running, None),
             1 := AgentRow(1, Some(0), "a", {}, 1, Running, None),
             2 := AgentRow(2, Some(1), "b", {}, 2, Running, None)];
    limits := Limits(4, 8, 8);
    c := OrgChange(ReplaceOp, Some(1), Some(2), "c", {});
    assert LiveIds(t) == {0, 1, 2};
    assert Levelled(t) by {
      forall x | x in t ensures LevelAt(t, x) {}
    }
    assert LevelAt(t, 2);
    assert Under(t, 2, 1);
  }

  /** An accepted change, with `newId` for the agent it recruits. */
  ghost predicate Makes(t: Tree, t': Tree, r: Id, tasks: TaskTable, limits: Limits, demo: bool, c: OrgChange,
        newId: Id)
  {
    && WellFormed(t, r, limits.maxDepth) && Acceptable(t, r, tasks, limits, demo, c)
    && newId !in t && ReplacesOutside(t, r, c) && t' == After(t, r, c, newId)
  }

  ghost predicate ChangeStep(t: Tree, t': Tree, r: Id, limits: Limits) {
    exists tasks, demo, c, newId :: Makes(t, t', r, tasks, limits, demo, c, newId)
  }

  /** Only statuses and outputs differ, and no stopped agent is alive again. */
  ghost predicate Settled(t: Tree, t': Tree) {
    && t'.Keys == t.Keys
    && forall x :: x in t ==>
         && t'[x] == t[x].(status := t'[x].status, output := t'[x].output)
         && (t[x].status == Stopped ==> t'[x].status == Stopped)
  }

  lemma SettledKeepsTree(t: Tree, t': Tree, r: Id, limit: int)
    requires WellFormed(t, r, limit) && Settled(t, t')
    ensures WellFormed(t', r, limit) && |LiveIds(t')| <= |LiveIds(t)|
  {
    forall x | x in t' ensures LevelAt(t', x) {
      assert LevelAt(t, x);
    }
    assert LiveIds(t) == LiveIds(t') + (LiveIds(t) - LiveIds(t'));
  }

  /** A step of an organization's history: an accepted change, or status changes that stop nobody. */
  ghost predicate OrgStep(t: Tree, t': Tree, r: Id, limits: Limits) {
    ChangeStep(t, t', r, limits) || (Settled(t, t') && LiveIds(t') == LiveIds(t))
  }

  lemma SettledKeepsOrg(t: Tree, t': Tree, r: Id, limits: Limits)
    requires GoodOrg(t, r, limits) && Settled(t, t') && LiveIds(t') == LiveIds(t)
    ensures GoodOrg(t', r, limits)
  {
    SettledKeepsTree(t, t', r, limits.maxDepth);
    assert r in LiveIds(t');
    forall x | x in t' ensures LiveParentAt(t', x) {
      assert LiveParentAt(t, x) && LevelAt(t, x);
      assert x in LiveIds(t) <==> x in LiveIds(t');
      assert t[x].parent.Some? ==> (t[x].parent.value in LiveIds(t) <==> t[x].parent.value in LiveIds(t'));
    }
  }

  /** Over any history of accepted changes and working-status changes the tree stays well formed, no live
      agent hangs under a stopped one, and there are never more live agents than allowed. */
  lemma {:induction false} OrgStaysGood(history: seq<Tree>, r: Id, limits: Limits, n: nat)
    requires n < |history| && GoodOrg(history[0], r, limits)
    requires forall i :: 0 <= i < |history| - 1 ==> OrgStep(history[i], history[i + 1], r, limits)
    ensures GoodOrg(history[n], r, limits)
  {
    if n > 0 {
      OrgStaysGood(history, r, limits, n - 1);
      var t, t' := history[n - 1], history[n - 1 + 1];
      assert OrgStep(t, t', r, limits);
      if tasks, demo, c, newId :| Makes(t, t', r, tasks, limits, demo, c, newId) {
        ChangeKeepsOrg(t, r, tasks, limits, demo, c, newId);
      } else {
        SettledKeepsOrg(t, t', r, limits);
      }
    }
  }

  /** Any agents may be stopped besides: killed, or closed with their mission. */
  ghost predicate TreeStep(t: Tree, t': Tree, r: Id, limits: Limits) {
    ChangeStep(t, t', r, limits) || Settled(t, t')
  }

  lemma TreeStepKeeps(t: Tree, t': Tree, r: Id, limits: Limits)
    requires WellFormed(t, r, limits.maxDepth) && |LiveIds(t)| <= limits.maxAgents && TreeStep(t, t', r, limits)
    ensures WellFormed(t', r, limits.maxDepth) && |LiveIds(t')| <= limits.maxAgents
  {
    if tasks, demo, c, newId :| Makes(t, t', r, tasks, limits, demo, c, newId) {
      ChangeKeepsTree(t, r, tasks, limits, demo, c, newId);
    } else {
      SettledKeepsTree(t, t', r, limits.maxDepth);
    }
  }

  /** Then, too, there is always one root, every depth is right and within the limit, and there are never
      more live agents than allowed. */
  lemma {:induction false} TreeStaysWellFormed(history: seq<Tree>, r: Id, limits: Limits, n: nat)
    requires n < |history| && WellFormed(history[0], r, limits.maxDepth) && |LiveIds(history[0])| <= limits.maxAgents
    requires forall i :: 0 <= i < |history| - 1 ==> TreeStep(history[i], history[i + 1], r, limits)
    ensures WellFormed(history[n], r, limits.maxDepth) && |LiveIds(history[n])| <= limits.maxAgents
  {
    if n > 0 {
      TreeStaysWellFormed(history, r, limits, n - 1);
      TreeStepKeeps(history[n - 1], history[n - 1 + 1], r, limits);
    }
  }
}
