/** The organization of a mission as a value: agents by id, each naming its parent and caching its
    depth (app/org.py, app/models.py). */
module OrgTree {
  import opened Base

  type Id = nat

  datatype AgentStatus = Created | Running | Paused | Completed | Failed | Stopped | Blocked

  datatype Capability =
    | Reason | Write | Review | SpawnAgents | Coordinate | ProjectWork | Report | Unlisted(name: string)

  datatype AgentRow = AgentRow(id: Id, parent: Option<Id>, role: string, skills: set<Capability>, depth: int,
                               status: AgentStatus, output: Option<string>)
  type Tree = map<Id, AgentRow>

  ghost predicate LevelAt(t: Tree, x: Id)
    requires x in t
  {
    && t[x].id == x && t[x].depth >= 0
    && match t[x].parent
       case None => t[x].depth == 0
       case Some(p) => p in t && t[x].depth == t[p].depth + 1
  }

  /** Every parent is present and every cached depth is one more than the parent's. */
  ghost predicate Levelled(t: Tree) {
    forall x {:trigger LevelAt(t, x)} :: x in t ==> LevelAt(t, x)
  }

  /** `r` is the one agent without a parent. */
  ghost predicate Rooted(t: Tree, r: Id) {
    r in t && forall x :: x in t ==> (t[x].parent == None <==> x == r)
  }

  ghost predicate Within(t: Tree, limit: int) {
    forall x :: x in t ==> t[x].depth <= limit
  }

  /** One root, parents present, right depths, nothing below the depth limit. */
  ghost predicate WellFormed(t: Tree, r: Id, limit: int) {
    Levelled(t) && Rooted(t, r) && Within(t, limit)
  }

  ghost predicate LiveParentAt(t: Tree, x: Id)
    requires x in t
  {
    t[x].status != Stopped && t[x].parent.Some? && t[x].parent.value in t ==>
      t[t[x].parent.value].status != Stopped
  }

  /** No agent that is still alive hangs under a stopped one. */
  ghost predicate LiveParents(t: Tree) {
    forall x {:trigger LiveParentAt(t, x)} :: x in t ==> LiveParentAt(t, x)
  }

  function LiveIds(t: Tree): set<Id> {
    set x | x in t && t[x].status != Stopped
  }

  /** `x` is a strict descendant of `a`. */
  ghost predicate Under(t: Tree, x: Id, a: Id)
    requires Levelled(t)
    decreases if x in t then t[x].depth else 0
  {
    && x in t && LevelAt(t, x) && t[x].parent.Some?
    && (t[x].parent.value == a || Under(t, t[x].parent.value, a))
  }

  ghost predicate InSubtree(t: Tree, x: Id, a: Id)
    requires Levelled(t)
  {
    x == a || Under(t, x, a)
  }

  ghost predicate ChildOf(t: Tree, x: Id, a: Id) {
    x in t && t[x].parent == Some(a)
  }

  /** `h` is the greatest depth difference in the subtree of `a`. */
  ghost predicate IsHeight(t: Tree, a: Id, h: int)
    requires Levelled(t) && a in t
  {
    && (forall x :: x in t && InSubtree(t, x, a) ==> t[x].depth - t[a].depth <= h)
    && (exists x :: x in t && InSubtree(t, x, a) && t[x].depth - t[a].depth == h)
  }

  lemma {:induction false} UnderIsDeeper(t: Tree, x: Id, a: Id)
    requires Levelled(t) && Under(t, x, a)
    ensures a in t && t[a].depth < t[x].depth
    decreases t[x].depth
  {
    var p := t[x].parent.value;
    if p != a {
      UnderIsDeeper(t, p, a);
    }
  }

  lemma {:induction false} UnderTransitive(t: Tree, x: Id, y: Id, z: Id)
    requires Levelled(t) && Under(t, x, y) && Under(t, y, z)
    ensures Under(t, x, z)
    decreases t[x].depth
  {
    var p := t[x].parent.value;
    if p != y {
      UnderTransitive(t, p, y, z);
    }
  }

  /** Ancestors at one depth are one agent. */
  lemma {:induction false} SameDepthAncestors(t: Tree, x: Id, a: Id, b: Id)
    requires Levelled(t) && x in t && InSubtree(t, x, a) && InSubtree(t, x, b) && a in t && b in t
    requires t[a].depth == t[b].depth
    ensures a == b
    decreases t[x].depth
  {
    if x != a && x != b {
      SameDepthAncestors(t, t[x].parent.value, a, b);
    } else if x == a && x != b {
      UnderIsDeeper(t, x, b);
    } else if x == b && x != a {
      UnderIsDeeper(t, x, a);
    }
  }

  /** A strict descendant lies in the subtree of exactly one child. */
  lemma {:induction false} UnderViaChild(t: Tree, x: Id, a: Id) returns (c: Id)
    requires Levelled(t) && Under(t, x, a)
    ensures ChildOf(t, c, a) && InSubtree(t, x, c)
    decreases t[x].depth
  {
    var p := t[x].parent.value;
    if p == a {
      c := x;
    } else {
      c := UnderViaChild(t, p, a);
    }
  }

  lemma ChildSubtreeIsUnder(t: Tree, x: Id, c: Id, a: Id)
    requires Levelled(t) && ChildOf(t, c, a) && x in t && InSubtree(t, x, c)
    ensures Under(t, x, a)
  {
    if x != c {
      UnderTransitive(t, x, c, a);
    }
  }

  lemma {:induction false} AllUnderRoot(t: Tree, r: Id, x: Id)
    requires Levelled(t) && Rooted(t, r) && x in t
    ensures InSubtree(t, x, r)
    decreases t[x].depth
  {
    assert LevelAt(t, x);
    if x != r {
      AllUnderRoot(t, r, t[x].parent.value);
    }
  }

  /** `s` is the part of `t` that its agents make up: a tree by itself that holds all their children. */
  ghost predicate PartOf(s: Tree, t: Tree) {
    && Levelled(s) && s.Keys <= t.Keys && (forall x :: x in s ==> t[x] == s[x])
    && forall x :: x in t && t[x].parent.Some? && t[x].parent.value in s ==> x in s
  }

  /** `t` after the subtree that `a` has in its part `s` has been hung under `p`, with `a` at `depth`. */
  ghost function MovedIn(s: Tree, t: Tree, a: Id, p: Id, depth: int): Tree
    requires PartOf(s, t) && a in s
  {
    map x | x in t ::
      if x == a then t[x].(parent := Some(p), depth := depth)
      else if Under(s, x, a) then t[x].(depth := s[x].depth - s[a].depth + depth)
      else t[x]
  }

  /** Hanging `a`, with its whole subtree, under `p`. */
  ghost function Moved(t: Tree, a: Id, p: Id): Tree
    requires Levelled(t) && a in t && p in t
  {
    MovedIn(t, t, a, p, t[p].depth + 1)
  }

  /** Some bound on all depths. */
  lemma DepthBound(t: Tree) returns (limit: int)
    ensures Within(t, limit)
    decreases |t|
  {
    if t == map[] {
      limit := 0;
    } else {
      var x :| x in t;
      var rest := DepthBound(t - {x});
      limit := if rest > t[x].depth then rest else t[x].depth;
      forall y | y in t ensures t[y].depth <= limit {
        assert y == x || y in t - {x};
      }
    }
  }

  /** Following parents from inside a moved subtree would come back to it. */
  lemma {:induction false} NoLevelsOnCycle(t: Tree, t': Tree, x: Id, a: Id)
    requires Levelled(t) && Levelled(t') && a in t && a in t'
    requires Under(t, x, a)
    requires forall y :: y in t && Under(t, y, a) && y != a ==> y in t' && t'[y].parent == t[y].parent
    ensures x in t' && t'[x].depth > t'[a].depth
    decreases t[x].depth
  {
    var p := t[x].parent.value;
    assert x != a ==> LevelAt(t', x);
    if x == a {
      UnderIsDeeper(t, x, a);
    } else if p != a {
      NoLevelsOnCycle(t, t', p, a);
    }
  }

  lemma MovedLevelAt(t: Tree, a: Id, p: Id, x: Id)
    requires Levelled(t) && a in t && p in t && !InSubtree(t, p, a) && x in t
    ensures LevelAt(Moved(t, a, p), x)
  {
    assert LevelAt(t, x) && LevelAt(t, p);
    if x != a && Under(t, x, a) {
      UnderIsDeeper(t, x, a);
    }
  }

  lemma MovedLevelled(t: Tree, a: Id, p: Id)
    requires Levelled(t) && a in t && p in t && !InSubtree(t, p, a)
    ensures Levelled(Moved(t, a, p))
  {
    forall x | x in t ensures LevelAt(Moved(t, a, p), x) {
      MovedLevelAt(t, a, p, x);
    }
  }

  /** No depths whatever make a tree of parent links that hang `a` under its own subtree. */
  lemma CycleHasNoLevels(t: Tree, t': Tree, a: Id, p: Id)
    requires Levelled(t) && a in t && p in t && InSubtree(t, p, a)
    requires a in t' && t'[a].parent == Some(p)
    requires forall y :: y in t && Under(t, y, a) && y != a ==> y in t' && t'[y].parent == t[y].parent
    ensures !Levelled(t')
  {
    if Levelled(t') {
      assert LevelAt(t', a);
      if p != a {
        NoLevelsOnCycle(t, t', p, a);
      }
    }
  }

  /** What is left of a tree without the subtree of `a`. */
  ghost function Without(s: Tree, a: Id): Tree
    requires Levelled(s)
  {
    map x | x in s && !InSubtree(s, x, a) :: s[x]
  }

  /** The part of the organization that is still a tree once `a` has been hung under `p`: all of it, unless
      `p` lies in `a`'s own subtree or outside the part. */
  ghost function PartAfter(s: Tree, a: Id, p: Id): Tree
    requires Levelled(s) && a in s
  {
    if p in s && !InSubtree(s, p, a) then Moved(s, a, p) else Without(s, a)
  }

  lemma WithoutLevelled(s: Tree, a: Id)
    requires Levelled(s)
    ensures Levelled(Without(s, a))
  {
    var rest := Without(s, a);
    forall x | x in rest ensures LevelAt(rest, x) {
      assert LevelAt(s, x);
    }
  }

  /** A part that is the whole stays the whole when the move makes no cycle. */
  lemma WholeMoves(s: Tree, a: Id, p: Id)
    requires PartOf(s, s) && a in s && p in s && !InSubtree(s, p, a)
    ensures PartAfter(s, a, p) == MovedIn(s, s, a, p, s[p].depth + 1) == Moved(s, a, p)
  {
  }

  lemma PartStays(s: Tree, t: Tree, a: Id, p: Id)
    requires PartOf(s, t) && a in s && p in t
    ensures PartOf(PartAfter(s, a, p), MovedIn(s, t, a, p, t[p].depth + 1)) && PartAfter(s, a, p).Keys <= s.Keys
  {
    var s', t' := PartAfter(s, a, p), MovedIn(s, t, a, p, t[p].depth + 1);
    if p in s && !InSubtree(s, p, a) {
      MovedLevelled(s, a, p);
    } else {
      WithoutLevelled(s, a);
      forall x | x in t' && t'[x].parent.Some? && t'[x].parent.value in s' ensures x in s' {
        assert x in s ==> LevelAt(s, x);
      }
    }
  }

  /** Siblings of the agent that was moved are still in that part. */
  lemma SiblingStays(s: Tree, a: Id, p: Id, b: Id)
    requires Levelled(s) && a in s && b in s && a != b && s[a].parent.Some? && s[b].parent == s[a].parent
    ensures b in PartAfter(s, a, p)
  {
    assert LevelAt(s, a) && LevelAt(s, b);
    if Under(s, b, a) { UnderIsDeeper(s, b, a); }
  }

  lemma MovedFits(t: Tree, limit: int, a: Id, p: Id, h: int)
    requires Levelled(t) && Within(t, limit) && a in t && p in t && IsHeight(t, a, h)
    ensures Within(Moved(t, a, p), limit) <==> t[p].depth + 1 + h <= limit
  {
    var t' := Moved(t, a, p);
    var deepest :| deepest in t && InSubtree(t, deepest, a) && t[deepest].depth - t[a].depth == h;
    assert deepest in t' && t'[deepest].depth == t[p].depth + 1 + h;
    forall x | x in t' ensures t'[x].depth <= limit || t'[x].depth <= t[p].depth + 1 + h {
      assert InSubtree(t, x, a) ==> t[x].depth - t[a].depth <= h;
    }
  }

  lemma MovedRooted(t: Tree, r: Id, a: Id, p: Id)
    requires Levelled(t) && Rooted(t, r) && a in t && p in t && a != r
    ensures Rooted(Moved(t, a, p), r)
  {
    var t' := Moved(t, a, p);
    forall x | x in t' ensures t'[x].parent == None <==> x == r {
      assert t'[x].parent == if x == a then Some(p) else t[x].parent;
    }
  }

  /** The exact condition for moving a subtree: the new parent is outside it and it still fits. */
  lemma MovedWellFormed(t: Tree, r: Id, limit: int, a: Id, p: Id, h: int)
    requires WellFormed(t, r, limit) && a in t && p in t && a != r && IsHeight(t, a, h)
    ensures WellFormed(Moved(t, a, p), r, limit)
            <==> !InSubtree(t, p, a) && t[p].depth + 1 + h <= limit
  {
    MovedRooted(t, r, a, p);
    MovedFits(t, limit, a, p, h);
    if InSubtree(t, p, a) {
      CycleHasNoLevels(t, Moved(t, a, p), a, p);
    } else {
      MovedLevelled(t, a, p);
    }
  }
}
