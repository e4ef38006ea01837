/** Walking and changing the organization (app/org.py). */
module Organization {
  import opened Base
  import opened OrgTree
  import opened Runtimes

  type Groups = map<Option<Id>, seq<Agent>>

  function Kids(grouped: Groups, key: Option<Id>): seq<Agent> {
    if key in grouped then grouped[key] else []
  }

  /** The agents whose parent is `key`, in list order. */
  ghost function WithParent(agents: seq<Agent>, key: Option<Id>): seq<Agent>
    reads agents
  {
    if agents == [] then []
    else
      var n := |agents| - 1;
      WithParent(agents[..n], key) + if agents[n].parent == key then [agents[n]] else []
  }

  /** Groups agents by parent, keeping list order. */
  method ChildrenMap(agents: seq<Agent>) returns (grouped: Groups)
    ensures forall key :: Kids(grouped, key) == WithParent(agents, key)
  {
    grouped := map[];
    for n := 0 to |agents|
      invariant forall key :: Kids(grouped, key) == WithParent(agents[..n], key)
    {
      var a := agents[n];
      ghost var before := grouped;
      grouped := grouped[a.parent := Kids(grouped, a.parent) + [a]];
      assert agents[..n + 1][..n] == agents[..n];
      assert forall key :: Kids(grouped, key) == if key == a.parent then Kids(before, key) + [a] else Kids(before, key);
    }
    assert agents[..|agents|] == agents;
  }

  ghost predicate NoRepeats(agents: seq<Agent>) {
    forall i, k :: 0 <= i < k < |agents| ==> agents[i] != agents[k]
  }

  /** Under `key`, `grouped` lists exactly the children in `t`, each once. */
  ghost predicate KidsExact(grouped: Groups, agents: seq<Agent>, t: Tree, key: Option<Id>) {
    && (forall k :: k in Kids(grouped, key) ==> k in agents && k.id in t && t[k.id].parent == key)
    && (forall k :: k in agents && k.id in t && t[k.id].parent == key ==> k in Kids(grouped, key))
    && NoRepeats(Kids(grouped, key))
  }

  ghost predicate Grouped(grouped: Groups, agents: seq<Agent>, t: Tree) {
    && t.Keys == Ids(agents) && DistinctAgents(agents)
    && forall a {:trigger KidsExact(grouped, agents, t, Some(a.id))} ::
         a in agents ==> KidsExact(grouped, agents, t, Some(a.id))
  }

  lemma {:induction false} WithParentIsExact(agents: seq<Agent>, key: Option<Id>)
    requires DistinctAgents(agents)
    ensures forall k :: k in WithParent(agents, key) <==> k in agents && k.parent == key
    ensures NoRepeats(WithParent(agents, key))
  {
    if agents != [] {
      var n := |agents| - 1;
      WithParentIsExact(agents[..n], key);
      assert agents == agents[..n] + [agents[n]];
      assert forall a :: a in agents[..n] ==> a.id in Ids(agents[..n]);
    }
  }

  lemma ChildrenMapGroups(grouped: Groups, agents: seq<Agent>)
    requires DistinctAgents(agents) && forall key :: Kids(grouped, key) == WithParent(agents, key)
    ensures Grouped(grouped, agents, TreeOf(agents))
  {
    forall a | a in agents ensures KidsExact(grouped, agents, TreeOf(agents), Some(a.id)) {
      WithParentIsExact(agents, Some(a.id));
    }
  }

  /** `some` are the agents of the part `s` of the whole organization. */
  ghost predicate Portion(agents: seq<Agent>, some: seq<Agent>, s: Tree)
    requires DistinctAgents(agents)
    reads agents
  {
    && PartOf(s, TreeOf(agents)) && DistinctAgents(some) && Ids(some) == s.Keys
    && forall k :: k in some ==> k in agents
  }

  /** The whole of a levelled organization. */
  lemma WholePortion(agents: seq<Agent>)
    requires DistinctAgents(agents) && Levelled(TreeOf(agents))
    ensures Portion(agents, agents, TreeOf(agents))
  {
  }

  /** The agents whose id is in `ids`. */
  ghost function Those(agents: seq<Agent>, ids: set<Id>): seq<Agent> {
    if agents == [] then []
    else
      var n := |agents| - 1;
      Those(agents[..n], ids) + if agents[n].id in ids then [agents[n]] else []
  }

  lemma AppendDistinct(agents: seq<Agent>, last: Agent)
    requires DistinctAgents(agents) && last.id !in Ids(agents)
    ensures DistinctAgents(agents + [last]) && Ids(agents + [last]) == Ids(agents) + {last.id}
    ensures agents + [] == agents
  {
    assert (agents + [last])[..|agents|] == agents;
  }

  lemma {:induction false} ThoseMembers(agents: seq<Agent>, ids: set<Id>)
    ensures forall k :: k in Those(agents, ids) <==> k in agents && k.id in ids
  {
    if agents != [] {
      var n := |agents| - 1;
      ThoseMembers(agents[..n], ids);
      assert agents == agents[..n] + [agents[n]];
    }
  }

  lemma OneMoreOfThose(before: seq<Agent>, last: Agent, all: set<Id>, ids: set<Id>)
    requires DistinctAgents(before) && Ids(before) == all * ids && last.id !in all
    ensures var now := before + if last.id in ids then [last] else [];
            DistinctAgents(now) && Ids(now) == (all + {last.id}) * ids
  {
    hide DistinctAgents, Ids;
    AppendDistinct(before, last);
    if last.id in ids {
      assert (all + {last.id}) * ids == all * ids + {last.id};
    } else {
      assert (all + {last.id}) * ids == all * ids;
    }
  }

  lemma {:induction false} ThoseIds(agents: seq<Agent>, ids: set<Id>)
    requires DistinctAgents(agents)
    ensures DistinctAgents(Those(agents, ids)) && Ids(Those(agents, ids)) == Ids(agents) * ids
  {
    if agents != [] {
      var n := |agents| - 1;
      ThoseIds(agents[..n], ids);
      OneMoreOfThose(Those(agents[..n], ids), agents[n], Ids(agents[..n]), ids);
    }
  }

  /** Grouping the whole organization groups each portion of it. */
  lemma PortionGrouped(grouped: Groups, agents: seq<Agent>, some: seq<Agent>, s: Tree)
    requires DistinctAgents(agents) && forall key :: Kids(grouped, key) == WithParent(agents, key)
    requires Portion(agents, some, s)
    ensures Grouped(grouped, some, s)
  {
    forall a | a in some ensures KidsExact(grouped, some, s, Some(a.id)) {
      WithParentIsExact(agents, Some(a.id));
      forall k | k in Kids(grouped, Some(a.id)) ensures k in some && k.id in s && s[k.id].parent == Some(a.id) {
        assert k.id in s;
        var k' := AgentNamed(some, k.id);
        SameAgent(agents, k, k');
      }
    }
  }

  /** The members of `agents` seen as a level-checked tree. */
  ghost predicate Shape(grouped: Groups, agents: seq<Agent>, t: Tree, limit: int) {
    Levelled(t) && Within(t, limit) && Grouped(grouped, agents, t)
  }

  lemma KidIsChild(grouped: Groups, agents: seq<Agent>, t: Tree, limit: int, a: Agent, k: Agent)
    requires Shape(grouped, agents, t, limit) && a in agents && k in Kids(grouped, Some(a.id))
    ensures k in agents && ChildOf(t, k.id, a.id) && t[k.id].depth == t[a.id].depth + 1 <= limit
  {
    assert KidsExact(grouped, agents, t, Some(a.id)) && LevelAt(t, k.id);
  }

  lemma KidOf(grouped: Groups, agents: seq<Agent>, t: Tree, limit: int, c: Id, a: Agent) returns (k: Agent)
    requires Shape(grouped, agents, t, limit) && a in agents && ChildOf(t, c, a.id)
    ensures k in Kids(grouped, Some(a.id)) && k.id == c
  {
    assert c in Ids(agents) && KidsExact(grouped, agents, t, Some(a.id));
    k := AgentNamed(agents, c);
  }

  /** A leaf has height 0; any other agent is one higher than its highest child. */
  function Height(grouped: Groups, a: Agent, ghost agents: seq<Agent>, ghost t: Tree, ghost limit: int): int
    requires Shape(grouped, agents, t, limit) && a in agents
    decreases limit - t[a.id].depth, 1, 0
  {
    var n := |Kids(grouped, Some(a.id))|;
    if n == 0 then 0 else 1 + Highest(grouped, a, n, agents, t, limit)
  }

  /** The greatest height among the first `n` children. */
  function Highest(grouped: Groups, a: Agent, n: nat, ghost agents: seq<Agent>, ghost t: Tree, ghost limit: int): int
    requires Shape(grouped, agents, t, limit) && a in agents && 0 < n <= |Kids(grouped, Some(a.id))|
    decreases limit - t[a.id].depth, 0, n
  {
    KidIsChild(grouped, agents, t, limit, a, Kids(grouped, Some(a.id))[n - 1]);
    var last := Height(grouped, Kids(grouped, Some(a.id))[n - 1], agents, t, limit);
    if n == 1 then last
    else
      var rest := Highest(grouped, a, n - 1, agents, t, limit);
      if last > rest then last else rest
  }

  /** `x` lies in the subtree of one of the first `n` of `kids`. */
  ghost predicate AmongKids(t: Tree, kids: seq<Agent>, n: nat, x: Id)
    requires Levelled(t) && n <= |kids|
  {
    exists i :: 0 <= i < n && InSubtree(t, x, kids[i].id)
  }

  /** `h` is the greatest depth below `a`'s child level in those subtrees. */
  ghost predicate IsHighest(t: Tree, kids: seq<Agent>, n: nat, a: Id, h: int)
    requires Levelled(t) && n <= |kids| && a in t
  {
    && h >= 0
    && (forall x :: x in t && AmongKids(t, kids, n, x) ==> t[x].depth - t[a].depth - 1 <= h)
    && (exists x :: x in t && AmongKids(t, kids, n, x) && t[x].depth - t[a].depth - 1 == h)
  }

  lemma OneMoreKid(t: Tree, kids: seq<Agent>, n: nat, a: Id, last: int, rest: int)
    requires Levelled(t) && 0 < n <= |kids| && a in t && kids[n - 1].id in t
    requires t[kids[n - 1].id].depth == t[a].depth + 1 && IsHeight(t, kids[n - 1].id, last) && last >= 0
    requires n > 1 ==> IsHighest(t, kids, n - 1, a, rest)
    ensures IsHighest(t, kids, n, a, if n > 1 && rest >= last then rest else last)
  {
    forall x | x in t && AmongKids(t, kids, n, x)
      ensures InSubtree(t, x, kids[n - 1].id) || (n > 1 && AmongKids(t, kids, n - 1, x))
    {
    }
    if n > 1 && rest >= last {
      var x :| x in t && AmongKids(t, kids, n - 1, x) && t[x].depth - t[a].depth - 1 == rest;
      assert AmongKids(t, kids, n, x);
    } else {
      var x :| x in t && InSubtree(t, x, kids[n - 1].id) && t[x].depth - t[kids[n - 1].id].depth == last;
      assert AmongKids(t, kids, n, x);
    }
  }

  lemma {:induction false} HighestIsHighest(grouped: Groups, a: Agent, n: nat, agents: seq<Agent>, t: Tree, limit: int)
    requires Shape(grouped, agents, t, limit) && a in agents && 0 < n <= |Kids(grouped, Some(a.id))|
    ensures IsHighest(t, Kids(grouped, Some(a.id)), n, a.id, Highest(grouped, a, n, agents, t, limit))
    decreases limit - t[a.id].depth, 0, n
  {
    var kids := Kids(grouped, Some(a.id));
    var k := kids[n - 1];
    KidIsChild(grouped, agents, t, limit, a, k);
    HeightIsDepthDifference(grouped, k, agents, t, limit);
    var rest := 0;
    if n > 1 {
      HighestIsHighest(grouped, a, n - 1, agents, t, limit);
      rest := Highest(grouped, a, n - 1, agents, t, limit);
    }
    OneMoreKid(t, kids, n, a.id, Height(grouped, k, agents, t, limit), rest);
  }

  /** Height is the greatest depth difference in the subtree. */
  lemma {:induction false} HeightIsDepthDifference(grouped: Groups, a: Agent, agents: seq<Agent>, t: Tree, limit: int)
    requires Shape(grouped, agents, t, limit) && a in agents
    ensures Height(grouped, a, agents, t, limit) >= 0
    ensures IsHeight(t, a.id, Height(grouped, a, agents, t, limit))
    decreases limit - t[a.id].depth, 1, 0
  {
    var n := |Kids(grouped, Some(a.id))|;
    if n != 0 {
      HighestIsHighest(grouped, a, n, agents, t, limit);
    }
    HeightFromKids(grouped, a, agents, t, limit, Height(grouped, a, agents, t, limit));
  }

  /** The strict descendants are the agents in the children's subtrees. */
  lemma UnderIsAmongKids(grouped: Groups, a: Agent, agents: seq<Agent>, t: Tree, limit: int, x: Id)
    requires Shape(grouped, agents, t, limit) && a in agents && x in t
    ensures Under(t, x, a.id) <==> AmongKids(t, Kids(grouped, Some(a.id)), |Kids(grouped, Some(a.id))|, x)
  {
    var kids := Kids(grouped, Some(a.id));
    if Under(t, x, a.id) {
      var c := UnderViaChild(t, x, a.id);
      var k := KidOf(grouped, agents, t, limit, c, a);
    }
    if AmongKids(t, kids, |kids|, x) {
      var i :| 0 <= i < |kids| && InSubtree(t, x, kids[i].id);
      KidIsChild(grouped, agents, t, limit, a, kids[i]);
      ChildSubtreeIsUnder(t, x, kids[i].id, a.id);
    }
  }

  lemma HeightFromKids(grouped: Groups, a: Agent, agents: seq<Agent>, t: Tree, limit: int, h: int)
    requires Shape(grouped, agents, t, limit) && a in agents
    requires var kids := Kids(grouped, Some(a.id));
             if kids == [] then h == 0 else IsHighest(t, kids, |kids|, a.id, h - 1)
    ensures IsHeight(t, a.id, h)
  {
    var kids := Kids(grouped, Some(a.id));
    forall x | x in t && InSubtree(t, x, a.id) ensures t[x].depth - t[a.id].depth <= h {
      UnderIsAmongKids(grouped, a, agents, t, limit, x);
    }
    if kids == [] {
      assert InSubtree(t, a.id, a.id);
    } else {
      var x :| x in t && AmongKids(t, kids, |kids|, x) && t[x].depth - t[a.id].depth - 1 == h - 1;
      UnderIsAmongKids(grouped, a, agents, t, limit, x);
      assert InSubtree(t, x, a.id);
    }
  }

  ghost predicate AllUnder(t: Tree, agents: seq<Agent>, root: Agent, some: seq<Agent>)
    requires Levelled(t)
  {
    forall k :: k in some ==> k in agents && Under(t, k.id, root.id)
  }

  /** Every strict descendant is found or lies in a subtree that is still to come. */
  ghost predicate Covers(t: Tree, agents: seq<Agent>, root: Agent, found: seq<Agent>, stack: seq<Agent>)
    requires Levelled(t)
  {
    forall a :: a in agents && Under(t, a.id, root.id) ==> a in found || AmongKids(t, stack, |stack|, a.id)
  }

  /** The pending subtrees share no agent with each other. */
  ghost predicate Apart(t: Tree, stack: seq<Agent>)
    requires Levelled(t)
  {
    forall i, k :: 0 <= i < |stack| && 0 <= k < |stack| && i != k ==> !InSubtree(t, stack[i].id, stack[k].id)
  }

  /** No agent of `found` lies in a pending subtree. */
  ghost predicate Clear(t: Tree, found: seq<Agent>, stack: seq<Agent>)
    requires Levelled(t)
  {
    forall f, i :: 0 <= f < |found| && 0 <= i < |stack| ==> !InSubtree(t, found[f].id, stack[i].id)
  }

  /** Replacing a node by its children keeps the pending subtrees apart. */
  lemma KidsApart(grouped: Groups, agents: seq<Agent>, t: Tree, limit: int, node: Agent, x: Id, k: Agent)
    requires Shape(grouped, agents, t, limit) && node in agents && k in Kids(grouped, Some(node.id)) && x in t
    ensures InSubtree(t, x, k.id) ==> Under(t, x, node.id)
    ensures InSubtree(t, k.id, x) ==> x == k.id || InSubtree(t, node.id, x)
    ensures !InSubtree(t, node.id, k.id)
  {
    KidIsChild(grouped, agents, t, limit, node, k);
    if InSubtree(t, x, k.id) {
      ChildSubtreeIsUnder(t, x, k.id, node.id);
    }
    if Under(t, node.id, k.id) {
      UnderIsDeeper(t, node.id, k.id);
    }
  }

  lemma SiblingsApart(grouped: Groups, agents: seq<Agent>, t: Tree, limit: int, node: Agent, i: nat, k: nat)
    requires Shape(grouped, agents, t, limit) && node in agents && i != k
    requires i < |Kids(grouped, Some(node.id))| && k < |Kids(grouped, Some(node.id))|
    ensures !InSubtree(t, Kids(grouped, Some(node.id))[i].id, Kids(grouped, Some(node.id))[k].id)
  {
    var a, b := Kids(grouped, Some(node.id))[i], Kids(grouped, Some(node.id))[k];
    KidIsChild(grouped, agents, t, limit, node, a);
    KidIsChild(grouped, agents, t, limit, node, b);
    assert KidsExact(grouped, agents, t, Some(node.id));
    assert a != b;
    SameAgent(agents, a, b);
    if Under(t, a.id, b.id) {
      UnderIsDeeper(t, a.id, b.id);
    }
  }

  ghost predicate Separate(t: Tree, x: Id, y: Id)
    requires Levelled(t)
  {
    !InSubtree(t, x, y) && !InSubtree(t, y, x)
  }

  lemma ApartJoin(t: Tree, xs: seq<Agent>, ys: seq<Agent>)
    requires Levelled(t) && Apart(t, xs) && Apart(t, ys)
    requires forall i, k :: 0 <= i < |xs| && 0 <= k < |ys| ==> Separate(t, xs[i].id, ys[k].id)
    ensures Apart(t, xs + ys)
  {
    var zs := xs + ys;
    forall i, k | 0 <= i < |zs| && 0 <= k < |zs| && i != k ensures !InSubtree(t, zs[i].id, zs[k].id) {
      if i < |xs| && k >= |xs| {
        assert Separate(t, xs[i].id, ys[k - |xs|].id);
      } else if i >= |xs| && k < |xs| {
        assert Separate(t, xs[k].id, ys[i - |xs|].id);
      }
    }
  }

  lemma ApartSplit(t: Tree, rest: seq<Agent>, node: Agent)
    requires Levelled(t) && Apart(t, rest + [node])
    ensures Apart(t, rest)
    ensures forall k :: 0 <= k < |rest| ==> Separate(t, rest[k].id, node.id)
  {
    var before := rest + [node];
    forall i, k | 0 <= i < |rest| && 0 <= k < |rest| && i != k ensures !InSubtree(t, rest[i].id, rest[k].id) {
      assert before[i] == rest[i] && before[k] == rest[k];
    }
    forall k | 0 <= k < |rest| ensures Separate(t, rest[k].id, node.id) {
      assert before[k] == rest[k] && before[|rest|] == node;
    }
  }

  lemma StepApart(grouped: Groups, agents: seq<Agent>, t: Tree, limit: int, rest: seq<Agent>, node: Agent)
    requires Shape(grouped, agents, t, limit) && node in agents
    requires forall k :: 0 <= k < |rest| ==> rest[k].id in t
    requires Apart(t, rest + [node])
    ensures Apart(t, rest + Kids(grouped, Some(node.id)))
  {
    var kids := Kids(grouped, Some(node.id));
    ApartSplit(t, rest, node);
    forall i, k | 0 <= i < |rest| && 0 <= k < |kids| ensures Separate(t, rest[i].id, kids[k].id) {
      assert Separate(t, rest[i].id, node.id);
      KidsApart(grouped, agents, t, limit, node, rest[i].id, kids[k]);
      KidIsChild(grouped, agents, t, limit, node, kids[k]);
    }
    forall i, k | 0 <= i < |kids| && 0 <= k < |kids| && i != k ensures !InSubtree(t, kids[i].id, kids[k].id) {
      SiblingsApart(grouped, agents, t, limit, node, i, k);
    }
    ApartJoin(t, rest, kids);
  }

  lemma StepClear(grouped: Groups, agents: seq<Agent>, t: Tree, limit: int, found: seq<Agent>,
        rest: seq<Agent>, node: Agent)
    requires Shape(grouped, agents, t, limit) && node in agents
    requires forall f :: 0 <= f < |found| ==> found[f].id in t
    requires Apart(t, rest + [node]) && Clear(t, found, rest + [node]) && NoRepeats(found)
    ensures Clear(t, found + [node], rest + Kids(grouped, Some(node.id)))
    ensures node !in found && NoRepeats(found + [node])
  {
    var m, n, kids := |rest|, |found|, Kids(grouped, Some(node.id));
    var before, stack := rest + [node], rest + kids;
    forall f | 0 <= f < n ensures !InSubtree(t, found[f].id, node.id) {
      assert before[m] == node;
    }
    forall f, i | 0 <= f < n + 1 && 0 <= i < |stack| ensures !InSubtree(t, (found + [node])[f].id, stack[i].id) {
      if i >= m {
        KidsApart(grouped, agents, t, limit, node, (found + [node])[f].id, kids[i - m]);
      } else {
        assert before[i] == rest[i] && before[m] == node;
      }
    }
  }

  lemma StepCovers(grouped: Groups, agents: seq<Agent>, t: Tree, limit: int, root: Agent, found: seq<Agent>,
        rest: seq<Agent>, node: Agent)
    requires Shape(grouped, agents, t, limit) && root in agents && node in agents
    requires Covers(t, agents, root, found, rest + [node])
    ensures Covers(t, agents, root, found + [node], rest + Kids(grouped, Some(node.id)))
  {
    var m, kids := |rest|, Kids(grouped, Some(node.id));
    var stack := rest + kids;
    forall a | a in agents && Under(t, a.id, root.id) && a !in found + [node]
      ensures AmongKids(t, stack, |stack|, a.id)
    {
      assert a !in found;
      var i :| 0 <= i < m + 1 && InSubtree(t, a.id, (rest + [node])[i].id);
      if i < m {
        assert stack[i] == (rest + [node])[i];
      } else {
        SameAgent(agents, a, node);
        UnderIsAmongKids(grouped, node, agents, t, limit, a.id);
        var k :| 0 <= k < |kids| && InSubtree(t, a.id, kids[k].id);
        assert stack[m + k] == kids[k];
      }
    }
  }

  lemma KidsAllUnder(grouped: Groups, agents: seq<Agent>, t: Tree, limit: int, root: Agent, node: Agent)
    requires Shape(grouped, agents, t, limit) && root in agents && node in agents && InSubtree(t, node.id, root.id)
    ensures AllUnder(t, agents, root, Kids(grouped, Some(node.id)))
  {
    forall k | k in Kids(grouped, Some(node.id)) ensures k in agents && Under(t, k.id, root.id) {
      KidIsChild(grouped, agents, t, limit, node, k);
      assert Under(t, k.id, node.id);
      if node.id != root.id {
        UnderTransitive(t, k.id, node.id, root.id);
      }
    }
  }

  lemma WalkStart(grouped: Groups, agents: seq<Agent>, t: Tree, limit: int, root: Agent)
    requires Shape(grouped, agents, t, limit) && root in agents
    ensures AllUnder(t, agents, root, Kids(grouped, Some(root.id)))
    ensures Covers(t, agents, root, [], Kids(grouped, Some(root.id)))
    ensures Apart(t, Kids(grouped, Some(root.id))) && Clear(t, [], Kids(grouped, Some(root.id)))
  {
    var stack := Kids(grouped, Some(root.id));
    KidsAllUnder(grouped, agents, t, limit, root, root);
    forall a | a in agents && Under(t, a.id, root.id) ensures AmongKids(t, stack, |stack|, a.id) {
      UnderIsAmongKids(grouped, root, agents, t, limit, a.id);
    }
    forall i, k | 0 <= i < |stack| && 0 <= k < |stack| && i != k ensures !InSubtree(t, stack[i].id, stack[k].id) {
      SiblingsApart(grouped, agents, t, limit, root, i, k);
    }
  }

  /** One turn of the walk: `node` is found and its children take its place. */
  lemma WalkStep(grouped: Groups, agents: seq<Agent>, t: Tree, limit: int, root: Agent, found: seq<Agent>,
        rest: seq<Agent>, node: Agent)
    requires Shape(grouped, agents, t, limit) && root in agents
    requires Walk(t, agents, root, found, rest + [node])
    ensures Walk(t, agents, root, found + [node], rest + Kids(grouped, Some(node.id)))
    ensures node in agents && node !in found
  {
    var before := rest + [node];
    assert before[|rest|] == node && node in before;
    forall k | 0 <= k < |rest| ensures rest[k].id in t {
      assert before[k] == rest[k] && rest[k] in before;
    }
    forall f | 0 <= f < |found| ensures found[f].id in t {
      assert found[f] in found;
    }
    StepApart(grouped, agents, t, limit, rest, node);
    StepClear(grouped, agents, t, limit, found, rest, node);
    StepCovers(grouped, agents, t, limit, root, found, rest, node);
    KidsAllUnder(grouped, agents, t, limit, root, node);
    assert forall k :: k in rest ==> k in before;
  }

  ghost predicate Walk(t: Tree, agents: seq<Agent>, root: Agent, found: seq<Agent>, stack: seq<Agent>)
    requires Levelled(t)
  {
    && AllUnder(t, agents, root, found) && AllUnder(t, agents, root, stack)
    && Covers(t, agents, root, found, stack) && Apart(t, stack) && Clear(t, found, stack) && NoRepeats(found)
  }

  lemma WalkDone(t: Tree, agents: seq<Agent>, root: Agent, found: seq<Agent>)
    requires Levelled(t) && Walk(t, agents, root, found, [])
    ensures forall a :: a in found <==> a in agents && Under(t, a.id, root.id)
  {
  }

  ghost function Todo(agents: seq<Agent>, found: seq<Agent>): set<Agent> {
    set a | a in agents && a !in found
  }

  lemma TodoShrinks(agents: seq<Agent>, found: seq<Agent>, node: Agent)
    requires node in agents && node !in found
    ensures Todo(agents, found + [node]) < Todo(agents, found)
  {
    assert node in Todo(agents, found) && node !in Todo(agents, found + [node]);
  }

  /** The stack loop over an already grouped tree. */
  method Drain(agents: seq<Agent>, root: Agent, grouped: Groups, ghost t: Tree,
        ghost limit: int) returns (found: seq<Agent>)
    requires Shape(grouped, agents, t, limit) && root in agents
    ensures Walk(t, agents, root, found, [])
  {
    found := [];
    var stack := Kids(grouped, Some(root.id));
    WalkStart(grouped, agents, t, limit, root);
    while stack != []
      invariant Walk(t, agents, root, found, stack)
      decreases Todo(agents, found)
    {
      var node := stack[|stack| - 1];
      assert stack == stack[..|stack| - 1] + [node];
      WalkStep(grouped, agents, t, limit, root, found, stack[..|stack| - 1], node);
      TodoShrinks(agents, found, node);
      stack := stack[..|stack| - 1];
      found := found + [node];
      stack := stack + Kids(grouped, Some(node.id));
    }
  }

  /** The strict descendants of `root`, each once. */
  method Descendants(agents: seq<Agent>, root: Agent, ghost limit: int) returns (found: seq<Agent>)
    requires DistinctAgents(agents) && root in agents
    requires Levelled(TreeOf(agents)) && Within(TreeOf(agents), limit)
    ensures NoRepeats(found)
    ensures forall a :: a in found <==> a in agents && Under(TreeOf(agents), a.id, root.id)
  {
    var grouped := ChildrenMap(agents);
    ChildrenMapGroups(grouped, agents);
    found := Drain(agents, root, grouped, TreeOf(agents), limit);
    WalkDone(TreeOf(agents), agents, root, found);
  }
}
