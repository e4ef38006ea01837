/** Remembering and recalling scoped notes (app/memory.py). */
module Memory {
  import opened Base
  import opened Text

  const CHARS_PER_TOKEN := 4
  const MAX_NOTE_CHARS := 1024
  const MAX_RECALL_CHARS := 4096

  datatype MemoryFailure = ContextLimit | InvalidNote

  datatype Note = Note(id: nat, mission: nat, agent: Option<nat>, body: string, createdAt: int)

  /** Resolves the recall cap; a cap must be positive, and only one kind may be given. */
  function RecallCap(maxChars: Option<int>, maxTokens: Option<int>): (r: Result<int, MemoryFailure>)
    ensures r == Err(InvalidNote) <==> maxChars.Some? && maxTokens.Some?
    ensures r == Err(ContextLimit) <==>
              (maxTokens.None? && maxChars.Some? && maxChars.value <= 0)
              || (maxChars.None? && maxTokens.Some? && maxTokens.value <= 0)
    ensures r.Ok? ==> r.value > 0
    ensures r.Ok? && maxTokens.Some? ==> r.value == 4 * maxTokens.value
    ensures r.Ok? && maxTokens.None? ==> r.value == if maxChars.Some? then maxChars.value else 4096
  {
    if maxChars.Some? && maxTokens.Some? then Err(InvalidNote)
    else if maxTokens.Some? then
      if maxTokens.value <= 0 then Err(ContextLimit) else Ok(maxTokens.value * CHARS_PER_TOKEN)
    else if maxChars.None? then Ok(MAX_RECALL_CHARS)
    else if maxChars.value <= 0 then Err(ContextLimit)
    else Ok(maxChars.value)
  }

  /** Why a stored row cannot be used. */
  function RowFailure(n: Note, maxNote: int): Option<MemoryFailure> {
    if Strip(n.body) == [] then Some(InvalidNote)
    else if |n.body| > maxNote then Some(ContextLimit)
    else None
  }

  predicate Older(a: Note, b: Note) {
    a.createdAt < b.createdAt || (a.createdAt == b.createdAt && a.id < b.id)
  }

  /** By time, and by id among notes of one time. */
  ghost predicate OldestFirst(notes: seq<Note>) {
    forall i, k :: 0 <= i < k < |notes| ==>
      || notes[i].createdAt < notes[k].createdAt
      || (notes[i].createdAt == notes[k].createdAt && notes[i].id < notes[k].id)
  }

  /** A stored row is usable when it has text and not too much of it. */
  predicate Usable(n: Note, maxNote: int) {
    Strip(n.body) != "" && |n.body| <= maxNote
  }

  function Total(notes: seq<Note>): nat {
    if notes == [] then 0 else |notes[0].body| + Total(notes[1..])
  }

  /** The total is the sum of the lengths. */
  lemma {:induction false} TotalAdds(notes: seq<Note>, more: seq<Note>)
    ensures Total(notes + more) == Total(notes) + Total(more)
    ensures forall n :: Total([n]) == |n.body|
  {
    if notes == [] {
      assert notes + more == more;
    } else {
      TotalAdds(notes[1..], more);
      assert (notes + more)[1..] == notes[1..] + more;
    }
  }

  lemma {:induction false} TotalOfSuffix(notes: seq<Note>, i: nat, k: nat)
    requires i <= k <= |notes|
    ensures Total(notes[k..]) <= Total(notes[i..])
    decreases k - i
  {
    if i < k {
      TotalOfSuffix(notes, i + 1, k);
      assert notes[i..][1..] == notes[i + 1..];
    }
  }

  function Reversed(notes: seq<Note>): seq<Note> {
    if notes == [] then [] else Reversed(notes[1..]) + [notes[0]]
  }

  lemma {:induction false} ReversedAppend(notes: seq<Note>, n: Note)
    ensures Reversed(notes + [n]) == [n] + Reversed(notes)
  {
    if notes != [] {
      assert (notes + [n])[1..] == notes[1..] + [n];
      ReversedAppend(notes[1..], n);
    }
  }

  method Reverse(notes: seq<Note>) returns (r: seq<Note>)
    ensures r == Reversed(notes)
  {
    r := [];
    for i := 0 to |notes|
      invariant r == Reversed(notes[..i])
    {
      assert notes[..i + 1] == notes[..i] + [notes[i]];
      ReversedAppend(notes[..i], notes[i]);
      r := [notes[i]] + r;
    }
    assert notes[..|notes|] == notes;
  }

  /** The longest run of newest notes that fits the cap; refused exactly when the newest alone does not. */
  method Bound(notes: seq<Note>, cap: int) returns (r: Result<seq<Note>, MemoryFailure>)
    requires cap > 0
    ensures r.Err? <==> notes != [] && |notes[|notes| - 1].body| > cap
    ensures r.Err? ==> r.error == ContextLimit
    ensures r.Ok? ==> exists k :: && 0 <= k <= |notes| && r.value == notes[k..] && Total(notes[k..]) <= cap
                                  && forall j :: 0 <= j < k ==> Total(notes[j..]) > cap
  {
    var selected, used, k := [], 0, |notes|;
    while k > 0
      invariant 0 <= k <= |notes| && Reversed(selected) == notes[k..] && used == Total(notes[k..]) <= cap
      invariant selected == [] <==> k == |notes|
      invariant k < |notes| ==> |notes[|notes| - 1].body| <= cap
    {
      var note := notes[k - 1];
      var size := |note.body|;
      if size > cap && selected == [] {
        return Err(ContextLimit);
      }
      assert notes[k - 1..][1..] == notes[k..];
      if used + size > cap {
        break;
      }
      ReversedAppend(selected, note);
      selected := selected + [note];
      used := used + size;
      k := k - 1;
    }
    var kept := Reverse(selected);
    forall j | 0 <= j < k ensures Total(notes[j..]) > cap {
      assert notes[k - 1..][1..] == notes[k..];
      TotalOfSuffix(notes, j, k - 1);
    }
    r := Ok(kept);
  }

  predicate InScope(n: Note, agent: Option<nat>) {
    n.agent.None? || (agent.Some? && n.agent == agent)
  }

  function Scoped(notes: seq<Note>, agent: Option<nat>): seq<Note> {
    if notes == [] then []
    else
      var n := |notes| - 1;
      Scoped(notes[..n], agent) + if InScope(notes[n], agent) then [notes[n]] else []
  }

  lemma {:induction false} ScopedMembers(notes: seq<Note>, agent: Option<nat>)
    ensures forall n :: n in Scoped(notes, agent) <==> n in notes && InScope(n, agent)
  {
    if notes != [] {
      ScopedMembers(notes[..|notes| - 1], agent);
      assert notes == notes[..|notes| - 1] + [notes[|notes| - 1]];
    }
  }

  lemma {:induction false} ScopedInOrder(notes: seq<Note>, agent: Option<nat>)
    requires OldestFirst(notes)
    ensures OldestFirst(Scoped(notes, agent))
  {
    if notes != [] {
      var n := |notes| - 1;
      var before := notes[..n];
      ScopedInOrder(before, agent);
      ScopedMembers(before, agent);
      var some := Scoped(before, agent);
      forall i | 0 <= i < |some| ensures Older(some[i], notes[n]) {
        assert some[i] in some && some[i] in before;
        var k :| 0 <= k < n && before[k] == some[i];
        assert Older(notes[k], notes[n]);
      }
    }
  }

  class StoreMemory {
    const maxNote: int
    const maxRecall: int
    var rows: set<Note>

    /** Row ids are unique, and the rows are notes `Remember` could have written. */
    ghost predicate Valid()
      reads this
    {
      && maxRecall > 0
      && (forall a, b :: a in rows && b in rows && a.id == b.id ==> a == b)
      && forall n :: n in rows ==> Usable(n, maxNote)
    }

    constructor (maxNote: int, maxRecall: int)
      requires maxNote > 0 && maxRecall > 0
      ensures Valid() && this.maxNote == maxNote && this.maxRecall == maxRecall && rows == {}
    {
      this.maxNote, this.maxRecall, rows := maxNote, maxRecall, {};
    }

    /** Stores a note: its text stripped, neither empty nor too long. */
    method Remember(mission: nat, body: string, agent: Option<nat>, id: nat, now: int)
      returns (r: Result<Note, MemoryFailure>)
      requires Valid() && forall n :: n in rows ==> n.id != id
      modifies this
      ensures Valid()
      ensures r.Ok? <==> Strip(body) != [] && |Strip(body)| <= 1024 && |Strip(body)| <= maxNote
      ensures r.Err? ==> rows == old(rows) && r.error == if Strip(body) == [] then InvalidNote else ContextLimit
      ensures r.Ok? ==> r.value == Note(id, mission, agent, Strip(body), now) && rows == old(rows) + {r.value}
    {
      var text := Strip(body);
      if text == [] {
        return Err(InvalidNote);
      }
      if |text| > MAX_NOTE_CHARS || |text| > maxNote {
        return Err(ContextLimit);
      }
      StripTwice(body);
      var note := Note(id, mission, agent, text, now);
      rows := rows + {note};
      return Ok(note);
    }

    /** The mission's rows, oldest first. */
    method Query(mission: nat) returns (notes: seq<Note>)
      requires forall a, b :: a in rows && b in rows && a.id == b.id ==> a == b
      ensures OldestFirst(notes) && forall n :: n in notes <==> n in rows && n.mission == mission
    {
      notes := [];
      var rest := set n | n in rows && n.mission == mission;
      ghost var all := rest;
      while rest != {}
        invariant rest <= all && OldestFirst(notes) && forall n :: n in notes <==> n in all - rest
      {
        var n :| n in rest;
        rest := rest - {n};
        var i := 0;
        while i < |notes| && Older(notes[i], n)
          invariant 0 <= i <= |notes| && forall k :: 0 <= k < i ==> Older(notes[k], n)
        {
          i := i + 1;
        }
        forall k | 0 <= k < |notes| ensures notes[k].id != n.id {
          assert notes[k] in notes && notes[k] in rows && n in rows && notes[k] != n;
        }
        InsertByAge(notes, i, n);
        notes := notes[..i] + [n] + notes[i..];
      }
    }

    /** The notes of a mission that one agent may see, or the first unusable row's failure. */
    method LoadScoped(mission: nat, agent: Option<nat>) returns (r: Result<seq<Note>, MemoryFailure>, notes: seq<Note>)
      requires forall a, b :: a in rows && b in rows && a.id == b.id ==> a == b
      ensures OldestFirst(notes) && forall n :: n in notes <==> n in rows && n.mission == mission
      ensures r.Ok? <==> forall n :: n in notes ==> Usable(n, maxNote)
      ensures r.Ok? ==> r.value == Scoped(notes, agent) && OldestFirst(r.value)
      ensures r.Ok? ==> forall n :: n in r.value <==>
                          n in rows && n.mission == mission && (n.agent == None || n.agent == agent)
      ensures r.Err? ==> exists i :: && 0 <= i < |notes| && !Usable(notes[i], maxNote)
                                     && r.error == (if Strip(notes[i].body) == "" then InvalidNote else ContextLimit)
                                     && forall k :: 0 <= k < i ==> Usable(notes[k], maxNote)
    {
      hide OldestFirst, Strip;
      var found := Query(mission);
      notes := found;
      for i := 0 to |found|
        invariant forall k :: 0 <= k < i ==> RowFailure(found[k], maxNote) == None
      {
        if RowFailure(found[i], maxNote).Some? {
          assert found[i] in found;
          return Err(RowFailure(found[i], maxNote).value), notes;
        }
      }
      var scoped := [];
      for i := 0 to |found|
        invariant scoped == Scoped(found[..i], agent)
      {
        assert found[..i + 1][..i] == found[..i];
        if InScope(found[i], agent) {
          scoped := scoped + [found[i]];
        }
      }
      assert found[..|found|] == found;
      ScopedMembers(found, agent);
      ScopedInOrder(found, agent);
      return Ok(scoped), notes;
    }

    /** Recall: the longest run of the newest notes in scope that fits the cap. */
    method Recall(mission: nat, agent: Option<nat>, maxChars: Option<int>, maxTokens: Option<int>)
      returns (r: Result<seq<Note>, MemoryFailure>, ghost notes: seq<Note>, ghost cap: int)
      requires Valid()
      ensures RecallCap(maxChars, maxTokens).Err? ==> r == Err(RecallCap(maxChars, maxTokens).error)
      ensures RecallCap(maxChars, maxTokens).Ok? ==>
                && OldestFirst(notes)
                && (forall n :: n in notes <==>
                      n in rows && n.mission == mission && (n.agent == None || n.agent == agent))
                && cap == (if maxChars.None? && maxTokens.None? && maxRecall < MAX_RECALL_CHARS then maxRecall
                           else RecallCap(maxChars, maxTokens).value)
                && (r.Err? <==> notes != [] && |notes[|notes| - 1].body| > cap)
                && (r.Ok? ==> exists k :: && 0 <= k <= |notes| && r.value == notes[k..] && Total(notes[k..]) <= cap
                                          && forall j :: 0 <= j < k ==> Total(notes[j..]) > cap)
    {
      notes, cap := [], 0;
      var asked := RecallCap(maxChars, maxTokens);
      if asked.Err? {
        return Err(asked.error), notes, cap;
      }
      var limit := asked.value;
      if maxChars.None? && maxTokens.None? && maxRecall < limit {
        limit := maxRecall;
      }
      var loaded, all := LoadScoped(mission, agent);
      match loaded {
        case Err(_) => assert false;
        case Ok(scoped) =>
          notes, cap := scoped, limit;
          r := Bound(scoped, limit);
      }
    }
  }

  lemma InsertByAge(notes: seq<Note>, i: nat, n: Note)
    requires OldestFirst(notes) && i <= |notes| && forall k :: 0 <= k < |notes| ==> notes[k].id != n.id
    requires forall k :: 0 <= k < i ==> Older(notes[k], n)
    requires i < |notes| ==> !Older(notes[i], n)
    ensures OldestFirst(notes[..i] + [n] + notes[i..])
    ensures forall k :: k in notes[..i] + [n] + notes[i..] <==> k in notes || k == n
  {
    forall k | i <= k < |notes| ensures Older(n, notes[k]) {
      if k > i { assert Older(notes[i], notes[k]); }
    }
    assert notes == notes[..i] + notes[i..];
  }
}
