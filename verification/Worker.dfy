/** One worker executing one claimed job (app/workers.py): it renews the lease while the handler runs,
    and other workers' transactions fall between its own. */
module Workers {
  import opened Base
  import opened QueueSpec
  import opened WorkQueues

  /** Does `op` come from worker `o`? */
  predicate FromWorker(op: Op, o: Owner) {
    (op.Claim? || op.Heartbeat? || op.Complete? || op.Fail?) && op.owner == o
  }

  /** Other workers' queue transactions in some order take the tables from `s` to `s'`. */
  ghost predicate Ran(s: Tables, ops: seq<Op>, s': Tables)
    decreases |ops|
  {
    if ops == [] then s' == s
    else exists mid, r :: Ran(s, Init(ops), mid) && Agree(mid) && Step(mid, Last(ops), r, s')
  }

  function Init(ops: seq<Op>): seq<Op>
    requires ops != []
  {
    ops[..|ops| - 1]
  }

  function Last(ops: seq<Op>): Op
    requires ops != []
  {
    ops[|ops| - 1]
  }

  /** `o` holds job `j` on the row `row`, whose lease ends at `until`. */
  ghost predicate Holds(s: Tables, j: JobId, o: Owner, row: Job, until: Time) {
    j in s.jobs && s.jobs[j] == row && row.status == Claimed && row.owner == Some(o) && row.expiresAt == Some(until)
  }

  /** Transactions of other workers, each over before `until`. */
  predicate OthersBefore(ops: seq<Op>, o: Owner, until: Time) {
    forall i :: 0 <= i < |ops| ==> !FromWorker(ops[i], o) && ops[i].at <= ops[i].End() < until
  }

  /** A claim by another worker does not touch a row whose lease runs. */
  lemma ClaimLeavesHolder(s: Tables, c: Op, r: Reply, s': Tables, j: JobId, o: Owner, row: Job, until: Time)
    requires c.Claim? && ClaimStep(s, c, r, s') && Holds(s, j, o, row, until) && c.owner != o && c.at < until
    ensures Holds(s', j, o, row, until)
  {
    var l := ClaimIsGrant(s, c, r, s');
  }

  lemma OneStepLeavesHolder(s: Tables, op: Op, r: Reply, s': Tables, j: JobId, o: Owner, row: Job, until: Time)
    requires Agree(s) && Step(s, op, r, s') && Holds(s, j, o, row, until)
    requires !FromWorker(op, o) && op.at <= op.End() < until
    ensures Holds(s', j, o, row, until)
  {
    if op.Claim? {
      ClaimLeavesHolder(s, op, r, s', j, o, row, until);
    }
  }

  /** While a lease runs, nobody but its owner can change the job's row. */
  lemma {:induction false} OthersLeaveHolder(s: Tables, ops: seq<Op>, s': Tables, j: JobId, o: Owner, row: Job,
        until: Time)
    requires Agree(s) && Ran(s, ops, s') && Holds(s, j, o, row, until) && OthersBefore(ops, o, until)
    ensures Holds(s', j, o, row, until)
    decreases |ops|
  {
    if ops == [] {
    } else {
      var mid, r :| Ran(s, Init(ops), mid) && Agree(mid) && Step(mid, Last(ops), r, s');
      OthersLeaveHolder(s, Init(ops), mid, j, o, row, until);
      OneStepLeavesHolder(mid, Last(ops), r, s', j, o, row, until);
    }
  }

  /** One turn of the worker's loop: what others did first, then the clock readings of its own call. */
  datatype Turn = Turn(others: seq<Op>, at: Time, later: Time, dbError: bool)

  /** How the handler ended. */
  datatype Outcome = Returned(result: string) | Raised(error: string)

  /** The lease expiry after `n` punctual renewals. */
  function Expiry(start: Time, ttl: int, turns: seq<Turn>, n: nat): Time
    requires n <= |turns|
  {
    if n == 0 then start else turns[n - 1].later + ttl
  }

  /** The turn's transactions all come before the lease `until` runs out. */
  predicate OnTime(turn: Turn, until: Time, o: Owner) {
    !turn.dbError && OthersBefore(turn.others, o, until) && turn.at <= turn.later < until
  }

  /** Every turn, with whatever overhead, comes before the lease it relies on runs out. */
  predicate Punctual(start: Time, ttl: int, o: Owner, turns: seq<Turn>) {
    forall i :: 0 <= i < |turns| ==> OnTime(turns[i], Expiry(start, ttl, turns, i), o)
  }

  /** The turn's transactions all end within `delay` of the clock reading `since`. */
  predicate Prompt(turn: Turn, since: Time, delay: int, o: Owner) {
    && !turn.dbError && turn.at <= turn.later <= since + delay
    && forall k :: 0 <= k < |turn.others| ==>
         !FromWorker(turn.others[k], o) && turn.others[k].at <= turn.others[k].End() <= since + delay
  }

  /** When the lease was last granted or renewed before the i-th turn. */
  function LastRenewal(begun: Time, turns: seq<Turn>, i: nat): Time
    requires i <= |turns|
  {
    if i == 0 then begun else turns[i - 1].later
  }

  /** If every poll delay with its overhead is shorter than the lease, every turn is in time. */
  lemma PromptTurnsArePunctual(begun: Time, ttl: int, delay: int, o: Owner, turns: seq<Turn>, last: Turn)
    requires delay < ttl && Prompt(last, LastRenewal(begun, turns, |turns|), delay, o)
    requires forall i :: 0 <= i < |turns| ==> Prompt(turns[i], LastRenewal(begun, turns, i), delay, o)
    ensures Punctual(begun + ttl, ttl, o, turns) && OnTime(last, Expiry(begun + ttl, ttl, turns, |turns|), o)
  {
    forall i | 0 <= i < |turns| ensures OnTime(turns[i], Expiry(begun + ttl, ttl, turns, i), o) {
      assert Prompt(turns[i], LastRenewal(begun, turns, i), delay, o);
    }
  }

  lemma PunctualTick(start: Time, ttl: int, o: Owner, turns: seq<Turn>, i: nat)
    requires Punctual(start, ttl, o, turns) && i < |turns|
    ensures OnTime(turns[i], Expiry(start, ttl, turns, i), o)
    ensures Expiry(start, ttl, turns, i + 1) == turns[i].later + ttl
  {
  }

  /** Clock readings do not go back, and the other transactions are other workers' queue calls. */
  predicate Ordinary(turn: Turn, o: Owner) {
    && turn.at <= turn.later
    && forall k :: 0 <= k < |turn.others| ==>
         && !turn.others[k].OtherLeases? && !FromWorker(turn.others[k], o)
         && turn.others[k].at <= turn.others[k].End()
  }

  /** No terminal result stands on job `j` in the name of `o`. */
  predicate Unreported(s: Tables, j: JobId, o: Owner) {
    j in s.jobs && Terminal(s.jobs[j]) ==> s.jobs[j].owner != Some(o)
  }

  /** Only `o`'s own completion or failure can put a terminal result under its name. */
  lemma OnlyOwnReportIsTerminal(s: Tables, op: Op, r: Reply, s': Tables, j: JobId, o: Owner)
    requires Agree(s) && Step(s, op, r, s') && Unreported(s, j, o)
    requires !(FromWorker(op, o) && (op.Complete? || op.Fail?))
    ensures Unreported(s', j, o)
  {
    if op.Claim? {
      var l := ClaimIsGrant(s, op, r, s');
    } else if op.Heartbeat? || op.Complete? || op.Fail? {
      assert op.id in s.jobs ==> AgreeOn(s, op.id);
    }
  }

  lemma {:induction false} OthersLeaveUnreported(s: Tables, ops: seq<Op>, s': Tables, j: JobId, o: Owner)
    requires Agree(s) && Ran(s, ops, s') && Unreported(s, j, o)
    requires forall k :: 0 <= k < |ops| ==> !FromWorker(ops[k], o)
    ensures Unreported(s', j, o)
    decreases |ops|
  {
    if ops == [] {
    } else {
      var mid, r :| Ran(s, Init(ops), mid) && Agree(mid) && Step(mid, Last(ops), r, s');
      OthersLeaveUnreported(s, Init(ops), mid, j, o);
      OnlyOwnReportIsTerminal(mid, Last(ops), r, s', j, o);
    }
  }

  /** The holder of a running lease renews it, whatever the queue's inner checks. */
  lemma HolderRenews(s: Tables, h: Op, r: Reply, s': Tables, row: Job, until: Time)
    requires Agree(s) && h.Heartbeat? && Step(s, h, r, s') && Holds(s, h.id, h.owner, row, until)
    requires h.owner != "" && h.ttl > 0 && h.at <= h.later < until
    ensures r.Accepted? && r.row.owner == Some(h.owner) && r.row.mission == row.mission
    ensures Holds(s', h.id, h.owner, r.row, h.later + h.ttl)
  {
    assert AgreeOn(s, h.id);
  }

  /** The holder of a running lease settles its job. */
  lemma HolderSettles(s: Tables, op: Op, r: Reply, s': Tables, row: Job, until: Time)
    requires Agree(s) && (op.Complete? || op.Fail?) && Step(s, op, r, s') && Holds(s, op.id, op.owner, row, until)
    requires op.owner != "" && op.at < until
    requires op.Fail? ==> op.outcome != "" && op.missionCheck == Some(row.mission)
    ensures r.Accepted? && op.id in s'.jobs && s'.jobs[op.id] == Settled(row, op)
  {
    assert AgreeOn(s, op.id);
  }

  /** Other workers run `ops` against the shared queue. */
  method Interfere(q: WorkQueue, ops: seq<Op>)
    requires q.Valid()
    requires forall i :: 0 <= i < |ops| ==> !ops[i].OtherLeases? && ops[i].at <= ops[i].End()
    modifies q, q.leases
    ensures q.Valid() && Ran(old(q.State()), ops, q.State())
  {
    ghost var start := q.State();
    for i := 0 to |ops|
      invariant q.Valid() && Ran(start, ops[..i], q.State())
    {
      ghost var mid := q.State();
      var r;
      match ops[i] {
        case Enqueue(id, mission, kind, at) => r := q.Enqueue(Some(id), id, mission, kind, at);
        case Claim(owner, mission, item, kinds, ttl, newLease, at, later) =>
          r := q.Claim(owner, mission, item, kinds, Some(ttl), newLease, at, later);
        case Heartbeat(id, owner, ttl, at, later) => r := q.Heartbeat(id, owner, Some(ttl), 0, at, later);
        case Complete(id, owner, outcome, at, later) => r := q.Complete(id, owner, outcome, at, later);
        case Fail(id, owner, outcome, mission, retryAt, at, later) =>
          r := q.Fail(id, owner, outcome, mission, retryAt, at, later);
        case OtherLeases(_, _) => assert false;
      }
      assert Step(mid, ops[i], r, q.State());
      assert Init(ops[..i + 1]) == ops[..i] && Last(ops[..i + 1]) == ops[i];
    }
    assert ops[..|ops|] == ops;
  }

  /** The worker's own renewal: accepted, with a fresh expiry, whenever its lease is still running. */
  method Renew(q: WorkQueue, id: JobId, owner: Owner, ttl: int, at: Time, later: Time, ghost row: Job,
        ghost until: Time)
    returns (r: Reply)
    requires q.Valid() && owner != "" && ttl > 0 && at <= later
    modifies q, q.leases
    ensures q.Valid()
    ensures Holds(old(q.State()), id, owner, row, until) && later < until ==>
              && r.Accepted? && r.row.owner == Some(owner) && r.row.mission == row.mission
              && Holds(q.State(), id, owner, r.row, later + ttl)
    ensures Unreported(old(q.State()), id, owner) ==> Unreported(q.State(), id, owner)
  {
    ghost var before := q.State();
    r := q.Heartbeat(id, owner, Some(ttl), 0, at, later);
    if Unreported(before, id, owner) {
      OnlyOwnReportIsTerminal(before, Op.Heartbeat(id, owner, ttl, at, later), r, q.State(), id, owner);
    }
    if Holds(before, id, owner, row, until) && later < until {
      HolderRenews(before, Op.Heartbeat(id, owner, ttl, at, later), r, q.State(), row, until);
    }
  }

  /** The worker's report of the outcome: accepted whenever its lease is still running. */
  method Report(q: WorkQueue, id: JobId, mission: string, owner: Owner, at: Time, later: Time, outcome: Outcome,
                ghost row: Job, ghost until: Time)
    returns (r: Reply)
    requires q.Valid() && owner != "" && at <= later && (outcome.Raised? ==> outcome.error != "")
    modifies q, q.leases
    ensures q.Valid()
    ensures r.Accepted? ==>
              && id in q.jobs && q.jobs[id].owner == Some(owner)
              && (outcome.Returned? ==> q.jobs[id].status == Completed && q.jobs[id].result == Some(outcome.result))
              && (outcome.Raised? ==> q.jobs[id].status == Failed && q.jobs[id].result == Some(outcome.error))
    ensures !r.Accepted? ==> q.State() == old(q.State())
    ensures Holds(old(q.State()), id, owner, row, until) && row.mission == mission && at < until ==>
              r.Accepted?
  {
    ghost var before := q.State();
    ghost var op;
    match outcome {
      case Returned(result) =>
        op := Op.Complete(id, owner, result, at, later);
        r := q.Complete(id, owner, result, at, later);
      case Raised(error) =>
        op := Op.Fail(id, owner, error, Some(mission), None, at, later);
        r := q.Fail(id, owner, error, Some(mission), None, at, later);
    }
    if Holds(before, id, owner, row, until) && row.mission == mission && at < until {
      HolderSettles(before, op, r, q.State(), row, until);
    }
  }

  /** Others run; the worker's own hold survives if they are all over before its lease ends. */
  method LetOthersRun(q: WorkQueue, turn: Turn, id: JobId, owner: Owner, ghost row: Job, ghost until: Time)
    requires q.Valid() && Ordinary(turn, owner)
    modifies q, q.leases
    ensures q.Valid()
    ensures Holds(old(q.State()), id, owner, row, until) && OnTime(turn, until, owner) ==>
              Holds(q.State(), id, owner, row, until)
    ensures Unreported(old(q.State()), id, owner) ==> Unreported(q.State(), id, owner)
  {
    ghost var before := q.State();
    Interfere(q, turn.others);
    if Unreported(before, id, owner) {
      OthersLeaveUnreported(before, turn.others, q.State(), id, owner);
    }
    if Holds(before, id, owner, row, until) && OnTime(turn, until, owner) {
      OthersLeaveHolder(before, turn.others, q.State(), id, owner, row, until);
    }
  }

  /** One tick of the heartbeat loop: others run, then the lease is renewed. */
  method Tick(q: WorkQueue, id: JobId, owner: Owner, ttl: int, turn: Turn, ghost row: Job, ghost until: Time)
    returns (live: bool, ghost held: Job)
    requires q.Valid() && owner != "" && ttl > 0 && Ordinary(turn, owner)
    modifies q, q.leases
    ensures q.Valid() && (Unreported(old(q.State()), id, owner) ==> Unreported(q.State(), id, owner))
    ensures Holds(old(q.State()), id, owner, row, until) && OnTime(turn, until, owner) ==>
              live && held.mission == row.mission && Holds(q.State(), id, owner, held, turn.later + ttl)
  {
    held := row;
    LetOthersRun(q, turn, id, owner, row, until);
    if turn.dbError {
      return false, held;
    }
    var r := Renew(q, id, owner, ttl, turn.at, turn.later, row, until);
    if !r.Accepted? || r.row.owner != Some(owner) {
      return false, held;
    }
    return true, r.row;
  }

  /** The heartbeat loop while the handler runs: one renewal a tick until one is refused. */
  method KeepAlive(q: WorkQueue, id: JobId, owner: Owner, ttl: int, ticks: seq<Turn>, ghost row: Job, ghost until: Time)
    returns (live: bool, ghost held: Job)
    requires q.Valid() && owner != "" && ttl > 0
    requires forall i :: 0 <= i < |ticks| ==> Ordinary(ticks[i], owner)
    requires Holds(q.State(), id, owner, row, until)
    modifies q, q.leases
    ensures q.Valid() && Unreported(q.State(), id, owner)
    ensures Punctual(until, ttl, owner, ticks) ==>
              live && held.mission == row.mission
              && Holds(q.State(), id, owner, held, Expiry(until, ttl, ticks, |ticks|))
  {
    hide Punctual;
    live, held := true, row;
    ghost var punctual := Punctual(until, ttl, owner, ticks);
    for i := 0 to |ticks|
      invariant q.Valid() && live && Unreported(q.State(), id, owner)
      invariant punctual ==>
                  Holds(q.State(), id, owner, held, Expiry(until, ttl, ticks, i)) && held.mission == row.mission
    {
      if punctual { PunctualTick(until, ttl, owner, ticks, i); }
      live, held := Tick(q, id, owner, ttl, ticks[i], held, Expiry(until, ttl, ticks, i));
      if !live {
        return;
      }
    }
  }

  /** A claimed job from claim to report.  `ticks` are the heartbeats and `last` the turn in which the
      handler's outcome is reported.  A worker whose lease is lost writes no terminal result. */
  method ExecuteClaimed(q: WorkQueue, id: JobId, mission: string, owner: Owner, ttl: int,
                        ticks: seq<Turn>, last: Turn, outcome: Outcome, ghost row: Job, ghost until: Time)
    returns (live: bool, reply: Option<Reply>)
    requires q.Valid() && owner != "" && ttl > 0
    requires Ordinary(last, owner) && forall i :: 0 <= i < |ticks| ==> Ordinary(ticks[i], owner)
    requires outcome.Raised? ==> outcome.error != ""
    requires Holds(q.State(), id, owner, row, until) && row.mission == mission
    modifies q, q.leases
    ensures q.Valid()
    // A lost lease is never turned into a terminal result: neither one a heartbeat or the database noticed,
    // nor one that shows only when the report itself is refused.
    ensures !live ==> reply == None
    ensures reply == None || !reply.value.Accepted? ==> Unreported(q.State(), id, owner)
    // What an accepted report leaves is the handler's outcome.
    ensures reply.Some? && reply.value.Accepted? ==>
              && id in q.jobs && q.jobs[id].owner == Some(owner)
              && (outcome.Returned? ==> q.jobs[id].status == Completed && q.jobs[id].result == Some(outcome.result))
              && (outcome.Raised? ==> q.jobs[id].status == Failed && q.jobs[id].result == Some(outcome.error))
    // With every delay shorter than the lease, every heartbeat and the final report are accepted.
    ensures Punctual(until, ttl, owner, ticks) && OnTime(last, Expiry(until, ttl, ticks, |ticks|), owner) ==>
              live && reply.Some? && reply.value.Accepted?
  {
    reply := None;
    ghost var held, expiry := row, Expiry(until, ttl, ticks, |ticks|);
    live, held := KeepAlive(q, id, owner, ttl, ticks, row, until);
    if !live {
      return;
    }
    LetOthersRun(q, last, id, owner, held, expiry);
    if !last.dbError {
      var r := Report(q, id, mission, owner, last.at, last.later, outcome, held, expiry);
      reply := Some(r);
    }
  }
}
