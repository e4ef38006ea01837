/** What the queue's transactions do to the rows, field by field: when a call is accepted, what it then
    writes, and what a refusal means (app/queue.py). */
module QueueFacts {
  import opened Base
  import opened Text
  import opened QueueSpec
  import opened QueueRuns

  /** The job is claimed by `owner`, and the claim has not run out at `now`. */
  predicate HeldBy(jobs: JobTable, id: JobId, owner: Owner, now: Time) {
    && owner != "" && id in jobs && jobs[id].status == Claimed && jobs[id].owner == Some(owner)
    && jobs[id].expiresAt.Some? && now < jobs[id].expiresAt.value
  }

  /** Every other job is left as it was. */
  ghost predicate OnlyJob(jobs: JobTable, id: JobId, jobs': JobTable) {
    jobs'.Keys == jobs.Keys + {id} && forall k :: k in jobs && k != id ==> jobs'[k] == jobs[k]
  }

  /** Every other lease row is left as it was. */
  ghost predicate OnlyLease(leases: LeaseTable, id: LeaseId, leases': LeaseTable) {
    leases'.Keys == leases.Keys + {id} && forall k :: k in leases && k != id ==> leases'[k] == leases[k]
  }

  /** A granted claim: the job is its owner's until the lease ends, the attempt is a new one unless the
      owner already held the job, and nothing else about the job changes. */
  lemma ClaimWrites(s: Tables, c: Op, r: Reply, s': Tables)
    requires Agree(s) && c.Claim? && c.at <= c.later && Step(s, c, r, s') && r.Accepted?
    ensures r.id in s.jobs && OnlyJob(s.jobs, r.id, s'.jobs) && r.row == s'.jobs[r.id] && r.row.lease.Some?
    ensures c.item.Some? ==> r.id == c.item.value
    ensures var row, row' := s.jobs[r.id], r.row;
            var begins := row.status == Pending || (row.expiresAt.Some? && row.expiresAt.value <= c.later);
            && row' == row.(status := Claimed, owner := Some(c.owner), lease := row'.lease, updatedAt := c.at,
                            expiresAt := Some(c.later + c.ttl),
                            attempt := if begins then row.attempt + 1 else row.attempt)
            && (r.reclaimed <==> row.status == Claimed && begins)
  {
    hide Agree;
    var l := ClaimIsGrant(s, c, r, s');
  }

  /** The lease row of the claim says the same. */
  lemma ClaimTakesLease(s: Tables, c: Op, r: Reply, s': Tables)
    requires Agree(s) && c.Claim? && Step(s, c, r, s') && r.Accepted?
    ensures r.id in s.jobs && r.row.lease.Some?
    ensures var l := r.row.lease.value;
            && OnlyLease(s.leases, l, s'.leases)
            && (l in s.leases ==> s.leases[l].scope == JobScope && s.leases[l].scopeId == r.id)
            && s'.leases[l] == Lease(JobScope, r.id, s.jobs[r.id].mission, c.owner, Held, c.later + c.ttl, c.later,
                                     if l in s.leases then s.leases[l].createdAt else c.later)
  {
    hide Agree;
    var l := ClaimIsGrant(s, c, r, s');
  }

  /** A heartbeat moves the end of the claim; a completion or final failure ends the job with its result;
      a failure to be retried puts it back, not to be taken before the given time. */
  lemma UpdateWrites(s: Tables, op: Op, r: Reply, s': Tables)
    requires Agree(s) && (op.Heartbeat? || op.Complete? || op.Fail?) && Step(s, op, r, s') && r.Accepted?
    ensures r.id == op.id && op.id in s.jobs && OnlyJob(s.jobs, op.id, s'.jobs) && r.row == s'.jobs[op.id]
    ensures var row, row' := s.jobs[op.id], r.row;
            && (op.Heartbeat? ==> row' == row.(expiresAt := Some(op.later + op.ttl), updatedAt := op.at))
            && (op.Complete? ==> row' == row.(status := Completed, completedAt := Some(op.at), expiresAt := Some(op.at),
                                              updatedAt := op.at, result := Some(op.outcome)))
            && (op.Fail? && op.retryAt.None? ==>
                  row' == row.(status := Failed, completedAt := Some(op.at), expiresAt := Some(op.at),
                               updatedAt := op.at, result := Some(op.outcome)))
            && (op.Fail? && op.retryAt.Some? ==>
                  row' == row.(status := Pending, owner := None, lease := None, availableAt := op.retryAt.value,
                               expiresAt := None, completedAt := None, updatedAt := op.at, result := Some(op.outcome)))
  {
    hide Agree;
    UpdateShape(s, op, r, s');
  }

  /** With the job its lease is extended or given up. */
  lemma UpdateMovesLease(s: Tables, op: Op, r: Reply, s': Tables)
    requires Agree(s) && (op.Heartbeat? || op.Complete? || op.Fail?) && Step(s, op, r, s') && r.Accepted?
    ensures op.id in s.jobs && s.jobs[op.id].lease.Some? && s.jobs[op.id].lease.value in s.leases
    ensures var l := s.jobs[op.id].lease.value;
            && OnlyLease(s.leases, l, s'.leases)
            && s'.leases[l] == s.leases[l].(status := if op.Heartbeat? then Held else Released,
                                            expiresAt := if op.Heartbeat? then op.later + op.ttl else op.later,
                                            heartbeatAt := op.later)
  {
    assert op.id in s.jobs ==> AgreeOn(s, op.id);
  }

  /** Enqueueing adds one pending job that may be taken at once. */
  lemma EnqueueWrites(s: Tables, e: Op, r: Reply, s': Tables)
    requires Agree(s) && e.Enqueue? && Step(s, e, r, s')
    ensures r.Accepted? <==> Strip(e.kind) != "" && e.mission != "" && e.id !in s.jobs
    ensures r.Accepted? ==> s' == s.(jobs := s.jobs[e.id := r.row]) && r.id == e.id
    ensures r.Accepted? ==> && r.row.kind == Strip(e.kind) && r.row.mission == e.mission && r.row.status == Pending
                            && r.row.owner == None && r.row.lease == None && r.row.expiresAt == None
                            && r.row.attempt == 0
                            && r.row.availableAt == e.at && r.row.createdAt == e.at && r.row.updatedAt == e.at
                            && r.row.completedAt == None && r.row.result == None
  {
  }

  /** Only the worker that holds the job, while it holds it, can extend, finish or fail it, and then it can. */
  lemma UpdateAcceptedExactly(s: Tables, op: Op, r: Reply, s': Tables)
    requires Agree(s) && Step(s, op, r, s')
    ensures op.Heartbeat? ==> (r.Accepted? <==> HeldBy(s.jobs, op.id, op.owner, op.at) && op.ttl > 0
                                                && op.later < s.jobs[op.id].expiresAt.value)
    ensures op.Complete? ==> (r.Accepted? <==> HeldBy(s.jobs, op.id, op.owner, op.at))
    ensures op.Fail? ==> (r.Accepted? <==> HeldBy(s.jobs, op.id, op.owner, op.at) && op.outcome != ""
                                           && MissionFits(s.jobs[op.id], op.missionCheck))
    ensures (op.Heartbeat? || op.Complete? || op.Fail?) && !r.Accepted? ==> r.Refused? && s' == s
  {
    hide Settled;
    if op.Fail? && op.id in s.jobs {
      assert AgreeOn(s, op.id);
    }
  }

  /** A claim of a named job is granted exactly when the job fits and is free or the caller's own, and there
      is a lease row to take. */
  lemma NamedClaimAcceptedExactly(s: Tables, c: Op, r: Reply, s': Tables)
    requires Agree(s) && c.Claim? && c.item.Some? && Step(s, c, r, s')
    ensures r.Accepted? <==>
              && c.owner != "" && c.ttl > 0 && c.item.value in s.jobs
              && var row := s.jobs[c.item.value];
                 && Takes(c, row)
                 && (Free(row, c.at) || HeldBy(s.jobs, c.item.value, c.owner, c.at))
                 && (c.freshLease !in s.leases
                     || exists l :: l in s.leases && s.leases[l].scope == JobScope
                                    && s.leases[l].scopeId == c.item.value)
    ensures !r.Accepted? ==> r.Refused? && s' == s
  {
    var j := c.item.value;
    if j in s.jobs {
      KindsSpelled(c, s.jobs[j]);
      if l :| l in s.leases && s.leases[l].scope == JobScope && s.leases[l].scopeId == j {
        assert LeaseFor(s.leases, JobScope, j, l);
      }
    }
  }

  /** What each refusal says about the call and the tables. */
  predicate Deserved(s: Tables, op: Op, why: Refusal) {
    match why
    case OwnerRequired => !op.Enqueue? && !op.OtherLeases? && op.owner == ""
    case KindRequired => op.Enqueue? && Strip(op.kind) == ""
    case MissionRequired => op.Enqueue? && op.mission == ""
    case AlreadyExists => op.Enqueue? && op.id in s.jobs
    case KindsRequired => op.Claim? && op.kinds.Some? && forall k :: k in op.kinds.value ==> Strip(k) == ""
    case EmptyFailure => op.Fail? && op.outcome == ""
    case TtlNotPositive => (op.Claim? || op.Heartbeat?) && op.ttl <= 0
    case CouldNotClaim => op.Claim? && op.freshLease in s.leases
    case NotFound => Named(op).Some? && Named(op).value !in s.jobs
    case WrongMission =>
      && Named(op).Some? && Named(op).value in s.jobs && (op.Claim? || op.Fail?)
      && !MissionFits(s.jobs[Named(op).value], op.missionCheck)
    case WrongKind =>
      && op.Claim? && op.item.Some? && op.item.value in s.jobs && op.kinds.Some?
      && forall k :: k in op.kinds.value && Strip(k) != "" ==> Strip(k) != s.jobs[op.item.value].kind
    case AlreadyFinished =>
      Named(op).Some? && Named(op).value in s.jobs && s.jobs[Named(op).value].status in {Completed, Failed}
    case NotClaimed =>
      && Named(op).Some? && Named(op).value in s.jobs
      && (s.jobs[Named(op).value].status == Pending || (op.Heartbeat? && s.jobs[Named(op).value].status != Claimed))
    case NotClaimant =>
      Named(op).Some? && Named(op).value in s.jobs && !op.Enqueue? && s.jobs[Named(op).value].owner != Some(op.owner)
    case Lapsed =>
      && Named(op).Some? && Named(op).value in s.jobs && !op.Enqueue?
      && s.jobs[Named(op).value].expiresAt.Some? && s.jobs[Named(op).value].expiresAt.value <= op.End()
    case LeasedByAnother =>
      && op.Claim? && op.item.Some? && op.item.value in s.jobs
      && s.jobs[op.item.value].status in {Pending, Claimed}
      && !Free(s.jobs[op.item.value], op.at) && !HeldBy(s.jobs, op.item.value, op.owner, op.at)
    case _ => false
  }

  /** The job a call names. */
  function Named(op: Op): Option<JobId> {
    match op
    case Claim(_, _, item, _, _, _, _, _) => item
    case Heartbeat(id, _, _, _, _) => Some(id)
    case Complete(id, _, _, _, _) => Some(id)
    case Fail(id, _, _, _, _, _, _) => Some(id)
    case _ => None
  }

  lemma ClaimRefusal(s: Tables, c: Op, r: Reply, s': Tables)
    requires c.Claim? && ClaimStep(s, c, r, s') && r.Refused?
    ensures Deserved(s, c, r.why) && s' == s
  {
    if c.item.Some? && c.item.value in s.jobs {
      KindsSpelled(c, s.jobs[c.item.value]);
    }
    NoKindsSpelled(c);
  }

  lemma BlockedDeserves(s: Tables, op: Op, check: Option<string>, why: Refusal)
    requires Agree(s) && (op.Heartbeat? || op.Complete? || op.Fail?) && op.at <= op.later
    requires check == if op.Fail? then op.missionCheck else None
    requires Blocked(s, op.id, op.owner, check, !op.Heartbeat?, op.at) == Some(why)
    ensures Deserved(s, op, why)
  {
    if op.id in s.jobs {
      assert AgreeOn(s, op.id);
    }
  }

  lemma HeartbeatRefusal(s: Tables, h: Op, r: Reply, s': Tables)
    requires Agree(s) && h.Heartbeat? && h.at <= h.later && HeartbeatStep(s, h, r, s') && r.Refused?
    ensures Deserved(s, h, r.why) && s' == s
  {
    var blocked := Blocked(s, h.id, h.owner, None, false, h.at);
    if blocked.Some? {
      BlockedDeserves(s, h, None, blocked.value);
    } else {
      assert AgreeOn(s, h.id);
    }
  }

  lemma FinishRefusal(s: Tables, op: Op, r: Reply, s': Tables)
    requires Agree(s) && (op.Complete? || op.Fail?) && op.at <= op.later && FinishStep(s, op, r, s') && r.Refused?
    ensures Deserved(s, op, r.why) && s' == s
  {
    hide Settled, Blocked, Agree;
    var check := if op.Fail? then op.missionCheck else None;
    var blocked := Blocked(s, op.id, op.owner, check, true, op.at);
    if blocked.Some? {
      BlockedDeserves(s, op, check, blocked.value);
    }
  }

  /** No call is refused without the reason it is given. */
  lemma RefusalsAreDeserved(s: Tables, op: Op, r: Reply, s': Tables)
    requires Agree(s) && op.at <= op.End() && Step(s, op, r, s') && r.Refused?
    ensures Deserved(s, op, r.why) && s' == s
  {
    if op.Claim? {
      ClaimRefusal(s, op, r, s');
    } else if op.Heartbeat? {
      HeartbeatRefusal(s, op, r, s');
    } else if op.Complete? || op.Fail? {
      FinishRefusal(s, op, r, s');
    }
  }

  lemma NoKindsSpelled(c: Op)
    requires c.Claim?
    ensures KindFilter(c.kinds) == Some({}) <==>
              c.kinds.Some? && forall k :: k in c.kinds.value ==> Strip(k) == ""
  {
    if c.kinds.Some? {
      if k :| k in c.kinds.value && Strip(k) != "" {
        assert Strip(k) in KindFilter(c.kinds).value;
      } else {
        assert KindFilter(c.kinds).value == {};
      }
    }
  }

  // ------------------------------------------------------------ a job put back

  /** Unless `j` is claimed, a pending row stays as it is. */
  lemma PendingStays(s: Tables, op: Op, r: Reply, s': Tables, j: JobId)
    requires Agree(s) && Step(s, op, r, s') && j in s.jobs && s.jobs[j].status == Pending
    requires !(op.Claim? && r.Accepted? && r.id == j)
    ensures j in s'.jobs && s'.jobs[j] == s.jobs[j]
  {
    if op.Claim? {
      var l := ClaimIsGrant(s, op, r, s');
    } else if r.Accepted? && !op.Enqueue? && !op.OtherLeases? {
      UpdateShape(s, op, r, s');
    } else {
      QuietStep(s, op, r, s');
    }
  }

  lemma {:induction false} PutBackWaits(run: Run, j: JobId, m: nat, n: nat)
    requires IsRun(run) && m < n <= |run.ops| && run.ops[m].Fail? && run.ops[m].id == j && run.rs[m].Accepted?
    requires run.ops[m].retryAt.Some?
    requires forall i :: m < i < n ==> !(run.ops[i].Claim? && run.rs[i].Accepted? && run.rs[i].id == j)
    ensures j in run.ws[n].tables.jobs && run.ws[n].tables.jobs[j] == run.rs[m].row
    ensures run.rs[m].row.status == Pending && run.rs[m].row.availableAt == run.ops[m].retryAt.value
    decreases n
  {
    TablesAlwaysAgree(run, n - 1);
    assert Next(run.ws[n - 1], run.ops[n - 1], run.rs[n - 1], run.ws[n - 1 + 1]);
    if n - 1 > m {
      PutBackWaits(run, j, m, n - 1);
      PendingStays(run.ws[n - 1].tables, run.ops[n - 1], run.rs[n - 1], run.ws[n].tables, j);
    } else {
      UpdateWrites(run.ws[m].tables, run.ops[m], run.rs[m], run.ws[n].tables);
    }
  }

  /** A job failed with a retry time is not worked on again before that time, and then as a new attempt. */
  lemma RetryIsNotEarly(run: Run, j: JobId, m: nat, n: nat)
    requires IsRun(run) && m < n < |run.ops| && run.ops[m].Fail? && run.ops[m].id == j && run.rs[m].Accepted?
    requires run.ops[m].retryAt.Some?
    requires forall i :: m < i < n ==> !(run.ops[i].Claim? && run.rs[i].Accepted? && run.rs[i].id == j)
    requires run.ops[n].Claim? && run.rs[n].Accepted? && run.rs[n].id == j
    ensures run.ops[n].at >= run.ops[m].retryAt.value
    ensures run.rs[n].row.attempt == run.rs[m].row.attempt + 1
  {
    PutBackWaits(run, j, m, n);
    TablesAlwaysAgree(run, n);
    assert Next(run.ws[n], run.ops[n], run.rs[n], run.ws[n + 1]);
    ClaimRespectsNotBefore(run, n);
    ClaimWrites(run.ws[n].tables, run.ops[n], run.rs[n], run.ws[n + 1].tables);
  }
}
