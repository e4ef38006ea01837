/** The queue and lease objects themselves: the transactions of app/queue.py and app/leases.py, with
    every check the code makes, proved to do what QueueSpec says. */
module WorkQueues {
  import opened Base
  import opened Text
  import opened QueueSpec

  datatype ClaimOutcome = ClaimOutcome(id: LeaseId, lease: Lease, reclaimed: bool)

  /** What claiming a lease row does, including the conflict the queue never meets. */
  ghost predicate LeaseClaimStep(before: LeaseTable, scope: Scope, scopeId: nat, mission: string, owner: Owner,
                                 ttl: int, newId: LeaseId, now: Time,
                                 r: Result<ClaimOutcome, Refusal>, after: LeaseTable)
  {
    if owner == "" then r == Err(OwnerRequired) && after == before
    else if ttl <= 0 then r == Err(TtlNotPositive) && after == before
    else if forall l :: !LeaseFor(before, scope, scopeId, l) then
      if newId in before then r == Err(CouldNotClaim) && after == before
      else
        var lease := Lease(scope, scopeId, mission, owner, Held, now + ttl, now, now);
        r == Ok(ClaimOutcome(newId, lease, false)) && after == before[newId := lease]
    else exists l ::
      && LeaseFor(before, scope, scopeId, l)
      && var live := before[l].status == Held && before[l].expiresAt > now;
         if live && before[l].owner != owner then r == Err(LeasedByAnother) && after == before
         else
           var lease := Lease(scope, scopeId, mission, owner, Held, now + ttl, now, before[l].createdAt);
           && r == Ok(ClaimOutcome(l, lease, !live && before[l].status == Held))
           && after == before[l := lease]
  }

  class WorkerLeases {
    var leases: LeaseTable
    const defaultTtl: int

    constructor (defaultTtl: int)
      ensures leases == map[] && this.defaultTtl == defaultTtl
    {
      leases := map[];
      this.defaultTtl := defaultTtl;
    }

    function Ttl(ttl: Option<int>): int {
      if ttl.None? then defaultTtl else ttl.value
    }

    method ClaimInSession(scope: Scope, scopeId: nat, mission: string, owner: Owner, ttl: Option<int>,
                          newId: LeaseId, now: Time)
      returns (r: Result<ClaimOutcome, Refusal>)
      requires UniqueScopes(leases)
      modifies this
      ensures LeaseClaimStep(old(leases), scope, scopeId, mission, owner, Ttl(ttl), newId, now, r, leases)
      ensures UniqueScopes(leases)
      ensures scope != JobScope ==> SameJobLeases(old(leases), leases)
    {
      if owner == "" {
        return Err(OwnerRequired);
      }
      if Ttl(ttl) <= 0 {
        return Err(TtlNotPositive);
      }
      var expires := now + Ttl(ttl);
      if l :| l in leases && leases[l].scope == scope && leases[l].scopeId == scopeId {
        assert LeaseFor(leases, scope, scopeId, l);
        var row := leases[l];
        var live := row.status == Held && row.expiresAt > now;
        if live && row.owner != owner {
          return Err(LeasedByAnother);
        }
        var reclaimed := !live && row.status == Held;
        row := row.(mission := mission, owner := owner, status := Held, expiresAt := expires, heartbeatAt := now);
        TakingKeepsScopesUnique(leases, l, row);
        leases := leases[l := row];
        return Ok(ClaimOutcome(l, row, reclaimed));
      }
      if newId in leases {
        return Err(CouldNotClaim);
      }
      var row := Lease(scope, scopeId, mission, owner, Held, expires, now, now);
      TakingKeepsScopesUnique(leases, newId, row);
      leases := leases[newId := row];
      return Ok(ClaimOutcome(newId, row, false));
    }

    method Renew(id: LeaseId, owner: Owner, ttl: Option<int>, now: Time) returns (r: Result<Lease, Refusal>)
      requires UniqueScopes(leases)
      modifies this
      ensures r.Ok? <==> && Ttl(ttl) > 0 && id in old(leases) && old(leases)[id].owner == owner
                         && old(leases)[id].status == Held && old(leases)[id].expiresAt > now
      ensures r.Ok? ==> leases == old(leases)[id := old(leases)[id].(expiresAt := now + Ttl(ttl), heartbeatAt := now)]
                        && r.value == leases[id]
      ensures r.Err? ==> leases == old(leases)
      ensures (id in old(leases) && old(leases)[id].scope != JobScope) ==> SameJobLeases(old(leases), leases)
    {
      if Ttl(ttl) <= 0 {
        return Err(TtlNotPositive);
      }
      if id !in leases {
        return Err(LeaseNotFound);
      }
      if leases[id].owner != owner || leases[id].status != Held {
        return Err(NotClaimant);
      }
      if leases[id].expiresAt <= now {
        return Err(Lapsed);
      }
      leases := leases[id := leases[id].(expiresAt := now + Ttl(ttl), heartbeatAt := now)];
      return Ok(leases[id]);
    }

    method ReleaseInSession(id: LeaseId, owner: Owner, now: Time) returns (r: Result<Lease, Refusal>)
      modifies this
      ensures r.Ok? <==> id in old(leases) && old(leases)[id].owner == owner
      ensures r.Ok? ==>
                leases == old(leases)[id := old(leases)[id].(status := Released, expiresAt := now, heartbeatAt := now)]
                        && r.value == leases[id]
      ensures r.Err? ==> leases == old(leases) && r.error in {LeaseNotFound, NotClaimant}
    {
      if id !in leases {
        return Err(LeaseNotFound);
      }
      if leases[id].owner != owner {
        return Err(NotClaimant);
      }
      leases := leases[id := leases[id].(status := Released, expiresAt := now, heartbeatAt := now)];
      return Ok(leases[id]);
    }
  }

  /** Known jobs by creation time, and by id among those created at once. */
  ghost predicate Ordered(jobs: JobTable, rows: seq<JobId>) {
    && (forall i :: 0 <= i < |rows| ==> rows[i] in jobs)
    && forall i, k :: 0 <= i < k < |rows| ==>
         && rows[i] in jobs && rows[k] in jobs
         && (|| jobs[rows[i]].createdAt < jobs[rows[k]].createdAt
             || (jobs[rows[i]].createdAt == jobs[rows[k]].createdAt && rows[i] < rows[k]))
  }

  lemma InsertOrdered(jobs: JobTable, rows: seq<JobId>, i: nat, j: JobId)
    requires Ordered(jobs, rows) && j in jobs && j !in rows && i <= |rows|
    requires forall k :: 0 <= k < i ==> Before(jobs, rows[k], j)
    requires i < |rows| ==> !Before(jobs, rows[i], j)
    ensures Ordered(jobs, rows[..i] + [j] + rows[i..])
    ensures forall k :: k in rows[..i] + [j] + rows[i..] <==> k in rows || k == j
  {
    forall k | i <= k < |rows| ensures Before(jobs, j, rows[k]) {
      assert rows[k] in rows && rows[i] in rows;
      if k > i { assert Before(jobs, rows[i], rows[k]); }
    }
    assert rows == rows[..i] + rows[i..];
  }

  /** Under the invariant the row the queue selects is never held by another worker in the lease table. */
  lemma SelectedRowMeetsNoConflict(s: Tables, c: Op, j: JobId, r: Result<ClaimOutcome, Refusal>, after: LeaseTable)
    requires Agree(s) && c.Claim? && c.at <= c.later && c.owner != "" && j in s.jobs
    requires Available(s.jobs[j], c.at) || (LiveRow(s.jobs[j], c.at) && s.jobs[j].owner == Some(c.owner))
    requires LeaseClaimStep(s.leases, JobScope, j, s.jobs[j].mission, c.owner, c.ttl, c.freshLease, c.later, r, after)
    ensures r != Err(LeasedByAnother)
    ensures r.Err? ==> after == s.leases && TakeStep(s, c, j, Refused(r.error), s)
    ensures r.Ok? ==>
              && after == Granted(s, c, j, r.value.id).leases
              && r.value.lease.expiresAt == c.later + c.ttl
              && r.value.reclaimed == (s.jobs[j].status == Claimed && !LiveRow(s.jobs[j], c.later))
              && var s' := Granted(s, c, j, r.value.id);
                 TakeStep(s, c, j, Accepted(j, s'.jobs[j], r.value.reclaimed), s')
  {
    assert AgreeOn(s, j);
    if c.ttl > 0 && exists l :: LeaseFor(s.leases, JobScope, j, l) {
      var l :| LeaseFor(s.leases, JobScope, j, l);
      assert s.jobs[j].status == Claimed ==> l == s.jobs[j].lease.value;
    }
    if r.Ok? {
      var l := r.value.id;
      assert if c.freshLease !in s.leases && l == c.freshLease
             then forall k :: !LeaseFor(s.leases, JobScope, j, k)
             else LeaseFor(s.leases, JobScope, j, l);
    }
  }

  /** The row a won claim writes is the one the grant prescribes. */
  lemma WonRowIsGranted(s: Tables, c: Op, j: JobId, won: ClaimOutcome, after: LeaseTable, row: Job)
    requires Agree(s) && c.Claim? && j in s.jobs && after == Granted(s, c, j, won.id).leases
    requires won.lease.expiresAt == c.later + c.ttl
    requires won.reclaimed == (s.jobs[j].status == Claimed && !LiveRow(s.jobs[j], c.later))
    requires row == s.jobs[j].(status := Claimed, owner := Some(c.owner), lease := Some(won.id),
                               expiresAt := Some(won.lease.expiresAt), updatedAt := c.at,
                               attempt := s.jobs[j].attempt
                                          + if s.jobs[j].status == Pending || won.reclaimed then 1 else 0)
    requires !Terminal(s.jobs[j])
    ensures Tables(s.jobs[j := row], after) == Granted(s, c, j, won.id)
  {
    assert AgreeOn(s, j);
  }

  class WorkQueue {
    var jobs: JobTable
    const leases: WorkerLeases

    ghost function State(): Tables
      reads this, leases
    {
      Tables(jobs, leases.leases)
    }

    ghost predicate Valid()
      reads this, leases
    {
      Agree(State())
    }

    constructor (leases: WorkerLeases)
      requires UniqueScopes(leases.leases)
      requires forall l :: l in leases.leases ==> leases.leases[l].scope != JobScope
      ensures Valid() && jobs == map[] && this.leases == leases
    {
      jobs := map[];
      this.leases := leases;
    }

    /** Adds a pending job under the id given, or else under `newId`. */
    method Enqueue(item: Option<JobId>, newId: JobId, mission: string, kind: string, at: Time) returns (r: Reply)
      requires Valid()
      modifies this
      ensures Valid()
      ensures var id := if item.Some? then item.value else newId;
              Step(old(State()), Op.Enqueue(id, mission, kind, at), r, State())
    {
      ghost var before := State();
      var id := if item.Some? then item.value else newId;
      var name := Strip(kind);
      if name == "" {
        return Refused(KindRequired);
      }
      if mission == "" {
        return Refused(MissionRequired);
      }
      if id in jobs {
        return Refused(AlreadyExists);
      }
      var row := Job(name, mission, Pending, None, None, 0, at, None, at, at, None, None);
      jobs := jobs[id := row];
      r := Accepted(id, row, false);
      StepKeepsAgreement(before, Op.Enqueue(id, mission, kind, at), r, State());
    }

    /** The ordered query over claimable rows. */
    method Query(mission: Option<string>, kinds: Option<set<string>>) returns (rows: seq<JobId>)
      ensures Ordered(jobs, rows)
      ensures forall j :: j in rows <==>
                && j in jobs && jobs[j].status != Completed && jobs[j].status != Failed
                && MissionFits(jobs[j], mission)
                && (kinds == None || jobs[j].kind in kinds.value)
    {
      rows := [];
      var rest := set j | j in jobs && !Terminal(jobs[j]) && Matches(jobs[j], mission, kinds);
      ghost var all := rest;
      while rest != {}
        invariant rest <= all && Ordered(jobs, rows)
        invariant forall j :: j in rows <==> j in all - rest
      {
        var j :| j in rest;
        rest := rest - {j};
        var i := 0;
        while i < |rows| && Before(jobs, rows[i], j)
          invariant 0 <= i <= |rows|
          invariant forall k :: 0 <= k < i ==> Before(jobs, rows[k], j)
        {
          i := i + 1;
        }
        InsertOrdered(jobs, rows, i, j);
        rows := rows[..i] + [j] + rows[i..];
      }
    }

    method SelectRow(ghost before: Tables, ghost c: Op, owner: Owner, mission: Option<string>, item: Option<JobId>,
                     kinds: Option<set<string>>, now: Time)
      returns (r: Result<Option<JobId>, Refusal>)
      requires before == State() && c.Claim? && c.owner == owner && c.missionCheck == mission
      requires c.item == item && KindFilter(c.kinds) == kinds && c.at == now
      requires owner != "" && kinds != Some({})
      ensures r.Err? ==> ClaimStep(before, c, Refused(r.error), before)
      ensures r == Ok(None) ==> ClaimStep(before, c, NothingToClaim, before)
      ensures r.Ok? && r.value.Some? ==>
                && var j := r.value.value;
                && j in jobs
                && (Available(jobs[j], now) || (LiveRow(jobs[j], now) && jobs[j].owner == Some(owner)))
                && (item.None? ==> Least(jobs, c, j) && Takes(c, jobs[j]) && Free(jobs[j], now))
                && (item.None? ==> forall k :: k in jobs && Takes(c, jobs[k]) && Free(jobs[k], now) && k != j ==>
                                     || jobs[j].createdAt < jobs[k].createdAt
                                     || (jobs[j].createdAt == jobs[k].createdAt && j < k))
                && forall reply, s' :: TakeStep(before, c, j, reply, s') ==> ClaimStep(before, c, reply, s')
    {
      if item.Some? {
        var j := item.value;
        if j !in jobs {
          return Err(NotFound);
        }
        if !OfMission(jobs[j], mission) {
          return Err(WrongMission);
        }
        if kinds.Some? && jobs[j].kind !in kinds.value {
          return Err(WrongKind);
        }
        if Terminal(jobs[j]) {
          return Err(AlreadyFinished);
        }
        if LiveRow(jobs[j], now) && jobs[j].owner != Some(owner) {
          return Err(LeasedByAnother);
        }
        if LiveRow(jobs[j], now) || Available(jobs[j], now) {
          return Ok(Some(j));
        }
        return Err(LeasedByAnother);
      }
      forall k | k in jobs ensures Candidate(jobs, c, k) <==> Takes(c, jobs[k]) && Free(jobs[k], now) {
        KindsSpelled(c, jobs[k]);
      }
      var rows := Query(mission, kinds);
      for i := 0 to |rows|
        invariant forall k :: 0 <= k < i ==> !Available(jobs[rows[k]], now)
      {
        if Available(jobs[rows[i]], now) {
          assert Candidate(jobs, c, rows[i]);
          forall k | Candidate(jobs, c, k) && k != rows[i] ensures Before(jobs, rows[i], k) {
            assert k in rows;
          }
          return Ok(Some(rows[i]));
        }
      }
      assert forall j :: Candidate(jobs, c, j) ==> j in rows;
      return Ok(None);
    }

    method Claim(owner: Owner, mission: Option<string>, item: Option<JobId>, kinds: Option<set<string>>,
                 ttl: Option<int>, freshLease: LeaseId, at: Time, later: Time)
      returns (r: Reply)
      requires Valid() && at <= later
      modifies this, leases
      ensures Valid()
      ensures Step(old(State()), Op.Claim(owner, mission, item, kinds, leases.Ttl(ttl), freshLease, at, later),
                   r, State())
    {
      ghost var c := Op.Claim(owner, mission, item, kinds, leases.Ttl(ttl), freshLease, at, later);
      ghost var before := State();
      if owner == "" {
        return Refused(OwnerRequired);
      }
      var accepted := KindFilter(kinds);
      if accepted == Some({}) {
        return Refused(KindsRequired);
      }
      var selected := SelectRow(before, c, owner, mission, item, accepted, at);
      if selected.Err? {
        return Refused(selected.error);
      }
      if selected.value.None? {
        return NothingToClaim;
      }
      r := Take(selected.value.value, owner, ttl, freshLease, at, later, c, before);
      StepKeepsAgreement(before, c, r, State());
    }

    /** Takes the selected job's lease and then writes its row. */
    method Take(j: JobId, owner: Owner, ttl: Option<int>, freshLease: LeaseId, at: Time, later: Time,
                ghost c: Op, ghost before: Tables)
      returns (r: Reply)
      requires Valid() && at <= later && before == State() && j in jobs && owner != ""
      requires c.Claim? && c.owner == owner && c.ttl == leases.Ttl(ttl) && c.freshLease == freshLease
      requires c.at == at && c.later == later
      requires Available(jobs[j], at) || (LiveRow(jobs[j], at) && jobs[j].owner == Some(owner))
      modifies this, leases
      ensures TakeStep(before, c, j, r, State())
    {
      var row := jobs[j];
      var wasPending := row.status == Pending;
      var outcome := leases.ClaimInSession(JobScope, j, row.mission, owner, ttl, freshLease, later);
      SelectedRowMeetsNoConflict(before, c, j, outcome, leases.leases);
      if outcome.Err? {
        return Refused(outcome.error);
      }
      var won := outcome.value;
      row := row.(status := Claimed, owner := Some(owner), lease := Some(won.id),
                  expiresAt := Some(won.lease.expiresAt), updatedAt := at);
      if wasPending || won.reclaimed {
        row := row.(attempt := row.attempt + 1);
      }
      WonRowIsGranted(before, c, j, won, leases.leases, row);
      jobs := jobs[j := row];
      r := Accepted(j, row, won.reclaimed);
    }

    method Heartbeat(id: JobId, owner: Owner, ttl: Option<int>, freshLease: LeaseId, at: Time, later: Time)
      returns (r: Reply)
      requires Valid() && at <= later
      modifies this, leases
      ensures Valid() && Step(old(State()), Op.Heartbeat(id, owner, leases.Ttl(ttl), at, later), r, State())
    {
      ghost var h := Op.Heartbeat(id, owner, leases.Ttl(ttl), at, later);
      ghost var before := State();
      if owner == "" {
        return Refused(OwnerRequired);
      }
      if id !in jobs {
        return Refused(NotFound);
      }
      var row := jobs[id];
      assert AgreeOn(before, id);
      if row.status != Claimed {
        return Refused(NotClaimed);
      }
      if row.owner != Some(owner) {
        return Refused(NotClaimant);
      }
      if row.expiresAt.None? || row.expiresAt.value <= at {
        return Refused(Lapsed);
      }
      if row.lease.None? {
        return Refused(MissingLease);
      }
      var l := row.lease.value;
      if l !in leases.leases || leases.leases[l].scope != JobScope || leases.leases[l].scopeId != id
         || leases.leases[l].mission != row.mission {
        return Refused(InvalidLease);
      }
      if leases.leases[l].owner != owner || leases.leases[l].status != Held {
        return Refused(NotClaimant);
      }
      if leases.leases[l].expiresAt <= at {
        return Refused(Lapsed);
      }
      var saved := leases.leases;
      var outcome := leases.ClaimInSession(JobScope, id, row.mission, owner, ttl, freshLease, later);
      if outcome.Err? {
        return Refused(outcome.error);
      }
      if outcome.value.reclaimed || outcome.value.id != l {
        leases.leases := saved;
        return Refused(Lapsed);
      }
      row := row.(expiresAt := Some(outcome.value.lease.expiresAt), updatedAt := at);
      jobs := jobs[id := row];
      r := Accepted(id, row, false);
      StepKeepsAgreement(before, h, r, State());
    }

    method Complete(id: JobId, owner: Owner, outcome: string, at: Time, later: Time) returns (r: Reply)
      requires Valid() && at <= later
      modifies this, leases
      ensures Valid() && Step(old(State()), Op.Complete(id, owner, outcome, at, later), r, State())
    {
      ghost var op := Op.Complete(id, owner, outcome, at, later);
      ghost var before := State();
      if owner == "" {
        return Refused(OwnerRequired);
      }
      if id !in jobs {
        return Refused(NotFound);
      }
      var row := jobs[id];
      assert AgreeOn(before, id);
      if Terminal(row) {
        return Refused(AlreadyFinished);
      }
      if row.status != Claimed {
        return Refused(NotClaimed);
      }
      if row.owner != Some(owner) {
        return Refused(NotClaimant);
      }
      if row.expiresAt.None? || row.expiresAt.value <= at {
        return Refused(Lapsed);
      }
      if row.lease.None? {
        return Refused(MissingLease);
      }
      var released := leases.ReleaseInSession(row.lease.value, owner, later);
      match released {
        case Err(why) => return Refused(why);
        case Ok(_) =>
      }
      row := row.(status := Completed, completedAt := Some(at), updatedAt := at, expiresAt := Some(at),
                  result := Some(outcome));
      jobs := jobs[id := row];
      r := Accepted(id, row, false);
      StepKeepsAgreement(before, op, r, State());
    }

    method Fail(id: JobId, owner: Owner, error: string, mission: Option<string>, retryAt: Option<Time>,
                at: Time, later: Time)
      returns (r: Reply)
      requires Valid() && at <= later
      modifies this, leases
      ensures Valid() && Step(old(State()), Op.Fail(id, owner, error, mission, retryAt, at, later), r, State())
    {
      ghost var op := Op.Fail(id, owner, error, mission, retryAt, at, later);
      ghost var before := State();
      if owner == "" {
        return Refused(OwnerRequired);
      }
      if error == "" {
        return Refused(EmptyFailure);
      }
      if id !in jobs {
        return Refused(NotFound);
      }
      var row := jobs[id];
      assert AgreeOn(before, id);
      if !OfMission(row, mission) {
        return Refused(WrongMission);
      }
      if Terminal(row) {
        return Refused(AlreadyFinished);
      }
      if row.status != Claimed {
        return Refused(NotClaimed);
      }
      if row.owner != Some(owner) {
        return Refused(NotClaimant);
      }
      if row.expiresAt.None? || row.expiresAt.value <= at {
        return Refused(Lapsed);
      }
      if row.lease.None? {
        return Refused(MissingLease);
      }
      var released := leases.ReleaseInSession(row.lease.value, owner, later);
      match released {
        case Err(why) => return Refused(why);
        case Ok(_) =>
      }
      row := row.(result := Some(error), updatedAt := at);
      if retryAt.None? {
        row := row.(status := Failed, completedAt := Some(at), expiresAt := Some(at));
      } else {
        row := row.(status := Pending, owner := None, lease := None, availableAt := retryAt.value,
                    expiresAt := None, completedAt := None);
      }
      jobs := jobs[id := row];
      r := Accepted(id, row, false);
      StepKeepsAgreement(before, op, r, State());
    }
  }
}
