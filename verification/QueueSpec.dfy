/** The durable work queue and its lease rows (app/queue.py, app/leases.py), as tables and
    one-transaction steps.

    Time is an integer.  A transaction reads the clock twice: `at` in the queue and then `later`
    in the lease code, with `at <= later`.  Job ids are numbers whose order stands for SQLite's
    order on the id text. */
module QueueSpec {
  import opened Base
  import opened Text

  type Time = int
  type JobId = nat
  type LeaseId = nat
  type Owner = string

  datatype Scope = MissionScope | TaskScope | JobScope
  datatype LeaseStatus = Held | Released
  datatype Lease = Lease(scope: Scope, scopeId: nat, mission: string, owner: Owner,
                         status: LeaseStatus, expiresAt: Time, heartbeatAt: Time, createdAt: Time)
  type LeaseTable = map<LeaseId, Lease>

  datatype JobStatus = Pending | Claimed | Completed | Failed
  datatype Job = Job(kind: string, mission: string, status: JobStatus, owner: Option<Owner>,
                     lease: Option<LeaseId>, attempt: nat, availableAt: Time, expiresAt: Option<Time>,
                     createdAt: Time, updatedAt: Time, completedAt: Option<Time>, result: Option<string>)
  type JobTable = map<JobId, Job>

  datatype Tables = Tables(jobs: JobTable, leases: LeaseTable)

  /** Why a call was refused; one constructor for each message the code can raise. */
  datatype Refusal =
    | OwnerRequired | KindRequired | KindsRequired | MissionRequired | EmptyFailure | TtlNotPositive
    | NotFound | WrongMission | WrongKind | AlreadyExists | AlreadyFinished | NotClaimed
    | LeasedByAnother | NotClaimant | Lapsed | CouldNotClaim
    | LeaseNotFound | MissingLease | InvalidLease

  datatype Reply = Refused(why: Refusal) | NothingToClaim | Accepted(id: JobId, row: Job, reclaimed: bool)

  datatype Op =
    | Enqueue(id: JobId, mission: string, kind: string, at: Time)
    | Claim(owner: Owner, missionCheck: Option<string>, item: Option<JobId>, kinds: Option<set<string>>,
            ttl: int, freshLease: LeaseId, at: Time, later: Time)
    | Heartbeat(id: JobId, owner: Owner, ttl: int, at: Time, later: Time)
    | Complete(id: JobId, owner: Owner, outcome: string, at: Time, later: Time)
    | Fail(id: JobId, owner: Owner, outcome: string, missionCheck: Option<string>, retryAt: Option<Time>,
           at: Time, later: Time)
    /** Any lease transaction on mission or task scopes. */
    | OtherLeases(leases: LeaseTable, at: Time)
  {
    function End(): Time {
      if Enqueue? || OtherLeases? then at else later
    }
  }

  predicate LiveRow(row: Job, now: Time) {
    row.status == Claimed && row.expiresAt.Some? && row.expiresAt.value > now
  }

  predicate Available(row: Job, now: Time) {
    if row.status == Pending then row.availableAt <= now else row.status == Claimed && !LiveRow(row, now)
  }

  predicate Terminal(row: Job) {
    row.status == Completed || row.status == Failed
  }

  /** A mission that is not named, or named by an empty text, is not checked. */
  predicate OfMission(row: Job, mission: Option<string>) {
    mission.Some? && mission.value != "" ==> row.mission == mission.value
  }

  /** The kinds a claim accepts: stripped, blank ones dropped; None accepts all. */
  function KindFilter(kinds: Option<set<string>>): Option<set<string>> {
    if kinds.None? then None else Some(set k | k in kinds.value && Strip(k) != "" :: Strip(k))
  }

  /** The mission and kind filters of a claim, kinds already filtered. */
  predicate Matches(row: Job, mission: Option<string>, kinds: Option<set<string>>) {
    OfMission(row, mission) && (kinds.Some? ==> row.kind in kinds.value)
  }

  predicate Before(jobs: JobTable, a: JobId, b: JobId)
    requires a in jobs && b in jobs
  {
    jobs[a].createdAt < jobs[b].createdAt || (jobs[a].createdAt == jobs[b].createdAt && a < b)
  }

  /** `j` is claimable under `c`'s filters. */
  predicate Candidate(jobs: JobTable, c: Op, j: JobId)
    requires c.Claim?
  {
    j in jobs && Matches(jobs[j], c.missionCheck, KindFilter(c.kinds)) && Available(jobs[j], c.at)
  }

  /** Nobody is working on the job: it is pending and its not-before time has come, or the claim on it has
      run out. */
  predicate Free(row: Job, now: Time) {
    || (row.status == Pending && row.availableAt <= now)
    || (row.status == Claimed && (row.expiresAt == None || row.expiresAt.value <= now))
  }

  /** The call names no mission, or the job's. */
  predicate MissionFits(row: Job, mission: Option<string>) {
    mission.None? || mission.value == "" || mission.value == row.mission
  }

  /** The job is of the mission and of a kind the claim asks for. */
  predicate Takes(c: Op, row: Job)
    requires c.Claim?
  {
    && MissionFits(row, c.missionCheck)
    && (c.kinds == None || (row.kind != "" && exists k :: k in c.kinds.value && Strip(k) == row.kind))
  }

  lemma KindsSpelled(c: Op, row: Job)
    requires c.Claim?
    ensures Matches(row, c.missionCheck, KindFilter(c.kinds)) <==> Takes(c, row)
  {
  }

  /** `j` is the claimable row that is least by creation time and then id. */
  ghost predicate Least(jobs: JobTable, c: Op, j: JobId)
    requires c.Claim?
  {
    && Candidate(jobs, c, j)
    && forall k :: Candidate(jobs, c, k) && k != j ==> Before(jobs, j, k)
  }

  predicate LeaseFor(leases: LeaseTable, scope: Scope, scopeId: nat, l: LeaseId) {
    l in leases && leases[l].scope == scope && leases[l].scopeId == scopeId
  }

  /** The table's uniqueness constraint on (scope, scope_id). */
  ghost predicate UniqueScopes(leases: LeaseTable) {
    forall a, b | a in leases && b in leases ::
      leases[a].scope == leases[b].scope && leases[a].scopeId == leases[b].scopeId ==> a == b
  }

  /** What the two tables say about job `j` agrees. */
  ghost predicate AgreeOn(s: Tables, j: JobId)
    requires j in s.jobs
  {
    var row := s.jobs[j];
    match row.status
    case Pending =>
      && row.owner == None && row.lease == None && row.expiresAt == None
      && forall l :: LeaseFor(s.leases, JobScope, j, l) ==> s.leases[l].status == Released
    case Claimed =>
      && row.owner.Some? && row.lease.Some? && row.expiresAt.Some? && row.attempt > 0
      && LeaseFor(s.leases, JobScope, j, row.lease.value)
      && var l := s.leases[row.lease.value];
         l.status == Held && l.owner == row.owner.value && l.mission == row.mission
         && l.expiresAt == row.expiresAt.value
    case _ =>
      && row.owner.Some? && row.lease.Some? && row.completedAt.Some? && row.attempt > 0
      && LeaseFor(s.leases, JobScope, j, row.lease.value)
      && s.leases[row.lease.value].status == Released
  }

  /** The joint invariant of the job and lease tables. */
  ghost predicate Agree(s: Tables) {
    && UniqueScopes(s.leases)
    && (forall j :: j in s.jobs ==> AgreeOn(s, j))
    && (forall l :: l in s.leases && s.leases[l].scope == JobScope ==> s.leases[l].scopeId in s.jobs)
  }

  /** The row of a job granted to `c.owner` on lease row `l`. */
  function GrantedRow(row: Job, c: Op, l: LeaseId): Job
    requires c.Claim?
  {
    var begins := row.status == Pending || (row.expiresAt.Some? && row.expiresAt.value <= c.later);
    row.(status := Claimed, owner := Some(c.owner), lease := Some(l), expiresAt := Some(c.later + c.ttl),
         updatedAt := c.at, attempt := row.attempt + if begins then 1 else 0)
  }

  /** Granting job `j` to `c.owner` on lease row `l`. */
  function Granted(s: Tables, c: Op, j: JobId, l: LeaseId): Tables
    requires c.Claim? && j in s.jobs
  {
    Tables(
      s.jobs[j := GrantedRow(s.jobs[j], c, l)],
      s.leases[l := Lease(JobScope, j, s.jobs[j].mission, c.owner, Held, c.later + c.ttl, c.later,
                          if l in s.leases then s.leases[l].createdAt else c.later)])
  }

  ghost predicate TakeStep(s: Tables, c: Op, j: JobId, r: Reply, s': Tables)
    requires c.Claim? && j in s.jobs
  {
    if c.ttl <= 0 then
      r == Refused(TtlNotPositive) && s' == s
    else if (forall l :: !LeaseFor(s.leases, JobScope, j, l)) && c.freshLease in s.leases then
      r == Refused(CouldNotClaim) && s' == s
    else
      exists l :: && (if c.freshLease !in s.leases && l == c.freshLease
                      then forall k :: !LeaseFor(s.leases, JobScope, j, k)
                      else LeaseFor(s.leases, JobScope, j, l))
                  && s' == Granted(s, c, j, l)
                  && r == Accepted(j, s'.jobs[j], s.jobs[j].status == Claimed && s.jobs[j].expiresAt.Some?
                                                  && s.jobs[j].expiresAt.value <= c.later)
  }

  ghost predicate ClaimStep(s: Tables, c: Op, r: Reply, s': Tables)
    requires c.Claim?
  {
    if c.owner == "" then
      r == Refused(OwnerRequired) && s' == s
    else if KindFilter(c.kinds) == Some({}) then
      r == Refused(KindsRequired) && s' == s
    else if c.item.None? then
      if forall j :: !Candidate(s.jobs, c, j) then
        r == NothingToClaim && s' == s
      else
        exists j :: Least(s.jobs, c, j) && TakeStep(s, c, j, r, s')
    else
      var j := c.item.value;
      if j !in s.jobs then
        r == Refused(NotFound) && s' == s
      else if !OfMission(s.jobs[j], c.missionCheck) then
        r == Refused(WrongMission) && s' == s
      else if KindFilter(c.kinds).Some? && s.jobs[j].kind !in KindFilter(c.kinds).value then
        r == Refused(WrongKind) && s' == s
      else if Terminal(s.jobs[j]) then
        r == Refused(AlreadyFinished) && s' == s
      else if Available(s.jobs[j], c.at) || (LiveRow(s.jobs[j], c.at) && s.jobs[j].owner == Some(c.owner)) then
        TakeStep(s, c, j, r, s')
      else
        r == Refused(LeasedByAnother) && s' == s
  }

  predicate EnqueueStep(s: Tables, e: Op, r: Reply, s': Tables)
    requires e.Enqueue?
  {
    if Strip(e.kind) == "" then r == Refused(KindRequired) && s' == s
    else if e.mission == "" then r == Refused(MissionRequired) && s' == s
    else if e.id in s.jobs then r == Refused(AlreadyExists) && s' == s
    else
      var row := Job(Strip(e.kind), e.mission, Pending, None, None, 0, e.at, None, e.at, e.at, None, None);
      r == Accepted(e.id, row, false) && s' == s.(jobs := s.jobs[e.id := row])
  }

  /** The guard shared by heartbeat, complete and fail: None when `owner` holds `id` live at `now`. */
  function Blocked(s: Tables, id: JobId, owner: Owner, missionCheck: Option<string>, finishing: bool,
                   now: Time): Option<Refusal>
  {
    if owner == "" then Some(OwnerRequired)
    else if id !in s.jobs then Some(NotFound)
    else if !OfMission(s.jobs[id], missionCheck) then Some(WrongMission)
    else if finishing && Terminal(s.jobs[id]) then Some(AlreadyFinished)
    else if s.jobs[id].status != Claimed then Some(NotClaimed)
    else if s.jobs[id].owner != Some(owner) then Some(NotClaimant)
    else if !LiveRow(s.jobs[id], now) then Some(Lapsed)
    else None
  }

  predicate HeartbeatStep(s: Tables, h: Op, r: Reply, s': Tables)
    requires h.Heartbeat? && Agree(s)
  {
    var blocked := Blocked(s, h.id, h.owner, None, false, h.at);
    if blocked.Some? then r == Refused(blocked.value) && s' == s
    else if h.ttl <= 0 then r == Refused(TtlNotPositive) && s' == s
    else
      assert AgreeOn(s, h.id);
      var row := s.jobs[h.id];
      if row.expiresAt.value <= h.later then r == Refused(Lapsed) && s' == s
      else
        var row' := row.(expiresAt := Some(h.later + h.ttl), updatedAt := h.at);
        && r == Accepted(h.id, row', false)
        && s' == Tables(s.jobs[h.id := row'],
                        s.leases[row.lease.value := s.leases[row.lease.value]
                                 .(expiresAt := h.later + h.ttl, heartbeatAt := h.later)])
  }

  /** The row a finished or requeued job is left with. */
  function Settled(row: Job, op: Op): Job
    requires op.Complete? || op.Fail?
  {
    if op.Fail? && op.retryAt.Some? then
      row.(status := Pending, owner := None, lease := None, availableAt := op.retryAt.value,
           expiresAt := None, completedAt := None, updatedAt := op.at, result := Some(op.outcome))
    else
      row.(status := if op.Complete? then Completed else Failed, expiresAt := Some(op.at),
           completedAt := Some(op.at), updatedAt := op.at, result := Some(op.outcome))
  }

  predicate FinishStep(s: Tables, op: Op, r: Reply, s': Tables)
    requires (op.Complete? || op.Fail?) && Agree(s)
  {
    var check := if op.Fail? then op.missionCheck else None;
    var blocked := Blocked(s, op.id, op.owner, check, true, op.at);
    if op.owner != "" && op.Fail? && op.outcome == "" then r == Refused(EmptyFailure) && s' == s
    else if blocked.Some? then r == Refused(blocked.value) && s' == s
    else
      assert AgreeOn(s, op.id);
      var row := s.jobs[op.id];
      && r == Accepted(op.id, Settled(row, op), false)
      && s' == Tables(s.jobs[op.id := Settled(row, op)],
                      s.leases[row.lease.value := s.leases[row.lease.value]
                               .(status := Released, expiresAt := op.later, heartbeatAt := op.later)])
  }

  /** A lease transaction outside the queue leaves every job-scope row as it was. */
  ghost predicate SameJobLeases(before: LeaseTable, after: LeaseTable) {
    && UniqueScopes(after)
    && (forall l :: l in before && before[l].scope == JobScope ==> l in after && after[l] == before[l])
    && (forall l :: l in after && after[l].scope == JobScope ==> l in before && before[l] == after[l])
  }

  ghost predicate Step(s: Tables, op: Op, r: Reply, s': Tables)
    requires Agree(s)
  {
    match op
    case Enqueue(_, _, _, _) => EnqueueStep(s, op, r, s')
    case Claim(_, _, _, _, _, _, _, _) => ClaimStep(s, op, r, s')
    case Heartbeat(_, _, _, _, _) => HeartbeatStep(s, op, r, s')
    case Complete(_, _, _, _, _) => FinishStep(s, op, r, s')
    case Fail(_, _, _, _, _, _, _) => FinishStep(s, op, r, s')
    case OtherLeases(leases, _) =>
      && (SameJobLeases(s.leases, leases) ==> s' == s.(leases := leases))
      && (!SameJobLeases(s.leases, leases) ==> s' == s)
      && r == NothingToClaim
  }

  /** Exactly one grant is possible: the lease row a claim takes. */
  ghost predicate GrantStep(s: Tables, c: Op, j: JobId, l: LeaseId, r: Reply, s': Tables)
    requires c.Claim?
  {
    && j in s.jobs && c.ttl > 0
    && (LeaseFor(s.leases, JobScope, j, l) || (l !in s.leases && forall k :: !LeaseFor(s.leases, JobScope, j, k)))
    && (Available(s.jobs[j], c.at) || (LiveRow(s.jobs[j], c.at) && s.jobs[j].owner == Some(c.owner)))
    && s' == Granted(s, c, j, l)
    && r == Accepted(j, s'.jobs[j], s.jobs[j].status == Claimed && s.jobs[j].expiresAt.Some?
                                    && s.jobs[j].expiresAt.value <= c.later)
  }

  lemma TakeIsGrant(s: Tables, c: Op, j: JobId, r: Reply, s': Tables) returns (l: LeaseId)
    requires c.Claim? && j in s.jobs && TakeStep(s, c, j, r, s')
    requires Available(s.jobs[j], c.at) || (LiveRow(s.jobs[j], c.at) && s.jobs[j].owner == Some(c.owner))
    ensures r.Accepted? ==> r.id == j && GrantStep(s, c, j, l, r, s')
    ensures !r.Accepted? ==> s' == s
  {
    l := c.freshLease;
    if r.Accepted? {
      l :| (if c.freshLease !in s.leases && l == c.freshLease
            then forall k :: !LeaseFor(s.leases, JobScope, j, k)
            else LeaseFor(s.leases, JobScope, j, l)) && s' == Granted(s, c, j, l);
    }
  }

  /** A claim either changes nothing or is a grant of one job. */
  lemma ClaimIsGrant(s: Tables, c: Op, r: Reply, s': Tables) returns (l: LeaseId)
    requires c.Claim? && ClaimStep(s, c, r, s')
    ensures r.Accepted? ==> GrantStep(s, c, r.id, l, r, s')
    ensures !r.Accepted? ==> s' == s
  {
    l := c.freshLease;
    if r.Accepted? {
      var j: JobId;
      if c.item.None? {
        j :| Least(s.jobs, c, j) && TakeStep(s, c, j, r, s');
      } else {
        j := c.item.value;
      }
      l := TakeIsGrant(s, c, j, r, s');
    }
  }

  /** A lease row taken for its own scope, or added for a scope that had none, keeps scopes unique. */
  lemma TakingKeepsScopesUnique(leases: LeaseTable, l: LeaseId, lease: Lease)
    requires UniqueScopes(leases)
    requires LeaseFor(leases, lease.scope, lease.scopeId, l)
             || (l !in leases && forall k :: !LeaseFor(leases, lease.scope, lease.scopeId, k))
    ensures UniqueScopes(leases[l := lease])
  {
    var after := leases[l := lease];
    forall a, b | a in after && b in after && after[a].scope == after[b].scope && after[a].scopeId == after[b].scopeId
      ensures a == b
    {
      if a != b {
        var other := if a == l then b else a;
        if other in leases && (a == l || b == l) {
          assert LeaseFor(leases, lease.scope, lease.scopeId, other);
        }
      }
    }
  }

  /** Two distinct jobs never share a lease row, so a step on one leaves the other's agreement alone. */
  lemma GrantKeepsAgreement(s: Tables, c: Op, j: JobId, l: LeaseId, r: Reply, s': Tables)
    requires Agree(s) && c.Claim? && c.at <= c.later && GrantStep(s, c, j, l, r, s')
    ensures Agree(s')
  {
    TakingKeepsScopesUnique(s.leases, l, s'.leases[l]);
    forall k | k in s'.jobs ensures AgreeOn(s', k) {
      assert k in s.jobs && AgreeOn(s, k);
    }
  }

  /** Job `j` and its lease row changed together. */
  function Changed(s: Tables, j: JobId, row: Job, l: LeaseId, lease: Lease): Tables {
    Tables(s.jobs[j := row], s.leases[l := lease])
  }

  lemma OthersStillAgree(s: Tables, j: JobId, row: Job, l: LeaseId, lease: Lease, k: JobId)
    requires Agree(s) && LeaseFor(s.leases, JobScope, j, l) && lease.scope == JobScope && lease.scopeId == j
    requires k in s.jobs && k != j
    ensures AgreeOn(Changed(s, j, row, l, lease), k)
  {
    assert AgreeOn(s, k);
  }

  /** If the changed row and its lease agree, everything does. */
  lemma ChangeKeepsAgreement(s: Tables, j: JobId, row: Job, l: LeaseId, lease: Lease)
    requires Agree(s) && j in s.jobs
    requires LeaseFor(s.leases, JobScope, j, l) && lease.scope == JobScope && lease.scopeId == j
    requires AgreeOn(Changed(s, j, row, l, lease), j)
    ensures Agree(Changed(s, j, row, l, lease))
  {
    forall k | k in s.jobs ensures AgreeOn(Changed(s, j, row, l, lease), k) {
      if k != j { OthersStillAgree(s, j, row, l, lease, k); }
    }
  }

  lemma HeartbeatKeepsAgreement(s: Tables, op: Op, r: Reply, s': Tables)
    requires Agree(s) && op.Heartbeat? && HeartbeatStep(s, op, r, s')
    ensures Agree(s')
  {
    if s' != s {
      assert AgreeOn(s, op.id);
      var l := s.jobs[op.id].lease.value;
      ChangeKeepsAgreement(s, op.id, s'.jobs[op.id], l, s'.leases[l]);
    }
  }

  lemma FinishKeepsAgreement(s: Tables, op: Op, r: Reply, s': Tables)
    requires Agree(s) && (op.Complete? || op.Fail?) && FinishStep(s, op, r, s')
    ensures Agree(s')
  {
    if s' != s {
      assert AgreeOn(s, op.id);
      var l := s.jobs[op.id].lease.value;
      var now := Changed(s, op.id, s'.jobs[op.id], l, s'.leases[l]);
      assert AgreeOn(now, op.id);
      ChangeKeepsAgreement(s, op.id, s'.jobs[op.id], l, s'.leases[l]);
    }
  }

  lemma EnqueueKeepsAgreement(s: Tables, op: Op, r: Reply, s': Tables)
    requires Agree(s) && op.Enqueue? && EnqueueStep(s, op, r, s')
    ensures Agree(s')
  {
    forall k | k in s'.jobs ensures AgreeOn(s', k) {
      if k in s.jobs { assert AgreeOn(s, k); }
    }
  }

  lemma OtherLeasesKeepAgreement(s: Tables, leases: LeaseTable)
    requires Agree(s) && SameJobLeases(s.leases, leases)
    ensures Agree(s.(leases := leases))
  {
    forall k | k in s.jobs ensures AgreeOn(s.(leases := leases), k) {
      assert AgreeOn(s, k);
    }
  }

  /** Every transaction keeps the two tables in agreement. */
  lemma StepKeepsAgreement(s: Tables, op: Op, r: Reply, s': Tables)
    requires Agree(s) && Step(s, op, r, s') && (op.Claim? ==> op.at <= op.later)
    ensures Agree(s')
  {
    if op.Claim? {
      var l := ClaimIsGrant(s, op, r, s');
      if r.Accepted? {
        GrantKeepsAgreement(s, op, r.id, l, r, s');
      }
    } else if op.Heartbeat? {
      HeartbeatKeepsAgreement(s, op, r, s');
    } else if op.Enqueue? {
      EnqueueKeepsAgreement(s, op, r, s');
    } else if op.OtherLeases? {
      if s' != s { OtherLeasesKeepAgreement(s, op.leases); }
    } else {
      FinishKeepsAgreement(s, op, r, s');
    }
  }
}
