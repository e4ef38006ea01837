/** Whole runs of the queue: any interleaving of transactions by any workers under a clock that
    never goes back. */
module QueueRuns {
  import opened Base
  import opened QueueSpec
  import opened Text

  /** One spell of ownership of a job: from the reading that granted it to the instant it is given
      up, or else to the last expiry its owner was told. */
  datatype Tenure = Tenure(owner: Owner, start: Time, end: Time)

  type History = map<JobId, seq<Tenure>>

  datatype World = World(tables: Tables, history: History, clock: Time)

  function Past(h: History, j: JobId): seq<Tenure> {
    if j in h then h[j] else []
  }

  /** Does the record show that, at reading `now`, `owner` is still inside a spell of its own? */
  predicate Continues(past: seq<Tenure>, owner: Owner, now: Time) {
    past != [] && past[|past| - 1].owner == owner && now < past[|past| - 1].end
  }

  /** The record of one job after a claim by `owner` at `start` was granted until `end`. */
  function WithGrant(past: seq<Tenure>, owner: Owner, start: Time, end: Time): seq<Tenure> {
    if Continues(past, owner, start) then WithEnd(past, end) else past + [Tenure(owner, start, end)]
  }

  function WithEnd(past: seq<Tenure>, end: Time): seq<Tenure> {
    if past == [] then [] else past[..|past| - 1] + [past[|past| - 1].(end := end)]
  }

  /** What an observer who sees only requests and accepted replies writes down. */
  function Record(h: History, op: Op, r: Reply): History {
    if !r.Accepted? then h
    else match op
      case Claim(owner, _, _, _, _, _, _, later) =>
        if r.row.expiresAt.None? then h
        else h[r.id := WithGrant(Past(h, r.id), owner, later, r.row.expiresAt.value)]
      case Heartbeat(_, _, _, _, _) =>
        if r.row.expiresAt.None? then h else h[r.id := WithEnd(Past(h, r.id), r.row.expiresAt.value)]
      case Complete(_, _, _, at, _) => h[r.id := WithEnd(Past(h, r.id), at)]
      case Fail(_, _, _, _, _, at, _) => h[r.id := WithEnd(Past(h, r.id), at)]
      case _ => h
  }

  ghost predicate Next(w: World, op: Op, r: Reply, w': World) {
    && Agree(w.tables)
    && w.clock <= op.at <= op.End() == w'.clock
    && Step(w.tables, op, r, w'.tables)
    && w'.history == Record(w.history, op, r)
  }

  /** Each spell starts no earlier than the one before it ended. */
  predicate InOrder(past: seq<Tenure>) {
    && (forall i :: 0 <= i < |past| ==> past[i].start <= past[i].end)
    && (forall i, k :: 0 <= i < k < |past| ==> past[i].end <= past[k].start)
  }

  /** The observer's record of a job and the job row tell the same story at time `now`. */
  predicate Faithful(row: Job, past: seq<Tenure>, now: Time) {
    && InOrder(past)
    && |past| == row.attempt
    && (forall i :: 0 <= i < |past| ==> past[i].start <= now)
    && (row.status == Claimed ==>
        past != [] && row.owner == Some(past[|past| - 1].owner)
        && row.expiresAt == Some(past[|past| - 1].end))
    && (row.status != Claimed && past != [] ==> past[|past| - 1].end <= now)
    && (Terminal(row) ==>
        past != [] && row.owner == Some(past[|past| - 1].owner)
        && row.completedAt == Some(past[|past| - 1].end))
  }

  /** The record speaks of known jobs only, and faithfully of each. */
  ghost predicate AllFaithful(jobs: JobTable, h: History, clock: Time) {
    h.Keys <= jobs.Keys && forall j :: j in jobs ==> Faithful(jobs[j], Past(h, j), clock)
  }

  ghost predicate Inv(w: World) {
    Agree(w.tables) && AllFaithful(w.tables.jobs, w.history, w.clock)
  }

  lemma ExtendedStaysInOrder(past: seq<Tenure>, end: Time)
    requires InOrder(past) && past != [] && past[|past| - 1].start <= end
    ensures InOrder(WithEnd(past, end)) && |WithEnd(past, end)| == |past|
    ensures WithEnd(past, end)[|past| - 1] == past[|past| - 1].(end := end)
    ensures forall i :: 0 <= i < |past| ==> WithEnd(past, end)[i].start == past[i].start
  {
  }

  /** The record alone tells a continued spell from a new one: it continues exactly when the row is live
      and the claimer's. */
  lemma RecordKnowsOwner(row: Job, past: seq<Tenure>, now: Time, owner: Owner, later: Time)
    requires Faithful(row, past, now) && now <= later
    ensures Continues(past, owner, later) <==> LiveRow(row, later) && row.owner == Some(owner)
  {
  }

  /** Granting a row extends the running spell or starts one after it. */
  lemma GrantKeepsFaithful(row: Job, c: Op, l: LeaseId, past: seq<Tenure>, clock: Time, end: Time)
    requires c.Claim? && end == c.later + c.ttl && Faithful(row, past, clock) && clock <= c.at <= c.later && c.ttl > 0
    requires Available(row, c.at) || (LiveRow(row, c.at) && row.owner == Some(c.owner))
    ensures Faithful(GrantedRow(row, c, l), WithGrant(past, c.owner, c.later, end), c.later)
  {
    RecordKnowsOwner(row, past, clock, c.owner, c.later);
    if Continues(past, c.owner, c.later) {
      ExtendedStaysInOrder(past, end);
    } else {
      NextSpellInOrder(past, c.owner, c.later, end);
    }
  }

  lemma NextSpellInOrder(past: seq<Tenure>, owner: Owner, start: Time, end: Time)
    requires InOrder(past) && start <= end && (past != [] ==> past[|past| - 1].end <= start)
    ensures InOrder(past + [Tenure(owner, start, end)])
  {
  }

  /** What an accepted heartbeat, completion or failure does to the tables. */
  lemma UpdateShape(s: Tables, op: Op, r: Reply, s': Tables)
    requires Agree(s) && Step(s, op, r, s') && r.Accepted? && (op.Heartbeat? || op.Complete? || op.Fail?)
    ensures r.id == op.id && r.id in s.jobs && s'.jobs == s.jobs[op.id := r.row]
    ensures s.jobs[op.id].status == Claimed && s.jobs[op.id].owner == Some(op.owner)
    ensures LiveRow(s.jobs[op.id], op.at)
    ensures op.Heartbeat? ==>
              op.ttl > 0 && r.row == s.jobs[op.id].(expiresAt := Some(op.later + op.ttl), updatedAt := op.at)
    ensures op.Heartbeat? ==> LiveRow(s.jobs[op.id], op.later)
    ensures !op.Heartbeat? ==> r.row == Settled(s.jobs[op.id], op)
  {
    assert op.id in s.jobs ==> AgreeOn(s, op.id);
  }

  lemma UpdateKeepsFaithful(row: Job, op: Op, row': Job, past: seq<Tenure>, clock: Time, end: Time)
    requires Faithful(row, past, clock) && row.status == Claimed && clock <= op.at
    requires LiveRow(row, op.at)
    requires op.Heartbeat? ==> op.at <= op.later && op.ttl > 0 && LiveRow(row, op.later)
                               && row' == row.(expiresAt := Some(op.later + op.ttl), updatedAt := op.at)
    requires !op.Heartbeat? ==> (op.Complete? || op.Fail?) && row' == Settled(row, op)
    requires end == if op.Heartbeat? then op.later + op.ttl else op.at
    ensures Faithful(row', WithEnd(past, end), op.at)
  {
    ExtendedStaysInOrder(past, end);
  }

  lemma LaterStaysFaithful(row: Job, past: seq<Tenure>, now: Time, next: Time)
    requires Faithful(row, past, now) && now <= next
    ensures Faithful(row, past, next)
  {
  }

  /** What an accepted claim does to the tables. */
  lemma ClaimShape(s: Tables, op: Op, r: Reply, s': Tables) returns (l: LeaseId)
    requires Agree(s) && op.Claim? && ClaimStep(s, op, r, s') && r.Accepted?
    ensures r.id in s.jobs && op.ttl > 0 && r.row == GrantedRow(s.jobs[r.id], op, l)
    ensures Available(s.jobs[r.id], op.at) || (LiveRow(s.jobs[r.id], op.at) && s.jobs[r.id].owner == Some(op.owner))
    ensures s'.jobs == s.jobs[r.id := r.row]
  {
    l := ClaimIsGrant(s, op, r, s');
  }

  /** Only the record of job `j` changes, to `past`. */
  ghost predicate OnlyPast(h: History, h': History, j: JobId, past: seq<Tenure>) {
    && h'.Keys <= h.Keys + {j} && Past(h', j) == past
    && forall k {:trigger Past(h', k)} :: k != j ==> Past(h', k) == Past(h, k)
  }

  lemma ClaimRecord(h: History, op: Op, r: Reply)
    requires op.Claim? && r.Accepted? && r.row.expiresAt.Some?
    ensures OnlyPast(h, Record(h, op, r), r.id, WithGrant(Past(h, r.id), op.owner, op.later, r.row.expiresAt.value))
  {
  }

  lemma UpdateRecord(h: History, op: Op, r: Reply, end: Time)
    requires r.Accepted? && (op.Heartbeat? || op.Complete? || op.Fail?)
    requires if op.Heartbeat? then r.row.expiresAt == Some(end) else op.at == end
    ensures OnlyPast(h, Record(h, op, r), r.id, WithEnd(Past(h, r.id), end))
  {
  }

  /** One job's row and record change; the others only grow older. */
  lemma OneJobChanged(jobs: JobTable, h: History, clock: Time, j: JobId, row: Job, past: seq<Tenure>,
                      jobs': JobTable, h': History, next: Time)
    requires AllFaithful(jobs, h, clock) && j in jobs && clock <= next && Faithful(row, past, next)
    requires jobs' == jobs[j := row] && OnlyPast(h, h', j, past)
    ensures AllFaithful(jobs', h', next)
  {
    forall k | k in jobs' ensures Faithful(jobs'[k], Past(h', k), next) {
      if k != j { LaterStaysFaithful(jobs[k], Past(h, k), clock, next); }
    }
  }

  lemma ClaimIsFaithful(jobs: JobTable, h: History, clock: Time, op: Op, j: JobId, l: LeaseId, end: Time,
                        jobs': JobTable, h': History)
    requires AllFaithful(jobs, h, clock) && op.Claim? && clock <= op.at <= op.later && op.ttl > 0
    requires j in jobs && end == op.later + op.ttl
    requires Available(jobs[j], op.at) || (LiveRow(jobs[j], op.at) && jobs[j].owner == Some(op.owner))
    requires jobs' == jobs[j := GrantedRow(jobs[j], op, l)]
    requires OnlyPast(h, h', j, WithGrant(Past(h, j), op.owner, op.later, end))
    ensures AllFaithful(jobs', h', op.later)
  {
    GrantKeepsFaithful(jobs[j], op, l, Past(h, j), clock, end);
    OneJobChanged(jobs, h, clock, j, GrantedRow(jobs[j], op, l), WithGrant(Past(h, j), op.owner, op.later, end),
                  jobs', h', op.later);
  }

  lemma UpdateIsFaithful(jobs: JobTable, h: History, clock: Time, op: Op, row: Job, end: Time,
                         jobs': JobTable, h': History)
    requires AllFaithful(jobs, h, clock) && (op.Heartbeat? || op.Complete? || op.Fail?)
    requires clock <= op.at <= op.later && op.id in jobs
    requires jobs[op.id].status == Claimed && LiveRow(jobs[op.id], op.at)
    requires op.Heartbeat? ==> op.ttl > 0 && LiveRow(jobs[op.id], op.later)
                               && row == jobs[op.id].(expiresAt := Some(op.later + op.ttl), updatedAt := op.at)
    requires !op.Heartbeat? ==> row == Settled(jobs[op.id], op)
    requires end == if op.Heartbeat? then op.later + op.ttl else op.at
    requires jobs' == jobs[op.id := row] && OnlyPast(h, h', op.id, WithEnd(Past(h, op.id), end))
    ensures AllFaithful(jobs', h', op.later)
  {
    UpdateKeepsFaithful(jobs[op.id], op, row, Past(h, op.id), clock, end);
    LaterStaysFaithful(row, WithEnd(Past(h, op.id), end), op.at, op.later);
    OneJobChanged(jobs, h, clock, op.id, row, WithEnd(Past(h, op.id), end), jobs', h', op.later);
  }

  /** A refused call changes nothing; a new row starts unowned. */
  lemma QuietStep(s: Tables, op: Op, r: Reply, s': Tables)
    requires Agree(s) && Step(s, op, r, s') && (op.Enqueue? || op.OtherLeases? || !r.Accepted?)
    ensures forall j :: j in s.jobs ==> j in s'.jobs && s'.jobs[j] == s.jobs[j]
    ensures forall j :: j in s'.jobs && j !in s.jobs ==>
              s'.jobs[j].status == Pending && s'.jobs[j].attempt == 0
  {
    if op.Claim? {
      var l := ClaimIsGrant(s, op, r, s');
    }
  }

  lemma QuietRecorded(jobs: JobTable, h: History, clock: Time, jobs': JobTable, next: Time)
    requires AllFaithful(jobs, h, clock) && clock <= next
    requires forall j :: j in jobs ==> j in jobs' && jobs'[j] == jobs[j]
    requires forall j :: j in jobs' && j !in jobs ==> jobs'[j].status == Pending && jobs'[j].attempt == 0
    ensures AllFaithful(jobs', h, next)
  {
    forall j | j in jobs' ensures Faithful(jobs'[j], Past(h, j), next) {
      if j in jobs { LaterStaysFaithful(jobs[j], Past(h, j), clock, next); }
    }
  }

  lemma NextKeepsFaithful(w: World, op: Op, r: Reply, w': World)
    requires Inv(w) && Next(w, op, r, w')
    ensures AllFaithful(w'.tables.jobs, w'.history, w'.clock)
  {
    var jobs, jobs' := w.tables.jobs, w'.tables.jobs;
    if op.Claim? && r.Accepted? {
      var l := ClaimShape(w.tables, op, r, w'.tables);
      ClaimRecord(w.history, op, r);
      ClaimIsFaithful(jobs, w.history, w.clock, op, r.id, l, r.row.expiresAt.value, jobs', w'.history);
    } else if r.Accepted? && !op.Enqueue? && !op.OtherLeases? {
      UpdateShape(w.tables, op, r, w'.tables);
      var end := if op.Heartbeat? then op.later + op.ttl else op.at;
      UpdateRecord(w.history, op, r, end);
      UpdateIsFaithful(jobs, w.history, w.clock, op, r.row, end, jobs', w'.history);
    } else {
      QuietStep(w.tables, op, r, w'.tables);
      QuietRecorded(jobs, w.history, w.clock, jobs', w'.clock);
    }
  }

  lemma NextKeepsInv(w: World, op: Op, r: Reply, w': World)
    requires Inv(w) && Next(w, op, r, w')
    ensures Inv(w')
  {
    StepKeepsAgreement(w.tables, op, r, w'.tables);
    NextKeepsFaithful(w, op, r, w');
  }

  /** A run: `ws[i+1]` follows from `ws[i]` by operation `ops[i]` and reply `rs[i]`. */
  datatype Run = Run(ws: seq<World>, ops: seq<Op>, rs: seq<Reply>)

  ghost predicate IsRun(run: Run) {
    && |run.ws| == |run.ops| + 1 && |run.rs| == |run.ops|
    && run.ws[0].tables.jobs == map[] && run.ws[0].history == map[]
    && UniqueScopes(run.ws[0].tables.leases)
    && (forall l :: l in run.ws[0].tables.leases ==> run.ws[0].tables.leases[l].scope != JobScope)
    && forall i :: 0 <= i < |run.ops| ==> Next(run.ws[i], run.ops[i], run.rs[i], run.ws[i + 1])
  }

  lemma FirstWorldKeepsInv(w: World)
    requires w.tables.jobs == map[] && w.history == map[] && UniqueScopes(w.tables.leases)
    requires forall l :: l in w.tables.leases ==> w.tables.leases[l].scope != JobScope
    ensures Inv(w)
  {
  }

  lemma {:induction false} RunInv(run: Run, n: nat)
    requires IsRun(run) && n < |run.ws|
    ensures Inv(run.ws[n])
  {
    if n == 0 {
      FirstWorldKeepsInv(run.ws[0]);
    } else {
      RunInv(run, n - 1);
      NextKeepsInv(run.ws[n - 1], run.ops[n - 1], run.rs[n - 1], run.ws[n - 1 + 1]);
    }
  }

  /** In every reachable state the job and lease tables agree. */
  lemma TablesAlwaysAgree(run: Run, n: nat)
    requires IsRun(run) && n < |run.ws|
    ensures Agree(run.ws[n].tables)
  {
    RunInv(run, n);
  }

  /** No two spells on one job overlap, whoever owned them. */
  lemma TenuresNeverOverlap(run: Run, n: nat, j: JobId, i: nat, k: nat)
    requires IsRun(run) && n < |run.ws|
    requires i < k < |Past(run.ws[n].history, j)|
    ensures Past(run.ws[n].history, j)[i].end <= Past(run.ws[n].history, j)[k].start
  {
    RunInv(run, n);
    assert j in run.ws[n].tables.jobs;
  }

  /** `attempt` counts the spells begun on a job. */
  lemma AttemptCountsTenures(run: Run, n: nat, j: JobId)
    requires IsRun(run) && n < |run.ws| && j in run.ws[n].tables.jobs
    ensures run.ws[n].tables.jobs[j].attempt == |Past(run.ws[n].history, j)|
  {
    RunInv(run, n);
  }

  predicate ByOwner(op: Op, j: JobId, o: Owner) {
    (op.Heartbeat? || op.Complete? || op.Fail?) && op.id == j && op.owner == o
  }

  /** The last accepted claim of `j` before step `n` is step `m`. */
  predicate LatestClaim(run: Run, j: JobId, m: nat, n: nat)
    requires |run.rs| == |run.ops|
  {
    && m < n <= |run.ops| && run.ops[m].Claim? && run.rs[m].Accepted? && run.rs[m].id == j
    && forall i :: m < i < n && run.ops[i].Claim? && run.rs[i].Accepted? ==> run.rs[i].id != j
  }

  /** A step that is not an accepted claim of `j` either keeps `j`'s owner or clears it. */
  lemma OwnerOnlyCleared(s: Tables, op: Op, r: Reply, s': Tables, j: JobId)
    requires Agree(s) && Step(s, op, r, s') && j in s.jobs
    requires !(op.Claim? && r.Accepted? && r.id == j)
    ensures j in s'.jobs && s'.jobs[j].owner in {None, s.jobs[j].owner}
  {
    if op.Claim? {
      var l := ClaimIsGrant(s, op, r, s');
    } else if r.Accepted? && !op.Enqueue? && !op.OtherLeases? {
      UpdateShape(s, op, r, s');
    } else {
      QuietStep(s, op, r, s');
    }
  }

  /** Between claims of `j` its row either stays with the last claimant or has no owner. */
  lemma {:induction false} OwnerIsLatestClaimant(run: Run, j: JobId, m: nat, n: nat)
    requires IsRun(run) && LatestClaim(run, j, m, n)
    ensures j in run.ws[n].tables.jobs
    ensures run.ws[n].tables.jobs[j].owner in {None, Some(run.ops[m].owner)}
    decreases n
  {
    hide Agree, Inv;
    RunInv(run, n - 1);
    var s, op, r, s' := run.ws[n - 1].tables, run.ops[n - 1], run.rs[n - 1], run.ws[n].tables;
    assert Next(run.ws[n - 1], op, r, run.ws[n]);
    if n - 1 > m {
      OwnerIsLatestClaimant(run, j, m, n - 1);
      OwnerOnlyCleared(s, op, r, s', j);
    } else {
      var l := ClaimIsGrant(s, op, r, s');
    }
  }

  /** An accepted heartbeat, completion or failure always comes from the latest claimant, and while
      its spell is running. */
  lemma AcceptedComesFromLatestClaimant(run: Run, j: JobId, m: nat, n: nat, o: Owner)
    requires IsRun(run) && LatestClaim(run, j, m, n) && n < |run.ops|
    requires ByOwner(run.ops[n], j, o) && run.rs[n].Accepted?
    ensures o == run.ops[m].owner
    ensures var past := Past(run.ws[n].history, j);
            past != [] && past[|past| - 1].owner == o && run.ops[n].at < past[|past| - 1].end
  {
    RunInv(run, n);
    OwnerIsLatestClaimant(run, j, m, n);
    assert Next(run.ws[n], run.ops[n], run.rs[n], run.ws[n + 1]);
    UpdateShape(run.ws[n].tables, run.ops[n], run.rs[n], run.ws[n + 1].tables);
  }

  /** A call on a job its caller does not own is refused. */
  lemma NonOwnerIsRefused(s: Tables, op: Op, r: Reply, s': Tables, j: JobId, o: Owner)
    requires Agree(s) && Step(s, op, r, s') && ByOwner(op, j, o) && j in s.jobs && s.jobs[j].owner != Some(o)
    ensures r.Refused? && s' == s
  {
  }

  /** Once another worker has claimed `j`, every call by `o` on it is refused and changes nothing. */
  lemma StaleWorkerIsLockedOut(run: Run, j: JobId, m: nat, n: nat, o: Owner)
    requires IsRun(run) && LatestClaim(run, j, m, n) && n < |run.ops|
    requires ByOwner(run.ops[n], j, o) && o != run.ops[m].owner
    ensures run.rs[n].Refused? && run.ws[n + 1].tables == run.ws[n].tables
  {
    RunInv(run, n);
    OwnerIsLatestClaimant(run, j, m, n);
    assert Next(run.ws[n], run.ops[n], run.rs[n], run.ws[n + 1]);
    NonOwnerIsRefused(run.ws[n].tables, run.ops[n], run.rs[n], run.ws[n + 1].tables, j, o);
  }

  lemma TerminalRowSurvivesStep(s: Tables, op: Op, r: Reply, s': Tables, j: JobId)
    requires Agree(s) && Step(s, op, r, s') && j in s.jobs && Terminal(s.jobs[j])
    ensures j in s'.jobs && s'.jobs[j] == s.jobs[j]
  {
    if op.Claim? {
      var l := ClaimIsGrant(s, op, r, s');
    } else if r.Accepted? && !op.Enqueue? && !op.OtherLeases? {
      UpdateShape(s, op, r, s');
    } else {
      QuietStep(s, op, r, s');
    }
  }

  /** Completed and failed jobs never change again. */
  lemma {:induction false} TerminalRowsAreFrozen(run: Run, j: JobId, m: nat, n: nat)
    requires IsRun(run) && m <= n < |run.ws|
    requires j in run.ws[m].tables.jobs && run.ws[m].tables.jobs[j].status in {Completed, Failed}
    ensures j in run.ws[n].tables.jobs && run.ws[n].tables.jobs[j] == run.ws[m].tables.jobs[j]
    decreases n
  {
    if m < n {
      TerminalRowsAreFrozen(run, j, m, n - 1);
      TablesAlwaysAgree(run, n - 1);
      assert Next(run.ws[n - 1], run.ops[n - 1], run.rs[n - 1], run.ws[n - 1 + 1]);
      TerminalRowSurvivesStep(run.ws[n - 1].tables, run.ops[n - 1], run.rs[n - 1], run.ws[n].tables, j);
    }
  }

  /** A claim without an id takes the free job that was created first, ties going to the lower id, and finds
      nothing to claim exactly when no job is free. */
  lemma ClaimTakesLeastAvailable(run: Run, n: nat)
    requires IsRun(run) && n < |run.ops| && run.ops[n].Claim? && run.ops[n].item.None?
    requires run.ops[n].owner != ""
    requires run.ops[n].kinds.Some? ==> exists k :: k in run.ops[n].kinds.value && Strip(k) != ""
    ensures var jobs, c, r := run.ws[n].tables.jobs, run.ops[n], run.rs[n];
            && (r.NothingToClaim? <==> forall k :: k in jobs && Takes(c, jobs[k]) ==> !Free(jobs[k], c.at))
            && (r.Accepted? ==>
                  && r.id in jobs && Takes(c, jobs[r.id]) && Free(jobs[r.id], c.at)
                  && forall k :: k in jobs && Takes(c, jobs[k]) && Free(jobs[k], c.at) && k != r.id ==>
                       || jobs[r.id].createdAt < jobs[k].createdAt
                       || (jobs[r.id].createdAt == jobs[k].createdAt && r.id < k))
    ensures run.rs[n].Refused? ==> run.rs[n].why in {TtlNotPositive, CouldNotClaim}
  {
    var w, op, r, w' := run.ws[n], run.ops[n], run.rs[n], run.ws[n + 1];
    assert Next(w, op, r, w');
    var jobs := w.tables.jobs;
    forall k | k in jobs ensures Candidate(jobs, op, k) <==> Takes(op, jobs[k]) && Free(jobs[k], op.at) {
      KindsSpelled(op, jobs[k]);
    }
    if op.kinds.Some? {
      var k :| k in op.kinds.value && Strip(k) != "";
      assert Strip(k) in KindFilter(op.kinds).value;
    }
    if exists j :: Candidate(jobs, op, j) {
      var j :| Least(jobs, op, j) && TakeStep(w.tables, op, j, r, w'.tables);
      forall k | k in jobs && Takes(op, jobs[k]) && Free(jobs[k], op.at) && k != j
        ensures jobs[j].createdAt < jobs[k].createdAt || (jobs[j].createdAt == jobs[k].createdAt && j < k)
      {
        assert Candidate(jobs, op, k);
      }
    }
  }

  /** An accepted claim never starts a job before its not-before time, nor while another worker's
      spell is running. */
  lemma ClaimRespectsNotBefore(run: Run, n: nat)
    requires IsRun(run) && n < |run.ops| && run.ops[n].Claim? && run.rs[n].Accepted?
    ensures run.rs[n].id in run.ws[n].tables.jobs
    ensures var row, op := run.ws[n].tables.jobs[run.rs[n].id], run.ops[n];
            && (row.status == Pending || row.status == Claimed)
            && (row.status == Pending ==> row.availableAt <= op.at)
            && (row.status == Claimed && row.expiresAt.Some? && op.at < row.expiresAt.value ==>
                  row.owner == Some(op.owner))
  {
    RunInv(run, n);
    assert Next(run.ws[n], run.ops[n], run.rs[n], run.ws[n + 1]);
    var l := ClaimIsGrant(run.ws[n].tables, run.ops[n], run.rs[n], run.ws[n + 1].tables);
  }
}
