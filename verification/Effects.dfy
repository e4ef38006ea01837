/** Side effects that must not be repeated (app/leases.py, app/runtime.py): the first outcome recorded
    under a key is the outcome of every later attempt. */
module Effects {
  import opened Base
  import opened Runtimes
  import opened Events
  import opened Text

  /** Keys are given by the caller, or made from the number of tool calls so far and the call itself. */
  datatype Key = Named(text: string) | AutoKey(used: nat, blob: string)

  datatype Intent = Intent(recipient: string, amount: int, key: Key)

  /** A stored outcome. */
  datatype Payload = ToolDone(used: nat, output: string) | StepFailed(failure: Failure) | Paid(intent: Intent)

  datatype Failure =
    | Policy(error: PolicyError) | ToolMissing | ToolFailed | MissionWasStopped | WalletFailed | WrongPayload

  /** A stored row; one that is not completed has an unknown outcome. */
  datatype Row = Row(completed: bool, payload: Payload)

  type Table = map<Key, Row>

  function Lookup(t: Table, key: Key): Result<Option<Payload>, Failure> {
    if key !in t then Ok(None)
    else if !t[key].completed then Err(Policy(PolicyRefusal))
    else Ok(Some(t[key].payload))
  }

  class IdempotencyGuard {
    var table: Table

    constructor ()
      ensures table == map[]
    {
      table := map[];
    }

    /** Stores a completed outcome unless the key already has one.  `rival` is what another writer
        inserts, if anything, between the lookup and the insert. */
    method Record(key: Key, payload: Payload, rival: Option<Row>) returns (r: Result<Payload, Failure>)
      modifies this
      ensures forall k :: k in old(table) ==> k in table && table[k] == old(table)[k]
      ensures forall k :: k in table && k !in old(table) ==> k == key
      // Whoever was first is the answer.
      ensures var first := if key in old(table) then old(table)[key]
                           else if rival.Some? then rival.value else Row(true, payload);
              && key in table && table[key] == first
              && r == if first.completed then Ok(first.payload) else Err(Policy(PolicyRefusal))
    {
      if key in table {
        return if table[key].completed then Ok(table[key].payload) else Err(Policy(PolicyRefusal));
      }
      if rival.Some? {
        table := table[key := rival.value];
      }
      if key in table {
        return if table[key].completed then Ok(table[key].payload) else Err(Policy(PolicyRefusal));
      }
      table := table[key := Row(true, payload)];
      return Ok(payload);
    }
  }

  function Sum(ledger: seq<Intent>): int {
    if ledger == [] then 0 else Sum(ledger[..|ledger| - 1]) + ledger[|ledger| - 1].amount
  }

  function Started(log: seq<Event>): nat {
    if log == [] then 0
    else Started(log[..|log| - 1]) + if log[|log| - 1].ToolStarted? then 1 else 0
  }

  lemma StartedAppend(log: seq<Event>, e: Event)
    ensures Started(log + [e]) == Started(log) + if e.ToolStarted? then 1 else 0
    ensures Started([]) == 0
  {
    assert (log + [e])[..|log|] == log;
  }

  /** Keys are stripped; one that is missing or blank is refused. */
  function RequireKey(key: Option<string>): Result<Key, Failure> {
    if key.None? || Strip(key.value) == [] then Err(Policy(PolicyRefusal)) else Ok(Named(Strip(key.value)))
  }

  /** What a payment under a known key gives: the first payment, or the failure stored there. */
  function PaymentReplay(found: Result<Option<Payload>, Failure>): Result<Intent, Failure>
    requires found != Ok(None)
  {
    match found
    case Err(e) => Err(e)
    case Ok(Some(Paid(made))) => Ok(made)
    case Ok(Some(StepFailed(f))) => Err(f)
    case _ => Err(WrongPayload)
  }

  /** The mission as side effects see it. */
  class EffectRunner {
    const guard: IdempotencyGuard
    const budget: int
    const maxPayment: int
    const maxToolCalls: int
    var spent: int
    var toolCalls: Option<nat>
    var log: seq<Event>
    /** Every payment made, in order. */
    ghost var ledger: seq<Intent>

    /** What was spent is the sum of the payments made, under keys that are all different and are exactly
        those the guard holds payments for; it is within budget.  The cached tool count is the number of
        started calls in the log, and within its limit. */
    ghost predicate Valid()
      reads this, guard
    {
      && spent == Sum(ledger) && spent <= budget && LedgerMatches(ledger, guard.table)
      && (toolCalls.Some? ==> toolCalls.value == Started(log))
      && Started(log) <= maxToolCalls
    }

    constructor (budget: int, maxPayment: int, maxToolCalls: int)
      requires budget >= 0 && maxToolCalls >= 0
      ensures Valid() && fresh(guard) && ledger == [] && log == [] && spent == 0
    {
      this.budget, this.maxPayment, this.maxToolCalls := budget, maxPayment, maxToolCalls;
      guard := new IdempotencyGuard();
      spent, toolCalls, log, ledger := 0, None, [], [];
    }

    method Emit(e: Event)
      requires Valid() && !e.ToolStarted?
      modifies this`log
      ensures Valid() && log == old(log) + [e]
    {
      StartedAppend(log, e);
      log := log + [e];
    }

    /** Pays once per key.  `stopped`: the mission was stopped; `denied`: why a live payment may not be
        made, if so; `wallet`: the wallet carries it out. */
    method CreatePayment(key: Option<string>, recipient: string, amount: int, stopped: bool,
                         denied: Option<PolicyError>, wallet: bool)
      returns (r: Result<Intent, Failure>)
      requires Valid()
      modifies this`spent, this`ledger, this`log, guard
      ensures Valid()
      // A payment needs a key; white space around it does not count.
      ensures key.None? || Strip(key.value) == "" ==>
                r == Err(Policy(PolicyRefusal)) && Untouched(old(spent), old(ledger), old(guard.table))
      ensures key.Some? && Strip(key.value) != "" ==>
                var k, t := Named(Strip(key.value)), old(guard.table);
                // Under a known key the first outcome is given again and nothing is charged.
                && (k in t ==> && Untouched(old(spent), old(ledger), t)
                               && r == (if !t[k].completed then Err(Policy(PolicyRefusal))
                                        else if t[k].payload.Paid? then Ok(t[k].payload.intent)
                                        else if t[k].payload.StepFailed? then Err(t[k].payload.failure)
                                        else Err(WrongPayload)))
                // Under a new one the payment is made if it may be, and then stored.
                && (k !in t ==>
                      && (r.Err? ==> Untouched(old(spent), old(ledger), t))
                      && (stopped ==> r == Err(MissionWasStopped))
                      && (!stopped && (amount > maxPayment || old(spent) + amount > budget) ==>
                            r == Err(Policy(ResourceExhausted)))
                      && (!stopped && amount <= maxPayment && old(spent) + amount <= budget ==>
                            if denied.Some? then r == Err(Policy(denied.value))
                            else if !wallet then r == Err(WalletFailed)
                            else && r == Ok(Intent(recipient, amount, k)) && spent == old(spent) + amount
                                 && ledger == old(ledger) + [r.value]
                                 && guard.table == t[k := Row(true, Paid(r.value))]))
    {
      var required := RequireKey(key);
      if required.Err? {
        return Err(required.error);
      }
      var k := required.value;
      var found := Lookup(guard.table, k);
      if found != Ok(None) {
        return PaymentReplay(found);
      }
      if stopped {
        return Err(MissionWasStopped);
      }
      if amount > maxPayment || spent + amount > budget {
        return Err(Policy(ResourceExhausted));
      }
      if denied.Some? {
        return Err(Policy(denied.value));
      }
      if !wallet {
        return Err(WalletFailed);
      }
      var intent := Intent(recipient, amount, k);
      Pay(intent);
      return Ok(intent);
    }

    ghost predicate Untouched(s: int, l: seq<Intent>, t: Table)
      reads this, guard
    {
      spent == s && ledger == l && guard.table == t
    }

    /** The charge itself. */
    method Pay(intent: Intent)
      requires Valid() && intent.key !in guard.table && spent + intent.amount <= budget
      modifies this`spent, this`ledger, this`log, guard
      ensures Valid() && spent == old(spent) + intent.amount && ledger == old(ledger) + [intent]
      ensures guard.table == old(guard.table)[intent.key := Row(true, Paid(intent))]
    {
      LedgerPays(ledger, guard.table, intent);
      StartedAppend(log, OtherEvent("payment.created"));
      ghost var t := guard.table[intent.key := Row(true, Paid(intent))];
      spent := spent + intent.amount;
      ledger := ledger + [intent];
      var stored := guard.Record(intent.key, Paid(intent), None);
      assert guard.table == t;
      log := log + [OtherEvent("payment.created")];
    }

    /** The number of started calls: cached, or counted from the log once. */
    method ToolCallsUsed() returns (used: nat)
      requires Valid()
      modifies this`toolCalls
      ensures Valid() && used == Started(log) && toolCalls == Some(used)
    {
      if toolCalls.None? {
        var n := 0;
        for i := 0 to |log|
          invariant n == Started(log[..i])
        {
          assert log[..i + 1] == log[..i] + [log[i]];
          StartedAppend(log[..i], log[i]);
          if log[i].ToolStarted? {
            n := n + 1;
          }
        }
        assert log[..|log|] == log;
        toolCalls := Some(n);
      }
      used := toolCalls.value;
    }

    /** Charges one started call, and logs it. */
    method ConsumeToolCall() returns (r: Result<nat, Failure>)
      requires Valid()
      modifies this`toolCalls, this`log
      ensures Valid()
      ensures r.Ok? <==> old(Started(log)) < maxToolCalls
      ensures r.Ok? ==> log == old(log) + [ToolStarted] && r.value == Started(log) == old(Started(log)) + 1
      ensures r.Err? ==> log == old(log) && r.error == Policy(ResourceExhausted)
    {
      var used := ToolCallsUsed();
      if used >= maxToolCalls {
        return Err(Policy(ResourceExhausted));
      }
      StartedAppend(log, ToolStarted);
      toolCalls := Some(used + 1);
      log := log + [ToolStarted];
      return Ok(used + 1);
    }

    /** Stores how a step went and logs it. */
    method Settle(k: Key, payload: Payload)
      requires Valid() && k !in guard.table && !payload.Paid?
      modifies this`log, guard
      ensures Valid() && guard.table == old(guard.table)[k := Row(true, payload)]
      ensures Started(log) == old(Started(log)) && |log| == old(|log|) + 1 && log[..|log| - 1] == old(log)
    {
      StartedAppend(log, OtherEvent("tool.settled"));
      LedgerSettles(ledger, guard.table, k, payload);
      ghost var t := guard.table[k := Row(true, payload)];
      var stored := guard.Record(k, payload, None);
      assert guard.table == t;
      Emit(OtherEvent("tool.settled"));
    }

    /** What a first attempt stores and gives, after `used` started calls: refused by the limit, by policy or for
        want of a provider, or else the provider's own result. */
    predicate FirstOutcome(used: nat, denied: Option<PolicyError>, known: bool, output: Option<string>,
                           stored: Payload, r: Result<Payload, Failure>)
    {
      if used < maxToolCalls && denied.None? && known && output.Some? then
        stored == ToolDone(used + 1, output.value) && r == Ok(stored)
      else
        && stored.StepFailed? && r == Err(stored.failure)
        && (used >= maxToolCalls ==> stored.failure == Policy(ResourceExhausted))
        && (used < maxToolCalls && denied.Some? ==> stored.failure == Policy(denied.value))
        && (used < maxToolCalls && denied.None? && !known ==> stored.failure == ToolMissing)
        && (used < maxToolCalls && denied.None? && known ==> stored.failure == ToolFailed)
    }

    /** Runs a tool once per key.  `denied`: why policy refuses the tool, if so; `known`: a provider offers
        it; `output`: what the provider returns, or None for a failure. */
    method InvokeTool(key: Option<string>, blob: string, denied: Option<PolicyError>, known: bool,
          output: Option<string>)
      returns (r: Result<Payload, Failure>)
      requires Valid()
      modifies this`toolCalls, this`log, guard
      ensures Valid() && spent == old(spent)
      ensures key.Some? && Strip(key.value) == "" ==>
                r == Err(Policy(PolicyRefusal)) && log == old(log) && guard.table == old(guard.table)
      ensures key.None? || Strip(key.value) != "" ==>
                var k := if key.Some? then Named(Strip(key.value)) else AutoKey(old(Started(log)), blob);
                if k in old(guard.table) then
                  // A replay starts nothing.
                  && log == old(log) && guard.table == old(guard.table)
                  && var row := old(guard.table)[k];
                     r == if !row.completed then Err(Policy(PolicyRefusal))
                          else if row.payload.StepFailed? then Err(row.payload.failure) else Ok(row.payload)
                else
                  // A first attempt stores its outcome, which is what every later one will get.
                  && k in guard.table && guard.table == old(guard.table)[k := Row(true, guard.table[k].payload)]
                  && FirstOutcome(old(Started(log)), denied, known, output, guard.table[k].payload, r)
                  && Started(log) == old(Started(log))
                                     + if old(Started(log)) < maxToolCalls && denied.None? && known then 1 else 0
    {
      var used := ToolCallsUsed();
      var required := if key.Some? then RequireKey(key) else Ok(AutoKey(used, blob));
      if required.Err? {
        return Err(required.error);
      }
      var k := required.value;
      var found := Lookup(guard.table, k);
      if found != Ok(None) {
        return ToolReplay(found);
      }
      r := RunTool(k, denied, known, output);
    }

    /** A tool call under a key that has no outcome yet. */
    method RunTool(k: Key, denied: Option<PolicyError>, known: bool, output: Option<string>)
      returns (r: Result<Payload, Failure>)
      requires Valid() && k !in guard.table
      modifies this`toolCalls, this`log, guard
      ensures Valid()
      ensures Started(log) == old(Started(log))
                              + if old(Started(log)) < maxToolCalls && denied.None? && known then 1 else 0
      ensures var outcome := ToolOutcome(old(Started(log)), maxToolCalls, denied, known, output);
              guard.table == old(guard.table)[k := Row(true, outcome)] && r == ToolReplay(Ok(Some(outcome)))
    {
      var used := ToolCallsUsed();
      var failure := if used >= maxToolCalls then Some(Policy(ResourceExhausted))
                     else if denied.Some? then Some(Policy(denied.value))
                     else if !known then Some(ToolMissing)
                     else None;
      if failure.Some? {
        Settle(k, StepFailed(failure.value));
        return Err(failure.value);
      }
      var charged := ConsumeToolCall();
      var payload := if output.Some? then ToolDone(used + 1, output.value) else StepFailed(ToolFailed);
      Settle(k, payload);
      return if output.Some? then Ok(payload) else Err(ToolFailed);
    }
  }

  /** What a tool call comes to: refused by the limit, by policy or for want of a provider before it is
      charged, or else the provider's result. */
  function ToolOutcome(used: nat, max: int, denied: Option<PolicyError>, known: bool, output: Option<string>): Payload {
    if used >= max then StepFailed(Policy(ResourceExhausted))
    else if denied.Some? then StepFailed(Policy(denied.value))
    else if !known then StepFailed(ToolMissing)
    else if output.None? then StepFailed(ToolFailed)
    else ToolDone(used + 1, output.value)
  }

  /** What a tool call under a known key gives. */
  function ToolReplay(found: Result<Option<Payload>, Failure>): Result<Payload, Failure> {
    match found
    case Err(e) => Err(e)
    case Ok(Some(StepFailed(f))) => Err(f)
    case Ok(Some(payload)) => Ok(payload)
    case Ok(None) => Err(WrongPayload)
  }

  /** The guard holds this payment under its key. */
  predicate PaidUnder(t: Table, intent: Intent) {
    intent.key in t && t[intent.key].payload == Paid(intent)
  }

  /** The payments made are under keys that are all different, and are exactly those the guard holds. */
  ghost predicate LedgerMatches(ledger: seq<Intent>, t: Table) {
    && (forall i, k :: 0 <= i < k < |ledger| ==> ledger[i].key != ledger[k].key)
    && (forall i :: 0 <= i < |ledger| ==> PaidUnder(t, ledger[i]))
    && (forall k :: k in t ==> t[k].completed && (t[k].payload.Paid? ==> t[k].payload.intent in ledger))
  }

  lemma LedgerPays(ledger: seq<Intent>, t: Table, intent: Intent)
    requires LedgerMatches(ledger, t) && intent.key !in t
    ensures LedgerMatches(ledger + [intent], t[intent.key := Row(true, Paid(intent))])
    ensures Sum(ledger + [intent]) == Sum(ledger) + intent.amount && Sum([]) == 0
  {
    var t' := t[intent.key := Row(true, Paid(intent))];
    var now := ledger + [intent];
    assert now[..|ledger|] == ledger;
    forall i | 0 <= i < |ledger| ensures PaidUnder(t', now[i]) && now[i].key != intent.key {
      assert PaidUnder(t, ledger[i]);
    }
    forall k | k in t' && t'[k].payload.Paid? ensures t'[k].payload.intent in now {
      assert now[|ledger|] == intent;
    }
  }

  lemma LedgerSettles(ledger: seq<Intent>, t: Table, k: Key, payload: Payload)
    requires LedgerMatches(ledger, t) && k !in t && !payload.Paid?
    ensures LedgerMatches(ledger, t[k := Row(true, payload)])
  {
    forall i | 0 <= i < |ledger| ensures PaidUnder(t[k := Row(true, payload)], ledger[i]) {
      assert PaidUnder(t, ledger[i]);
    }
  }
}
