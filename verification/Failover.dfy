/** Walking the ranked chain until a provider answers (app/router.py), remembering recent outcomes. */
module Failover {
  import opened Base
  import opened Routing

  datatype Failure = ProviderOutage | AuthorizationNeeded | OtherFailure(kind: string)

  datatype Candidate = Candidate(provider: string, model: string)
  datatype Response = Response(output: string, failoverFrom: Option<string>, failoverReason: Option<string>)

  /** What the walk meets at one candidate: no such provider, one it must skip, or the result of a call. */
  datatype Meeting = Missing | Skipped(reason: string) | Failed(failure: Failure) | Answered(response: Response)

  function ReasonOf(f: Failure): string {
    match f
    case ProviderOutage => "PROVIDER_OUTAGE"
    case AuthorizationNeeded => "AUTHORIZATION_REQUIRED"
    case OtherFailure(kind) => kind
  }

  /** The walk goes on past this. */
  predicate Passes(m: Meeting) {
    m.Missing? || m.Skipped? || (m.Failed? && m.failure.ProviderOutage?)
  }

  /** The first `n` meetings are all passed. */
  predicate AllPass(world: seq<Meeting>, n: nat)
    requires n <= |world|
  {
    forall i :: 0 <= i < n ==> Passes(world[i])
  }

  /** Why the last of the first `n` candidates that gave a reason was passed over. */
  function LastReason(world: seq<Meeting>, n: nat): Option<string>
    requires n <= |world|
  {
    if n == 0 then None
    else match world[n - 1]
      case Skipped(reason) => Some(reason)
      case Failed(f) => Some(ReasonOf(f))
      case _ => LastReason(world, n - 1)
  }

  predicate AnyOutage(world: seq<Meeting>, n: nat)
    requires n <= |world|
  {
    exists i :: 0 <= i < n && world[i].Failed?
  }

  /** The outcomes recorded while meeting the first `n` candidates: one for each call made. */
  function Outcomes(chain: seq<Candidate>, world: seq<Meeting>, n: nat): seq<(string, bool)>
    requires n <= |chain| == |world|
  {
    if n == 0 then []
    else
      var before := Outcomes(chain, world, n - 1);
      match world[n - 1]
      case Failed(_) => before + [(chain[n - 1].provider, false)]
      case Answered(_) => before + [(chain[n - 1].provider, true)]
      case _ => before
  }

  /** What ends the walk of the whole chain. */
  function Exhausted(world: seq<Meeting>, configured: bool): Failure {
    if AnyOutage(world, |world|) then ProviderOutage
    else if !configured then AuthorizationNeeded
    else ProviderOutage
  }

  /** A response as handed on: marked when somebody else than the first choice gave it. */
  function Marked(r: Response, first: Candidate, server: Candidate, reason: Option<string>): Response {
    if server == first then r else r.(failoverFrom := Some(first.provider), failoverReason := reason)
  }

  /** Why the last of the first `n` candidates that is not missing was passed over; None if all are missing. */
  ghost predicate PassedOver(world: seq<Meeting>, n: nat, reason: Option<string>)
    requires n <= |world|
  {
    if reason.None? then forall i :: 0 <= i < n ==> world[i].Missing?
    else exists i :: && 0 <= i < n && (forall k :: i < k < n ==> world[k].Missing?)
                     && (world[i] == Skipped(reason.value)
                         || (world[i] == Failed(ProviderOutage) && reason.value == "PROVIDER_OUTAGE"))
  }

  lemma {:induction false} ReasonIsLast(world: seq<Meeting>, n: nat)
    requires n <= |world| && AllPass(world, n)
    ensures PassedOver(world, n, LastReason(world, n))
  {
    if LastReason(world, n).Some? {
      var i := ReasonMatches(world, n);
    } else if n > 0 {
      ReasonIsLast(world, n - 1);
    }
  }

  /** What is met decides: missing and skipped candidates and outages are passed, nothing else is; the response is
      handed on as it is, but marked when it is not the first choice's; and if all are passed it is an outage,
      unless nothing is configured and no call failed. */
  ghost predicate Serves(chain: seq<Candidate>, world: seq<Meeting>, configured: bool, r: Result<Response, Failure>,
        k: nat)
    requires k <= |chain| == |world| && chain != []
  {
    && (forall i :: 0 <= i < k ==> world[i].Missing? || world[i].Skipped? || world[i] == Failed(ProviderOutage))
    && (k < |chain| ==>
          || (world[k].Failed? && world[k].failure != ProviderOutage && r == Err(world[k].failure))
          || (world[k].Answered? && r.Ok? && r.value.output == world[k].response.output
              && if chain[k] == chain[0] then r.value == world[k].response
                 else r.value.failoverFrom == Some(chain[0].provider) && PassedOver(world, k, r.value.failoverReason)))
    && (k == |chain| ==>
          r == Err(if !configured && forall i :: 0 <= i < |world| ==> !world[i].Failed? then AuthorizationNeeded
                   else ProviderOutage))
  }

  lemma ServesRightly(chain: seq<Candidate>, world: seq<Meeting>, configured: bool, r: Result<Response, Failure>,
        k: nat)
    requires k <= |chain| == |world| && chain != [] && AllPass(world, k)
    requires k < |chain| ==> !Passes(world[k])
    requires k < |chain| && world[k].Answered? ==>
               r == Ok(Marked(world[k].response, chain[0], chain[k], LastReason(world, k)))
    requires k < |chain| && world[k].Failed? ==> r == Err(world[k].failure)
    requires k == |chain| ==> r == Err(Exhausted(world, configured))
    ensures Serves(chain, world, configured, r, k)
  {
    hide PassedOver, LastReason;
    ReasonIsLast(world, k);
  }

  class ModelRouter {
    ghost var recorded: seq<(string, bool)>
    var history: map<string, seq<bool>>

    /** Every provider's history is the window over what was recorded for it. */
    ghost predicate Valid()
      reads this
    {
      forall p :: HistoryOf(p) == LastN(Of(recorded, p), HISTORY_WINDOW)
    }

    function HistoryOf(p: string): seq<bool>
      reads this
    {
      if p in history then history[p] else []
    }

    constructor ()
      ensures Valid() && recorded == []
    {
      recorded, history := [], map[];
    }

    /** Remembers one outcome; beyond the window the oldest is forgotten. */
    method RecordOutcome(p: string, success: bool)
      requires Valid()
      modifies this
      ensures Valid() && recorded == old(recorded) + [(p, success)]
      ensures var all := old(HistoryOf(p)) + [success]; HistoryOf(p) == if |all| > 8 then all[|all| - 8..] else all
      ensures forall q :: q != p ==> HistoryOf(q) == old(HistoryOf(q))
    {
      hide LastN, Of;
      ghost var before := recorded;
      WindowIsShort(Of(before, p));
      assert HistoryOf(p) == LastN(Of(before, p), HISTORY_WINDOW);
      recorded := recorded + [(p, success)];
      Push(p, success);
      WindowSlides(Of(before, p), success);
      forall q ensures HistoryOf(q) == LastN(Of(recorded, q), HISTORY_WINDOW) {
        OfAppend(before, p, success, q);
        assert Of(before, q) + [] == Of(before, q);
      }
    }

    /** The bounded queue of one provider's outcomes. */
    method Push(p: string, success: bool)
      modifies this`history
      ensures var now := old(HistoryOf(p)) + [success];
              HistoryOf(p) == if |now| > HISTORY_WINDOW then now[1..] else now
      ensures forall q :: q != p ==> HistoryOf(q) == old(HistoryOf(q))
    {
      var now := HistoryOf(p) + [success];
      history := history[p := if |now| > HISTORY_WINDOW then now[1..] else now];
    }

    /** Walks the chain.  `world` is what it meets at each candidate. */
    method Complete(chain: seq<Candidate>, world: seq<Meeting>, configured: bool)
      returns (r: Result<Response, Failure>, ghost k: nat)
      requires Valid() && chain != [] && |world| == |chain|
      modifies this
      ensures Valid() && k <= |chain| && AllPass(world, k)
      // The walk stops at the first candidate that is neither skipped nor out.
      ensures k < |chain| ==> !Passes(world[k])
      ensures k < |chain| && world[k].Answered? ==>
                r == Ok(Marked(world[k].response, chain[0], chain[k], LastReason(world, k)))
      ensures k < |chain| && world[k].Failed? ==> r == Err(world[k].failure)
      ensures k == |chain| ==> r == Err(Exhausted(world, configured))
      ensures Serves(chain, world, configured, r, k)
      // One outcome for each call made, and no other.
      ensures recorded == old(recorded) + Outcomes(chain, world, if k < |chain| then k + 1 else k)
    {
      hide Outcomes, LastReason, Marked, Exhausted;
      r, k := Walk(chain, world, configured);
      ServesRightly(chain, world, configured, r, k);
    }

    /** The loop over the candidates. */
    method Walk(chain: seq<Candidate>, world: seq<Meeting>, configured: bool)
      returns (r: Result<Response, Failure>, ghost k: nat)
      requires Valid() && chain != [] && |world| == |chain|
      modifies this
      ensures Valid() && k <= |chain| && AllPass(world, k)
      // The walk stops at the first candidate that is neither skipped nor out.
      ensures k < |chain| ==> !Passes(world[k])
      ensures k < |chain| && world[k].Answered? ==>
                r == Ok(Marked(world[k].response, chain[0], chain[k], LastReason(world, k)))
      ensures k < |chain| && world[k].Failed? ==> r == Err(world[k].failure)
      ensures k == |chain| ==> r == Err(Exhausted(world, configured))
      // One outcome for each call made, and no other.
      ensures recorded == old(recorded) + Outcomes(chain, world, if k < |chain| then k + 1 else k)
    {
      hide LastN, Of;
      var lastError, reason := None, None;
      for i := 0 to |chain|
        invariant Valid() && AllPass(world, i) && recorded == old(recorded) + Outcomes(chain, world, i)
        invariant lastError == if AnyOutage(world, i) then Some(ProviderOutage) else None
        invariant reason == LastReason(world, i)
      {
        match world[i] {
          case Missing =>
          case Skipped(why) => reason := Some(why);
          case Failed(f) =>
            RecordOutcome(chain[i].provider, false);
            if f != ProviderOutage {
              return Err(f), i;
            }
            lastError, reason := Some(f), Some(ReasonOf(f));
          case Answered(response) =>
            RecordOutcome(chain[i].provider, true);
            if chain[i].provider != chain[0].provider || chain[i].model != chain[0].model {
              return Ok(response.(failoverFrom := Some(chain[0].provider), failoverReason := reason)), i;
            }
            return Ok(response), i;
        }
      }
      if lastError.Some? {
        return Err(lastError.value), |chain|;
      }
      return Err(if !configured then AuthorizationNeeded else ProviderOutage), |chain|;
    }
  }

  /** What was recorded for one provider. */
  function Of(recorded: seq<(string, bool)>, p: string): seq<bool> {
    if recorded == [] then []
    else
      var n := |recorded| - 1;
      Of(recorded[..n], p) + if recorded[n].0 == p then [recorded[n].1] else []
  }

  lemma OfAppend(recorded: seq<(string, bool)>, p: string, success: bool, q: string)
    ensures Of(recorded + [(p, success)], q) == Of(recorded, q) + if q == p then [success] else []
  {
    assert (recorded + [(p, success)])[..|recorded|] == recorded;
  }

  lemma WindowIsShort(all: seq<bool>)
    ensures |LastN(all, HISTORY_WINDOW)| <= 8
  {
  }

  /** Appending and dropping the oldest keeps the window the last eight. */
  lemma WindowSlides(all: seq<bool>, x: bool)
    ensures var now := LastN(all, HISTORY_WINDOW) + [x];
            (if |now| > HISTORY_WINDOW then now[1..] else now) == LastN(all + [x], HISTORY_WINDOW)
  {
  }

  /** One outcome for every candidate that was called, none for those missing or skipped. */
  lemma {:induction false} OneOutcomePerCall(chain: seq<Candidate>, world: seq<Meeting>, n: nat)
    requires n <= |chain| == |world|
    ensures |Outcomes(chain, world, n)| == |set i | 0 <= i < n && (world[i].Failed? || world[i].Answered?)|
  {
    var called := set i | 0 <= i < n && (world[i].Failed? || world[i].Answered?);
    if n == 0 {
      assert called == {};
    } else {
      OneOutcomePerCall(chain, world, n - 1);
      var before := set i | 0 <= i < n - 1 && (world[i].Failed? || world[i].Answered?);
      if world[n - 1].Failed? || world[n - 1].Answered? {
        assert called == before + {n - 1};
      } else {
        assert called == before;
      }
    }
  }

  /** The outcomes stand in the order of the calls, and each is of its candidate's provider and says whether it
      answered. */
  lemma {:induction false} OutcomesInOrder(chain: seq<Candidate>, world: seq<Meeting>, n: nat, i: nat)
    requires i < n <= |chain| == |world| && (world[i].Failed? || world[i].Answered?)
    ensures var at := |set k | 0 <= k < i && (world[k].Failed? || world[k].Answered?)|;
            && at < |Outcomes(chain, world, n)|
            && Outcomes(chain, world, n)[at] == (chain[i].provider, world[i].Answered?)
  {
    if i == n - 1 {
      OneOutcomePerCall(chain, world, i);
    } else {
      OutcomesInOrder(chain, world, n - 1, i);
    }
  }

  /** The reason kept for the walk is that of the last candidate that was skipped or was out. */
  lemma {:induction false} ReasonMatches(world: seq<Meeting>, n: nat) returns (i: nat)
    requires n <= |world| && AllPass(world, n) && LastReason(world, n).Some?
    ensures i < n && forall k :: i < k < n ==> world[k].Missing?
    ensures (world[i] == Failed(ProviderOutage) && LastReason(world, n) == Some("PROVIDER_OUTAGE"))
            || (world[i].Skipped? && LastReason(world, n) == Some(world[i].reason))
  {
    if world[n - 1].Missing? {
      i := ReasonMatches(world, n - 1);
    } else {
      i := n - 1;
    }
  }
}
