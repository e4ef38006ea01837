/** Ranking the catalog for a request (app/router.py). */
module Selection {
  import opened Base
  import opened Routing

  /** What the router sees of a provider: the models it lists, or None if listing failed, and the default
      model that stands in for an empty list. */
  datatype Provider = Provider(id: string, configured: bool, listing: Option<seq<Entry>>, standIn: Option<Entry>)

  /** A provider dropped from the catalog, or a listed model ruled out. */
  datatype Rejection = Dropped(provider: string, failed: bool) | Rejection(index: nat, reasons: seq<Reason>)

  datatype RouteError = NothingConfigured | NoRoute(outage: bool, rejected: seq<Rejection>)

  /** Catalog positions, best first, and the explanations for the others. */
  datatype Decision = Decision(chain: seq<nat>, rejected: seq<Rejection>)

  // ------------------------------------------------------------ the catalog

  /** The rows a provider adds to the catalog. */
  function Rows(p: Provider): seq<Entry> {
    if !p.configured || p.listing.None? then []
    else if p.listing.value == [] && p.standIn.Some? then [p.standIn.value]
    else p.listing.value
  }

  /** A configured provider that adds no row is dropped, and it is remembered whether its listing failed. */
  function Drops(p: Provider): seq<Rejection> {
    if p.configured && Rows(p) == [] then [Dropped(p.id, p.listing.None?)] else []
  }

  function CatalogOf(providers: seq<Provider>): seq<Entry> {
    if providers == [] then [] else CatalogOf(providers[..|providers| - 1]) + Rows(providers[|providers| - 1])
  }

  function DroppedOf(providers: seq<Provider>): seq<Rejection> {
    if providers == [] then [] else DroppedOf(providers[..|providers| - 1]) + Drops(providers[|providers| - 1])
  }

  /** The catalog in provider order, and the providers dropped from it. */
  method Catalog(providers: seq<Provider>) returns (catalog: seq<Entry>, rejected: seq<Rejection>)
    ensures catalog == CatalogOf(providers) && rejected == DroppedOf(providers)
  {
    catalog, rejected := [], [];
    for i := 0 to |providers|
      invariant catalog == CatalogOf(providers[..i]) && rejected == DroppedOf(providers[..i])
    {
      assert providers[..i + 1][..i] == providers[..i];
      var p := providers[i];
      if p.configured {
        match p.listing {
          case None => rejected := rejected + [Dropped(p.id, true)];
          case Some(listed) =>
            var models := listed;
            if models == [] && p.standIn.Some? {
              models := [p.standIn.value];
            }
            if models == [] {
              rejected := rejected + [Dropped(p.id, false)];
            }
            catalog := catalog + models;
        }
      }
    }
    assert providers[..|providers|] == providers;
  }

  /** Discovery failed for some provider. */
  predicate AnyFailed(rejected: seq<Rejection>) {
    exists r :: r in rejected && r.Dropped? && r.failed
  }

  lemma RowsAreBrought(p: Provider)
    ensures forall e :: e in Rows(p) <==> Brings(p, e)
    ensures Rows(p) == [] <==> forall e :: !Brings(p, e)
    ensures p.configured && p.listing.Some? && p.listing.value != [] ==> Rows(p) == p.listing.value
  {
    assert Rows(p) != [] ==> Rows(p)[0] in Rows(p);
  }

  /** The catalog lists the providers' models in the order of the providers. */
  lemma CatalogGrows(providers: seq<Provider>, p: Provider)
    ensures CatalogOf(providers + [p]) == CatalogOf(providers) + Rows(p)
    ensures DroppedOf(providers + [p]) == DroppedOf(providers) + Drops(p)
  {
    assert (providers + [p])[..|providers|] == providers;
  }

  /** What a configured provider brings: its list, or its stand-in when the list is empty. */
  predicate Brings(p: Provider, e: Entry) {
    p.configured && p.listing.Some? && if p.listing.value == [] then p.standIn == Some(e) else e in p.listing.value
  }

  /** Exactly the configured providers that bring no model are dropped. */
  lemma {:induction false} DroppedExactly(providers: seq<Provider>, r: Rejection)
    ensures r in DroppedOf(providers) <==>
              r.Dropped? && exists p :: p in providers && p.configured && (forall e :: !Brings(p, e))
                                        && r == Dropped(p.id, p.listing.None?)
  {
    if providers != [] {
      var before, last := providers[..|providers| - 1], providers[|providers| - 1];
      DroppedExactly(before, r);
      FailureShows(last);
      assert providers == before + [last];
      MoreProviders(before, last, (p: Provider) => p.configured && (forall e :: !Brings(p, e))
                                                   && r == Dropped(p.id, p.listing.None?));
    }
  }

  lemma MoreProviders(before: seq<Provider>, last: Provider, f: Provider -> bool)
    ensures (exists p :: p in before + [last] && f(p)) <==> f(last) || exists p :: p in before && f(p)
  {
    if p :| p in before && f(p) {
      assert p in before + [last];
    }
    if f(last) {
      assert last in before + [last];
    }
  }

  /** The catalog has exactly the models that some provider brings. */
  lemma {:induction false} CatalogExactly(providers: seq<Provider>, e: Entry)
    ensures e in CatalogOf(providers) <==> exists p :: p in providers && Brings(p, e)
  {
    if providers != [] {
      var before, last := providers[..|providers| - 1], providers[|providers| - 1];
      CatalogExactly(before, e);
      RowsAreBrought(last);
      assert providers == before + [last];
      MoreProviders(before, last, (p: Provider) => Brings(p, e));
    }
  }

  /** Discovery has failed exactly if a configured provider's listing did. */
  lemma {:induction false} FailedExactly(providers: seq<Provider>)
    ensures AnyFailed(DroppedOf(providers)) <==> exists p :: p in providers && p.configured && p.listing.None?
  {
    if providers != [] {
      var before, last := providers[..|providers| - 1], providers[|providers| - 1];
      FailedExactly(before);
      FailureShows(last);
      assert providers == before + [last];
      MoreProviders(before, last, (p: Provider) => p.configured && p.listing.None?);
      FailedInSum(DroppedOf(before), Drops(last));
    }
  }

  lemma FailedInSum(a: seq<Rejection>, b: seq<Rejection>)
    ensures AnyFailed(a + b) <==> AnyFailed(a) || AnyFailed(b)
  {
    if r :| r in a && r.Dropped? && r.failed { assert r in a + b; }
    if r :| r in b && r.Dropped? && r.failed { assert r in a + b; }
  }

  lemma FailureShows(p: Provider)
    ensures AnyFailed(Drops(p)) <==> p.configured && p.listing.None?
    ensures forall r :: r in Drops(p) <==>
              p.configured && (forall e :: !Brings(p, e)) && r == Dropped(p.id, p.listing.None?)
  {
    RowsAreBrought(p);
    if p.configured && p.listing.None? {
      assert Drops(p)[0].failed;
    }
  }

  // ------------------------------------------------------------ rejection and ranking

  /** The eligible catalog positions, in catalog order. */
  function EligibleOf(catalog: seq<Entry>, q: Request): seq<nat> {
    if catalog == [] then []
    else
      var n := |catalog| - 1;
      EligibleOf(catalog[..n], q) + if Eligible(catalog[n], q) then [n] else []
  }

  function RejectedOf(catalog: seq<Entry>, q: Request): seq<Rejection> {
    if catalog == [] then []
    else
      var n := |catalog| - 1;
      RejectedOf(catalog[..n], q) + if Eligible(catalog[n], q) then [] else [Rejection(n, Rejections(catalog[n], q))]
  }

  /** Positions in ascending order. */
  predicate Ascending(positions: seq<nat>) {
    forall n, m :: 0 <= n < m < |positions| ==> positions[n] < positions[m]
  }

  lemma AppendAscending(positions: seq<nat>, last: nat)
    requires Ascending(positions) && forall i :: i in positions ==> i < last
    ensures Ascending(positions + [last]) && positions + [] == positions
  {
    forall k | 0 <= k < |positions| ensures positions[k] < last {
      assert positions[k] in positions;
    }
  }

  lemma {:induction false} EligibleExactly(catalog: seq<Entry>, q: Request)
    ensures forall i :: i in EligibleOf(catalog, q) <==> 0 <= i < |catalog| && Eligible(catalog[i], q)
    ensures Ascending(EligibleOf(catalog, q))
  {
    hide Eligible, Ascending;
    if catalog != [] {
      var before, n := catalog[..|catalog| - 1], |catalog| - 1;
      EligibleExactly(before, q);
      AppendAscending(EligibleOf(before, q), n);
    } else {
      NoneAscend();
    }
  }

  lemma NoneAscend()
    ensures Ascending([])
  {
  }

  predicate Explains(catalog: seq<Entry>, q: Request, r: Rejection) {
    && r.Rejection? && r.index < |catalog| && !Eligible(catalog[r.index], q)
    && r.reasons == Rejections(catalog[r.index], q)
  }

  lemma {:induction false} EachOnOneSide(catalog: seq<Entry>, q: Request)
    ensures |EligibleOf(catalog, q)| + |RejectedOf(catalog, q)| == |catalog|
  {
    if catalog != [] { EachOnOneSide(catalog[..|catalog| - 1], q); }
  }

  lemma {:induction false} RejectedExactly(catalog: seq<Entry>, q: Request, r: Rejection)
    ensures r in RejectedOf(catalog, q) <==> Explains(catalog, q, r)
    ensures r in RejectedOf(catalog, q) ==> r.Rejection? && r.index < |catalog|
  {
    if catalog != [] {
      var n := |catalog| - 1;
      RejectedExactly(catalog[..n], q, r);
      assert Explains(catalog, q, r)
        <==> if r == Rejection(n, Rejections(catalog[n], q)) then !Eligible(catalog[n], q)
             else Explains(catalog[..n], q, r);
    }
  }

  /** `a` stands before `b`: a higher score, or the same score and earlier. */
  predicate Ahead(scores: seq<real>, a: nat, b: nat)
    requires a < |scores| && b < |scores|
  {
    scores[a] > scores[b] || (scores[a] == scores[b] && a < b)
  }

  ghost predicate InOrder(scores: seq<real>, order: seq<nat>) {
    && (forall n :: 0 <= n < |order| ==> order[n] < |scores|)
    && forall n, m :: 0 <= n < m < |order| ==> Ahead(scores, order[n], order[m])
  }

  /** A stable sort by descending score: all positions, each once, in that order. */
  ghost predicate IsRanking(scores: seq<real>, order: seq<nat>) {
    && InOrder(scores, order) && |order| == |scores|
    && forall i :: 0 <= i < |scores| ==> i in order
  }

  lemma InsertKeepsAhead(scores: seq<real>, order: seq<nat>, at: nat, i: nat, n: nat, m: nat)
    requires InOrder(scores, order) && at <= |order| && i < |scores|
    requires forall k :: 0 <= k < |order| ==> order[k] < i
    requires forall k :: 0 <= k < at ==> scores[order[k]] >= scores[i]
    requires at < |order| ==> scores[order[at]] < scores[i]
    requires n < m <= |order|
    ensures Ahead(scores, Inserted(order, at, i, n), Inserted(order, at, i, m))
  {
    if n < at && m != at {
      assert Ahead(scores, order[n], order[if m < at then m else m - 1]);
    } else if n == at && at < m - 1 {
      assert Ahead(scores, order[at], order[m - 1]);
    } else if at < n {
      assert Ahead(scores, order[n - 1], order[m - 1]);
    }
  }

  /** What stands at `n` once `i` has been inserted at `at`. */
  function Inserted(order: seq<nat>, at: nat, i: nat, n: nat): nat
    requires at <= |order| && n <= |order|
  {
    if n < at then order[n] else if n == at then i else order[n - 1]
  }

  lemma InsertKeepsOrder(scores: seq<real>, order: seq<nat>, at: nat, i: nat)
    requires InOrder(scores, order) && at <= |order| && i < |scores|
    requires forall n :: 0 <= n < |order| ==> order[n] < i
    requires forall n :: 0 <= n < at ==> scores[order[n]] >= scores[i]
    requires at < |order| ==> scores[order[at]] < scores[i]
    ensures InOrder(scores, order[..at] + [i] + order[at..])
    ensures forall k :: k in order[..at] + [i] + order[at..] <==> k in order || k == i
  {
    hide Ahead;
    var now := order[..at] + [i] + order[at..];
    assert forall n :: 0 <= n < |now| ==> now[n] == Inserted(order, at, i, n);
    forall n, m | 0 <= n < m < |now| ensures Ahead(scores, now[n], now[m]) {
      InsertKeepsAhead(scores, order, at, i, n, m);
    }
    assert order == order[..at] + order[at..];
  }

  method RankByScore(scores: seq<real>) returns (order: seq<nat>)
    ensures IsRanking(scores, order)
    ensures |order| == |scores| && forall i :: 0 <= i < |scores| ==> i in order
    ensures forall n :: 0 <= n < |order| ==> order[n] < |scores|
    ensures forall n, m :: 0 <= n < m < |order| ==>
              scores[order[n]] > scores[order[m]] || (scores[order[n]] == scores[order[m]] && order[n] < order[m])
  {
    order := [];
    for i := 0 to |scores|
      invariant InOrder(scores, order) && |order| == i
      invariant forall k :: k in order <==> 0 <= k < i
    {
      var at := 0;
      while at < |order| && scores[order[at]] >= scores[i]
        invariant 0 <= at <= |order|
        invariant forall n :: 0 <= n < at ==> scores[order[n]] >= scores[i]
      {
        at := at + 1;
      }
      assert forall n :: 0 <= n < |order| ==> order[n] in order;
      InsertKeepsOrder(scores, order, at, i);
      order := order[..at] + [i] + order[at..];
    }
  }

  /** Positions of this catalog. */
  predicate Within(catalog: seq<Entry>, eligible: seq<nat>) {
    forall n :: 0 <= n < |eligible| ==> eligible[n] < |catalog|
  }

  function Costs(catalog: seq<Entry>, eligible: seq<nat>): seq<Cost>
    requires Within(catalog, eligible)
  {
    seq(|eligible|, n requires 0 <= n < |eligible| => CostSignal(catalog[eligible[n]]))
  }

  /** The score of the n-th eligible model before the cost pass. */
  function BaseOf(catalog: seq<Entry>, q: Request, eligible: seq<nat>, n: nat): real
    requires Within(catalog, eligible) && n < |eligible|
  {
    BaseScore(catalog[eligible[n]], q, eligible[n])
  }

  /** The final scores: the base score less a fair penalty among the eligible. */
  ghost predicate FinalScores(catalog: seq<Entry>, q: Request, eligible: seq<nat>, scores: seq<real>) {
    && |scores| == |eligible| && Within(catalog, eligible)
    && forall n :: 0 <= n < |eligible| ==>
         IsPenalty(Costs(catalog, eligible), n, BaseOf(catalog, q, eligible, n) - scores[n])
  }

  function Pick(eligible: seq<nat>, order: seq<nat>): seq<nat>
    requires forall n :: 0 <= n < |order| ==> order[n] < |eligible|
  {
    seq(|order|, n requires 0 <= n < |order| => eligible[order[n]])
  }

  /** Splits a catalog into the eligible positions and the rejections of the others, added to `dropped`. */
  method Split(catalog: seq<Entry>, q: Request, dropped: seq<Rejection>)
    returns (eligible: seq<nat>, rejected: seq<Rejection>)
    ensures eligible == EligibleOf(catalog, q) && rejected == dropped + RejectedOf(catalog, q)
  {
    eligible, rejected := [], dropped;
    for i := 0 to |catalog|
      invariant eligible == EligibleOf(catalog[..i], q) && rejected == dropped + RejectedOf(catalog[..i], q)
    {
      assert catalog[..i + 1][..i] == catalog[..i];
      var reasons := Rejections(catalog[i], q);
      if reasons != [] {
        rejected := rejected + [Rejection(i, reasons)];
      } else {
        eligible := eligible + [i];
      }
    }
    assert catalog[..|catalog|] == catalog;
  }

  /** The providers' catalog, split for a request into a chain, ranked stably by final score, and rejections
      with all their reasons, the dropped providers first. */
  method Select(providers: seq<Provider>, q: Request)
    returns (r: Result<Decision, RouteError>, ghost scores: seq<real>, ghost order: seq<nat>)
    ensures (forall p :: p in providers ==> !p.configured) ==> r == Err(NothingConfigured)
    ensures (exists p :: p in providers && p.configured) ==>
              var catalog := CatalogOf(providers);
              var eligible, rejected := EligibleOf(catalog, q), DroppedOf(providers) + RejectedOf(catalog, q);
              if eligible == [] then
                r == Err(NoRoute(exists p :: p in providers && p.configured && p.listing.None?, rejected))
              else
                && r.Ok? && r.value.rejected == rejected
                && FinalScores(catalog, q, eligible, scores)
                && IsRanking(scores, order) && r.value.chain == Pick(eligible, order)
    // The chain holds exactly the models that suit the request, each other one is rejected for every
    // reason that applies to it, and there is no route exactly when no model suits.
    ensures var catalog := CatalogOf(providers);
            && (r.Ok? ==> forall i :: i in r.value.chain <==> 0 <= i < |catalog| && Suits(catalog[i], q))
            && (r.Ok? ==> forall x :: x in r.value.rejected && x.Rejection? ==> RejectedRightly(catalog, q, x))
            && (r.Ok? ==> forall i :: 0 <= i < |catalog| && !Suits(catalog[i], q) ==>
                            exists x :: x in r.value.rejected && x.Rejection? && x.index == i)
            && (r.Err? && r.error.NoRoute? ==> forall i :: 0 <= i < |catalog| ==> !Suits(catalog[i], q))
    // Ahead in the chain are higher final scores, or the same and an earlier place in the catalog.
    ensures r.Ok? ==> Ranked(scores, order, r.value.chain)
  {
    scores, order := [], [];
    if !exists p :: p in providers && p.configured {
      r := Err(NothingConfigured);
      return;
    }
    var catalog, dropped := Catalog(providers);
    FailedExactly(providers);
    forall x | x in dropped ensures x.Dropped? {
      DroppedExactly(providers, x);
    }
    EligibleAreSuited(catalog, q);
    var eligible, rejected := Split(catalog, q, dropped);
    EligibleExactly(catalog, q);
    assert forall n :: 0 <= n < |eligible| ==> eligible[n] in eligible;
    if eligible == [] {
      RuledOutIsNoFailure(catalog, q, dropped);
      r := Err(NoRoute(AnyFailed(rejected), rejected));
      return;
    }
    var finals := ScoreAll(catalog, q, eligible);
    scores := finals;
    var ranking := RankByScore(finals);
    order := ranking;
    r := Ok(Decision(Pick(eligible, ranking), rejected));
    PickKeepsAll(eligible, finals, ranking);
    PickIsRanked(catalog, q, finals, ranking);
    RejectionsAreRight(catalog, q, dropped);
  }

  /** The model does not suit the request, and the recorded reasons are those that apply. */
  ghost predicate RejectedRightly(catalog: seq<Entry>, q: Request, x: Rejection)
    requires x.Rejection?
  {
    && x.index < |catalog| && !Suits(catalog[x.index], q)
    && forall reason :: reason in x.reasons <==> Applies(reason, catalog[x.index], q)
  }

  lemma EligibleAreSuited(catalog: seq<Entry>, q: Request)
    ensures forall i :: i in EligibleOf(catalog, q) <==> 0 <= i < |catalog| && Suits(catalog[i], q)
  {
    hide Suits, Eligible;
    EligibleExactly(catalog, q);
    forall e ensures Eligible(e, q) <==> Suits(e, q) {
      EligibleIffSuits(e, q);
    }
  }

  /** `order[n]` is where the n-th score of the chain stands among `scores`. */
  ghost predicate Ranked(scores: seq<real>, order: seq<nat>, chain: seq<nat>) {
    && |order| == |chain| == |scores| && (forall n :: 0 <= n < |order| ==> order[n] < |scores|)
    && forall n, m :: 0 <= n < m < |chain| ==>
         scores[order[n]] > scores[order[m]] || (scores[order[n]] == scores[order[m]] && chain[n] < chain[m])
  }

  lemma PickIsRanked(catalog: seq<Entry>, q: Request, scores: seq<real>, order: seq<nat>)
    requires IsRanking(scores, order) && |scores| == |EligibleOf(catalog, q)|
    ensures Ranked(scores, order, Pick(EligibleOf(catalog, q), order))
  {
    EligibleExactly(catalog, q);
  }

  lemma PickKeepsAll(eligible: seq<nat>, scores: seq<real>, order: seq<nat>)
    requires IsRanking(scores, order) && |scores| == |eligible|
    ensures forall i :: i in Pick(eligible, order) <==> i in eligible
  {
    var chain := Pick(eligible, order);
    forall i | i in eligible ensures i in chain {
      var n :| 0 <= n < |eligible| && eligible[n] == i;
      assert n in order;
      var m :| 0 <= m < |order| && order[m] == n;
      assert chain[m] == i;
    }
    forall i | i in chain ensures i in eligible {
      var m :| 0 <= m < |chain| && chain[m] == i;
      assert eligible[order[m]] == i;
    }
  }

  lemma RejectionsAreRight(catalog: seq<Entry>, q: Request, dropped: seq<Rejection>)
    requires forall x :: x in dropped ==> x.Dropped?
    ensures forall x :: x in dropped + RejectedOf(catalog, q) && x.Rejection? ==> RejectedRightly(catalog, q, x)
    ensures forall i :: 0 <= i < |catalog| && !Suits(catalog[i], q) ==>
              exists x :: x in dropped + RejectedOf(catalog, q) && x.Rejection? && x.index == i
  {
    hide Suits, Eligible, Applies, Rejections;
    forall x | x in dropped + RejectedOf(catalog, q) && x.Rejection? ensures RejectedRightly(catalog, q, x) {
      RejectedExactly(catalog, q, x);
      EligibleIffSuits(catalog[x.index], q);
      forall reason ensures reason in x.reasons <==> Applies(reason, catalog[x.index], q) {
        ReasonApplies(catalog[x.index], q, reason);
      }
    }
    forall i | 0 <= i < |catalog| && !Suits(catalog[i], q)
      ensures exists x :: x in dropped + RejectedOf(catalog, q) && x.Rejection? && x.index == i
    {
      EligibleIffSuits(catalog[i], q);
      var x := Rejection(i, Rejections(catalog[i], q));
      RejectedExactly(catalog, q, x);
      assert x in dropped + RejectedOf(catalog, q);
    }
  }

  lemma {:induction false} RuledOutIsNoFailure(catalog: seq<Entry>, q: Request, dropped: seq<Rejection>)
    ensures AnyFailed(dropped + RejectedOf(catalog, q)) <==> AnyFailed(dropped)
  {
    FailedInSum(dropped, RejectedOf(catalog, q));
    if r :| r in RejectedOf(catalog, q) && r.Dropped? {
      RejectedExactly(catalog, q, r);
    }
  }

  method ScoreAll(catalog: seq<Entry>, q: Request, eligible: seq<nat>) returns (scores: seq<real>)
    requires Within(catalog, eligible)
    ensures FinalScores(catalog, q, eligible, scores)
  {
    var table := new real[|eligible|];
    for n := 0 to |eligible|
      invariant forall m :: 0 <= m < n ==> table[m] == BaseOf(catalog, q, eligible, m)
    {
      table[n] := BaseOf(catalog, q, eligible, n);
    }
    ApplyRelativeCost(table, Costs(catalog, eligible));
    scores := table[..];
  }

  /** Chain and rejections partition the catalog; every model ahead in the chain scores higher, or scores
      the same and is listed earlier. */
  lemma ChainIsPartitioned(catalog: seq<Entry>, q: Request, scores: seq<real>, order: seq<nat>, i: nat)
    requires FinalScores(catalog, q, EligibleOf(catalog, q), scores) && IsRanking(scores, order) && i < |catalog|
    ensures var chain := Pick(EligibleOf(catalog, q), order);
            && (i in chain <==> Suits(catalog[i], q))
            && ((exists r :: r in RejectedOf(catalog, q) && r.Rejection? && r.index == i) <==> i !in chain)
            && |chain| + |RejectedOf(catalog, q)| == |catalog|
            && Ranked(scores, order, chain)
  {
    hide Suits, Ranked;
    EligibleIffSuits(catalog[i], q);
    PickIsRanked(catalog, q, scores, order);
    var eligible := EligibleOf(catalog, q);
    var chain := Pick(eligible, order);
    EligibleExactly(catalog, q);
    EachOnOneSide(catalog, q);
    forall r ensures r in RejectedOf(catalog, q) <==> Explains(catalog, q, r) {
      RejectedExactly(catalog, q, r);
    }
    if i in eligible {
      var n :| 0 <= n < |eligible| && eligible[n] == i;
      assert n in order;
      var m :| 0 <= m < |order| && order[m] == n;
      assert chain[m] == i;
    }
    if i in chain {
      var m :| 0 <= m < |chain| && chain[m] == i;
      assert eligible[order[m]] == i;
    }
    if !Eligible(catalog[i], q) {
      assert Explains(catalog, q, Rejection(i, Rejections(catalog[i], q)));
    }
  }

  /** A cheaper model of the same cost kind that is no worse before the cost pass is no worse after it. */
  lemma CheaperStaysAhead(catalog: seq<Entry>, q: Request, eligible: seq<nat>, scores: seq<real>, n: nat, m: nat)
    requires FinalScores(catalog, q, eligible, scores) && n < |eligible| && m < |eligible|
    requires var a, b := catalog[eligible[n]], catalog[eligible[m]];
             || (a.desc.outputPrice.Some? && b.desc.outputPrice.Some?
                 && a.desc.outputPrice.value <= b.desc.outputPrice.value)
             || (a.desc.outputPrice.None? && b.desc.outputPrice.None? && a.estimate.Some? && b.estimate.Some?
                 && a.estimate.value <= b.estimate.value)
    requires BaseOf(catalog, q, eligible, n) >= BaseOf(catalog, q, eligible, m)
    ensures scores[n] >= scores[m]
  {
    PenaltyIsFair(Costs(catalog, eligible), n, m, BaseOf(catalog, q, eligible, n) - scores[n],
                  BaseOf(catalog, q, eligible, m) - scores[m]);
  }
}
