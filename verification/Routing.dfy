/** Choosing a model (app/router.py): hard rejections, scores, the relative-cost pass, the ranking. */
module Routing {
  import opened Base

  datatype Level = UnknownLevel | NoLevel | Low | Medium | High
  datatype ToolUse = NoTools | OptionalTools | RequiredTools
  datatype Health = Healthy | Degraded | Unavailable | Unconfigured | UnknownHealth

  datatype Descriptor = Descriptor(model: string, isLocal: bool, reasoning: Level, coding: Level,
                                   vision: Option<bool>, toolUse: Option<bool>, structured: Option<bool>,
                                   context: Option<nat>, outputPrice: Option<real>)
  datatype Request = Request(reasoning: Level, coding: Level, vision: bool, toolUse: ToolUse,
                             minContext: Option<nat>, maxCost: Option<real>, localOnly: bool)

  /** One catalog row: a model with its provider's health, its estimated cost if known, and the
      provider's recent outcomes. */
  datatype Entry = Entry(provider: string, desc: Descriptor, health: Health, estimate: Option<real>, recent: seq<bool>)

  datatype Reason =
    | NotLocal | NoVision | NoToolUse | NoStructuredOutputs | ReasoningTooLow | CodingTooLow
    | ContextTooSmall | CostTooHigh | NotConfigured

  function Rank(level: Level): int {
    match level
    case Low => 1
    case Medium => 2
    case High => 3
    case _ => 0
  }

  predicate LevelOk(have: Level, want: Level) {
    have == UnknownLevel || Rank(have) >= Rank(want)
  }

  function When(c: bool, r: Reason): seq<Reason> {
    if c then [r] else []
  }

  /** Features the request needs and the model is known to lack. */
  function MissingFeatures(e: Entry, q: Request): seq<Reason> {
    When(q.localOnly && !e.desc.isLocal, NotLocal)
    + When(q.vision && e.desc.vision == Some(false), NoVision)
    + When(q.toolUse == RequiredTools && e.desc.toolUse == Some(false), NoToolUse)
  }

  function MissingSkills(e: Entry, q: Request): seq<Reason> {
    When(e.desc.structured == Some(false), NoStructuredOutputs)
    + When(!LevelOk(e.desc.reasoning, q.reasoning), ReasoningTooLow)
    + When(!LevelOk(e.desc.coding, q.coding), CodingTooLow)
  }

  function BrokenLimits(e: Entry, q: Request): seq<Reason> {
    When(q.minContext.Some? && (e.desc.context.None? || e.desc.context.value < q.minContext.value), ContextTooSmall)
    + When(q.maxCost.Some? && (e.estimate.None? || e.estimate.value > q.maxCost.value), CostTooHigh)
    + When(e.health == Unconfigured, NotConfigured)
  }

  /** Everything that makes a model ineligible, in the order it is checked. */
  function Rejections(e: Entry, q: Request): seq<Reason> {
    MissingFeatures(e, q) + MissingSkills(e, q) + BrokenLimits(e, q)
  }

  predicate Eligible(e: Entry, q: Request) {
    Rejections(e, q) == []
  }

  /** A model of level `have` can do what needs level `want`; of an unknown level that is taken on trust. */
  predicate Reaches(have: Level, want: Level) {
    match want
    case High => have == High || have == UnknownLevel
    case Medium => have == High || have == Medium || have == UnknownLevel
    case Low => have != NoLevel
    case _ => true
  }

  /** What a reason for ruling a model out says about the model and the request. */
  predicate Applies(reason: Reason, e: Entry, q: Request) {
    match reason
    case NotLocal => q.localOnly && !e.desc.isLocal
    case NoVision => q.vision && e.desc.vision == Some(false)
    case NoToolUse => q.toolUse == RequiredTools && e.desc.toolUse == Some(false)
    case NoStructuredOutputs => e.desc.structured == Some(false)
    case ReasoningTooLow => !Reaches(e.desc.reasoning, q.reasoning)
    case CodingTooLow => !Reaches(e.desc.coding, q.coding)
    case ContextTooSmall =>
      q.minContext != None && (e.desc.context == None || e.desc.context.value < q.minContext.value)
    case CostTooHigh => q.maxCost != None && (e.estimate == None || q.maxCost.value < e.estimate.value)
    case NotConfigured => e.health == Unconfigured
  }

  /** The model is all the request asks for: nothing it is known to lack is needed, its context and cost are
      known where they matter, and its provider is configured. */
  predicate Suits(e: Entry, q: Request) {
    && (q.localOnly ==> e.desc.isLocal)
    && (q.vision ==> e.desc.vision != Some(false))
    && (q.toolUse == RequiredTools ==> e.desc.toolUse != Some(false))
    && e.desc.structured != Some(false)
    && Reaches(e.desc.reasoning, q.reasoning) && Reaches(e.desc.coding, q.coding)
    && (q.minContext.Some? ==> e.desc.context.Some? && q.minContext.value <= e.desc.context.value)
    && (q.maxCost.Some? ==> e.estimate.Some? && e.estimate.value <= q.maxCost.value)
    && e.health != Unconfigured
  }

  lemma LevelReached(have: Level, want: Level)
    ensures LevelOk(have, want) <==> Reaches(have, want)
  {
  }

  lemma FeatureReasons(e: Entry, q: Request, reason: Reason)
    ensures reason in MissingFeatures(e, q) <==> reason in {NotLocal, NoVision, NoToolUse} && Applies(reason, e, q)
  {
    hide Reaches;
  }

  lemma SkillReasons(e: Entry, q: Request, reason: Reason)
    ensures reason in MissingSkills(e, q) <==>
              reason in {NoStructuredOutputs, ReasoningTooLow, CodingTooLow} && Applies(reason, e, q)
  {
    hide LevelOk, Reaches;
    LevelReached(e.desc.reasoning, q.reasoning);
    LevelReached(e.desc.coding, q.coding);
  }

  lemma LimitReasons(e: Entry, q: Request, reason: Reason)
    ensures reason in BrokenLimits(e, q) <==>
              reason in {ContextTooSmall, CostTooHigh, NotConfigured} && Applies(reason, e, q)
  {
    hide Reaches;
  }

  /** A reason is recorded exactly when it applies. */
  lemma ReasonApplies(e: Entry, q: Request, reason: Reason)
    ensures reason in Rejections(e, q) <==> Applies(reason, e, q)
  {
    hide MissingFeatures, MissingSkills, BrokenLimits, Applies;
    FeatureReasons(e, q, reason);
    SkillReasons(e, q, reason);
    LimitReasons(e, q, reason);
  }

  lemma SuitsUnlessSome(e: Entry, q: Request)
    ensures Suits(e, q) <==> forall reason :: !Applies(reason, e, q)
  {
    hide Reaches;
    if !Suits(e, q) {
      var reason :| reason in {NotLocal, NoVision, NoToolUse, NoStructuredOutputs, ReasoningTooLow, CodingTooLow,
                               ContextTooSmall, CostTooHigh, NotConfigured} && Applies(reason, e, q);
    }
  }

  /** A model is eligible exactly when it suits the request. */
  lemma EligibleIffSuits(e: Entry, q: Request)
    ensures Eligible(e, q) <==> Suits(e, q)
  {
    hide Rejections, Applies, Suits;
    forall reason ensures reason in Rejections(e, q) <==> Applies(reason, e, q) {
      ReasonApplies(e, q, reason);
    }
    SuitsUnlessSome(e, q);
    if Rejections(e, q) != [] {
      assert Rejections(e, q)[0] in Rejections(e, q);
    }
  }

  lemma Cancel(x: real, y: real, c: real)
    requires c > 0.0 && x * c <= y * c
    ensures x <= y
  {
  }

  lemma Multiple(k: real, c: real)
    requires c > 0.0
    ensures (k * c) / c == k
  {
  }

  lemma Ratio(a: real, b: real, c: real)
    requires a <= b && c > 0.0
    ensures a / c <= b / c
  {
    assert (a / c) * c == a && (b / c) * c == b;
    Cancel(a / c, b / c, c);
  }

  const HISTORY_WINDOW: nat := 8

  /** The last `n` of a sequence. */
  function LastN<T>(s: seq<T>, n: nat): seq<T> {
    if |s| <= n then s else s[|s| - n..]
  }

  function Successes(recent: seq<bool>): nat {
    if recent == [] then 0 else Successes(recent[..|recent| - 1]) + if recent[|recent| - 1] then 1 else 0
  }

  /** Recent success as a score between -8 and 8. */
  function HistoryScore(recent: seq<bool>): real {
    if recent == [] then 0.0
    else 8.0 * (Successes(recent) - (|recent| - Successes(recent))) as real / |recent| as real
  }

  lemma {:induction false} SuccessesBounded(recent: seq<bool>)
    ensures Successes(recent) <= |recent|
  {
    if recent != [] { SuccessesBounded(recent[..|recent| - 1]); }
  }

  lemma HistoryScoreBounded(recent: seq<bool>)
    ensures -8.0 <= HistoryScore(recent) <= 8.0
  {
    if recent != [] {
      SuccessesBounded(recent);
      var n, d := |recent| as real, (Successes(recent) - (|recent| - Successes(recent))) as real;
      Ratio(-8.0 * n, 8.0 * d, n);
      Ratio(8.0 * d, 8.0 * n, n);
      Multiple(-8.0, n);
      Multiple(8.0, n);
    }
  }

  function LevelScore(level: Level, known: real, unknown: real): real {
    if level == UnknownLevel then unknown else known + Rank(level) as real
  }

  function HealthScore(h: Health): real {
    match h case Healthy => 5.0 case Degraded => 1.0 case _ => 0.0
  }

  /** What the model's own price or estimate takes off its score. */
  function PriceScore(e: Entry): real {
    if e.desc.outputPrice.Some? then e.desc.outputPrice.value * 0.001
    else if e.estimate.Some? then e.estimate.value else 0.0
  }

  /** The score before models are compared by cost; `index` is the catalog position. */
  function BaseScore(e: Entry, q: Request, index: nat): real {
    LevelScore(e.desc.reasoning, 20.0, 8.0)
    + (if q.coding != NoLevel then LevelScore(e.desc.coding, 15.0, 6.0) else 0.0)
    + (if q.toolUse == RequiredTools && e.desc.toolUse == Some(true) then 10.0 else 0.0)
    + (if e.desc.structured == Some(true) then 5.0 else 0.0)
    + HealthScore(e.health) + HistoryScore(e.recent) - PriceScore(e) - index as real * 0.01
  }

  /** A known level is preferred to an unknown one, and a higher one to a lower. */
  ghost predicate LevelNoWorse(a: Level, b: Level) {
    b == UnknownLevel || (a != UnknownLevel && Reaches(a, b))
  }

  ghost predicate HealthNoWorse(a: Health, b: Health) {
    a == Healthy || (a == Degraded && b != Healthy) || (b != Healthy && b != Degraded)
  }

  /** `a` is as good as `b` in everything the score looks at. */
  ghost predicate NoWorse(a: Entry, b: Entry) {
    && LevelNoWorse(a.desc.reasoning, b.desc.reasoning) && LevelNoWorse(a.desc.coding, b.desc.coding)
    && (b.desc.toolUse == Some(true) ==> a.desc.toolUse == Some(true))
    && (b.desc.structured == Some(true) ==> a.desc.structured == Some(true))
    && HealthNoWorse(a.health, b.health)
    && HistoryScore(a.recent) >= HistoryScore(b.recent) && PriceScore(a) <= PriceScore(b)
  }

  /** A model that is no worse in any respect and listed no later scores no less, whatever is asked for. */
  lemma NoWorseScoresNoLess(a: Entry, b: Entry, q: Request, i: nat, k: nat)
    requires NoWorse(a, b) && i <= k
    ensures BaseScore(a, q, i) >= BaseScore(b, q, k)
    ensures i < k ==> BaseScore(a, q, i) > BaseScore(b, q, k)
  {
    assert LevelScore(a.desc.reasoning, 20.0, 8.0) >= LevelScore(b.desc.reasoning, 20.0, 8.0);
    assert LevelScore(a.desc.coding, 15.0, 6.0) >= LevelScore(b.desc.coding, 15.0, 6.0);
    assert HealthScore(a.health) >= HealthScore(b.health);
  }

  lemma {:induction false} SuccessesFromFront(recent: seq<bool>)
    requires recent != []
    ensures Successes(recent) == Successes(recent[1..]) + if recent[0] then 1 else 0
  {
    var n := |recent| - 1;
    if n > 0 {
      SuccessesFromFront(recent[..n]);
      assert recent[1..][..n - 1] == recent[..n][1..];
    }
  }

  /** The outcome that leaves a full window never outweighs the one that enters it. */
  lemma FullWindowMoves(window: seq<bool>, success: bool)
    requires window != []
    ensures success ==> HistoryScore(window[1..] + [success]) >= HistoryScore(window)
    ensures !success ==> HistoryScore(window[1..] + [success]) <= HistoryScore(window)
  {
    var next, n := window[1..] + [success], |window| as real;
    assert next[..|window| - 1] == window[1..];
    SuccessesFromFront(window);
    var d := (Successes(window) - (|window| - Successes(window))) as real;
    var d' := (Successes(next) - (|window| - Successes(next))) as real;
    if success { Ratio(8.0 * d, 8.0 * d', n); } else { Ratio(8.0 * d', 8.0 * d, n); }
  }

  /** While the window is not full, the new outcome is weighed against all the earlier ones. */
  lemma OpenWindowMoves(recent: seq<bool>, success: bool)
    ensures success ==> HistoryScore(recent + [success]) >= HistoryScore(recent)
    ensures !success ==> HistoryScore(recent + [success]) <= HistoryScore(recent)
  {
    var more := recent + [success];
    assert more[..|recent|] == recent;
    if recent == [] {
      assert Successes(more) == if success then 1 else 0;
    } else {
      SuccessesBounded(recent);
      ScoreMoves(Successes(recent), |recent|, success);
    }
  }

  /** The share of `s` successes among `n` moves with one more outcome. */
  lemma ScoreMoves(s: nat, n: nat, success: bool)
    requires 0 < n && s <= n
    ensures var s' := if success then s + 1 else s;
            var now := 8.0 * (s - (n - s)) as real / n as real;
            var next := 8.0 * (s' - (n + 1 - s')) as real / (n + 1) as real;
            if success then next >= now else next <= now
  {
    var d, d', c := (s - (n - s)) as real, (s - (n - s) + if success then 1 else -1) as real, n as real;
    Quotient(8.0 * d, c);
    Quotient(8.0 * d', c + 1.0);
    HistoryStep(8.0 * d / c, 8.0 * d' / (c + 1.0), c, d, success);
  }

  lemma Quotient(a: real, c: real)
    requires c > 0.0
    ensures (a / c) * c == a
  {
  }

  /** However many outcomes came before, one more success never lowers the score of the window and one more
      failure never raises it. */
  lemma OutcomeMovesHistory(recent: seq<bool>, success: bool)
    ensures var now, next := LastN(recent, 8), LastN(recent + [success], 8);
            && (success ==> HistoryScore(next) >= HistoryScore(now))
            && (!success ==> HistoryScore(next) <= HistoryScore(now))
  {
    var now := LastN(recent, HISTORY_WINDOW);
    if |recent| < HISTORY_WINDOW {
      OpenWindowMoves(recent, success);
    } else {
      assert LastN(recent + [success], HISTORY_WINDOW) == now[1..] + [success];
      FullWindowMoves(now, success);
    }
  }

  lemma HistoryStep(x: real, y: real, n: real, d: real, success: bool)
    requires n >= 1.0 && -n <= d <= n && x * n == 8.0 * d
    requires y * (n + 1.0) == 8.0 * if success then d + 1.0 else d - 1.0
    ensures success ==> x <= y
    ensures !success ==> y <= x
  {
    HistoryBounds(x, n, d);
    if success {
      assert y * (n + 1.0) == x * n + 8.0 >= x * n + x == x * (n + 1.0);
      Cancel(x, y, n + 1.0);
    } else {
      assert y * (n + 1.0) == x * n - 8.0 <= x * n + x == x * (n + 1.0);
      Cancel(y, x, n + 1.0);
    }
  }

  lemma HistoryBounds(x: real, n: real, d: real)
    requires n >= 1.0 && -n <= d <= n && x * n == 8.0 * d
    ensures -8.0 <= x <= 8.0
  {
    Cancel(x, 8.0, n);
    Cancel(-8.0, x, n);
  }

  function WithReasoning(e: Entry, l: Level): Entry {
    e.(desc := e.desc.(reasoning := l))
  }

  function WithCoding(e: Entry, l: Level): Entry {
    e.(desc := e.desc.(coding := l))
  }

  /** A known reasoning level is worth 12 more than an unknown one, and each level up 1. */
  lemma WorthOfReasoning(e: Entry, q: Request, i: nat)
    ensures BaseScore(WithReasoning(e, NoLevel), q, i) == BaseScore(WithReasoning(e, UnknownLevel), q, i) + 12.0
    ensures BaseScore(WithReasoning(e, Low), q, i) == BaseScore(WithReasoning(e, NoLevel), q, i) + 1.0
    ensures BaseScore(WithReasoning(e, Medium), q, i) == BaseScore(WithReasoning(e, NoLevel), q, i) + 2.0
    ensures BaseScore(WithReasoning(e, High), q, i) == BaseScore(WithReasoning(e, NoLevel), q, i) + 3.0
  {
    hide HistoryScore, HealthScore;
  }

  /** Where coding is asked for, a known coding level is worth 9 more than an unknown one, and each level up 1. */
  lemma WorthOfCoding(e: Entry, q: Request, i: nat)
    ensures var unknown := BaseScore(WithCoding(e, UnknownLevel), q, i);
            if q.coding == NoLevel then
              forall l :: BaseScore(WithCoding(e, l), q, i) == unknown
            else
              && BaseScore(WithCoding(e, NoLevel), q, i) == unknown + 9.0
              && BaseScore(WithCoding(e, Low), q, i) == unknown + 10.0
              && BaseScore(WithCoding(e, Medium), q, i) == unknown + 11.0
              && BaseScore(WithCoding(e, High), q, i) == unknown + 12.0
  {
    hide HistoryScore, HealthScore;
  }

  /** Required tools are worth 10, structured output 5, health 5, degraded health 1. */
  lemma WorthOfFeatures(e: Entry, q: Request, i: nat)
    ensures BaseScore(e.(desc := e.desc.(toolUse := Some(true))), q, i)
            == BaseScore(e.(desc := e.desc.(toolUse := None)), q, i) + if q.toolUse == RequiredTools then 10.0 else 0.0
    ensures BaseScore(e.(desc := e.desc.(structured := Some(true))), q, i)
            == BaseScore(e.(desc := e.desc.(structured := None)), q, i) + 5.0
    ensures BaseScore(e.(health := Healthy), q, i) == BaseScore(e.(health := UnknownHealth), q, i) + 5.0
    ensures BaseScore(e.(health := Degraded), q, i) == BaseScore(e.(health := UnknownHealth), q, i) + 1.0
    ensures BaseScore(e.(health := Unavailable), q, i) == BaseScore(e.(health := UnknownHealth), q, i)
  {
    hide HistoryScore, LevelScore;
  }

  /** Recent outcomes count with their score, a listed price with a thousandth, an estimate used in its place
      in full, and each place further down the catalog with a hundredth. */
  lemma WorthOfTheRest(e: Entry, q: Request, i: nat, past: seq<bool>, usd: real)
    ensures BaseScore(e.(recent := past), q, i) == BaseScore(e.(recent := []), q, i) + HistoryScore(past)
    ensures var free := e.(desc := e.desc.(outputPrice := None), estimate := None);
            && BaseScore(e.(desc := e.desc.(outputPrice := Some(usd))), q, i) == BaseScore(free, q, i) - usd / 1000.0
            && BaseScore(free.(estimate := Some(usd)), q, i) == BaseScore(free, q, i) - usd
    ensures BaseScore(e, q, i + 1) == BaseScore(e, q, i) - 0.01
  {
    hide HealthScore, LevelScore, Successes;
  }

  /** A window of successes only scores 8, one of failures only -8. */
  lemma {:induction false} PureHistories(recent: seq<bool>)
    requires recent != []
    ensures (forall i :: 0 <= i < |recent| ==> recent[i]) ==>
              Successes(recent) == |recent| && HistoryScore(recent) == 8.0
    ensures (forall i :: 0 <= i < |recent| ==> !recent[i]) ==> Successes(recent) == 0 && HistoryScore(recent) == -8.0
  {
    var n := |recent| - 1;
    if n > 0 {
      PureHistories(recent[..n]);
    }
    Multiple(8.0, |recent| as real);
    Multiple(-8.0, |recent| as real);
  }

  // ------------------------------------------------------------ relative cost

  datatype Cost = Listed(usd: real) | Estimated(usd: real) | UnknownCost

  function CostSignal(e: Entry): Cost {
    if e.desc.outputPrice.Some? then Listed(e.desc.outputPrice.value)
    else if e.estimate.Some? then Estimated(e.estimate.value)
    else UnknownCost
  }

  /** Two costs that can be compared. */
  predicate SameKind(a: Cost, b: Cost) {
    (a.Listed? && b.Listed?) || (a.Estimated? && b.Estimated?)
  }

  predicate IsCheapest(costs: seq<Cost>, i: nat, lo: real)
    requires i < |costs| && !costs[i].UnknownCost?
  {
    && (exists k :: 0 <= k < |costs| && SameKind(costs[k], costs[i]) && costs[k].usd == lo)
    && (forall k :: 0 <= k < |costs| && SameKind(costs[k], costs[i]) ==> lo <= costs[k].usd)
  }

  predicate IsDearest(costs: seq<Cost>, i: nat, hi: real)
    requires i < |costs| && !costs[i].UnknownCost?
  {
    && (exists k :: 0 <= k < |costs| && SameKind(costs[k], costs[i]) && costs[k].usd == hi)
    && (forall k :: 0 <= k < |costs| && SameKind(costs[k], costs[i]) ==> costs[k].usd <= hi)
  }

  function Loss(usd: real, lo: real, hi: real): real {
    if hi <= lo then 0.0 else 2.0 * ((usd - lo) / (hi - lo))
  }

  /** What the model at `i` loses for its cost, among those of its kind. */
  ghost predicate IsPenalty(costs: seq<Cost>, i: nat, p: real)
    requires i < |costs|
  {
    if costs[i].UnknownCost? then p == 0.0
    else exists lo, hi :: IsCheapest(costs, i, lo) && IsDearest(costs, i, hi) && p == Loss(costs[i].usd, lo, hi)
  }

  lemma LossInRange(usd: real, lo: real, hi: real)
    requires lo <= usd <= hi
    ensures 0.0 <= Loss(usd, lo, hi) <= 2.0
    ensures usd == lo ==> Loss(usd, lo, hi) == 0.0
    ensures lo < hi && usd == hi ==> Loss(usd, lo, hi) == 2.0
  {
    if lo < hi {
      var c := hi - lo;
      Ratio(0.0, usd - lo, c);
      Ratio(usd - lo, c, c);
      Multiple(1.0, c);
      Multiple(0.0, c);
    }
  }

  lemma LossGrows(usd: real, usd': real, lo: real, hi: real)
    requires usd <= usd'
    ensures Loss(usd, lo, hi) <= Loss(usd', lo, hi)
  {
    if lo < hi { Ratio(usd - lo, usd' - lo, hi - lo); }
  }

  /** The penalty lies between 0 and 2, is 0 for the cheapest of a kind, 2 for the dearest if it is
      dearer, and grows with cost. */
  lemma PenaltyIsFair(costs: seq<Cost>, i: nat, k: nat, p: real, p': real)
    requires i < |costs| && k < |costs| && IsPenalty(costs, i, p) && IsPenalty(costs, k, p')
    ensures 0.0 <= p <= 2.0 && (costs[i].UnknownCost? ==> p == 0.0)
    ensures !costs[i].UnknownCost? && IsCheapest(costs, i, costs[i].usd) ==> p == 0.0
    ensures SameKind(costs[i], costs[k]) && costs[i].usd <= costs[k].usd ==> p <= p'
    ensures SameKind(costs[i], costs[k]) && costs[i].usd < costs[k].usd && IsDearest(costs, k, costs[k].usd) ==>
              p' == 2.0
  {
    if !costs[i].UnknownCost? {
      var lo, hi :| IsCheapest(costs, i, lo) && IsDearest(costs, i, hi) && p == Loss(costs[i].usd, lo, hi);
      assert SameKind(costs[i], costs[i]);
      LossInRange(costs[i].usd, lo, hi);
      if IsCheapest(costs, i, costs[i].usd) { SameRange(costs, i, i, lo, hi, costs[i].usd, hi); }
      if SameKind(costs[i], costs[k]) {
        var lo', hi' :| IsCheapest(costs, k, lo') && IsDearest(costs, k, hi') && p' == Loss(costs[k].usd, lo', hi');
        SameRange(costs, i, k, lo, hi, lo', hi');
        LossInRange(costs[k].usd, lo, hi);
        if costs[i].usd <= costs[k].usd { LossGrows(costs[i].usd, costs[k].usd, lo, hi); }
        if IsDearest(costs, k, costs[k].usd) { SameRange(costs, k, k, lo', hi', lo', costs[k].usd); }
      }
    }
  }

  lemma EvenLoss(usd: real, lo: real, hi: real)
    requires lo < hi
    ensures Loss(usd, lo, hi) * (hi - lo) == 2.0 * (usd - lo)
  {
    var share, span := (usd - lo) / (hi - lo), hi - lo;
    Quotient(usd - lo, span);
    assert (2.0 * share) * span == 2.0 * (share * span);
  }

  /** Between the cheapest and the dearest the penalty grows evenly. */
  lemma PenaltyIsEven(costs: seq<Cost>, i: nat, lo: real, hi: real, p: real)
    requires i < |costs| && !costs[i].UnknownCost? && IsCheapest(costs, i, lo) && IsDearest(costs, i, hi)
    requires IsPenalty(costs, i, p)
    ensures lo < hi ==> p * (hi - lo) == 2.0 * (costs[i].usd - lo)
  {
    hide Loss, IsCheapest, IsDearest;
    var lo', hi' :| IsCheapest(costs, i, lo') && IsDearest(costs, i, hi') && p == Loss(costs[i].usd, lo', hi');
    assert SameKind(costs[i], costs[i]);
    SameRange(costs, i, i, lo, hi, lo', hi');
    if lo < hi {
      EvenLoss(costs[i].usd, lo, hi);
    }
  }

  lemma SameRange(costs: seq<Cost>, i: nat, k: nat, lo: real, hi: real, lo': real, hi': real)
    requires i < |costs| && k < |costs| && SameKind(costs[i], costs[k])
    requires IsCheapest(costs, i, lo) && IsDearest(costs, i, hi)
    requires IsCheapest(costs, k, lo') && IsDearest(costs, k, hi')
    ensures lo == lo' && hi == hi'
  {
    var a :| 0 <= a < |costs| && SameKind(costs[a], costs[i]) && costs[a].usd == lo;
    var b :| 0 <= b < |costs| && SameKind(costs[b], costs[k]) && costs[b].usd == lo';
    var c :| 0 <= c < |costs| && SameKind(costs[c], costs[i]) && costs[c].usd == hi;
    var d :| 0 <= d < |costs| && SameKind(costs[d], costs[k]) && costs[d].usd == hi';
    assert SameKind(costs[a], costs[k]) && SameKind(costs[b], costs[i]);
    assert SameKind(costs[c], costs[k]) && SameKind(costs[d], costs[i]);
  }

  predicate OfKind(c: Cost, listed: bool) {
    if listed then c.Listed? else c.Estimated?
  }

  /** The positions whose cost is of the given kind, in order. */
  method GroupOf(costs: seq<Cost>, listed: bool) returns (group: seq<nat>)
    ensures forall i :: i in group <==> 0 <= i < |costs| && OfKind(costs[i], listed)
    ensures forall n, m :: 0 <= n < m < |group| ==> group[n] != group[m]
  {
    group := [];
    for i := 0 to |costs|
      invariant forall k :: k in group <==> 0 <= k < i && OfKind(costs[k], listed)
      invariant forall n, m :: 0 <= n < m < |group| ==> group[n] != group[m]
    {
      if OfKind(costs[i], listed) {
        assert i !in group;
        group := group + [i];
      }
    }
  }

  /** Positions of comparable costs, all of one kind and none left out. */
  ghost predicate WholeKind(costs: seq<Cost>, listed: bool, group: seq<nat>) {
    forall i :: i in group <==> 0 <= i < |costs| && OfKind(costs[i], listed)
  }

  /** `lo` and `hi` are the least and the greatest cost in the group. */
  ghost predicate Range(costs: seq<Cost>, listed: bool, group: seq<nat>, lo: real, hi: real)
    requires WholeKind(costs, listed, group)
  {
    && (exists i :: i in group && costs[i].usd == lo)
    && (exists i :: i in group && costs[i].usd == hi)
    && (forall i :: i in group ==> lo <= costs[i].usd <= hi)
  }

  method Extremes(costs: seq<Cost>, listed: bool, group: seq<nat>) returns (lo: real, hi: real)
    requires group != [] && WholeKind(costs, listed, group)
    ensures Range(costs, listed, group, lo, hi)
  {
    assert group[0] in group;
    lo, hi := costs[group[0]].usd, costs[group[0]].usd;
    for n := 0 to |group|
      invariant exists i :: i in group && costs[i].usd == lo
      invariant exists i :: i in group && costs[i].usd == hi
      invariant forall m :: 0 <= m < n ==> group[m] in group && lo <= costs[group[m]].usd <= hi
    {
      assert group[n] in group;
      if costs[group[n]].usd < lo { lo := costs[group[n]].usd; }
      if costs[group[n]].usd > hi { hi := costs[group[n]].usd; }
    }
  }

  /** A group's extremes are the extremes among the comparable costs. */
  lemma GroupExtremes(costs: seq<Cost>, listed: bool, group: seq<nat>, i: nat, lo: real, hi: real)
    requires WholeKind(costs, listed, group) && Range(costs, listed, group, lo, hi) && i in group
    ensures IsCheapest(costs, i, lo) && IsDearest(costs, i, hi)
  {
    var a :| a in group && costs[a].usd == lo;
    var b :| b in group && costs[b].usd == hi;
    assert SameKind(costs[a], costs[i]) && SameKind(costs[b], costs[i]);
    forall k | 0 <= k < |costs| && SameKind(costs[k], costs[i]) ensures k in group {}
  }

  lemma GroupLoss(costs: seq<Cost>, listed: bool, group: seq<nat>, i: nat, lo: real, hi: real)
    requires WholeKind(costs, listed, group) && Range(costs, listed, group, lo, hi) && i in group
    ensures IsPenalty(costs, i, Loss(costs[i].usd, lo, hi))
    ensures |group| < 2 ==> Loss(costs[i].usd, lo, hi) == 0.0
  {
    GroupExtremes(costs, listed, group, i, lo, hi);
    if |group| < 2 {
      assert forall k :: k in group ==> k == group[0];
    }
  }

  /** Takes off what each model of a group loses. */
  method SubtractLosses(scores: array<real>, costs: seq<Cost>, listed: bool, group: seq<nat>, lo: real, hi: real)
    requires scores.Length == |costs| && WholeKind(costs, listed, group) && Range(costs, listed, group, lo, hi)
    requires forall n, m :: 0 <= n < m < |group| ==> group[n] != group[m]
    modifies scores
    ensures forall i :: 0 <= i < |costs| ==>
              scores[i] == old(scores[i]) - if i in group then Loss(costs[i].usd, lo, hi) else 0.0
  {
    for n := 0 to |group|
      invariant forall i :: 0 <= i < |costs| ==>
                  scores[i] == old(scores[i]) - if i in group[..n] then Loss(costs[i].usd, lo, hi) else 0.0
    {
      var i := group[n];
      assert i in group && i !in group[..n];
      assert group[..n + 1] == group[..n] + [i];
      LossInRange(costs[i].usd, lo, hi);
      if hi > lo && costs[i].usd != lo {
        scores[i] := scores[i] - 2.0 * ((costs[i].usd - lo) / (hi - lo));
      }
    }
    assert group[..|group|] == group;
  }

  /** Penalizes one kind of cost. */
  method PenalizeKind(scores: array<real>, costs: seq<Cost>, listed: bool)
    requires scores.Length == |costs|
    modifies scores
    ensures forall i :: 0 <= i < |costs| ==>
              if OfKind(costs[i], listed) then IsPenalty(costs, i, old(scores[i]) - scores[i])
              else scores[i] == old(scores[i])
  {
    var group := GroupOf(costs, listed);
    if group == [] {
      return;
    }
    var lo, hi := Extremes(costs, listed, group);
    if |group| >= 2 {
      SubtractLosses(scores, costs, listed, group, lo, hi);
    }
    forall i | i in group ensures IsPenalty(costs, i, old(scores[i]) - scores[i]) {
      GroupLoss(costs, listed, group, i, lo, hi);
      assert old(scores[i]) - scores[i] == Loss(costs[i].usd, lo, hi);
    }
  }

  /** Takes each ranked model's cost penalty off its score, in place. */
  method ApplyRelativeCost(scores: array<real>, costs: seq<Cost>)
    requires scores.Length == |costs|
    modifies scores
    ensures forall i :: 0 <= i < |costs| ==> IsPenalty(costs, i, old(scores[i]) - scores[i])
  {
    PenalizeKind(scores, costs, true);
    PenalizeKind(scores, costs, false);
  }
}
