/**
  Sibling divergence: a branch's window spend against a baseline that shrinks the trimmed mean of its siblings
  towards the class prior, compared by exact cross-multiplication.
 */
module SiblingDivergence {
  import opened Results
  import opened Sorting
  import opened Texts

  const BPS: nat := 10_000
  const MAX_SAFE_INTEGER: nat := 9_007_199_254_740_991

  datatype Config = Config(prior: int, confidence: int, targetMinimum: int, siblingScoring: int,
                           siblingIntervention: int, threshold: int)

  datatype Observation = Observation(branchId: string, parentBranchId: string, workloadClass: string, spend: int,
                                     count: int)

  datatype Status = Scored | InsufficientTargetObservations | InsufficientSiblings

  datatype Signal = SiblingDiverges | ClassPriorExceeded | CorrelatedCohortShift

  datatype Aggregate = NoAggregate | Mean | TrimmedMean

  datatype Report = Report(status: Status, targetCount: int, siblingCount: nat, aggregate: Aggregate,
                           aggregateSpend: int, weightBps: int, baseline: int, divergenceBps: int, targetPriorBps: int,
                           cohortPriorBps: int, eligible: bool, signals: seq<Signal>, wouldEmitAny: bool,
                           wouldSignalTarget: bool, cohortShift: bool, wouldSignal: bool)

  // ----- validation -----

  function ObservationError(o: Observation): Option<string> {
    if Blank(o.branchId) then Some("SIBLING_DIVERGENCE_BRANCH_REQUIRED")
    else if Blank(o.parentBranchId) then Some("SIBLING_DIVERGENCE_PARENT_REQUIRED")
    else if Blank(o.workloadClass) then Some("SIBLING_DIVERGENCE_CLASS_REQUIRED")
    else if o.spend < 0 then Some("SIBLING_DIVERGENCE_SPEND_INVALID")
    else if o.count < 0 || o.count > MAX_SAFE_INTEGER then Some("SIBLING_DIVERGENCE_OBSERVATION_COUNT_INVALID")
    else None
  }

  predicate Positive(n: int) {
    1 <= n <= MAX_SAFE_INTEGER
  }

  function ConfigError(c: Config): Option<string> {
    if c.prior <= 0 then Some("SIBLING_DIVERGENCE_PRIOR_INVALID")
    else if || !Positive(c.confidence) || !Positive(c.targetMinimum) || !Positive(c.siblingScoring)
            || !Positive(c.siblingIntervention) || !Positive(c.threshold) || c.siblingIntervention < c.siblingScoring
    then Some("SIBLING_DIVERGENCE_CONFIG_INVALID")
    else None
  }

  /** The error of the first invalid candidate. */
  function CandidatesError(xs: seq<Observation>): (r: Option<string>)
    ensures r.None? <==> forall i :: 0 <= i < |xs| ==> ObservationError(xs[i]).None?
    ensures r.Some? ==> exists i :: 0 <= i < |xs| && ObservationError(xs[i]) == r
  {
    if xs == [] then None
    else if ObservationError(xs[0]).Some? then ObservationError(xs[0])
    else
      var r := CandidatesError(xs[1..]);
      assert r.Some? ==> exists i :: 0 <= i < |xs| && ObservationError(xs[i]) == r by {
        if r.Some? {
          var i :| 0 <= i < |xs| - 1 && ObservationError(xs[1..][i]) == r;
          assert ObservationError(xs[i + 1]) == r;
        }
      }
      r
  }

  // ----- the baseline -----

  predicate Comparable(c: Config, target: Observation, o: Observation) {
    o.branchId != target.branchId && o.parentBranchId == target.parentBranchId
    && o.workloadClass == target.workloadClass && o.count >= c.targetMinimum
  }

  /** The spends of the comparable siblings, in their order. */
  function Spends(c: Config, target: Observation, xs: seq<Observation>): (r: seq<int>) {
    if xs == [] then []
    else (if Comparable(c, target, xs[0]) then [xs[0].spend] else []) + Spends(c, target, xs[1..])
  }

  predicate NonNegative(s: seq<int>) {
    forall i :: 0 <= i < |s| ==> s[i] >= 0
  }

  predicate Within(s: seq<int>, low: int, high: int) {
    forall i :: 0 <= i < |s| ==> low <= s[i] <= high
  }

  predicate IntLeq(a: int, b: int) {
    a <= b
  }

  /** With five or more siblings the least and the greatest spend are dropped. */
  function Trimmed(spends: seq<int>): (r: seq<int>)
    ensures |r| == if |spends| >= 5 then |spends| - 2 else |spends|
  {
    var sorted := Sort(IntLeq, spends);
    if |sorted| >= 5 then sorted[1..|sorted| - 1] else sorted
  }

  function Sum(s: seq<int>): int {
    if s == [] then 0 else s[0] + Sum(s[1..])
  }

  /** The baseline as a fraction: the mean of the trimmed spends and the prior, weighted by siblings and confidence. */
  function Numerator(c: Config, spends: seq<int>): int {
    |spends| * Sum(Trimmed(spends)) + c.confidence * c.prior * |Trimmed(spends)|
  }

  function Denominator(c: Config, spends: seq<int>): int {
    (|spends| + c.confidence) * |Trimmed(spends)|
  }

  function RatioBps(numerator: int, denominator: int): int
    requires denominator > 0
  {
    var ratio := numerator * BPS / denominator;
    if ratio > MAX_SAFE_INTEGER then MAX_SAFE_INTEGER else ratio
  }

  predicate AtOrAbove(numerator: int, denominator: int, threshold: int) {
    numerator * BPS >= threshold * denominator
  }

  // ----- the result -----

  function BaseReport(c: Config, target: Observation, spends: seq<int>): Report
    requires c.prior > 0
  {
    var ratio := RatioBps(target.spend, c.prior);
    Report(InsufficientTargetObservations, target.count, |spends|, NoAggregate, 0, 0, c.prior, ratio, ratio, 0, false,
           [], false, false, false, false)
  }

  function Signals(c: Config, target: Observation, spends: seq<int>): seq<Signal> {
    (if AtOrAbove(target.spend * Denominator(c, spends), Numerator(c, spends), c.threshold) then [SiblingDiverges]
     else [])
    + (if AtOrAbove(target.spend, c.prior, c.threshold) then [ClassPriorExceeded] else [])
    + (if AtOrAbove(Sum(Trimmed(spends)), c.prior * |Trimmed(spends)|, c.threshold) then [CorrelatedCohortShift]
       else [])
  }

  function Score(c: Config, target: Observation, spends: seq<int>): Report
    requires ConfigError(c).None? && target.spend >= 0 && |spends| >= 1 && NonNegative(spends)
  {
    Positivity(c, spends);
    var trimmed := Trimmed(spends);
    var signals := Signals(c, target, spends);
    var wouldSignalTarget := SiblingDiverges in signals || ClassPriorExceeded in signals;
    var eligible := |spends| >= c.siblingIntervention;
    Report(Scored, target.count, |spends|, if |spends| >= 5 then TrimmedMean else Mean, Sum(trimmed) / |trimmed|,
           |spends| * BPS / (|spends| + c.confidence), Numerator(c, spends) / Denominator(c, spends),
           RatioBps(target.spend * Denominator(c, spends), Numerator(c, spends)), RatioBps(target.spend, c.prior),
           RatioBps(Sum(trimmed), c.prior * |trimmed|), eligible, signals, signals != [], wouldSignalTarget,
           CorrelatedCohortShift in signals, eligible && wouldSignalTarget)
  }

  function Evaluate(c: Config, target: Observation, xs: seq<Observation>): Result<Report> {
    if ConfigError(c).Some? then Err(ConfigError(c).value)
    else if ObservationError(target).Some? then Err(ObservationError(target).value)
    else if CandidatesError(xs).Some? then Err(CandidatesError(xs).value)
    else
      var spends := Spends(c, target, xs);
      SpendsAreValid(c, target, xs);
      if target.count < c.targetMinimum then Ok(BaseReport(c, target, spends))
      else if |spends| < c.siblingScoring then
        var exceeded := AtOrAbove(target.spend, c.prior, c.threshold);
        Ok(BaseReport(c, target, spends).(status := InsufficientSiblings,
                                          signals := if exceeded then [ClassPriorExceeded] else [],
                                          wouldEmitAny := exceeded, wouldSignalTarget := exceeded))
      else Ok(Score(c, target, spends))
  }

  lemma {:induction false} SpendsAreValid(c: Config, target: Observation, xs: seq<Observation>)
    requires CandidatesError(xs).None?
    ensures NonNegative(Spends(c, target, xs))
  {
    if xs != [] {
      SpendsAreValid(c, target, xs[1..]);
    }
  }

  lemma {:induction false} SumIsNonNegative(s: seq<int>)
    requires NonNegative(s)
    ensures Sum(s) >= 0
  {
    if s != [] {
      SumIsNonNegative(s[1..]);
    }
  }

  lemma TrimmedIsNonNegative(spends: seq<int>)
    requires NonNegative(spends)
    ensures NonNegative(Trimmed(spends))
  {
    var sorted := Sort(IntLeq, spends);
    SortKeepsElements(IntLeq, spends);
    forall i | 0 <= i < |sorted| ensures sorted[i] >= 0 {
      assert sorted[i] in multiset(spends);
    }
  }

  lemma Product(a: int, b: int)
    requires a >= 0 && b >= 0
    ensures a * b >= 0
    ensures a > 0 && b > 0 ==> a * b > 0
  {
  }

  /** No ratio divides by zero, so the error in the ratio helpers never arises. */
  lemma Positivity(c: Config, spends: seq<int>)
    requires ConfigError(c).None? && |spends| >= 1 && NonNegative(spends)
    ensures Numerator(c, spends) > 0 && Denominator(c, spends) > 0 && Sum(Trimmed(spends)) >= 0
            && c.prior * |Trimmed(spends)| > 0
  {
    var k := |Trimmed(spends)|;
    TrimmedIsNonNegative(spends);
    SumIsNonNegative(Trimmed(spends));
    Product(|spends|, Sum(Trimmed(spends)));
    Product(c.confidence, c.prior);
    Product(c.confidence * c.prior, k);
    Product(c.prior, k);
    Product(|spends| + c.confidence, k);
  }

  // ----- thresholds are exact -----

  lemma RatioExact(numerator: int, denominator: int, threshold: int)
    requires denominator > 0 && threshold <= MAX_SAFE_INTEGER
    ensures RatioBps(numerator, denominator) >= threshold <==> AtOrAbove(numerator, denominator, threshold)
  {
    FloorAtLeast(numerator * BPS, denominator, threshold);
  }

  lemma FloorAtLeast(a: int, d: int, t: int)
    requires d > 0
    ensures a / d >= t <==> a >= t * d
  {
    var q := a / d;
    assert q * d <= a < q * d + d;
    if q >= t {
      Product(q - t, d);
      assert (q - t) * d == q * d - t * d;
    } else {
      Product(t - q - 1, d);
      assert (t - q - 1) * d == t * d - q * d - d;
    }
  }

  /** Each reported ratio, floored and clamped, is at or above the threshold exactly when its signal fires. */
  lemma SignalsMatchRatios(c: Config, target: Observation, xs: seq<Observation>)
    requires Evaluate(c, target, xs).Ok?
    ensures var r := Evaluate(c, target, xs).value;
            && (r.status.Scored? ==> (SiblingDiverges in r.signals <==> r.divergenceBps >= c.threshold))
            && (r.status.Scored? ==> (CorrelatedCohortShift in r.signals <==> r.cohortPriorBps >= c.threshold))
            && (!r.status.InsufficientTargetObservations? ==>
                (ClassPriorExceeded in r.signals <==> r.targetPriorBps >= c.threshold))
            && (r.status.InsufficientTargetObservations? ==> r.signals == [])
  {
    var spends := Spends(c, target, xs);
    RatioExact(target.spend, c.prior, c.threshold);
    if Evaluate(c, target, xs).value.status.Scored? {
      SpendsAreValid(c, target, xs);
      Positivity(c, spends);
      RatioExact(target.spend * Denominator(c, spends), Numerator(c, spends), c.threshold);
      RatioExact(Sum(Trimmed(spends)), c.prior * |Trimmed(spends)|, c.threshold);
    }
  }

  // ----- the baseline lies between -----

  lemma FloorAtMost(n: int, d: int, s: int, k: int)
    requires d > 0 && k > 0 && n * k <= s * d
    ensures n / d <= s / k
  {
    var q := n / d;
    FloorAtLeast(n, d, q);
    Product(n - q * d, k);
    assert (s - q * k) * d == s * d - n * k + (n - q * d) * k;
    Cancel(s - q * k, d);
    FloorAtLeast(s, k, q);
  }

  lemma Cancel(a: int, d: int)
    requires d > 0 && a * d >= 0
    ensures a >= 0
  {
    assert -a * d == -(a * d);
    if a < 0 {
      Product(-a, d);
    }
  }

  lemma BaselineIdentities(n: int, s: int, k: int, conf: int, p: int)
    ensures (n * s + conf * p * k) - p * ((n + conf) * k) == n * (s - p * k)
    ensures (n * s + conf * p * k) * k - s * ((n + conf) * k) == (conf * k) * (p * k - s)
  {
    assert (n + conf) * k == n * k + conf * k;
    assert p * ((n + conf) * k) == n * (p * k) + conf * p * k;
    assert s * ((n + conf) * k) == n * s * k + (conf * k) * s;
    assert (conf * p * k) * k == (conf * k) * (p * k);
  }

  /** The effective baseline lies between the class prior and the trimmed sibling mean, also after rounding. */
  lemma BaselineIsBetween(c: Config, target: Observation, spends: seq<int>)
    requires ConfigError(c).None? && target.spend >= 0 && |spends| >= 1 && NonNegative(spends)
    ensures var r := Score(c, target, spends);
            c.prior <= r.baseline <= r.aggregateSpend || r.aggregateSpend <= r.baseline <= c.prior
  {
    Positivity(c, spends);
    var n, s, k := |spends|, Sum(Trimmed(spends)), |Trimmed(spends)|;
    var num, den := Numerator(c, spends), Denominator(c, spends);
    BaselineIdentities(n, s, k, c.confidence, c.prior);
    Product(c.confidence, k);
    FloorAtLeast(num, den, c.prior);
    if s >= c.prior * k {
      Product(n, s - c.prior * k);
      Product(c.confidence * k, s - c.prior * k);
      assert (c.confidence * k) * (c.prior * k - s) == -((c.confidence * k) * (s - c.prior * k));
      FloorAtMost(num, den, s, k);
    } else {
      Product(n, c.prior * k - s);
      Product(c.confidence * k, c.prior * k - s);
      assert n * (s - c.prior * k) == -(n * (c.prior * k - s));
      FloorAtMost(s, k, num, den);
      FloorAtMost(num, den, c.prior, 1);
    }
  }

  lemma DivergenceIdentity(t: int, th: int, n: int, s: int, k: int, conf: int, p: int, b: int)
    ensures t * ((n + conf) * k) * b - th * (n * s + conf * p * k) == n * (t * k * b - th * s)
            + (conf * k) * (t * b - th * p)
  {
    assert t * ((n + conf) * k) * b == n * (t * k * b) + (conf * k) * (t * b);
    assert th * (n * s + conf * p * k) == n * (th * s) + (conf * k) * (th * p);
  }

  /**
    The divergence signal follows when the target is at the threshold against both the siblings and the prior,
    and implies that it is at the threshold against at least one of them.
   */
  lemma DivergenceNeedsOneFollowsFromBoth(c: Config, target: Observation, spends: seq<int>)
    requires ConfigError(c).None? && target.spend >= 0 && |spends| >= 1 && NonNegative(spends)
    ensures var signals := Signals(c, target, spends);
            var overPrior := AtOrAbove(target.spend, c.prior, c.threshold);
            var overSiblings := AtOrAbove(target.spend * |Trimmed(spends)|, Sum(Trimmed(spends)), c.threshold);
            && (overPrior && overSiblings ==> SiblingDiverges in signals)
            && (SiblingDiverges in signals ==> overPrior || overSiblings)
  {
    WeightedThreshold(target.spend, c.threshold, |spends|, Sum(Trimmed(spends)), |Trimmed(spends)|, c.confidence,
                      c.prior, BPS);
  }

  lemma WeightedThreshold(t: int, th: int, n: nat, s: int, k: nat, conf: nat, p: int, b: int)
    requires n > 0 && k > 0 && conf > 0
    ensures t * b >= th * p && t * k * b >= th * s ==> t * ((n + conf) * k) * b >= th * (n * s + conf * p * k)
    ensures t * ((n + conf) * k) * b >= th * (n * s + conf * p * k) ==> t * b >= th * p || t * k * b >= th * s
  {
    var x, y := t * k * b - th * s, t * b - th * p;
    DivergenceIdentity(t, th, n, s, k, conf, p, b);
    Product(conf, k);
    if x >= 0 && y >= 0 {
      Product(n, x);
      Product(conf * k, y);
    } else if x < 0 && y < 0 {
      Product(n, -x);
      Product(conf * k, -y);
      assert n * x == -(n * -x) && (conf * k) * y == -((conf * k) * -y);
    }
  }

  // ----- order of the candidates -----

  lemma IntOrder()
    ensures TotalOrder(IntLeq)
  {
  }

  lemma Associate(a: seq<int>, b: seq<int>, c: seq<int>)
    ensures a + (b + c) == a + b + c
  {
  }

  lemma {:induction false} SpendsOfConcat(c: Config, target: Observation, xs: seq<Observation>, ys: seq<Observation>)
    ensures Spends(c, target, xs + ys) == Spends(c, target, xs) + Spends(c, target, ys)
  {
    if xs == [] {
      assert xs + ys == ys;
    } else {
      SpendsOfConcat(c, target, xs[1..], ys);
      assert (xs + ys)[1..] == xs[1..] + ys;
      Associate(if Comparable(c, target, xs[0]) then [xs[0].spend] else [], Spends(c, target, xs[1..]),
                Spends(c, target, ys));
    }
  }

  lemma {:induction false} SpendsIgnoreOrder(c: Config, target: Observation, xs: seq<Observation>, ys: seq<Observation>)
    requires multiset(xs) == multiset(ys)
    ensures multiset(Spends(c, target, xs)) == multiset(Spends(c, target, ys))
  {
    if xs == [] {
      assert |multiset(ys)| == |ys|;
    } else {
      var i := FindFirst(xs, ys);
      SpendsIgnoreOrder(c, target, xs[1..], ys[..i] + ys[i + 1..]);
      SpendsOfConcat(c, target, ys[..i], ys[i + 1..]);
      SpendsOfConcat(c, target, ys[..i], [ys[i]] + ys[i + 1..]);
      assert ([ys[i]] + ys[i + 1..])[1..] == ys[i + 1..];
    }
  }

  lemma CandidatesErrorOfValid(xs: seq<Observation>, ys: seq<Observation>)
    requires multiset(xs) == multiset(ys) && CandidatesError(xs).None?
    ensures CandidatesError(ys).None?
  {
    forall i | 0 <= i < |ys| ensures ObservationError(ys[i]).None? {
      assert ys[i] in multiset(xs);
      var j :| 0 <= j < |xs| && xs[j] == ys[i];
    }
  }

  lemma EqualSpendsEqualScore(c: Config, target: Observation, s: seq<int>, t: seq<int>)
    requires ConfigError(c).None? && target.spend >= 0 && |s| >= 1 && NonNegative(s)
    requires multiset(s) == multiset(t)
    ensures |s| == |t| && NonNegative(t) && Score(c, target, s) == Score(c, target, t)
  {
    TrimmedIgnoresOrder(s, t);
    assert |multiset(s)| == |s| && |multiset(t)| == |t|;
    forall i | 0 <= i < |t| ensures t[i] >= 0 {
      assert t[i] in multiset(s);
    }
    assert Numerator(c, s) == Numerator(c, t) && Denominator(c, s) == Denominator(c, t)
        && Signals(c, target, s) == Signals(c, target, t);
  }

  lemma TrimmedIgnoresOrder(s: seq<int>, t: seq<int>)
    requires multiset(s) == multiset(t)
    ensures Trimmed(s) == Trimmed(t)
  {
    IntOrder();
    SortIgnoresOrder(IntLeq, s, t);
  }

  /** Every permutation of the candidates gives the same whole result, unless the candidates' errors disagree. */
  lemma CandidateOrderDoesNotMatter(c: Config, target: Observation, xs: seq<Observation>, ys: seq<Observation>)
    requires multiset(xs) == multiset(ys)
    requires OneError(xs) || ConfigError(c).Some? || ObservationError(target).Some?
    ensures Evaluate(c, target, xs) == Evaluate(c, target, ys)
  {
    if ConfigError(c).None? && ObservationError(target).None? {
      if CandidatesError(xs).None? {
        CandidatesErrorOfValid(xs, ys);
        var s, t := Spends(c, target, xs), Spends(c, target, ys);
        SpendsIgnoreOrder(c, target, xs, ys);
        SpendsAreValid(c, target, xs);
        assert |multiset(s)| == |s| && |multiset(t)| == |t|;
        if |s| >= 1 {
          EqualSpendsEqualScore(c, target, s, t);
        }
      } else {
        SameError(xs, ys);
      }
    }
  }

  /** All invalid candidates fail with the same error. */
  ghost predicate OneError(xs: seq<Observation>) {
    forall i, j :: 0 <= i < |xs| && 0 <= j < |xs| && ObservationError(xs[i]).Some? && ObservationError(xs[j]).Some? ==>
      ObservationError(xs[i]) == ObservationError(xs[j])
  }

  lemma SameError(xs: seq<Observation>, ys: seq<Observation>)
    requires multiset(xs) == multiset(ys) && OneError(xs) && CandidatesError(xs).Some?
    ensures CandidatesError(xs) == CandidatesError(ys)
  {
    if CandidatesError(ys).None? {
      CandidatesErrorOfValid(ys, xs);
    }
    var i :| 0 <= i < |xs| && ObservationError(xs[i]) == CandidatesError(xs);
    var k :| 0 <= k < |ys| && ObservationError(ys[k]) == CandidatesError(ys);
    assert ys[k] in multiset(xs);
    var j :| 0 <= j < |xs| && xs[j] == ys[k];
  }

  /** The whole result is the same for every order of the candidates exactly when no two candidates fail differently. */
  lemma OrderMattersIff(c: Config, target: Observation, xs: seq<Observation>)
    ensures (forall ys :: multiset(ys) == multiset(xs) ==> Evaluate(c, target, ys) == Evaluate(c, target, xs))
            <==> OneError(xs) || ConfigError(c).Some? || ObservationError(target).Some?
  {
    if OneError(xs) || ConfigError(c).Some? || ObservationError(target).Some? {
      forall ys | multiset(ys) == multiset(xs) ensures Evaluate(c, target, ys) == Evaluate(c, target, xs) {
        CandidateOrderDoesNotMatter(c, target, xs, ys);
      }
    } else {
      var i, j :| 0 <= i < |xs| && 0 <= j < |xs| && ObservationError(xs[i]).Some? && ObservationError(xs[j]).Some?
                  && ObservationError(xs[i]) != ObservationError(xs[j]);
      var ys, zs := ToFront(xs, i), ToFront(xs, j);
      assert Evaluate(c, target, ys) == Err(ObservationError(xs[i]).value);
      assert Evaluate(c, target, zs) == Err(ObservationError(xs[j]).value);
    }
  }

  function ToFront(xs: seq<Observation>, i: nat): (r: seq<Observation>)
    requires i < |xs|
    ensures multiset(r) == multiset(xs) && r != [] && r[0] == xs[i]
  {
    assert xs == xs[..i] + [xs[i]] + xs[i + 1..];
    [xs[i]] + (xs[..i] + xs[i + 1..])
  }

  // ----- robustness of the trimmed mean -----

  lemma {:induction false} SumBetween(s: seq<int>, low: int, high: int)
    requires Within(s, low, high)
    ensures low * |s| <= Sum(s) <= high * |s|
  {
    if s != [] {
      SumBetween(s[1..], low, high);
      assert low * |s| == low * |s[1..]| + low && high * |s| == high * |s[1..]| + high;
    }
  }

  /** With five or more siblings, one sibling's arbitrary spend cannot move the mean outside the range of the others. */
  lemma OneSiblingCannotMoveTheMean(spends: seq<int>, others: seq<int>, outlier: int, low: int, high: int)
    requires multiset(spends) == multiset(others) + multiset{outlier} && |spends| >= 5
    requires Within(others, low, high)
    ensures low <= Sum(Trimmed(spends)) / |Trimmed(spends)| <= high
  {
    var sorted := Sort(IntLeq, spends);
    IntOrder();
    SortKeepsElements(IntLeq, spends);
    SortSorts(IntLeq, spends);
    forall j | 0 <= j < |sorted| - 2 ensures low <= Trimmed(spends)[j] <= high {
      InnerIsBetween(sorted, others, outlier, j + 1, low, high);
    }
    SumBetween(Trimmed(spends), low, high);
    FloorAtLeast(Sum(Trimmed(spends)), |Trimmed(spends)|, low);
    FloorAtLeast(Sum(Trimmed(spends)), |Trimmed(spends)|, high + 1);
    assert (high + 1) * |Trimmed(spends)| == high * |Trimmed(spends)| + |Trimmed(spends)|;
  }

  lemma InnerIsBetween(sorted: seq<int>, others: seq<int>, outlier: int, j: nat, low: int, high: int)
    requires Sorted(IntLeq, sorted) && multiset(sorted) == multiset(others) + multiset{outlier}
    requires 0 < j < |sorted| - 1
    requires Within(others, low, high)
    ensures low <= sorted[j] <= high
  {
    var first, last := sorted[0], sorted[|sorted| - 1];
    assert IntLeq(first, sorted[j]) && IntLeq(sorted[j], last);
    forall x | x in multiset(sorted) && (x != outlier || multiset(sorted)[x] >= 2) ensures low <= x <= high {
      assert x in multiset(others);
      var i :| 0 <= i < |others| && others[i] == x;
    }
    assert first in multiset(sorted) && sorted[j] in multiset(sorted) && last in multiset(sorted);
    if first == sorted[j] {
      TwiceIn(sorted, 0, j);
    }
    if last == sorted[j] {
      TwiceIn(sorted, j, |sorted| - 1);
    }
  }

  /** With fewer, it can: the mean of four siblings exceeds any bound. */
  lemma FourSiblingsCanBeMoved(a: nat, b: nat, d: nat, bound: nat)
    ensures exists outlier: nat :: Sum(Trimmed([a, b, d, outlier])) / 4 > bound
  {
    var outlier := 4 * bound + 4;
    var spends := [a, b, d, outlier];
    SortKeepsElements(IntLeq, spends);
    SumIgnoresOrder(spends, Sort(IntLeq, spends));
    assert Sum(spends) == a + b + d + outlier by {
      assert spends[1..] == [b, d, outlier] && spends[1..][1..] == [d, outlier] && spends[1..][1..][1..] == [outlier];
      assert Sum(spends[1..]) == b + Sum(spends[1..][1..]);
      assert Sum(spends[1..][1..]) == d + Sum(spends[1..][1..][1..]);
      assert spends[1..][1..][1..][1..] == [];
    }
    assert Sum(Trimmed([a, b, d, outlier])) / 4 > bound;
  }

  lemma {:induction false} SumOfConcat(a: seq<int>, b: seq<int>)
    ensures Sum(a + b) == Sum(a) + Sum(b)
  {
    if a == [] {
      assert a + b == b;
    } else {
      SumOfConcat(a[1..], b);
      assert (a + b)[1..] == a[1..] + b;
    }
  }

  lemma {:induction false} SumIgnoresOrder(s: seq<int>, t: seq<int>)
    requires multiset(s) == multiset(t)
    ensures Sum(s) == Sum(t)
  {
    if s == [] {
      assert |multiset(t)| == |t|;
    } else {
      var i := FindFirst(s, t);
      SumIgnoresOrder(s[1..], t[..i] + t[i + 1..]);
      SumOfConcat(t[..i], t[i + 1..]);
      SumOfConcat(t[..i], [t[i]] + t[i + 1..]);
      assert ([t[i]] + t[i + 1..])[1..] == t[i + 1..];
    }
  }

  // ----- monotonicity -----

  predicate Below(s: seq<int>, t: seq<int>) {
    |s| == |t| && forall i :: 0 <= i < |s| ==> s[i] <= t[i]
  }

  lemma {:induction false} InsertMonotone(x: int, y: int, s: seq<int>, t: seq<int>)
    requires x <= y && Below(s, t) && Sorted(IntLeq, s) && Sorted(IntLeq, t)
    ensures Below(Insert(IntLeq, x, s), Insert(IntLeq, y, t))
    decreases s
  {
    if s != [] {
      var u, v := s[1..], t[1..];
      forall i, j | 0 <= i < j < |u| ensures IntLeq(u[i], u[j]) && IntLeq(v[i], v[j]) {
        assert u[i] == s[i + 1] && u[j] == s[j + 1] && v[i] == t[i + 1] && v[j] == t[j + 1];
      }
      if x <= s[0] && y > t[0] {
        assert u != [] ==> IntLeq(s[0], s[1]);
        InsertMonotone(s[0], y, u, v);
        assert Insert(IntLeq, s[0], u) == s by {
          assert s == [s[0]] + u;
        }
      } else if x > s[0] && y <= t[0] {
        InsertMonotone(x, t[0], u, v);
        assert v != [] ==> IntLeq(t[0], t[1]);
        assert Insert(IntLeq, t[0], v) == t by {
          assert t == [t[0]] + v;
        }
      } else if x > s[0] {
        InsertMonotone(x, y, u, v);
      }
    }
  }

  lemma {:induction false} SortMonotone(s: seq<int>, t: seq<int>)
    requires Below(s, t)
    ensures Below(Sort(IntLeq, s), Sort(IntLeq, t))
  {
    if s != [] {
      IntOrder();
      SortMonotone(s[1..], t[1..]);
      SortSorts(IntLeq, s[1..]);
      SortSorts(IntLeq, t[1..]);
      InsertMonotone(s[0], t[0], Sort(IntLeq, s[1..]), Sort(IntLeq, t[1..]));
    }
  }

  lemma {:induction false} SumMonotone(s: seq<int>, t: seq<int>)
    requires Below(s, t)
    ensures Sum(s) <= Sum(t)
  {
    if s != [] {
      SumMonotone(s[1..], t[1..]);
    }
  }

  lemma TrimmedMonotone(s: seq<int>, t: seq<int>)
    requires Below(s, t)
    ensures |Trimmed(s)| == |Trimmed(t)| && Sum(Trimmed(s)) <= Sum(Trimmed(t))
  {
    SortMonotone(s, t);
    SumMonotone(Trimmed(s), Trimmed(t));
  }

  /** The same candidates, each spending as much or more. */
  predicate Raised(xs: seq<Observation>, ys: seq<Observation>) {
    |xs| == |ys| && forall i :: 0 <= i < |xs| ==> xs[i].spend <= ys[i].spend && ys[i] == xs[i].(spend := ys[i].spend)
  }

  lemma {:induction false} RaisedSpends(c: Config, target: Observation, xs: seq<Observation>, ys: seq<Observation>)
    requires Raised(xs, ys)
    ensures Below(Spends(c, target, xs), Spends(c, target, ys))
  {
    if xs != [] {
      RaisedSpends(c, target, xs[1..], ys[1..]);
      assert ys[0] == xs[0].(spend := ys[0].spend);
    }
  }

  lemma ScaleUp(k: int, a: int, b: int)
    requires k >= 0 && a <= b
    ensures k * a <= k * b
  {
    Product(k, b - a);
    assert k * (b - a) == k * b - k * a;
  }

  /** Raising siblings' spends never switches the divergence signal on, nor the cohort signal off. */
  lemma RaisingSiblingsExcusesTarget(c: Config, target: Observation, xs: seq<Observation>, ys: seq<Observation>)
    requires Raised(xs, ys) && Evaluate(c, target, xs).Ok? && Evaluate(c, target, ys).Ok?
    ensures var before, after := Evaluate(c, target, xs).value, Evaluate(c, target, ys).value;
            && before.status == after.status
            && (SiblingDiverges in after.signals ==> SiblingDiverges in before.signals)
            && (ClassPriorExceeded in after.signals <==> ClassPriorExceeded in before.signals)
            && (CorrelatedCohortShift in before.signals ==> CorrelatedCohortShift in after.signals)
  {
    var s, t := Spends(c, target, xs), Spends(c, target, ys);
    RaisedSpends(c, target, xs, ys);
    TrimmedMonotone(s, t);
    ScaleUp(|s|, Sum(Trimmed(s)), Sum(Trimmed(t)));
    assert Numerator(c, s) <= Numerator(c, t) && Denominator(c, s) == Denominator(c, t);
    ScaleUp(c.threshold, Numerator(c, s), Numerator(c, t));
  }

  /** Raising the target's spend never switches a signal off. */
  lemma RaisingTargetKeepsSignals(c: Config, target: Observation, spend: int, xs: seq<Observation>)
    requires Evaluate(c, target, xs).Ok? && spend >= target.spend
    ensures var after := Evaluate(c, target.(spend := spend), xs);
            && after.Ok?
            && forall s :: s in Evaluate(c, target, xs).value.signals ==> s in after.value.signals
  {
    var raised := target.(spend := spend);
    var spends := Spends(c, target, xs);
    SameSpends(c, target, raised, xs);
    SpendsAreValid(c, target, xs);
    PriorSignalKept(c, target.spend, spend);
    if Evaluate(c, target, xs).value.status.Scored? {
      SignalsKept(c, target, raised, spends);
    }
  }

  lemma PriorSignalKept(c: Config, before: int, after: int)
    requires before <= after
    ensures AtOrAbove(before, c.prior, c.threshold) ==> AtOrAbove(after, c.prior, c.threshold)
  {
  }

  lemma DivergenceSignalKept(c: Config, before: int, after: int, spends: seq<int>)
    requires before <= after && Denominator(c, spends) > 0
    ensures AtOrAbove(before * Denominator(c, spends), Numerator(c, spends), c.threshold) ==>
              AtOrAbove(after * Denominator(c, spends), Numerator(c, spends), c.threshold)
  {
    ScaleUp(Denominator(c, spends), before, after);
  }

  /** The cohort signal does not look at the target, and the other two grow with it. */
  lemma SignalsKept(c: Config, target: Observation, raised: Observation, spends: seq<int>)
    requires ConfigError(c).None? && |spends| >= 1 && NonNegative(spends) && target.spend <= raised.spend
    ensures forall s :: s in Signals(c, target, spends) ==> s in Signals(c, raised, spends)
  {
    Positivity(c, spends);
    PriorSignalKept(c, target.spend, raised.spend);
    DivergenceSignalKept(c, target.spend, raised.spend, spends);
  }

  lemma {:induction false} SameSpends(c: Config, target: Observation, raised: Observation, xs: seq<Observation>)
    requires raised == target.(spend := raised.spend)
    ensures Spends(c, target, xs) == Spends(c, raised, xs)
  {
    if xs != [] {
      SameSpends(c, target, raised, xs[1..]);
      assert Comparable(c, target, xs[0]) == Comparable(c, raised, xs[0]);
    }
  }
}
