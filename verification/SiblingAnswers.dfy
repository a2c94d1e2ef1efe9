/**
  The sibling report, field by field: who is compared, the exact weights of the baseline, when each signal fires, and
  how siblings and confidence pull the baseline.
 */
module SiblingAnswers {
  import opened Results
  import opened Sorting
  import opened SiblingDivergence

  /** Another branch of the same parent in the same class, observed at least as often as is asked of the target. */
  predicate Peer(c: Config, target: Observation, o: Observation) {
    && o.branchId != target.branchId && o.parentBranchId == target.parentBranchId
    && o.workloadClass == target.workloadClass && c.targetMinimum <= o.count
  }

  /** The spends of the peers, in the order of the candidates. */
  function PeerSpends(c: Config, target: Observation, xs: seq<Observation>): seq<int> {
    if xs == [] then []
    else
      var last := xs[|xs| - 1];
      PeerSpends(c, target, xs[..|xs| - 1]) + if Peer(c, target, last) then [last.spend] else []
  }

  lemma {:induction false} SpendsArePeers(c: Config, target: Observation, xs: seq<Observation>)
    ensures Spends(c, target, xs) == PeerSpends(c, target, xs)
  {
    if xs != [] {
      var front, last := xs[..|xs| - 1], xs[|xs| - 1];
      SpendsArePeers(c, target, front);
      SpendsOfConcat(c, target, front, [last]);
      assert xs == front + [last] && Spends(c, target, [last][1..]) == [];
    }
  }

  /** `q` lists the spends in ascending order. */
  predicate Ascending(q: seq<int>, spends: seq<int>) {
    multiset(q) == multiset(spends) && |q| == |spends| && forall i, j :: 0 <= i < j < |q| ==> q[i] <= q[j]
  }

  /** What counts of an ascending list: all of it, or from five on all but its ends. */
  function Counting(q: seq<int>): (r: seq<int>)
    ensures |q| >= 1 ==> |r| >= 1
  {
    if |q| >= 5 then q[1..|q| - 1] else q
  }

  /** `r` is the greatest integer that is at most `numerator / denominator`. */
  predicate IsFloor(r: int, numerator: int, denominator: int) {
    r * denominator <= numerator < r * denominator + denominator
  }

  lemma DivisionIsFloor(n: int, d: int)
    requires d > 0
    ensures IsFloor(n / d, n, d)
  {
    assert n == n / d * d + n % d;
  }

  lemma TrimmedIsCounting(spends: seq<int>) returns (q: seq<int>)
    ensures Ascending(q, spends) && Trimmed(spends) == Counting(q)
  {
    q := Sort(IntLeq, spends);
    IntOrder();
    SortSorts(IntLeq, spends);
    SortKeepsElements(IntLeq, spends);
    assert |multiset(q)| == |q| && |multiset(spends)| == |spends|;
  }

  /** How many peers a report needs: of the target itself, to be scored at all, and to be acted on. */
  lemma StatusIs(c: Config, target: Observation, xs: seq<Observation>)
    requires Evaluate(c, target, xs).Ok?
    ensures var r, n := Evaluate(c, target, xs).value, |PeerSpends(c, target, xs)|;
            && r.siblingCount == n && r.targetCount == target.count
            && (r.status.InsufficientTargetObservations? <==> target.count < c.targetMinimum)
            && (r.status.Scored? <==> target.count >= c.targetMinimum && n >= c.siblingScoring)
            && (r.eligible <==> r.status.Scored? && n >= c.siblingIntervention)
            && (r.wouldSignal <==> r.eligible && (SiblingDiverges in r.signals || ClassPriorExceeded in r.signals))
            && (r.wouldSignalTarget <==> SiblingDiverges in r.signals || ClassPriorExceeded in r.signals)
            && (r.cohortShift <==> CorrelatedCohortShift in r.signals) && (r.wouldEmitAny <==> r.signals != [])
            && (!r.status.Scored? ==>
                  r.baseline == c.prior && SiblingDiverges !in r.signals && CorrelatedCohortShift !in r.signals)
            && (r.status.InsufficientTargetObservations? ==> r.signals == [])
            && (!r.status.InsufficientTargetObservations? ==>
                  (ClassPriorExceeded in r.signals <==> 10_000 * target.spend >= c.threshold * c.prior))
  {
    SpendsArePeers(c, target, xs);
  }

  /**
    A scored report on `n` peers whose `k` counting spends sum to `sum`: their mean, the baseline that weighs it by the
    number of peers against the class prior weighed by the confidence, and each signal by exact comparison.
   */
  predicate ScoredAs(r: Report, c: Config, target: Observation, n: nat, k: nat, sum: int) {
    var weighted, weight := n * sum + c.confidence * c.prior * k, (n + c.confidence) * k;
    && r.aggregate == (if n >= 5 then TrimmedMean else Mean) && IsFloor(r.aggregateSpend, sum, k)
    && IsFloor(r.baseline, weighted, weight) && IsFloor(r.weightBps, n * 10_000, n + c.confidence)
    && (SiblingDiverges in r.signals <==> target.spend * weight * 10_000 >= c.threshold * weighted)
    && (CorrelatedCohortShift in r.signals <==> sum * 10_000 >= c.threshold * (c.prior * k))
  }

  lemma ScoreIsScored(c: Config, target: Observation, spends: seq<int>)
    requires ConfigError(c).None? && target.spend >= 0 && |spends| >= 1 && NonNegative(spends)
    ensures ScoredAs(Score(c, target, spends), c, target, |spends|, |Trimmed(spends)|, Sum(Trimmed(spends)))
  {
    Positivity(c, spends);
    DivisionIsFloor(Sum(Trimmed(spends)), |Trimmed(spends)|);
    DivisionIsFloor(Numerator(c, spends), Denominator(c, spends));
    DivisionIsFloor(|spends| * 10_000, |spends| + c.confidence);
  }

  /** A scored report is about the peers' spends in ascending order, of which from five on the ends do not count. */
  lemma ScoreIs(c: Config, target: Observation, xs: seq<Observation>) returns (q: seq<int>)
    requires Evaluate(c, target, xs).Ok? && Evaluate(c, target, xs).value.status.Scored?
    ensures Ascending(q, PeerSpends(c, target, xs)) && q != []
    ensures ScoredAs(Evaluate(c, target, xs).value, c, target, |q|, |Counting(q)|, Sum(Counting(q)))
  {
    EvaluateScores(c, target, xs);
    q := TrimmedIsCounting(PeerSpends(c, target, xs));
    ScoreIsScored(c, target, PeerSpends(c, target, xs));
  }

  lemma EvaluateScores(c: Config, target: Observation, xs: seq<Observation>)
    requires Evaluate(c, target, xs).Ok? && Evaluate(c, target, xs).value.status.Scored?
    ensures ConfigError(c).None? && target.spend >= 0
    ensures |PeerSpends(c, target, xs)| >= 1 && NonNegative(PeerSpends(c, target, xs))
    ensures Evaluate(c, target, xs) == Ok(Score(c, target, PeerSpends(c, target, xs)))
  {
    SpendsArePeers(c, target, xs);
    SpendsAreValid(c, target, xs);
  }

  // ----- what pulls the baseline -----

  /** A weighted sum times a denominator, gathered by its common factors. */
  lemma Gather(m: int, s: int, conf: int, p: int, k: int, x: int, d: int)
    ensures (m * s + conf * p * k) * (x * d) == x * (m * (s * d) + conf * (p * (k * d)))
  {
    assert (m * s + conf * p * k) * (x * d) == x * ((m * s + conf * p * k) * d);
    assert (m * s + conf * p * k) * d == m * s * d + conf * p * k * d;
    assert m * s * d == m * (s * d) && conf * p * k * d == conf * (p * (k * d));
  }

  lemma Cross(n: int, m: int, conf: int, mean: int, prior: int)
    ensures (n + conf) * (m * mean + conf * prior) - (m + conf) * (n * mean + conf * prior)
            == conf * (m - n) * (mean - prior)
  {
    assert (n + conf) * (m * mean + conf * prior)
        == n * m * mean + n * (conf * prior) + conf * (m * mean) + conf * (conf * prior);
    assert (m + conf) * (n * mean + conf * prior)
        == n * m * mean + m * (conf * prior) + conf * (n * mean) + conf * (conf * prior);
    assert conf * (m - n) * (mean - prior)
        == conf * (m * mean) - conf * (n * mean) - m * (conf * prior) + n * (conf * prior);
  }

  lemma SiblingsPull(n: int, m: int, s: int, k: int, s': int, k': int, conf: int, p: int)
    requires s * k' == s' * k
    ensures (m * s' + conf * p * k') * ((n + conf) * k) - (n * s + conf * p * k) * ((m + conf) * k')
            == conf * (m - n) * (s * k' - p * (k * k'))
  {
    Gather(m, s', conf, p, k', n + conf, k);
    Gather(n, s, conf, p, k, m + conf, k');
    Cross(n, m, conf, s * k', p * (k * k'));
  }

  /**
    More siblings with the same mean pull the baseline towards the mean: up when the mean is above the prior, down when
    it is below.
   */
  lemma MoreSiblingsPullToMean(c: Config, target: Observation, few: seq<int>, many: seq<int>)
    requires ConfigError(c).None? && target.spend >= 0 && NonNegative(few) && NonNegative(many)
    requires 1 <= |few| <= |many|
    requires Sum(Trimmed(few)) * |Trimmed(many)| == Sum(Trimmed(many)) * |Trimmed(few)|
    ensures var a, b := Score(c, target, few).baseline, Score(c, target, many).baseline;
            && (Sum(Trimmed(few)) >= c.prior * |Trimmed(few)| ==> a <= b)
            && (Sum(Trimmed(few)) <= c.prior * |Trimmed(few)| ==> b <= a)
  {
    var s, k, s', k' := Sum(Trimmed(few)), |Trimmed(few)|, Sum(Trimmed(many)), |Trimmed(many)|;
    Positivity(c, few);
    Positivity(c, many);
    SiblingsPull(|few|, |many|, s, k, s', k', c.confidence, c.prior);
    PullIsSigned(c.confidence, |many| - |few|, s, k, k', c.prior);
    var num, den, num', den' := Numerator(c, few), Denominator(c, few), Numerator(c, many), Denominator(c, many);
    if s >= c.prior * k {
      FloorAtMost(num, den, num', den');
    }
    if s <= c.prior * k {
      FloorAtMost(num', den', num, den);
    }
  }

  lemma PullIsSigned(conf: int, more: int, s: int, k: int, k': int, p: int)
    requires conf >= 0 && more >= 0 && k' >= 0
    ensures s >= p * k ==> conf * more * (s * k' - p * (k * k')) >= 0
    ensures s <= p * k ==> conf * more * (s * k' - p * (k * k')) <= 0
  {
    assert s * k' - p * (k * k') == (s - p * k) * k';
    Product(conf, more);
    if s >= p * k {
      Product(s - p * k, k');
      Product(conf * more, (s - p * k) * k');
    }
    if s <= p * k {
      Product(p * k - s, k');
      Product(conf * more, (p * k - s) * k');
      assert (s - p * k) * k' == -((p * k - s) * k');
      assert conf * more * -((p * k - s) * k') == -(conf * more * ((p * k - s) * k'));
    }
  }

  lemma CrossConfidence(n: int, conf: int, more: int, mean: int, prior: int)
    ensures (n + more) * (n * mean + conf * prior) - (n + conf) * (n * mean + more * prior)
            == n * (more - conf) * (mean - prior)
  {
    assert (n + more) * (n * mean + conf * prior)
        == n * (n * mean) + n * (conf * prior) + more * (n * mean) + more * (conf * prior);
    assert (n + conf) * (n * mean + more * prior)
        == n * (n * mean) + n * (more * prior) + conf * (n * mean) + conf * (more * prior);
    assert n * (more - conf) * (mean - prior)
        == more * (n * mean) - conf * (n * mean) - n * (more * prior) + n * (conf * prior);
  }

  lemma ConfidencePulls(n: int, s: int, k: int, conf: int, more: int, p: int)
    ensures (n * s + conf * p * k) * ((n + more) * k) - (n * s + more * p * k) * ((n + conf) * k)
            == n * (more - conf) * (s * k - p * (k * k))
  {
    Gather(n, s, conf, p, k, n + more, k);
    Gather(n, s, more, p, k, n + conf, k);
    CrossConfidence(n, conf, more, s * k, p * (k * k));
  }

  /** More confidence in the prior pulls the baseline towards it. */
  lemma MoreConfidencePullsToPrior(c: Config, target: Observation, spends: seq<int>, more: int)
    requires ConfigError(c).None? && c.confidence <= more <= MAX_SAFE_INTEGER
    requires target.spend >= 0 && |spends| >= 1 && NonNegative(spends)
    ensures ConfigError(c.(confidence := more)).None?
    ensures var a, b := Score(c, target, spends).baseline, Score(c.(confidence := more), target, spends).baseline;
            && (Sum(Trimmed(spends)) >= c.prior * |Trimmed(spends)| ==> b <= a)
            && (Sum(Trimmed(spends)) <= c.prior * |Trimmed(spends)| ==> a <= b)
  {
    var d := c.(confidence := more);
    var n, s, k := |spends|, Sum(Trimmed(spends)), |Trimmed(spends)|;
    Positivity(c, spends);
    Positivity(d, spends);
    ConfidencePulls(n, s, k, c.confidence, more, c.prior);
    PullIsSigned(n, more - c.confidence, s, k, k, c.prior);
    var num, den := Numerator(c, spends), Denominator(c, spends);
    var num', den' := Numerator(d, spends), Denominator(d, spends);
    if s >= c.prior * k {
      FloorAtMost(num', den', num, den);
    }
    if s <= c.prior * k {
      FloorAtMost(num, den, num', den');
    }
  }
}
