/** The branch circuit: it trips on one call over the ceiling, or on two cost spikes in a row. */
module Circuit {
  import opened Results

  datatype Status = Healthy | Elevated | Tripped

  datatype Reason = Allowed | AbsoluteCallLimit | RepeatedCostAcceleration

  datatype Config = Config(perCallCeiling: int, minimumSpikeDelta: int)

  datatype State = State(status: Status, previous: Option<int>, violations: nat)

  datatype Verdict = Verdict(status: Status, trip: bool, reason: Reason, cost: int, baseline: Option<int>,
                             violations: nat)

  const FRESH: State := State(Healthy, None, 0)

  predicate Spike(config: Config, baseline: int, cost: int) {
    && cost >= baseline * 4
    && cost - baseline >= config.minimumSpikeDelta
  }

  predicate SpikesAfter(config: Config, s: State, cost: int) {
    s.previous.Some? && Spike(config, s.previous.value, cost)
  }

  /** The state after evaluating one call, with the verdict or the error thrown. */
  function Evaluate(config: Config, s: State, cost: int): (State, Result<Verdict>) {
    if s.status.Tripped? then
      (s, Err("BRANCH_TRIPPED"))
    else if cost > config.perCallCeiling then
      var t := s.(status := Tripped);
      (t, Ok(Verdict(Tripped, true, AbsoluteCallLimit, cost, s.previous, s.violations)))
    else
      var violations := if SpikesAfter(config, s, cost) then s.violations + 1 else 0;
      var status := if violations == 0 then Healthy else if violations >= 2 then Tripped else Elevated;
      var reason := if status.Tripped? then RepeatedCostAcceleration else Allowed;
      // an absent baseline falls back to the just-recorded cost
      var baseline := if s.previous.Some? then s.previous else Some(cost);
      (State(status, Some(cost), violations), Ok(Verdict(status, status.Tripped?, reason, cost, baseline, violations)))
  }

  function EvaluateAll(config: Config, costs: seq<int>): State {
    if costs == [] then FRESH
    else Evaluate(config, EvaluateAll(config, costs[..|costs| - 1]), costs[|costs| - 1]).0
  }

  /** Call `i` costs at least four times the call before it, and at least the configured amount more. */
  predicate Leaps(config: Config, costs: seq<int>, i: int)
    requires 0 <= i < |costs|
  {
    i >= 1 && costs[i] >= 4 * costs[i - 1] && costs[i] >= costs[i - 1] + config.minimumSpikeDelta
  }

  /** Call `i` breaks the ceiling, or calls `i - 1` and `i` both leap. */
  predicate TripsAt(config: Config, costs: seq<int>, i: int)
    requires 0 <= i < |costs|
  {
    costs[i] > config.perCallCeiling || (i >= 2 && Leaps(config, costs, i - 1) && Leaps(config, costs, i))
  }

  /** A fresh circuit is tripped exactly when some call in its whole history tripped it. */
  lemma {:induction false} TrippedIff(config: Config, costs: seq<int>)
    ensures EvaluateAll(config, costs).status.Tripped? <==> exists i :: 0 <= i < |costs| && TripsAt(config, costs, i)
    ensures !EvaluateAll(config, costs).status.Tripped? ==>
              var s := EvaluateAll(config, costs);
              && s.previous == (if costs == [] then None else Some(costs[|costs| - 1]))
              && s.violations == (if costs != [] && Leaps(config, costs, |costs| - 1) then 1 else 0)
              && (s.status.Elevated? <==> s.violations == 1)
  {
    if costs != [] {
      var n := |costs| - 1;
      var front := costs[..n];
      TrippedIff(config, front);
      assert forall i :: 0 <= i < n ==> TripsAt(config, front, i) == TripsAt(config, costs, i);
      if n >= 2 {
        assert front[n - 2] == costs[n - 2] && front[n - 1] == costs[n - 1];
      }
      var before := EvaluateAll(config, front);
      if before.status.Tripped? {
        var i :| 0 <= i < n && TripsAt(config, front, i);
        assert TripsAt(config, costs, i);
      } else {
        assert EvaluateAll(config, costs).status.Tripped? <==> TripsAt(config, costs, n);
      }
    }
  }

  /**
    What a circuit that has not tripped before answers on the next call of its history: it says how it stands after
    the call, that it trips exactly when the call breaks the ceiling or is the second leap in a row, and which of the
    two it was; the cost, the cost it was compared with, and how many leaps in a row it has seen.
   */
  lemma VerdictIs(config: Config, costs: seq<int>)
    requires costs != [] && forall i :: 0 <= i < |costs| - 1 ==> !TripsAt(config, costs, i)
    ensures var n := |costs| - 1;
            var (t, r) := Evaluate(config, EvaluateAll(config, costs[..n]), costs[n]);
            var over, leaps := costs[n] > config.perCallCeiling, Leaps(config, costs, n);
            && t == EvaluateAll(config, costs) && r.Ok?
            && var v := r.value;
            && v.status == t.status
            && (v.status.Tripped? <==> TripsAt(config, costs, n)) && (v.status.Elevated? <==> leaps && !v.trip)
            && (v.trip <==> TripsAt(config, costs, n))
            && v.reason == (if over then AbsoluteCallLimit else if v.trip then RepeatedCostAcceleration else Allowed)
            && v.cost == costs[n]
            && v.baseline == (if n > 0 then Some(costs[n - 1]) else if over then None else Some(costs[n]))
            && v.violations == (if over then (if n > 0 && Leaps(config, costs, n - 1) then 1 else 0)
                                else if !leaps then 0 else if v.trip then 2 else 1)
  {
    var n := |costs| - 1;
    var front := costs[..n];
    TrippedIff(config, front);
    TrippedIff(config, costs);
    forall i | 0 <= i < n ensures !TripsAt(config, front, i) {
      assert TripsAt(config, front, i) == TripsAt(config, costs, i);
    }
    if n > 0 {
      assert front[n - 1] == costs[n - 1] && Leaps(config, front, n - 1) == Leaps(config, costs, n - 1);
    }
  }

  /** Once tripped, a circuit never leaves that state and refuses every further call. */
  lemma TrippedAbsorbs(config: Config, s: State, cost: int)
    requires s.status.Tripped?
    ensures Evaluate(config, s, cost) == (s, Err("BRANCH_TRIPPED"))
  {
  }

  class BranchCircuit {
    const config: Config
    var status: Status
    var previous: Option<int>
    var violations: nat

    function View(): State
      reads this
    {
      State(status, previous, violations)
    }

    constructor (config: Config)
      ensures this.config == config && View() == FRESH
    {
      this.config := config;
      status, previous, violations := Healthy, None, 0;
    }

    constructor FromState(config: Config, s: State)
      ensures this.config == config && View() == s
    {
      this.config := config;
      status, previous, violations := s.status, s.previous, s.violations;
    }

    method EvaluateCall(cost: int) returns (r: Result<Verdict>)
      modifies this
      ensures (View(), r) == Evaluate(config, old(View()), cost)
    {
      if status.Tripped? {
        return Err("BRANCH_TRIPPED");
      }
      if cost > config.perCallCeiling {
        status := Tripped;
        return Ok(Verdict(status, true, AbsoluteCallLimit, cost, previous, violations));
      }
      var baseline := previous;
      if baseline.Some? && cost >= baseline.value * 4 && cost - baseline.value >= config.minimumSpikeDelta {
        violations := violations + 1;
        status := if violations >= 2 then Tripped else Elevated;
      } else {
        violations := 0;
        status := Healthy;
      }
      previous := Some(cost);
      var reported := if baseline.Some? then baseline else previous;
      r := Ok(Verdict(status, status.Tripped?, if status.Tripped? then RepeatedCostAcceleration else Allowed,
                      cost, reported, violations));
    }

    method AssertOpen() returns (r: Result<()>)
      ensures r.Err? <==> status.Tripped?
      ensures r.Err? ==> r.code == "BRANCH_TRIPPED"
    {
      r := if status.Tripped? then Err("BRANCH_TRIPPED") else Ok(());
    }
  }
}
