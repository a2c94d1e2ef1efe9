/**
  Which releases agree. Once a completion has been released, later releases of the request answer the same
  completion in every continuation exactly when no other call for the request is still waiting on an open circuit.
 */
module ReleaseAgreement {
  import opened Results
  import opened Service
  import C = Circuit
  import L = Ledger
  import P = Pricing

  /** The request has been released, with completion `c`. */
  predicate Answered(s: State, id: string, c: Completion) {
    id in s.pending && s.pending[id].released == Some(c)
  }

  /** A call for the request waits for the provider, and its circuit would still judge it. */
  predicate Live(s: State, id: string, call: nat) {
    && call in s.inFlight && s.inFlight[call].requestId == id
    && s.inFlight[call].childId in s.circuits
    && !s.circuits[s.inFlight[call].childId].state.status.Tripped?
  }

  /** The prices parse, as they must for any call to have been admitted. */
  predicate Priced(s: State) {
    P.Cost(0, 0, s.price).Ok?
  }

  /** In every continuation, whatever its steps, each release of the request answers `c`. */
  ghost predicate AlwaysAnswers(s: State, id: string, c: Completion) {
    forall steps: seq<Step>, i: nat :: ReleaseAt(steps, i, id) ==> Run(s, steps).1[i] == Released(c)
  }

  predicate ReleaseAt(steps: seq<Step>, i: nat, id: string) {
    i < |steps| && steps[i].Release? && steps[i].requestId == id
  }

  // ----- without a live call nothing changes the answer -----

  ghost predicate Settled(s: State, id: string, c: Completion) {
    Answered(s, id, c) && forall call :: !Live(s, id, call)
  }

  lemma FinishStaysSettled(s: State, call: nat, result: ProviderResult, cost: Result<nat>, id: string, c: Completion)
    requires Settled(s, id, c) && call in s.inFlight
    ensures Settled(FinishPriced(s, call, result, cost).0, id, c)
  {
    var t := FinishPriced(s, call, result, cost).0;
    assert !Live(s, id, call);
    forall k ensures !Live(t, id, k) {
      assert !Live(s, id, k);
    }
  }

  lemma StepStaysSettled(s: State, step: Step, id: string, c: Completion)
    requires Settled(s, id, c)
    ensures Settled(Apply(s, step).0, id, c)
    ensures step.Release? && step.requestId == id ==> Apply(s, step).1 == Released(c)
  {
    var t := Apply(s, step).0;
    match step
    case Begin(call, request) =>
      forall k ensures !Live(t, id, k) {
        assert !Live(s, id, k);
      }
    case Finish(call, result) =>
      if call in s.inFlight {
        FinishStaysSettled(s, call, result, P.Cost(result.inputTokens, result.outputTokens, s.price), id, c);
      }
    case ProviderFails(call) =>
      forall k ensures !Live(t, id, k) {
        assert !Live(s, id, k);
      }
    case Release(other, hash) =>
      forall k ensures !Live(t, id, k) {
        assert !Live(s, id, k);
      }
    case Restart =>
      forall k ensures !Live(t, id, k) {
        assert !Live(s, id, k);
      }
  }

  lemma LastReply(s: State, steps: seq<Step>)
    requires steps != []
    ensures var front, last := steps[..|steps| - 1], steps[|steps| - 1];
            && Run(s, steps).0 == Apply(Run(s, front).0, last).0
            && Run(s, steps).1 == Run(s, front).1 + [Apply(Run(s, front).0, last).1]
  {
  }

  lemma {:induction false} RunStaysSettled(s: State, steps: seq<Step>, id: string, c: Completion)
    requires Settled(s, id, c)
    ensures Settled(Run(s, steps).0, id, c)
    ensures forall i: nat :: ReleaseAt(steps, i, id) ==> Run(s, steps).1[i] == Released(c)
    decreases |steps|
  {
    if steps != [] {
      var front := steps[..|steps| - 1];
      RunStaysSettled(s, front, id, c);
      StepStaysSettled(Run(s, front).0, steps[|steps| - 1], id, c);
      LastReply(s, steps);
      forall i: nat | ReleaseAt(steps, i, id) ensures Run(s, steps).1[i] == Released(c) {
        if i < |front| {
          assert ReleaseAt(front, i, id);
        } else {
          assert i == |front|;
        }
      }
    }
  }

  // ----- a live call can change it, in every state -----

  /** The held completion is replaced by the one of the call that finishes, which has not been released. */
  lemma LiveCallReplaces(s: State, id: string, call: nat, result: ProviderResult)
    requires Live(s, id, call) && P.Cost(result.inputTokens, result.outputTokens, s.price).Ok?
    ensures var (t, reply) := Apply(s, Finish(call, result));
            && reply.Quoted? && t.ledger == s.ledger && t.payerWallet == s.payerWallet
            && id in t.pending && t.pending[id].released.None? && t.pending[id].result == result
            && t.pending[id].request == s.inFlight[call]
            && Ok(t.pending[id].exactCost) == P.Cost(result.inputTokens, result.outputTokens, s.price)
  {
  }

  lemma FreshReleaseHasItsHash(t: State, id: string, hash: string)
    requires id in t.pending && t.pending[id].released.None?
    ensures var reply := ReleasePaid(t, id, hash).1;
            reply.Released? ==>
              reply.completion.receipt.authorizationHash == hash && reply.completion.response == t.pending[id].result
  {
  }

  lemma TwoSteps(s: State, first: Step, second: Step)
    ensures Run(s, [first, second]).1 == [Apply(s, first).1, Apply(Apply(s, first).0, second).1]
  {
    assert [first, second][..1] == [first] && [first][..0] == [];
    assert Run(s, []) == (s, []);
    assert Run(s, [first]) == (Apply(s, first).0, [] + [Apply(s, first).1]);
  }

  lemma LiveCallChangesAnswer(s: State, id: string, call: nat, c: Completion)
    requires Live(s, id, call) && Priced(s)
    ensures !AlwaysAnswers(s, id, c)
  {
    var result := ProviderResult("", 0, 0);
    var hash := c.receipt.authorizationHash + "x";
    var steps := [Finish(call, result), Release(id, hash)];
    LiveCallReplaces(s, id, call, result);
    var t := Apply(s, steps[0]).0;
    FreshReleaseHasItsHash(t, id, hash);
    TwoSteps(s, steps[0], steps[1]);
    assert |hash| != |c.receipt.authorizationHash|;
    assert ReleaseAt(steps, 1, id) && Run(s, steps).1[1] != Released(c);
  }

  /**
    In any state with parsing prices in which the request has been released: all later releases answer the same
    completion, in every continuation, exactly when no call for the request waits on an open circuit.
   */
  lemma AnswersStayIff(s: State, id: string, c: Completion)
    requires Answered(s, id, c) && Priced(s)
    ensures AlwaysAnswers(s, id, c) <==> forall call :: !Live(s, id, call)
  {
    if forall call :: !Live(s, id, call) {
      forall steps: seq<Step>, i: nat | ReleaseAt(steps, i, id) ensures Run(s, steps).1[i] == Released(c) {
        RunStaysSettled(s, steps, id, c);
      }
    } else {
      var call :| Live(s, id, call);
      LiveCallChangesAnswer(s, id, call, c);
    }
  }

  // ----- every reachable state -----

  ghost predicate HeldMeansPriced(s: State) {
    s.pending != map[] ==> Priced(s)
  }

  lemma CostMeansPriced(input: int, output: int, price: P.TokenPrice)
    requires P.Cost(input, output, price).Ok?
    ensures P.Cost(0, 0, price).Ok?
  {
    P.CostMonotone(0, 0, input, output, price);
  }

  lemma StepMeansPriced(s: State, step: Step)
    requires HeldMeansPriced(s)
    ensures HeldMeansPriced(Apply(s, step).0) && Apply(s, step).0.price == s.price
  {
    if step.Finish? && step.call in s.inFlight {
      var cost := P.Cost(step.result.inputTokens, step.result.outputTokens, s.price);
      if cost.Ok? {
        CostMeansPriced(step.result.inputTokens, step.result.outputTokens, s.price);
      }
    }
  }

  lemma {:induction false} RunMeansPriced(s: State, steps: seq<Step>)
    requires HeldMeansPriced(s)
    ensures HeldMeansPriced(Run(s, steps).0)
    decreases |steps|
  {
    if steps != [] {
      RunMeansPriced(s, steps[..|steps| - 1]);
      StepMeansPriced(Run(s, steps[..|steps| - 1]).0, steps[|steps| - 1]);
    }
  }

  /** The condition, in every state that any run reaches from an idle service. */
  lemma ReachableAnswersStayIff(s: State, steps: seq<Step>, id: string, c: Completion)
    requires Idle(s) && Answered(Run(s, steps).0, id, c)
    ensures AlwaysAnswers(Run(s, steps).0, id, c) <==> forall call :: !Live(Run(s, steps).0, id, call)
  {
    RunMeansPriced(s, steps);
    AnswersStayIff(Run(s, steps).0, id, c);
  }

  /**
    What a duplicate does, in every reachable state: after any live call for a released request finishes, the next
    release answers that call's response when it cost exactly what was settled, and throws otherwise.
   */
  lemma DuplicateOverwrites(s: State, replies: seq<Reply>, id: string, c: Completion, call: nat, result: ProviderResult,
                            hash: string)
    requires Inv(s, replies) && Answered(s, id, c) && Live(s, id, call)
    requires P.Cost(result.inputTokens, result.outputTokens, s.price).Ok?
    ensures var cost := P.Cost(result.inputTokens, result.outputTokens, s.price).value;
            var again := ReleasePaid(Apply(s, Finish(call, result)).0, id, hash).1;
            && id in s.ledger.reservations
            && (if s.ledger.reservations[id].actual == Some(cost)
                then again.Released? && again.completion.response == result
                && again.completion.receipt.authorizationHash == hash
                else again == Threw("IDEMPOTENCY_CONFLICT"))
  {
    Facts(s, replies, id);
    LiveCallReplaces(s, id, call, result);
    var t := Apply(s, Finish(call, result)).0;
    FreshReleaseHasItsHash(t, id, hash);
    assert Settles(s.ledger, c.receipt) && c.receipt.requestId == id;
    assert Backed(s.ledger, s.inFlight[call]);
    assert L.Registered(s.ledger, id);
  }
}
