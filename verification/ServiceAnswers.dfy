/**
  What the service answers, from the first call for a request to its receipt: when a call is let through, what it is
  quoted, and that the receipt is about the very response that was quoted, judged and settled.
 */
module ServiceAnswers {
  import opened Results
  import opened Service
  import A = LedgerAnswers
  import C = Circuit
  import L = Ledger
  import P = Pricing

  // ----- letting a call through -----

  /** The ledger reserves: a new id that fits beside what is drawn, or the same reservation again. */
  ghost predicate Reservable(ledger: L.State, request: Request, maximum: int) {
    if request.requestId in ledger.reservations then
      var held := ledger.reservations[request.requestId];
      held.childId == request.childId && held.maximum == maximum
    else
      && request.childId in ledger.children && maximum > 0
      && A.Drawn(ledger, request.childId) + maximum <= ledger.children[request.childId].authorized
      && A.DrawnByAll(ledger) + maximum <= ledger.root.authorized
  }

  /**
    In every reachable state, a call for a request without a held completion goes to the provider exactly when its
    branch is open, its worst case has a price, and the ledger can reserve that; with a held completion it is quoted
    that completion's cost again.
   */
  lemma BeginAnswers(s: State, replies: seq<Reply>, call: nat, request: Request)
    requires Inv(s, replies) && call !in s.inFlight
    ensures var reply := Apply(s, Begin(call, request)).1;
            var worst := P.Cost(request.inputTokens, request.maxOutputTokens, s.price);
            if request.requestId in s.pending then reply == Quoted(s.pending[request.requestId].exactCost)
            else
              && (reply == Awaiting <==>
                    && request.childId in s.circuits && !s.circuits[request.childId].state.status.Tripped?
                    && worst.Ok? && Reservable(s.ledger, request, worst.value))
              && (reply != Awaiting ==> reply.Threw?)
  {
    var worst := P.Cost(request.inputTokens, request.maxOutputTokens, s.price);
    if worst.Ok? {
      if request.requestId in s.ledger.reservations {
        A.RepeatedReserveAnswers(s.ledger, request.childId, worst.value, request.requestId);
      } else {
        A.ReserveAnswers(s.ledger, request.childId, worst.value, request.requestId);
      }
    }
  }

  /** A provider's answer is quoted at the cost of its usage exactly when that has a price and the branch is open. */
  lemma FinishAnswers(s: State, call: nat, result: ProviderResult)
    requires call in s.inFlight
    ensures var c := s.inFlight[call].childId;
            var cost := P.Cost(result.inputTokens, result.outputTokens, s.price);
            var reply := Apply(s, Finish(call, result)).1;
            if cost.Ok? && c in s.circuits && !s.circuits[c].state.status.Tripped? then reply == Quoted(cost.value)
            else reply.Threw?
  {
  }

  // ----- where a held completion comes from -----

  /** Step `i` of the run was the provider's answer that `p` holds: quoted at its cost, and judged by the branch. */
  ghost predicate FinishedAt(s: State, steps: seq<Step>, i: nat, id: string, p: Pending)
    requires i < |steps|
  {
    && steps[i].Finish?
    && var before := Run(s, steps[..i]).0;
    && var (after, reply) := Apply(before, steps[i]);
    && steps[i].call in before.inFlight && before.inFlight[steps[i].call] == p.request && p.request.requestId == id
    && steps[i].result == p.result
    && reply == Quoted(p.exactCost) && P.Cost(p.result.inputTokens, p.result.outputTokens, s.price) == Ok(p.exactCost)
    && JudgedAs(before, after, p)
  }

  /** The verdict is the branch's own on that cost, and says how the branch stands afterwards. */
  predicate JudgedAs(before: State, after: State, p: Pending) {
    var c := p.request.childId;
    && c in before.circuits && c in after.circuits && !before.circuits[c].state.status.Tripped?
    && C.Evaluate(before.circuits[c].config, before.circuits[c].state, p.exactCost)
       == (after.circuits[c].state, Ok(p.circuit))
    && p.circuit.status == after.circuits[c].state.status
  }

  ghost predicate Stems(s: State, steps: seq<Step>, id: string, p: Pending) {
    exists i: nat :: i < |steps| && FinishedAt(s, steps, i, id, p.(released := None))
  }

  /** A released completion states what is held. */
  predicate States(payerWallet: string, id: string, p: Pending, c: Completion) {
    && c.response == p.result
    && c.receipt.requestId == id && c.receipt.childId == p.request.childId && c.receipt.payerWallet == payerWallet
    && c.receipt.inputTokens == p.result.inputTokens && c.receipt.outputTokens == p.result.outputTokens
    && c.receipt.costUsdc == P.MicrosToUsdc(p.exactCost)
    && c.receipt.circuitState == p.circuit.status && c.receipt.circuitReason == p.circuit.reason
  }

  ghost predicate Traced(s: State, steps: seq<Step>, t: State, id: string)
    requires id in t.pending
  {
    && Stems(s, steps, id, t.pending[id])
    && (t.pending[id].released.Some? ==> States(s.payerWallet, id, t.pending[id], t.pending[id].released.value))
  }

  /** Same prices and wallet, and every held completion is traced to the step that brought it. */
  ghost predicate History(s: State, steps: seq<Step>) {
    var t := Run(s, steps).0;
    && t.price == s.price && t.payerWallet == s.payerWallet
    && forall id {:trigger Traced(s, steps, t, id)} :: id in t.pending ==> Traced(s, steps, t, id)
  }

  lemma StemsLater(s: State, steps: seq<Step>, last: Step, id: string, p: Pending)
    requires Stems(s, steps, id, p)
    ensures Stems(s, steps + [last], id, p)
  {
    var i: nat :| i < |steps| && FinishedAt(s, steps, i, id, p.(released := None));
    assert (steps + [last])[..i] == steps[..i] && (steps + [last])[i] == steps[i];
    assert FinishedAt(s, steps + [last], i, id, p.(released := None));
  }

  lemma RunLast(s: State, steps: seq<Step>, last: Step)
    ensures Run(s, steps + [last]).0 == Apply(Run(s, steps).0, last).0
    ensures Run(s, steps + [last]).1 == Run(s, steps).1 + [Apply(Run(s, steps).0, last).1]
  {
    assert (steps + [last])[..|steps|] == steps;
  }

  /** What a step does to one held completion: nothing, releasing it, or replacing it by a provider's answer. */
  lemma StepOnPending(s: State, step: Step, id: string)
    requires id in Apply(s, step).0.pending
    ensures var (t, reply) := Apply(s, step);
            && t.price == s.price && t.payerWallet == s.payerWallet
            && (|| (id in s.pending && t.pending[id] == s.pending[id])
                || (step.Release? && id in s.pending && s.pending[id].released.None? && t.pending[id].released.Some?
                    && t.pending[id].(released := None) == s.pending[id]
                    && States(s.payerWallet, id, s.pending[id], t.pending[id].released.value))
                || (step.Finish? && step.call in s.inFlight && s.inFlight[step.call] == t.pending[id].request
                    && t.pending[id].request.requestId == id && t.pending[id].result == step.result
                    && t.pending[id].released.None? && reply == Quoted(t.pending[id].exactCost)
                    && P.Cost(step.result.inputTokens, step.result.outputTokens, s.price) == Ok(t.pending[id].exactCost)
                    && JudgedAs(s, t, t.pending[id])))
  {
    match step
    case Begin(call, request) =>
    case Finish(call, result) =>
      if call in s.inFlight {
        FinishOnPending(s, call, result, P.Cost(result.inputTokens, result.outputTokens, s.price), id);
      }
    case ProviderFails(call) =>
    case Release(requestId, hash) => ReleaseOnPending(s, requestId, hash, id);
    case Restart =>
  }

  lemma FinishOnPending(s: State, call: nat, result: ProviderResult, cost: Result<nat>, id: string)
    requires call in s.inFlight && id in FinishPriced(s, call, result, cost).0.pending
    ensures var (t, reply) := FinishPriced(s, call, result, cost);
            && t.price == s.price && t.payerWallet == s.payerWallet
            && (|| (id in s.pending && t.pending[id] == s.pending[id])
                || (&& s.inFlight[call] == t.pending[id].request && t.pending[id].request.requestId == id
                    && t.pending[id].result == result && t.pending[id].released.None?
                    && reply == Quoted(t.pending[id].exactCost) && cost == Ok(t.pending[id].exactCost)
                    && JudgedAs(s, t, t.pending[id])))
  {
  }

  lemma ReleaseOnPending(s: State, requestId: string, hash: string, id: string)
    requires id in ReleasePaid(s, requestId, hash).0.pending
    ensures var t := ReleasePaid(s, requestId, hash).0;
            && t.price == s.price && t.payerWallet == s.payerWallet && id in s.pending
            && (|| t.pending[id] == s.pending[id]
                || (&& s.pending[id].released.None? && t.pending[id].released.Some?
                    && t.pending[id].(released := None) == s.pending[id]
                    && States(s.payerWallet, id, s.pending[id], t.pending[id].released.value)))
  {
  }

  lemma {:induction false} RunKeepsHistory(s: State, steps: seq<Step>)
    requires Idle(s)
    ensures History(s, steps)
    decreases |steps|
  {
    if steps != [] {
      var front, last := steps[..|steps| - 1], steps[|steps| - 1];
      assert steps == front + [last];
      RunKeepsHistory(s, front);
      RunLast(s, front, last);
      var before, t := Run(s, front).0, Run(s, steps).0;
      forall id | id in t.pending ensures Traced(s, steps, t, id) {
        TraceStep(s, front, last, id);
      }
      SamePrices(before, last);
    }
  }

  lemma SamePrices(s: State, step: Step)
    ensures Apply(s, step).0.price == s.price && Apply(s, step).0.payerWallet == s.payerWallet
  {
  }

  lemma TraceStep(s: State, front: seq<Step>, last: Step, id: string)
    requires History(s, front) && id in Run(s, front + [last]).0.pending
    ensures Traced(s, front + [last], Run(s, front + [last]).0, id)
  {
    var before, steps := Run(s, front).0, front + [last];
    RunLast(s, front, last);
    var t := Run(s, steps).0;
    StepOnPending(before, last, id);
    if id in before.pending {
      assert Traced(s, front, before, id);
    }
    if id in before.pending && t.pending[id].(released := None) == before.pending[id].(released := None) {
      StemsLater(s, front, last, id, before.pending[id]);
    } else {
      assert steps[..|front|] == front;
      assert FinishedAt(s, steps, |front|, id, t.pending[id]);
    }
  }

  // ----- what a receipt tells -----

  lemma ReleaseHolds(s: State, id: string, hash: string)
    requires ReleasePaid(s, id, hash).1.Released?
    ensures var (t, reply) := ReleasePaid(s, id, hash);
            && id in s.pending && id in t.pending && t.pending[id].released == Some(reply.completion)
            && t.pending[id].(released := None) == s.pending[id].(released := None)
            && (s.pending[id].released.None? ==> reply.completion.receipt.authorizationHash == hash)
  {
  }

  lemma UpTo(steps: seq<Step>, j: nat)
    requires j < |steps|
    ensures steps[..j] + [steps[j]] <= steps
  {
  }

  lemma FinishedInPrefix(s: State, run: seq<Step>, steps: seq<Step>, i: nat, id: string, p: Pending)
    requires run <= steps && i < |run| && FinishedAt(s, run, i, id, p)
    ensures FinishedAt(s, steps, i, id, p)
  {
    assert run[..i] == steps[..i] && run[i] == steps[i];
  }

  /** A receipt settles what the held completion costs. */
  lemma ReceiptCosts(t: State, replies: seq<Reply>, k: nat, payerWallet: string, id: string, p: Pending)
    requires Inv(t, replies) && k < |replies| && replies[k].Released?
    requires States(payerWallet, id, p, replies[k].completion)
    ensures id in t.ledger.reservations && t.ledger.reservations[id].actual == Some(p.exactCost)
  {
    assert Settles(t.ledger, replies[k].completion.receipt);
    P.PrintedAmountsDiffer(p.exactCost, t.ledger.reservations[id].actual.value);
  }

  lemma LastReleaseIsTraced(s: State, front: seq<Step>, id: string, hash: string) returns (i: nat, p: Pending)
    requires Idle(s) && ReleasePaid(Run(s, front).0, id, hash).1.Released?
    ensures var (t, reply) := ReleasePaid(Run(s, front).0, id, hash);
            && i < |front| && FinishedAt(s, front + [Release(id, hash)], i, id, p)
            && States(s.payerWallet, id, p, reply.completion)
            && id in t.pending && t.pending[id].(released := None) == p
  {
    var run := front + [Release(id, hash)];
    RunLast(s, front, Release(id, hash));
    RunKeepsHistory(s, run);
    ReleaseHolds(Run(s, front).0, id, hash);
    var t := Run(s, run).0;
    p := t.pending[id].(released := None);
    assert Traced(s, run, t, id);
    i :| i < |run| && FinishedAt(s, run, i, id, p);
  }

  lemma LastReleaseCosts(s: State, front: seq<Step>, id: string, hash: string, p: Pending)
    requires Idle(s) && ReleasePaid(Run(s, front).0, id, hash).1.Released?
    requires States(s.payerWallet, id, p, ReleasePaid(Run(s, front).0, id, hash).1.completion)
    ensures var t := ReleasePaid(Run(s, front).0, id, hash).0;
            id in t.ledger.reservations && t.ledger.reservations[id].actual == Some(p.exactCost)
  {
    var run := front + [Release(id, hash)];
    RunLast(s, front, Release(id, hash));
    RunKeepsInv(s, run);
    ReceiptCosts(Run(s, run).0, Run(s, run).1, |front|, s.payerWallet, id, p);
  }

  /**
    Over every interleaving: a receipt is about one earlier provider answer, `p`, at step `i`: the response is that
    answer, the tokens and the cost are its own, the cost was quoted then and is what the ledger settled, and the
    circuit state is the one the branch was in right after it.
   */
  lemma ReceiptTellsItsCall(s: State, steps: seq<Step>, j: nat, id: string, hash: string) returns (i: nat, p: Pending)
    requires Idle(s) && j < |steps| && steps[j] == Release(id, hash)
    requires ReleasePaid(Run(s, steps[..j]).0, id, hash).1.Released?
    ensures var (t, reply) := ReleasePaid(Run(s, steps[..j]).0, id, hash);
            && i < j && FinishedAt(s, steps, i, id, p) && States(s.payerWallet, id, p, reply.completion)
            && id in t.ledger.reservations && t.ledger.reservations[id].actual == Some(p.exactCost)
  {
    var front := steps[..j];
    i, p := LastReleaseIsTraced(s, front, id, hash);
    LastReleaseCosts(s, front, id, hash, p);
    UpTo(steps, j);
    FinishedInPrefix(s, front + [Release(id, hash)], steps, i, id, p);
  }

  /**
    A tripped branch has nothing available any more and the receipt says how much went back to the parent; any other
    branch keeps its authority and the receipt mentions no amount.
   */
  ghost predicate TakenBack(before: L.State, after: L.State, c: string, tripped: bool, receipt: Receipt) {
    && c in before.children && c in after.children
    && if tripped then
         var returned := L.Unallocated(after) - L.Unallocated(before);
         && after.children[c].authorized == A.Drawn(after, c)
         && receipt.reclaimedUsdc == (if returned > 0 then Some(P.MicrosToUsdc(returned)) else None)
       else
         after.children[c].authorized == before.children[c].authorized && receipt.reclaimedUsdc.None?
  }

  lemma FinishedState(s: State, steps: seq<Step>, i: nat, id: string, p: Pending)
    requires i < |steps| && FinishedAt(s, steps, i, id, p)
    ensures var judged := Run(s, steps[..i + 1]).0;
            p.request.childId in judged.circuits
            && judged.circuits[p.request.childId].state.status == p.circuit.status
  {
    FinishedJudged(s, steps, i, id, p);
    assert steps[..i + 1] == steps[..i] + [steps[i]];
    RunLast(s, steps[..i], steps[i]);
  }

  lemma FinishedJudged(s: State, steps: seq<Step>, i: nat, id: string, p: Pending)
    requires i < |steps| && FinishedAt(s, steps, i, id, p)
    ensures JudgedAs(Run(s, steps[..i]).0, Apply(Run(s, steps[..i]).0, steps[i]).0, p)
  {
  }

  /**
    The first release of a request, when its answer came at step `i`: the receipt carries the hash it was released
    with and the state the branch was in right after step `i`, and a branch that was then tripped is taken back.
   */
  lemma FirstReleaseReclaims(s: State, steps: seq<Step>, j: nat, id: string, hash: string, i: nat, p: Pending)
    requires Idle(s) && i < j <= |steps| && FinishedAt(s, steps, i, id, p) && p.released.None?
    requires id in Run(s, steps[..j]).0.pending && Run(s, steps[..j]).0.pending[id] == p
    requires ReleasePaid(Run(s, steps[..j]).0, id, hash).1.Released?
    ensures var (c, judged, before) := (p.request.childId, Run(s, steps[..i + 1]).0, Run(s, steps[..j]).0);
            var (t, reply) := ReleasePaid(before, id, hash);
            && c in judged.circuits
            && reply.completion.receipt.authorizationHash == hash
            && reply.completion.receipt.circuitState == judged.circuits[c].state.status
            && TakenBack(before.ledger, t.ledger, c, judged.circuits[c].state.status.Tripped?, reply.completion.receipt)
  {
    FinishedState(s, steps, i, id, p);
    RunKeepsInv(s, steps[..j]);
    FirstRelease(Run(s, steps[..j]).0, Run(s, steps[..j]).1, id, hash);
  }

  lemma FirstRelease(s: State, replies: seq<Reply>, id: string, hash: string)
    requires Inv(s, replies) && id in s.pending && s.pending[id].released.None?
    requires ReleasePaid(s, id, hash).1.Released?
    ensures var (t, reply) := ReleasePaid(s, id, hash);
            && reply.completion.receipt.authorizationHash == hash
            && reply.completion.receipt.circuitState == s.pending[id].circuit.status
            && TakenBack(s.ledger, t.ledger, s.pending[id].request.childId, s.pending[id].circuit.status.Tripped?,
                         reply.completion.receipt)
  {
    ReleaseHolds(s, id, hash);
    ReclaimsOrKeeps(s, replies, id, hash);
    if s.pending[id].circuit.status.Tripped? {
      TrippedReleaseReclaims(s, id, hash);
      ReleaseBooks(s, id, hash);
      A.ChildIsDrawn(ReleasePaid(s, id, hash).0.ledger, s.pending[id].request.childId);
    }
  }

  /** At once: a provider's answer that trips its open branch, and the release of that request. */
  lemma TrippingAnswerIsTakenBack(s: State, replies: seq<Reply>, call: nat, result: ProviderResult, hash: string)
    requires Inv(s, replies) && call in s.inFlight && s.inFlight[call].childId in s.circuits
    requires !s.circuits[s.inFlight[call].childId].state.status.Tripped?
    requires var c, t := s.inFlight[call].childId, Apply(s, Finish(call, result)).0;
             && c in t.circuits && t.circuits[c].state.status.Tripped?
             && ReleasePaid(t, s.inFlight[call].requestId, hash).1.Released?
    ensures var c, t := s.inFlight[call].childId, Apply(s, Finish(call, result)).0;
            var (u, reply) := ReleasePaid(t, s.inFlight[call].requestId, hash);
            && c in u.ledger.children && u.ledger.children[c].authorized == A.Drawn(u.ledger, c)
            && reply.completion.receipt.circuitState == C.Tripped
  {
    var id := s.inFlight[call].requestId;
    var (t, reply) := Apply(s, Finish(call, result));
    StepHasEffect(s, replies, Finish(call, result));
    StepBooks(s, Finish(call, result));
    CarryStep(s, t, replies, Finish(call, result), reply);
    FinishAnswers(s, call, result);
    StepOnPending(s, Finish(call, result), id);
    FirstRelease(t, replies + [reply], id, hash);
  }

  lemma ReclaimsOrKeeps(s: State, replies: seq<Reply>, id: string, hash: string)
    requires Inv(s, replies) && id in s.pending && s.pending[id].released.None?
    requires ReleasePaid(s, id, hash).1.Released?
    ensures var (t, reply) := ReleasePaid(s, id, hash);
            var c := s.pending[id].request.childId;
            && reply.completion.receipt.circuitState == s.pending[id].circuit.status
            && c in s.ledger.children && c in t.ledger.children
            && (!s.pending[id].circuit.status.Tripped? ==>
                  && t.ledger.children[c].authorized == s.ledger.children[c].authorized
                  && reply.completion.receipt.reclaimedUsdc.None?)
  {
    Facts(s, replies, id);
    assert id in s.ledger.reservations && L.Registered(s.ledger, id);
  }

  // ----- quotes in serialized runs -----

  /** The request that a quote at step `i` is for. */
  ghost function QuotedId(s: State, steps: seq<Step>, i: nat): Option<string>
    requires i < |steps|
  {
    match steps[i]
    case Begin(_, request) => Some(request.requestId)
    case Finish(call, _) =>
      var before := Run(s, steps[..i]).0;
      if call in before.inFlight then Some(before.inFlight[call].requestId) else None
    case _ => None
  }

  /** Every quote given so far is the cost of the completion that is held. */
  ghost predicate QuotesHeld(s: State, steps: seq<Step>) {
    var (t, replies) := Run(s, steps);
    forall i: nat {:trigger QuotedId(s, steps, i)} :: i < |steps| && replies[i].Quoted? ==>
      var id := QuotedId(s, steps, i);
      id.Some? && id.value in t.pending && t.pending[id.value].exactCost == replies[i].exactCost
  }

  lemma SerialKeepsPending(s: State, replies: seq<Reply>, step: Step, id: string)
    requires Inv(s, replies) && SerialInv(s, replies) && id in s.pending
    ensures var t := Apply(s, step).0; id in t.pending && t.pending[id].exactCost == s.pending[id].exactCost
  {
    StepHasEffect(s, replies, step);
  }

  lemma QuoteIsHeld(s: State, step: Step)
    requires Apply(s, step).1.Quoted?
    ensures var (t, reply) := Apply(s, step);
            && (step.Begin? || (step.Finish? && step.call in s.inFlight))
            && var id := if step.Begin? then step.request.requestId else s.inFlight[step.call].requestId;
            && id in t.pending && t.pending[id].exactCost == reply.exactCost
  {
  }

  lemma EarlierQuote(s: State, front: seq<Step>, last: Step, i: nat)
    requires i < |front|
    ensures QuotedId(s, front + [last], i) == QuotedId(s, front, i)
    ensures Run(s, front + [last]).1[i] == Run(s, front).1[i]
  {
    assert (front + [last])[..i] == front[..i] && (front + [last])[i] == front[i];
    RunLast(s, front, last);
  }

  lemma NewQuote(s: State, front: seq<Step>, last: Step)
    requires Run(s, front + [last]).1[|front|].Quoted?
    ensures var (t, replies) := Run(s, front + [last]);
            var id := QuotedId(s, front + [last], |front|);
            id.Some? && id.value in t.pending && t.pending[id.value].exactCost == replies[|front|].exactCost
  {
    assert (front + [last])[..|front|] == front;
    RunLast(s, front, last);
    QuoteIsHeld(Run(s, front).0, last);
  }

  lemma {:induction false} SerialQuotesHeld(s: State, steps: seq<Step>)
    requires Idle(s) && SerialRun(s, steps)
    ensures QuotesHeld(s, steps)
    decreases |steps|
  {
    if steps != [] {
      var front, last := steps[..|steps| - 1], steps[|steps| - 1];
      assert steps == front + [last];
      assert forall k :: 0 <= k < |front| ==> front[..k] == steps[..k] && front[k] == steps[k];
      SerialQuotesHeld(s, front);
      SerialRunKeeps(s, front);
      RunKeepsInv(s, front);
      QuotesStayHeld(s, front, last);
    }
  }

  lemma QuotesStayHeld(s: State, front: seq<Step>, last: Step)
    requires QuotesHeld(s, front)
    requires Inv(Run(s, front).0, Run(s, front).1) && SerialInv(Run(s, front).0, Run(s, front).1)
    ensures QuotesHeld(s, front + [last])
  {
    var steps := front + [last];
    RunLast(s, front, last);
    forall i: nat | i < |steps| && Run(s, steps).1[i].Quoted?
      ensures QuotedId(s, steps, i).Some? && QuotedId(s, steps, i).value in Run(s, steps).0.pending
      ensures Run(s, steps).0.pending[QuotedId(s, steps, i).value].exactCost == Run(s, steps).1[i].exactCost
    {
      if i < |front| {
        EarlierQuote(s, front, last, i);
        SerialKeepsPending(Run(s, front).0, Run(s, front).1, last, QuotedId(s, front, i).value);
      } else {
        NewQuote(s, front, last);
      }
    }
  }

  /**
    In every serialized run a request has one price: each quote for it, before or after, fresh or cached, is the amount
    its receipt prints and the ledger settles.
   */
  lemma QuoteIsPaid(s: State, steps: seq<Step>, i: nat, j: nat, id: string)
    requires Idle(s) && SerialRun(s, steps) && i < |steps| && j < |steps|
    requires Run(s, steps).1[i].Quoted? && QuotedId(s, steps, i) == Some(id)
    requires Run(s, steps).1[j].Released? && Run(s, steps).1[j].completion.receipt.requestId == id
    ensures var (t, replies) := Run(s, steps);
            && replies[j].completion.receipt.costUsdc == P.MicrosToUsdc(replies[i].exactCost)
            && id in t.ledger.reservations && t.ledger.reservations[id].actual == Some(replies[i].exactCost)
  {
    SerialQuotesHeld(s, steps);
    SerialRunKeeps(s, steps);
    RunKeepsInv(s, steps);
    RunKeepsHistory(s, steps);
    var (t, replies) := Run(s, steps);
    assert QuotedId(s, steps, i) == Some(id);
    assert Traced(s, steps, t, id);
    P.PrintedAmountsDiffer(replies[i].exactCost, t.ledger.reservations[id].actual.value);
  }

  /** And all its quotes agree. */
  lemma QuotesAgree(s: State, steps: seq<Step>, i: nat, j: nat)
    requires Idle(s) && SerialRun(s, steps) && i < |steps| && j < |steps|
    requires Run(s, steps).1[i].Quoted? && Run(s, steps).1[j].Quoted?
    requires QuotedId(s, steps, i) == QuotedId(s, steps, j)
    ensures Run(s, steps).1[i] == Run(s, steps).1[j]
  {
    SerialQuotesHeld(s, steps);
  }

  // ----- after a restart -----

  /** Whatever a branch was judged by before: it trips above 0.05 USD, and after two costs that leap by a micro. */
  predicate DemoCircuit(config: C.Config) {
    config.perCallCeiling == 50_000 && config.minimumSpikeDelta == 1
  }

  /**
    A funded service always restarts, and forgets only the calls that were waiting for the provider: branches stay as
    they were judged, and each request gets the quote, the completion or the error it would have got before.
   */
  lemma RestartForgetsOnlyCalls(s: State)
    requires L.Funded(s.ledger) && s.ledger.root.authorized > 0
    ensures var (t, reply) := Apply(s, Restart);
            && reply == Restarted
            && (forall call, result :: Apply(t, Finish(call, result)) == (t, NoSuchCall))
            && (forall id, hash :: ReleasePaid(t, id, hash).1 == ReleasePaid(s, id, hash).1)
            && (forall call, request {:trigger BeginPrepare(t, call, request)} ::
                  BeginPrepare(t, call, request).1 == BeginPrepare(s, call, request).1)
            && t.circuits.Keys == s.circuits.Keys
            && forall c :: c in s.circuits ==>
                 DemoCircuit(t.circuits[c].config) && t.circuits[c].state == s.circuits[c].state
  {
    L.FundedRestores(s.ledger);
    var t := Apply(s, Restart).0;
    forall id, hash ensures ReleasePaid(t, id, hash).1 == ReleasePaid(s, id, hash).1 {
      SameRelease(s, t, id, hash);
    }
    forall call, request ensures BeginPrepare(t, call, request).1 == BeginPrepare(s, call, request).1 {
      SameBegin(s, t, call, request);
    }
  }

  lemma SameRelease(s: State, t: State, id: string, hash: string)
    requires t.pending == s.pending && t.ledger == s.ledger && t.payerWallet == s.payerWallet
    ensures ReleasePaid(t, id, hash).1 == ReleasePaid(s, id, hash).1
  {
  }

  lemma SameBegin(s: State, t: State, call: nat, request: Request)
    requires t.pending == s.pending && t.ledger == s.ledger && t.price == s.price
    requires t.circuits.Keys == s.circuits.Keys
    requires forall c :: c in s.circuits ==> t.circuits[c].state == s.circuits[c].state
    ensures BeginPrepare(t, call, request).1 == BeginPrepare(s, call, request).1
  {
  }
}
