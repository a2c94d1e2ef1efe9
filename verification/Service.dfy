/**
  The completion service. A prepare call is two atomic steps, split where it awaits the provider; the
  steps of any number of calls, including several for one request id, interleave freely.
 */
module Service {
  import opened Results
  import opened MapSums
  import L = Ledger
  import C = Circuit
  import P = Pricing

  datatype Request = Request(requestId: string, childId: string, inputTokens: int, maxOutputTokens: int, prompt: string)

  datatype ProviderResult = ProviderResult(content: string, inputTokens: int, outputTokens: int)

  datatype Receipt = Receipt(requestId: string, childId: string, payerWallet: string, inputTokens: int,
                             outputTokens: int, costUsdc: string, authorizationHash: string, circuitState: C.Status,
                             circuitReason: C.Reason, reclaimedUsdc: Option<string>)

  datatype Completion = Completion(response: ProviderResult, receipt: Receipt)

  datatype Pending = Pending(request: Request, result: ProviderResult, exactCost: nat, circuit: C.Verdict,
                             released: Option<Completion>)

  datatype Breaker = Breaker(config: C.Config, state: C.State)

  /** `inFlight` holds the calls that are waiting for the provider. */
  datatype State = State(ledger: L.State, price: P.TokenPrice, payerWallet: string, circuits: map<string, Breaker>,
                         pending: map<string, Pending>, inFlight: map<nat, Request>)

  datatype Reply =
    | Quoted(exactCost: nat)
    | Awaiting
    | Released(completion: Completion)
    | Threw(code: string)
    | NoSuchCall
    | Restarted

  datatype Step =
    | Begin(call: nat, request: Request)
    | Finish(call: nat, result: ProviderResult)
    | ProviderFails(call: nat)
    | Release(requestId: string, authorizationHash: string)
    | Restart

  // ----- the atomic steps -----

  /** Up to the await: answer from the cache, or check the circuit and reserve the worst case. */
  function BeginPrepare(s: State, call: nat, request: Request): (State, Reply) {
    BeginPriced(s, call, request, P.Cost(request.inputTokens, request.maxOutputTokens, s.price))
  }

  function BeginPriced(s: State, call: nat, request: Request, worstCase: Result<nat>): (State, Reply) {
    if request.requestId in s.pending then (s, Quoted(s.pending[request.requestId].exactCost))
    else if request.childId !in s.circuits then (s, Threw("UNKNOWN_CHILD"))
    else if s.circuits[request.childId].state.status.Tripped? then (s, Threw("BRANCH_TRIPPED"))
    else if worstCase.Err? then (s, Threw(worstCase.code))
    else
      match L.Reserve(s.ledger, request.childId, worstCase.value, request.requestId)
      case (_, Err(code)) => (s, Threw(code))
      case (ledger, Ok(_)) => (s.(ledger := ledger, inFlight := s.inFlight[call := request]), Awaiting)
  }

  /** After the await: price the usage, judge it, and hold the response. */
  function FinishPrepare(s: State, call: nat, result: ProviderResult): (State, Reply)
    requires call in s.inFlight
  {
    FinishPriced(s, call, result, P.Cost(result.inputTokens, result.outputTokens, s.price))
  }

  function FinishPriced(s: State, call: nat, result: ProviderResult, cost: Result<nat>): (State, Reply)
    requires call in s.inFlight
  {
    var request := s.inFlight[call];
    var t := s.(inFlight := s.inFlight - {call});
    if cost.Err? then (t, Threw(cost.code))
    else if request.childId !in s.circuits then (t, Threw("UNKNOWN_CHILD"))
    else
      var breaker := s.circuits[request.childId];
      match C.Evaluate(breaker.config, breaker.state, cost.value)
      case (_, Err(code)) => (t, Threw(code))
      case (judged, Ok(verdict)) =>
        (t.(circuits := s.circuits[request.childId := breaker.(state := judged)],
            pending := s.pending[request.requestId := Pending(request, result, cost.value, verdict, None)]),
         Quoted(cost.value))
  }

  function CompletionFor(s: State, requestId: string, p: Pending, authorizationHash: string,
                         reclaimed: int): Completion {
    Completion(p.result,
               Receipt(requestId, p.request.childId, s.payerWallet, p.result.inputTokens, p.result.outputTokens,
                       P.MicrosToUsdc(p.exactCost), authorizationHash, p.circuit.status, p.circuit.reason,
                       if reclaimed > 0 then Some(P.MicrosToUsdc(reclaimed)) else None))
  }

  function ReleasePaid(s: State, requestId: string, authorizationHash: string): (State, Reply) {
    if requestId !in s.pending then (s, Threw("PENDING_COMPLETION_NOT_FOUND"))
    else
      var p := s.pending[requestId];
      if p.released.Some? then (s, Released(p.released.value))
      else
        match L.Reconcile(s.ledger, requestId, p.exactCost)
        case (_, Err(code)) => (s, Threw(code))
        case (settled, Ok(_)) =>
          var (ledger, reclaimed) :=
            if p.circuit.status.Tripped? then L.Reclaim(settled, p.request.childId) else (settled, Ok(0));
          match reclaimed
          case Err(code) => (s.(ledger := ledger), Threw(code))
          case Ok(micros) =>
            var completion := CompletionFor(s, requestId, p, authorizationHash, micros);
            (s.(ledger := ledger, pending := s.pending[requestId := p.(released := Some(completion))]),
             Released(completion))
  }

  /** The configuration every restored circuit gets. */
  const CIRCUIT_CONFIG: C.Config := C.Config(50_000, 1)

  /**
    A new process starts from the exported state: the ledger passes the constructor's checks again, circuits keep
    their state, held completions stay, and the calls that were waiting for the provider are gone.
   */
  ghost function RestartFrom(s: State): (State, Reply) {
    match L.Restore(s.ledger)
    case Err(code) => (s, Threw(code))
    case Ok(_) =>
      (s.(inFlight := map[], circuits := map c | c in s.circuits :: Breaker(CIRCUIT_CONFIG, s.circuits[c].state)),
       Restarted)
  }

  ghost function Apply(s: State, step: Step): (State, Reply) {
    match step
    case Begin(call, request) => if call in s.inFlight then (s, NoSuchCall) else BeginPrepare(s, call, request)
    case Finish(call, result) => if call in s.inFlight then FinishPrepare(s, call, result) else (s, NoSuchCall)
    case ProviderFails(call) => (s.(inFlight := s.inFlight - {call}), NoSuchCall)
    case Release(requestId, authorizationHash) => ReleasePaid(s, requestId, authorizationHash)
    case Restart => RestartFrom(s)
  }

  /** The state after a run, and what each step answered. */
  ghost function Run(s: State, steps: seq<Step>): (r: (State, seq<Reply>))
    ensures |r.1| == |steps|
    decreases |steps|
  {
    if steps == [] then (s, [])
    else
      var (before, replies) := Run(s, steps[..|steps| - 1]);
      var (after, reply) := Apply(before, steps[|steps| - 1]);
      (after, replies + [reply])
  }

  predicate Idle(s: State) {
    && s.pending == map[] && s.inFlight == map[]
    && s.ledger == L.Fresh(s.ledger.mandateId, s.ledger.root.authorized, L.AuthorizedOf(s.ledger.children))
  }

  // ----- settlement, over every interleaving -----

  /** The receipt states exactly what the ledger settled for its request. */
  predicate Settles(ledger: L.State, receipt: Receipt) {
    && receipt.requestId in ledger.reservations
    && var r := ledger.reservations[receipt.requestId];
    && r.status.Reconciled?
    && r.actual.Some? && r.actual.value >= 0
    && r.childId == receipt.childId
    && receipt.costUsdc == P.MicrosToUsdc(r.actual.value)
  }

  /** Per request: what it has settled. */
  function Paid(reservations: map<string, L.Reservation>): map<string, int> {
    map r | r in reservations :: if reservations[r].actual.Some? then reservations[r].actual.value else 0
  }

  predicate Backed(ledger: L.State, request: Request) {
    request.requestId in ledger.reservations && ledger.reservations[request.requestId].childId == request.childId
  }

  predicate HoldsPending(s: State, id: string)
    requires id in s.pending
  {
    && s.pending[id].request.requestId == id
    && Backed(s.ledger, s.pending[id].request)
    && (s.pending[id].released.Some? ==>
          s.pending[id].released.value.receipt.requestId == id
          && Settles(s.ledger, s.pending[id].released.value.receipt))
  }

  ghost predicate Receipted(replies: seq<Reply>, id: string) {
    exists i :: 0 <= i < |replies| && replies[i].Released? && replies[i].completion.receipt.requestId == id
  }

  ghost predicate Inv(s: State, replies: seq<Reply>) {
    && Books(s.ledger)
    && (forall id {:trigger HoldsPending(s, id)} :: id in s.pending ==> HoldsPending(s, id))
    && (forall call :: call in s.inFlight ==> Backed(s.ledger, s.inFlight[call]))
    && (forall i :: 0 <= i < |replies| && replies[i].Released? ==> Settles(s.ledger, replies[i].completion.receipt))
    && (forall id {:trigger Receipted(replies, id)} ::
          id in s.ledger.reservations && s.ledger.reservations[id].status.Reconciled? ==> Receipted(replies, id))
  }

  /** `later` still has every reservation of `earlier`, for the same branch, and every settlement unchanged. */
  predicate Extends(earlier: L.State, later: L.State) {
    forall id :: id in earlier.reservations ==>
                   && id in later.reservations
                   && later.reservations[id].childId == earlier.reservations[id].childId
                   && (earlier.reservations[id].status.Reconciled? ==>
                       later.reservations[id] == earlier.reservations[id])
  }

  ghost predicate Books(ledger: L.State) {
    L.Conserved(ledger) && ledger.root.settled == Sum(Paid(ledger.reservations))
  }

  // what each step changes, apart from the sums

  predicate BeginEffect(s: State, t: State, call: nat, request: Request, worstCase: Result<nat>, reply: Reply) {
    if reply.Awaiting? then
      && t.pending == s.pending && t.inFlight == s.inFlight[call := request]
      && request.requestId !in s.pending && worstCase.Ok?
      && request.requestId in t.ledger.reservations
      && t.ledger.reservations == s.ledger.reservations[request.requestId := t.ledger.reservations[request.requestId]]
      && var r := t.ledger.reservations[request.requestId];
      && r.childId == request.childId && r.maximum == worstCase.value
      && (if request.requestId in s.ledger.reservations then r == s.ledger.reservations[request.requestId]
          else r.status.Reserved?)
    else
      t == s && !reply.Released?
  }

  lemma BeginHasEffect(s: State, call: nat, request: Request, worstCase: Result<nat>)
    ensures BeginEffect(s, BeginPriced(s, call, request, worstCase).0, call, request, worstCase,
                        BeginPriced(s, call, request, worstCase).1)
  {
  }

  predicate FinishEffect(s: State, t: State, call: nat, cost: Result<nat>, reply: Reply)
    requires call in s.inFlight
  {
    && t.ledger == s.ledger && t.inFlight == s.inFlight - {call} && !reply.Released?
    && (if reply.Quoted? then
          var id := s.inFlight[call].requestId;
          && cost.Ok? && id in t.pending
          && t.pending == s.pending[id := t.pending[id]]
          && t.pending[id].request == s.inFlight[call] && t.pending[id].exactCost == cost.value
          && t.pending[id].released.None?
        else
          t.pending == s.pending)
  }

  predicate ReleaseEffect(s: State, t: State, id: string, reply: Reply) {
    if !reply.Released? then t == s
    else
      && id in s.pending && t.inFlight == s.inFlight
      && if s.pending[id].released.Some? then
           t == s && reply.completion == s.pending[id].released.value
         else
           && id in s.ledger.reservations
           && t.pending == s.pending[id := s.pending[id].(released := Some(reply.completion))]
           && t.ledger.reservations == s.ledger.reservations[id :=
                s.ledger.reservations[id].(actual := Some(s.pending[id].exactCost), status := L.Reconciled)]
           && (s.ledger.reservations[id].status.Reserved?
               || s.ledger.reservations[id] == t.ledger.reservations[id])
           && reply.completion.receipt.requestId == id
           && reply.completion.receipt.childId == s.pending[id].request.childId
           && reply.completion.receipt.costUsdc == P.MicrosToUsdc(s.pending[id].exactCost)
  }

  lemma ReleaseHasEffect(s: State, id: string, hash: string)
    requires id in s.pending ==> Backed(s.ledger, s.pending[id].request) && s.pending[id].request.requestId == id
    requires id in s.ledger.reservations ==> L.Registered(s.ledger, id)
    ensures ReleaseEffect(s, ReleasePaid(s, id, hash).0, id, ReleasePaid(s, id, hash).1)
  {
    if id in s.pending && s.pending[id].released.None? {
      var p := s.pending[id];
      var (settled, r) := L.Reconcile(s.ledger, id, p.exactCost);
      if r.Ok? {
        assert settled.children.Keys == s.ledger.children.Keys;
        assert settled.reservations == s.ledger.reservations[id :=
            s.ledger.reservations[id].(actual := Some(p.exactCost), status := L.Reconciled)];
        assert L.Reclaim(settled, p.request.childId).0.reservations == settled.reservations;
      }
    }
  }

  /** What any step changes. */
  predicate StepEffect(s: State, t: State, step: Step, reply: Reply) {
    && t.price == s.price
    && match step
       case Begin(call, request) =>
         if call in s.inFlight then t == s && reply.NoSuchCall?
         else BeginEffect(s, t, call, request, P.Cost(request.inputTokens, request.maxOutputTokens, s.price), reply)
       case Finish(call, result) =>
         if call in s.inFlight then
           FinishEffect(s, t, call, P.Cost(result.inputTokens, result.outputTokens, s.price), reply)
         else t == s && reply.NoSuchCall?
       case ProviderFails(call) => t == s.(inFlight := s.inFlight - {call}) && reply.NoSuchCall?
       case Release(id, _) => ReleaseEffect(s, t, id, reply)
       case Restart => !reply.Released? && (t == s || t == s.(inFlight := map[], circuits := t.circuits))
  }

  lemma FinishHasEffect(s: State, call: nat, result: ProviderResult, cost: Result<nat>)
    requires call in s.inFlight
    ensures FinishEffect(s, FinishPriced(s, call, result, cost).0, call, cost, FinishPriced(s, call, result, cost).1)
  {
  }

  lemma StepHasEffect(s: State, replies: seq<Reply>, step: Step)
    requires Inv(s, replies)
    ensures StepEffect(s, Apply(s, step).0, step, Apply(s, step).1)
  {
    match step
    case Begin(call, request) =>
      BeginHasEffect(s, call, request, P.Cost(request.inputTokens, request.maxOutputTokens, s.price));
    case Finish(call, result) =>
      if call in s.inFlight {
        FinishHasEffect(s, call, result, P.Cost(result.inputTokens, result.outputTokens, s.price));
      }
    case ProviderFails(call) =>
    case Release(id, hash) =>
      Facts(s, replies, id);
      ReleaseHasEffect(s, id, hash);
    case Restart =>
  }

  // how each step moves the sums

  lemma ReserveBooks(before: L.State, c: string, maximum: int, id: string)
    requires Books(before)
    ensures Books(L.Reserve(before, c, maximum, id).0)
  {
    L.ReserveConserves(before, c, maximum, id);
    var t := L.Reserve(before, c, maximum, id).0;
    if id !in before.reservations && id in t.reservations {
      assert Paid(t.reservations) == Paid(before.reservations)[id := 0];
      SumUpdate(Paid(before.reservations), id, 0);
    }
  }

  lemma ReconcileBooks(before: L.State, id: string, actual: nat)
    requires Books(before)
    ensures Books(L.Reconcile(before, id, actual).0)
  {
    L.ReconcileConserves(before, id, actual);
    var (t, r) := L.Reconcile(before, id, actual);
    if r.Ok? && before.reservations[id].status.Reserved? {
      assert L.Registered(before, id);
      assert Paid(t.reservations) == Paid(before.reservations)[id := actual];
      SumUpdate(Paid(before.reservations), id, actual);
    }
  }

  lemma BeginBooks(s: State, call: nat, request: Request, worstCase: Result<nat>)
    requires Books(s.ledger)
    ensures Books(BeginPriced(s, call, request, worstCase).0.ledger)
  {
    if worstCase.Ok? {
      ReserveBooks(s.ledger, request.childId, worstCase.value, request.requestId);
    }
  }

  lemma ReleaseBooks(s: State, id: string, hash: string)
    requires Books(s.ledger)
    ensures Books(ReleasePaid(s, id, hash).0.ledger)
  {
    if id in s.pending {
      var p := s.pending[id];
      ReconcileBooks(s.ledger, id, p.exactCost);
      L.ReclaimConserves(L.Reconcile(s.ledger, id, p.exactCost).0, p.request.childId);
    }
  }

  lemma StepBooks(s: State, step: Step)
    requires Books(s.ledger)
    ensures Books(Apply(s, step).0.ledger)
  {
    match step
    case Begin(call, request) =>
      BeginBooks(s, call, request, P.Cost(request.inputTokens, request.maxOutputTokens, s.price));
    case Finish(call, result) =>
    case ProviderFails(call) =>
    case Release(id, hash) => ReleaseBooks(s, id, hash);
    case Restart =>
  }

  /** What a step must show for the invariant to carry over: what it adds, beside what it keeps. */
  lemma Carry(s: State, t: State, replies: seq<Reply>, reply: Reply)
    requires Inv(s, replies)
    requires Extends(s.ledger, t.ledger) && Books(t.ledger)
    requires forall id :: id in t.pending ==> (id in s.pending && t.pending[id] == s.pending[id]) || HoldsPending(t, id)
    requires forall call :: call in t.inFlight ==>
               (call in s.inFlight && t.inFlight[call] == s.inFlight[call]) || Backed(t.ledger, t.inFlight[call])
    requires reply.Released? ==> Settles(t.ledger, reply.completion.receipt)
    requires forall id :: id in t.ledger.reservations && t.ledger.reservations[id].status.Reconciled? ==>
               || (id in s.ledger.reservations && s.ledger.reservations[id].status.Reconciled?)
               || (reply.Released? && reply.completion.receipt.requestId == id)
    ensures Inv(t, replies + [reply])
  {
    forall id | id in t.pending ensures HoldsPending(t, id) {
      if !HoldsPending(t, id) {
        assert HoldsPending(s, id);
      }
    }
    forall id | id in t.ledger.reservations && t.ledger.reservations[id].status.Reconciled?
      ensures Receipted(replies + [reply], id)
    {
      if id in s.ledger.reservations && s.ledger.reservations[id].status.Reconciled? {
        assert Receipted(replies, id);
        var i :| 0 <= i < |replies| && replies[i].Released? && replies[i].completion.receipt.requestId == id;
        assert (replies + [reply])[i] == replies[i];
      } else {
        assert (replies + [reply])[|replies|] == reply;
      }
    }
  }

  lemma CarryBegin(s: State, t: State, replies: seq<Reply>, call: nat, request: Request, worstCase: Result<nat>,
                   reply: Reply)
    requires Inv(s, replies) && BeginEffect(s, t, call, request, worstCase, reply) && Books(t.ledger)
    ensures Inv(t, replies + [reply])
  {
    Carry(s, t, replies, reply);
  }

  lemma CarryFinish(s: State, t: State, replies: seq<Reply>, call: nat, cost: Result<nat>, reply: Reply)
    requires Inv(s, replies) && call in s.inFlight && FinishEffect(s, t, call, cost, reply)
    ensures Inv(t, replies + [reply])
  {
    assert Backed(s.ledger, s.inFlight[call]);
    Carry(s, t, replies, reply);
  }

  lemma CarryRelease(s: State, t: State, replies: seq<Reply>, id: string, reply: Reply)
    requires Inv(s, replies) && ReleaseEffect(s, t, id, reply) && Books(t.ledger)
    ensures Inv(t, replies + [reply])
  {
    if id in s.pending {
      assert HoldsPending(s, id);
    }
    Carry(s, t, replies, reply);
  }

  lemma CarryStep(s: State, t: State, replies: seq<Reply>, step: Step, reply: Reply)
    requires Inv(s, replies) && StepEffect(s, t, step, reply) && Books(t.ledger)
    ensures Inv(t, replies + [reply])
  {
    match step
    case Begin(call, request) =>
      if call in s.inFlight {
        Carry(s, t, replies, reply);
      } else {
        CarryBegin(s, t, replies, call, request, P.Cost(request.inputTokens, request.maxOutputTokens, s.price), reply);
      }
    case Finish(call, result) =>
      if call in s.inFlight {
        CarryFinish(s, t, replies, call, P.Cost(result.inputTokens, result.outputTokens, s.price), reply);
      } else {
        Carry(s, t, replies, reply);
      }
    case ProviderFails(call) => Carry(s, t, replies, reply);
    case Release(id, _) => CarryRelease(s, t, replies, id, reply);
    case Restart => Carry(s, t, replies, reply);
  }

  lemma Facts(s: State, replies: seq<Reply>, id: string)
    requires Inv(s, replies)
    ensures id in s.pending ==> HoldsPending(s, id)
    ensures id in s.ledger.reservations ==> L.Registered(s.ledger, id)
  {
  }

  lemma {:induction false} RunKeepsInv(s: State, steps: seq<Step>)
    requires Idle(s)
    ensures Inv(Run(s, steps).0, Run(s, steps).1)
    decreases |steps|
  {
    if steps == [] {
      L.FreshConserved(s.ledger.mandateId, s.ledger.root.authorized, L.AuthorizedOf(s.ledger.children));
      SumZero(Paid(s.ledger.reservations));
    } else {
      var front := steps[..|steps| - 1];
      RunKeepsInv(s, front);
      var (before, replies) := Run(s, front);
      var (after, reply) := Apply(before, steps[|steps| - 1]);
      StepHasEffect(before, replies, steps[|steps| - 1]);
      StepBooks(before, steps[|steps| - 1]);
      CarryStep(before, after, replies, steps[|steps| - 1], reply);
    }
  }

  /**
    Over every interleaving: each receipt ever returned states exactly what the ledger settled for its
    request, each settled request was receipted, and the root's settled total is the sum of one settlement
    per request.
   */
  lemma EveryReceiptSettles(s: State, steps: seq<Step>)
    requires Idle(s)
    ensures var (t, replies) := Run(s, steps);
            && (forall i :: 0 <= i < |replies| && replies[i].Released? ==>
                Settles(t.ledger, replies[i].completion.receipt))
            && (forall id :: id in t.ledger.reservations && t.ledger.reservations[id].status.Reconciled? ==>
                Receipted(replies, id))
            && t.ledger.root.settled == Sum(Paid(t.ledger.reservations))
  {
    RunKeepsInv(s, steps);
  }

  /** No step, in any state, creates a reservation on a tripped branch, and a tripped branch stays tripped. */
  lemma TrippedBranchStaysClosed(s: State, step: Step, c: string)
    requires c in s.circuits && s.circuits[c].state.status.Tripped?
    ensures var t := Apply(s, step).0;
            && c in t.circuits && t.circuits[c].state == s.circuits[c].state
            && (!step.Restart? ==> t.circuits[c] == s.circuits[c])
            && (forall id :: id in t.ledger.reservations && t.ledger.reservations[id].childId == c ==>
                  id in s.ledger.reservations && s.ledger.reservations[id].childId == c)
  {
    match step
    case Begin(call, request) =>
      TrippedBegin(s, call, request, P.Cost(request.inputTokens, request.maxOutputTokens, s.price), c);
    case Finish(call, result) =>
      if call in s.inFlight {
        TrippedFinish(s, call, result, P.Cost(result.inputTokens, result.outputTokens, s.price), c);
      }
    case ProviderFails(_) =>
    case Release(id, hash) => TrippedRelease(s, id, hash, c);
    case Restart =>
  }

  lemma TrippedBegin(s: State, call: nat, request: Request, worstCase: Result<nat>, c: string)
    requires c in s.circuits && s.circuits[c].state.status.Tripped?
    ensures var t := BeginPriced(s, call, request, worstCase).0;
            && t.circuits == s.circuits
            && (forall id :: id in t.ledger.reservations && t.ledger.reservations[id].childId == c ==>
                  id in s.ledger.reservations && s.ledger.reservations[id].childId == c)
  {
  }

  lemma TrippedFinish(s: State, call: nat, result: ProviderResult, cost: Result<nat>, c: string)
    requires call in s.inFlight && c in s.circuits && s.circuits[c].state.status.Tripped?
    ensures var t := FinishPriced(s, call, result, cost).0;
            t.ledger == s.ledger && c in t.circuits && t.circuits[c] == s.circuits[c]
  {
  }

  lemma TrippedRelease(s: State, id: string, hash: string, c: string)
    ensures var t := ReleasePaid(s, id, hash).0;
            && t.circuits == s.circuits
            && (forall r :: r in t.ledger.reservations && t.ledger.reservations[r].childId == c ==>
                  r in s.ledger.reservations && s.ledger.reservations[r].childId == c)
  {
  }

  /** Over every continuation: a tripped branch stays tripped and has no reservation it did not have before. */
  lemma {:induction false} TrippedRunStaysClosed(s: State, steps: seq<Step>, c: string)
    requires c in s.circuits && s.circuits[c].state.status.Tripped?
    ensures var t := Run(s, steps).0;
            && c in t.circuits && t.circuits[c].state == s.circuits[c].state
            && (forall id :: id in t.ledger.reservations && t.ledger.reservations[id].childId == c ==>
                  id in s.ledger.reservations && s.ledger.reservations[id].childId == c)
    decreases |steps|
  {
    if steps != [] {
      var front := steps[..|steps| - 1];
      TrippedRunStaysClosed(s, front, c);
      TrippedBranchStaysClosed(Run(s, front).0, steps[|steps| - 1], c);
    }
  }

  /** Exactly when a release answers with a completion, in any reachable state. */
  lemma ReleaseSucceedsIff(s: State, replies: seq<Reply>, id: string, hash: string)
    requires Inv(s, replies)
    ensures ReleasePaid(s, id, hash).1.Released? <==>
            && id in s.pending && id in s.ledger.reservations
            && (|| s.pending[id].released.Some?
                || (s.ledger.reservations[id].status.Reserved?
                    && s.pending[id].exactCost <= s.ledger.reservations[id].maximum)
                || s.ledger.reservations[id].actual == Some(s.pending[id].exactCost))
  {
    if id in s.pending {
      assert HoldsPending(s, id);
      assert L.Registered(s.ledger, id);
    }
  }

  /**
    Releasing the call that tripped its branch takes everything the branch has left back to the parent, and the
    receipt states exactly that amount.
   */
  lemma TrippedReleaseReclaims(s: State, id: string, hash: string)
    requires id in s.pending && s.pending[id].released.None? && s.pending[id].circuit.status.Tripped?
    requires ReleasePaid(s, id, hash).1.Released?
    ensures var (t, reply) := ReleasePaid(s, id, hash);
            var c := s.pending[id].request.childId;
            var returned := L.Unallocated(t.ledger) - L.Unallocated(s.ledger);
            && c in t.ledger.children && t.ledger.children[c].Available() == 0
            && reply.completion.receipt.reclaimedUsdc == (if returned > 0 then Some(P.MicrosToUsdc(returned)) else None)
  {
    var p := s.pending[id];
    var settled := L.Reconcile(s.ledger, id, p.exactCost).0;
    TrippedReleaseSteps(s, id, hash);
    ReclaimMoves(settled, p.request.childId);
    L.AuthorityMoves(s.ledger, "", 0, id, p.exactCost);
  }

  /** The release settles, then reclaims, and prints what it reclaimed. */
  lemma TrippedReleaseSteps(s: State, id: string, hash: string)
    requires id in s.pending && s.pending[id].released.None? && s.pending[id].circuit.status.Tripped?
    requires ReleasePaid(s, id, hash).1.Released?
    ensures var (t, reply) := ReleasePaid(s, id, hash);
            var (ledger, r) := L.Reclaim(L.Reconcile(s.ledger, id, s.pending[id].exactCost).0,
                                         s.pending[id].request.childId);
            && t.ledger == ledger && r.Ok?
            && reply.completion.receipt.reclaimedUsdc == (if r.value > 0 then Some(P.MicrosToUsdc(r.value)) else None)
  {
  }

  lemma ReclaimMoves(ledger: L.State, c: string)
    requires L.Reclaim(ledger, c).1.Ok?
    ensures var (t, r) := L.Reclaim(ledger, c);
            c in t.children && t.children[c].Available() == 0 && L.Unallocated(t) == L.Unallocated(ledger) + r.value
  {
    L.AuthorityMoves(ledger, c, 0, "", 0);
  }

  // ----- serialized runs -----

  /** At most one call per request id waits for the provider at a time. */
  predicate SerialStep(s: State, step: Step) {
    step.Begin? ==> forall call :: call in s.inFlight ==> s.inFlight[call].requestId != step.request.requestId
  }

  /** The provider uses no more tokens than the request allowed. */
  predicate BoundedStep(s: State, step: Step) {
    step.Finish? && step.call in s.inFlight ==>
      && 0 <= step.result.inputTokens <= s.inFlight[step.call].inputTokens
      && 0 <= step.result.outputTokens <= s.inFlight[step.call].maxOutputTokens
  }

  ghost predicate SerialRun(s: State, steps: seq<Step>) {
    forall n :: 0 <= n < |steps| ==> SerialStep(Run(s, steps[..n]).0, steps[n])
  }

  ghost predicate BoundedRun(s: State, steps: seq<Step>) {
    forall n :: 0 <= n < |steps| ==> BoundedStep(Run(s, steps[..n]).0, steps[n])
  }

  predicate Unsettled(s: State, id: string) {
    id in s.ledger.reservations && s.ledger.reservations[id].status.Reserved?
  }

  ghost predicate SerialInv(s: State, replies: seq<Reply>) {
    && (forall call, other :: call in s.inFlight && other in s.inFlight && call != other ==>
          s.inFlight[call].requestId != s.inFlight[other].requestId)
    && (forall call :: call in s.inFlight ==>
          s.inFlight[call].requestId !in s.pending && Unsettled(s, s.inFlight[call].requestId))
    && (forall id :: id in s.pending && s.pending[id].released.None? ==> Unsettled(s, id))
    && (forall id :: id in s.ledger.reservations && !Unsettled(s, id) ==> id in s.pending)
    && (forall i :: 0 <= i < |replies| && replies[i].Released? ==>
          var id := replies[i].completion.receipt.requestId;
          id in s.pending && s.pending[id].released == Some(replies[i].completion))
  }

  lemma SerialBegin(s: State, t: State, replies: seq<Reply>, call: nat, request: Request, worstCase: Result<nat>,
                    reply: Reply)
    requires SerialInv(s, replies) && SerialStep(s, Begin(call, request))
    requires BeginEffect(s, t, call, request, worstCase, reply)
    ensures SerialInv(t, replies + [reply])
  {
  }

  lemma SerialFinish(s: State, t: State, replies: seq<Reply>, call: nat, cost: Result<nat>, reply: Reply)
    requires SerialInv(s, replies) && call in s.inFlight && FinishEffect(s, t, call, cost, reply)
    ensures SerialInv(t, replies + [reply])
  {
  }

  lemma SerialRelease(s: State, t: State, replies: seq<Reply>, id: string, reply: Reply)
    requires SerialInv(s, replies) && ReleaseEffect(s, t, id, reply)
    requires id in s.pending && s.pending[id].released.Some? ==> s.pending[id].released.value.receipt.requestId == id
    ensures SerialInv(t, replies + [reply])
  {
  }

  lemma SerialStepKeeps(s: State, t: State, replies: seq<Reply>, step: Step, reply: Reply)
    requires Inv(s, replies) && SerialInv(s, replies) && SerialStep(s, step) && StepEffect(s, t, step, reply)
    ensures SerialInv(t, replies + [reply])
  {
    match step
    case Begin(call, request) =>
      if call !in s.inFlight {
        SerialBegin(s, t, replies, call, request, P.Cost(request.inputTokens, request.maxOutputTokens, s.price), reply);
      }
    case Finish(call, result) =>
      if call in s.inFlight {
        SerialFinish(s, t, replies, call, P.Cost(result.inputTokens, result.outputTokens, s.price), reply);
      }
    case ProviderFails(call) =>
    case Release(id, hash) =>
      Facts(s, replies, id);
      SerialRelease(s, t, replies, id, reply);
    case Restart =>
  }

  lemma {:induction false} SerialRunKeeps(s: State, steps: seq<Step>)
    requires Idle(s) && SerialRun(s, steps)
    ensures SerialInv(Run(s, steps).0, Run(s, steps).1)
    decreases |steps|
  {
    if steps != [] {
      var front := steps[..|steps| - 1];
      assert forall n :: 0 <= n < |front| ==> front[..n] == steps[..n] && front[n] == steps[n];
      SerialRunKeeps(s, front);
      RunKeepsInv(s, front);
      var (before, replies) := Run(s, front);
      var (after, reply) := Apply(before, steps[|steps| - 1]);
      StepHasEffect(before, replies, steps[|steps| - 1]);
      SerialStepKeeps(before, after, replies, steps[|steps| - 1], reply);
    }
  }

  /** In a serialized run a request has one completion: every release of it answers the same. */
  lemma SerialReleasesAgree(s: State, steps: seq<Step>, i: nat, j: nat)
    requires Idle(s) && SerialRun(s, steps)
    requires i < |steps| && j < |steps|
    requires Run(s, steps).1[i].Released? && Run(s, steps).1[j].Released?
    requires Run(s, steps).1[i].completion.receipt.requestId == Run(s, steps).1[j].completion.receipt.requestId
    ensures Run(s, steps).1[i] == Run(s, steps).1[j]
  {
    SerialRunKeeps(s, steps);
  }

  predicate PricedAt(s: State, request: Request) {
    && request.requestId in s.ledger.reservations
    && P.Cost(request.inputTokens, request.maxOutputTokens, s.price)
        == Ok(s.ledger.reservations[request.requestId].maximum)
  }

  /** Every reservation covers what its calls may cost, and what its held response did cost. */
  ghost predicate Covered(s: State) {
    && (forall call {:trigger PricedAt(s, s.inFlight[call])} :: call in s.inFlight ==> PricedAt(s, s.inFlight[call]))
    && (forall id :: id in s.pending ==>
          id in s.ledger.reservations && s.pending[id].exactCost <= s.ledger.reservations[id].maximum)
  }

  lemma CoveredBegin(s: State, t: State, call: nat, request: Request, worstCase: Result<nat>, reply: Reply)
    requires Covered(s) && BeginEffect(s, t, call, request, worstCase, reply) && t.price == s.price
    requires worstCase == P.Cost(request.inputTokens, request.maxOutputTokens, s.price)
    ensures Covered(t)
  {
    forall k | k in t.inFlight ensures PricedAt(t, t.inFlight[k]) {
      if k in s.inFlight && t.inFlight[k] == s.inFlight[k] {
        assert PricedAt(s, s.inFlight[k]);
      }
    }
  }

  lemma CoveredFinish(s: State, t: State, call: nat, cost: Result<nat>, reply: Reply)
    requires Covered(s) && call in s.inFlight && FinishEffect(s, t, call, cost, reply) && t.price == s.price
    requires s.inFlight[call].requestId in s.ledger.reservations
    requires cost.Ok? ==> cost.value <= s.ledger.reservations[s.inFlight[call].requestId].maximum
    ensures Covered(t)
  {
    forall k | k in t.inFlight ensures PricedAt(t, t.inFlight[k]) {
      assert PricedAt(s, s.inFlight[k]);
    }
    assert PricedAt(s, s.inFlight[call]);
  }

  lemma CoveredRelease(s: State, t: State, id: string, reply: Reply)
    requires Covered(s) && ReleaseEffect(s, t, id, reply) && t.price == s.price
    ensures Covered(t)
  {
    forall k | k in t.inFlight ensures PricedAt(t, t.inFlight[k]) {
      assert PricedAt(s, s.inFlight[k]);
    }
  }

  lemma CoveredStep(s: State, t: State, step: Step, reply: Reply)
    requires Covered(s) && BoundedStep(s, step) && StepEffect(s, t, step, reply)
    ensures Covered(t)
  {
    match step
    case Begin(call, request) =>
      if call !in s.inFlight {
        CoveredBegin(s, t, call, request, P.Cost(request.inputTokens, request.maxOutputTokens, s.price), reply);
      }
    case Finish(call, result) =>
      if call in s.inFlight {
        var request := s.inFlight[call];
        assert PricedAt(s, request);
        P.CostMonotone(result.inputTokens, result.outputTokens, request.inputTokens, request.maxOutputTokens, s.price);
        CoveredFinish(s, t, call, P.Cost(result.inputTokens, result.outputTokens, s.price), reply);
      }
    case ProviderFails(call) =>
      forall k | k in t.inFlight ensures PricedAt(t, t.inFlight[k]) {
        assert PricedAt(s, s.inFlight[k]);
      }
    case Release(id, _) => CoveredRelease(s, t, id, reply);
    case Restart =>
      forall k | k in t.inFlight ensures PricedAt(t, t.inFlight[k]) {
        assert PricedAt(s, s.inFlight[k]);
      }
  }

  lemma {:induction false} CoveredRun(s: State, steps: seq<Step>)
    requires Idle(s) && BoundedRun(s, steps)
    ensures Covered(Run(s, steps).0)
    decreases |steps|
  {
    if steps != [] {
      var front := steps[..|steps| - 1];
      assert forall n :: 0 <= n < |front| ==> front[..n] == steps[..n] && front[n] == steps[n];
      CoveredRun(s, front);
      RunKeepsInv(s, front);
      var (before, replies) := Run(s, front);
      var (after, reply) := Apply(before, steps[|steps| - 1]);
      StepHasEffect(before, replies, steps[|steps| - 1]);
      CoveredStep(before, after, steps[|steps| - 1], reply);
    }
  }

  /** In serialized runs whose provider respects its bounds, releasing a prepared completion never fails. */
  lemma PreparedReleasesSucceed(s: State, steps: seq<Step>, id: string, hash: string)
    requires Idle(s) && SerialRun(s, steps) && BoundedRun(s, steps)
    requires id in Run(s, steps).0.pending
    ensures ReleasePaid(Run(s, steps).0, id, hash).1.Released?
  {
    RunKeepsInv(s, steps);
    SerialRunKeeps(s, steps);
    CoveredRun(s, steps);
    ReleaseSucceedsIff(Run(s, steps).0, Run(s, steps).1, id, hash);
  }

  /**
    Serialization is needed. From every idle service, whenever two calls for one request are begun, the first finishes
    without tripping its branch and is released, and the second finishes: its completion overwrites the released one,
    and a second release either throws or returns a second, different receipt.
   */
  lemma DuplicateCallsBreakRelease(s: State, request: Request, one: nat, two: nat, first: ProviderResult,
                                   second: ProviderResult, x: string, y: string)
    requires Idle(s) && one != two && x != y
    requires request.childId in s.circuits && request.childId in s.ledger.children
    requires var maximum := P.Cost(request.inputTokens, request.maxOutputTokens, s.price);
             && maximum.Ok? && 0 < maximum.value <= s.ledger.children[request.childId].authorized
             && maximum.value <= s.ledger.root.authorized
    requires var a, b := P.Cost(first.inputTokens, first.outputTokens, s.price),
             P.Cost(second.inputTokens, second.outputTokens, s.price);
             var breaker := s.circuits[request.childId];
             && a.Ok? && b.Ok? && a.value <= P.Cost(request.inputTokens, request.maxOutputTokens, s.price).value
             && !C.Evaluate(breaker.config, breaker.state, a.value).0.status.Tripped?
    ensures var id := request.requestId;
            var held := Apply(Apply(s, Begin(one, request)).0, Begin(two, request)).0;
            var released := Apply(Apply(held, Finish(one, first)).0, Release(id, x));
            var again := Apply(Apply(released.0, Finish(two, second)).0, Release(id, y));
            && released.1.Released?
            && (if P.Cost(first.inputTokens, first.outputTokens, s.price)
                == P.Cost(second.inputTokens, second.outputTokens, s.price)
                then again.1.Released? && again.1 != released.1
                else again.1 == Threw("IDEMPOTENCY_CONFLICT"))
  {
    var id, c := request.requestId, request.childId;
    var begun := Apply(s, Begin(one, request));
    assert begun.1 == Awaiting;
    var held := Apply(begun.0, Begin(two, request));
    assert held.1 == Awaiting;
    var finished := Apply(held.0, Finish(one, first));
    assert finished.1.Quoted?;
    var released := Apply(finished.0, Release(id, x));
    assert released.1.Released?;
    assert !released.0.circuits[c].state.status.Tripped?;
    assert released.1.completion.receipt.authorizationHash == x;
    SecondOverwrites(released.0, two, second, y);
  }

  /** A second call that finishes after its request was settled. */
  lemma SecondOverwrites(t: State, call: nat, result: ProviderResult, hash: string)
    requires call in t.inFlight && P.Cost(result.inputTokens, result.outputTokens, t.price).Ok?
    requires var request := t.inFlight[call];
             && request.requestId in t.ledger.reservations
             && t.ledger.reservations[request.requestId].status.Reconciled?
             && request.childId in t.ledger.children && request.childId in t.circuits
             && !t.circuits[request.childId].state.status.Tripped?
    ensures var id := t.inFlight[call].requestId;
            var again := Apply(Apply(t, Finish(call, result)).0, Release(id, hash)).1;
            if t.ledger.reservations[id].actual == Some(P.Cost(result.inputTokens, result.outputTokens, t.price).value)
            then again.Released? && again.completion.receipt.authorizationHash == hash
            else again == Threw("IDEMPOTENCY_CONFLICT")
  {
    var finished := Apply(t, Finish(call, result));
    assert finished.1.Quoted?;
  }

  // ----- the service object -----

  class FuseService {
    const ledger: L.FuseLedger
    const price: P.TokenPrice
    const payerWallet: string
    const circuits: map<string, C.BranchCircuit>
    var pending: map<string, Pending>
    var inFlight: map<nat, Request>

    /** Each child has a circuit object of its own. */
    ghost predicate Valid() {
      forall c, d :: c in circuits && d in circuits && c != d ==> circuits[c] != circuits[d]
    }

    ghost function Breakers(): map<string, Breaker>
      reads circuits.Values
    {
      map c | c in circuits :: Breaker(circuits[c].config, circuits[c].View())
    }

    ghost function View(): State
      reads this, ledger, circuits.Values
    {
      State(ledger.View(), price, payerWallet, Breakers(), pending, inFlight)
    }

    constructor (ledger: L.FuseLedger, price: P.TokenPrice, payerWallet: string, circuits: map<string, C.BranchCircuit>)
      requires forall c, d :: c in circuits && d in circuits && c != d ==> circuits[c] != circuits[d]
      ensures Valid() && this.ledger == ledger && this.circuits == circuits
      ensures View() == State(ledger.View(), price, payerWallet, Breakers(), map[], map[])
    {
      this.ledger, this.price, this.payerWallet, this.circuits := ledger, price, payerWallet, circuits;
      pending, inFlight := map[], map[];
    }

    /** The first half of a prepare call. The caller of an `Awaiting` reply is waiting for the provider. */
    method BeginCall(call: nat, request: Request) returns (reply: Reply)
      requires Valid() && call !in inFlight
      modifies this, ledger
      ensures (View(), reply) == BeginPrepare(old(View()), call, request)
    {
      if request.requestId in pending {
        return Quoted(pending[request.requestId].exactCost);
      }
      if request.childId !in circuits {
        return Threw("UNKNOWN_CHILD");
      }
      var open := circuits[request.childId].AssertOpen();
      if open.Err? {
        return Threw(open.code);
      }
      var maximum := P.Cost(request.inputTokens, request.maxOutputTokens, price);
      if maximum.Err? {
        return Threw(maximum.code);
      }
      var reserved := ledger.ReserveFor(request.childId, maximum.value, request.requestId);
      assert Breakers() == old(Breakers());
      if reserved.Err? {
        return Threw(reserved.code);
      }
      inFlight := inFlight[call := request];
      reply := Awaiting;
    }

    /** Judges one child's call; a circuit that throws is left as it was. */
    method EvaluateCircuit(childId: string, cost: nat) returns (verdict: Result<C.Verdict>)
      requires Valid() && childId in circuits
      modifies circuits.Values
      ensures var breaker := old(Breakers())[childId];
              && verdict == C.Evaluate(breaker.config, breaker.state, cost).1
              && Breakers() ==
                 old(Breakers())[childId := breaker.(state := C.Evaluate(breaker.config, breaker.state, cost).0)]
              && (verdict.Err? ==> Breakers() == old(Breakers()))
    {
      verdict := circuits[childId].EvaluateCall(cost);
    }

    /** The second half, once the provider has answered. */
    method FinishCall(call: nat, result: ProviderResult) returns (reply: Reply)
      requires Valid() && call in inFlight
      modifies this, circuits.Values
      ensures (View(), reply) == FinishPrepare(old(View()), call, result)
    {
      var request := inFlight[call];
      inFlight := inFlight - {call};
      var exactCost := P.Cost(result.inputTokens, result.outputTokens, price);
      assert Breakers() == old(Breakers());
      if exactCost.Err? {
        return Threw(exactCost.code);
      }
      if request.childId !in circuits {
        return Threw("UNKNOWN_CHILD");
      }
      var verdict := EvaluateCircuit(request.childId, exactCost.value);
      if verdict.Err? {
        return Threw(verdict.code);
      }
      pending := pending[request.requestId := Pending(request, result, exactCost.value, verdict.value, None)];
      reply := Quoted(exactCost.value);
    }

    method ReleasePaidCompletion(requestId: string, authorizationHash: string) returns (reply: Reply)
      requires Valid()
      modifies this, ledger
      ensures (View(), reply) == ReleasePaid(old(View()), requestId, authorizationHash)
    {
      if requestId !in pending {
        return Threw("PENDING_COMPLETION_NOT_FOUND");
      }
      var p := pending[requestId];
      if p.released.Some? {
        return Released(p.released.value);
      }
      var reconciled := ledger.ReconcileRequest(requestId, p.exactCost);
      assert Breakers() == old(Breakers());
      if reconciled.Err? {
        return Threw(reconciled.code);
      }
      var reclaimed := 0;
      if p.circuit.status.Tripped? {
        var r := ledger.ReclaimAvailable(p.request.childId);
        assert Breakers() == old(Breakers());
        if r.Err? {
          return Threw(r.code);
        }
        reclaimed := r.value;
      }
      var receipt := Receipt(requestId, p.request.childId, payerWallet, p.result.inputTokens, p.result.outputTokens,
                             P.MicrosToUsdc(p.exactCost), authorizationHash, p.circuit.status, p.circuit.reason,
                             if reclaimed > 0 then Some(P.MicrosToUsdc(reclaimed)) else None);
      var completion := Completion(p.result, receipt);
      pending := pending[requestId := p.(released := Some(completion))];
      reply := Released(completion);
    }
  }
}
