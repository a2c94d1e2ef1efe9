/**
  Branch isolation for the whole service: two runs of the step machine, one without a branch's steps. Every other
  branch gets the same replies, quotes, receipts and errors alike, and ends in the same state.
 */
module ServiceIsolation {
  import opened Results
  import opened Service
  import I = Isolation
  import C = Circuit
  import L = Ledger
  import P = Pricing

  /** Request ids and call numbers each belong to one branch. */
  datatype Owners = Owners(request: string -> string, call: nat -> string)

  /** Whether a step is one of the branch's; a restart is nobody's. */
  predicate Belongs(step: Step, branch: string, o: Owners) {
    match step
    case Begin(_, request) => request.childId == branch
    case Finish(call, _) => o.call(call) == branch
    case ProviderFails(call) => o.call(call) == branch
    case Release(id, _) => o.request(id) == branch
    case Restart => false
  }

  /** A branch uses only its own request ids and call numbers. */
  predicate UsesOwn(step: Step, o: Owners) {
    step.Begin? ==>
      o.request(step.request.requestId) == step.request.childId && o.call(step.call) == step.request.childId
  }

  predicate Apart(steps: seq<Step>, o: Owners) {
    forall i :: 0 <= i < |steps| ==> UsesOwn(steps[i], o)
  }

  function Without(steps: seq<Step>, branch: string, o: Owners): seq<Step> {
    if steps == [] then []
    else Without(steps[..|steps| - 1], branch, o) + if Belongs(steps[|steps| - 1], branch, o) then []
        else [steps[|steps| - 1]]
  }

  /** The replies to the steps that are not the branch's. */
  function RepliesWithout(steps: seq<Step>, replies: seq<Reply>, branch: string, o: Owners): seq<Reply>
    requires |steps| == |replies|
  {
    if steps == [] then []
    else
      var n := |steps| - 1;
      RepliesWithout(steps[..n], replies[..n], branch, o) + if Belongs(steps[n], branch, o) then [] else [replies[n]]
  }

  // ----- what the two runs share -----

  /** A ledger on its own, for the results about ledger operations. */
  function Alone(ledger: L.State): I.Branches {
    I.Branches(ledger, CIRCUIT_CONFIG, map[])
  }

  ghost predicate SamePending(m: map<string, Pending>, n: map<string, Pending>, branch: string, o: Owners) {
    && (forall id :: id in m && o.request(id) != branch ==> id in n && n[id] == m[id])
    && (forall id :: id in n && o.request(id) != branch ==> id in m)
  }

  ghost predicate SameInFlight(m: map<nat, Request>, n: map<nat, Request>, branch: string, o: Owners) {
    && (forall call :: call in m && o.call(call) != branch ==> call in n && n[call] == m[call])
    && (forall call :: call in n && o.call(call) != branch ==> call in m)
  }

  ghost predicate Agree(s: State, d: State, branch: string, o: Owners) {
    && s.price == d.price && s.payerWallet == d.payerWallet
    && I.Agree(Alone(s.ledger), Alone(d.ledger), branch, o.request)
    && I.SameOutside(s.circuits, d.circuits, branch)
    && SamePending(s.pending, d.pending, branch, o)
    && SameInFlight(s.inFlight, d.inFlight, branch, o)
  }

  // how agreement carries over when single parts change, whatever the ledgers are

  lemma LedgersReplaced(s: State, d: State, ls: L.State, ld: L.State, branch: string, o: Owners)
    requires Agree(s, d, branch, o) && I.Agree(Alone(ls), Alone(ld), branch, o.request)
    ensures Agree(s.(ledger := ls), d.(ledger := ld), branch, o)
  {
  }

  lemma CallAdded(s: State, d: State, call: nat, request: Request, branch: string, o: Owners)
    requires Agree(s, d, branch, o)
    ensures Agree(s.(inFlight := s.inFlight[call := request]), d.(inFlight := d.inFlight[call := request]), branch, o)
    ensures o.call(call) == branch ==> Agree(s.(inFlight := s.inFlight[call := request]), d, branch, o)
  {
  }

  lemma CallRemoved(s: State, d: State, call: nat, branch: string, o: Owners)
    requires Agree(s, d, branch, o)
    ensures Agree(s.(inFlight := s.inFlight - {call}), d.(inFlight := d.inFlight - {call}), branch, o)
    ensures o.call(call) == branch ==> Agree(s.(inFlight := s.inFlight - {call}), d, branch, o)
  {
  }

  lemma CompletionHeld(s: State, d: State, id: string, p: Pending, branch: string, o: Owners)
    requires Agree(s, d, branch, o)
    ensures Agree(s.(pending := s.pending[id := p]), d.(pending := d.pending[id := p]), branch, o)
    ensures o.request(id) == branch ==> Agree(s.(pending := s.pending[id := p]), d, branch, o)
  {
  }

  lemma CircuitMoved(s: State, d: State, c: string, breaker: Breaker, branch: string, o: Owners)
    requires Agree(s, d, branch, o)
    ensures Agree(s.(circuits := s.circuits[c := breaker]), d.(circuits := d.circuits[c := breaker]), branch, o)
    ensures c == branch ==> Agree(s.(circuits := s.circuits[c := breaker]), d, branch, o)
  {
  }

  /** Everything recorded under an id or a call number belongs to its owner. */
  ghost predicate Tidy(s: State, o: Owners) {
    && I.Owned(Alone(s.ledger), o.request)
    && (forall id :: id in s.pending ==> s.pending[id].request.childId == o.request(id))
    && (forall call :: call in s.inFlight ==>
          s.inFlight[call].childId == o.call(call) == o.request(s.inFlight[call].requestId))
  }

  ghost predicate Sound(ledger: L.State) {
    L.Conserved(ledger) && L.Funded(ledger) && ledger.root.authorized > 0
  }

  lemma StepStaysSound(s: State, step: Step)
    requires Sound(s.ledger)
    ensures Sound(Apply(s, step).0.ledger)
  {
    match step
    case Begin(call, request) =>
      BeginStaysSound(s, call, request, P.Cost(request.inputTokens, request.maxOutputTokens, s.price));
    case Finish(call, result) =>
    case ProviderFails(call) =>
    case Release(id, hash) => ReleaseStaysSound(s, id, hash);
    case Restart =>
  }

  lemma BeginStaysSound(s: State, call: nat, request: Request, worstCase: Result<nat>)
    requires Sound(s.ledger)
    ensures Sound(BeginPriced(s, call, request, worstCase).0.ledger)
  {
    if worstCase.Ok? {
      L.ReserveConserves(s.ledger, request.childId, worstCase.value, request.requestId);
    }
  }

  lemma ReleaseStaysSound(s: State, id: string, hash: string)
    requires Sound(s.ledger)
    ensures Sound(ReleasePaid(s, id, hash).0.ledger)
  {
    if id in s.pending && s.pending[id].released.None? {
      ReleaseShape(s, id, hash);
      ReleasedStaysSound(s.ledger, id, s.pending[id]);
    }
  }

  lemma ReleasedStaysSound(ledger: L.State, id: string, p: Pending)
    requires Sound(ledger)
    ensures Sound(ReleasedLedger(ledger, id, p))
  {
    L.ReconcileConserves(ledger, id, p.exactCost);
    L.ReclaimConserves(L.Reconcile(ledger, id, p.exactCost).0, p.request.childId);
  }

  lemma StepStaysTidy(s: State, step: Step, o: Owners)
    requires Tidy(s, o) && UsesOwn(step, o)
    ensures Tidy(Apply(s, step).0, o)
  {
    match step
    case Begin(call, request) =>
      BeginStaysTidy(s, call, request, P.Cost(request.inputTokens, request.maxOutputTokens, s.price), o);
    case Finish(call, result) =>
      if call in s.inFlight {
        FinishStaysTidy(s, call, result, P.Cost(result.inputTokens, result.outputTokens, s.price), o);
      }
    case ProviderFails(call) =>
    case Release(id, hash) => ReleaseStaysTidy(s, id, hash, o);
    case Restart =>
  }

  lemma BeginStaysTidy(s: State, call: nat, request: Request, worstCase: Result<nat>, o: Owners)
    requires Tidy(s, o) && UsesOwn(Begin(call, request), o)
    ensures Tidy(BeginPriced(s, call, request, worstCase).0, o)
  {
    if worstCase.Ok? {
      I.StepKeepsOwned(Alone(s.ledger), I.Reserve(request.childId, worstCase.value, request.requestId), o.request);
    }
  }

  lemma FinishStaysTidy(s: State, call: nat, result: ProviderResult, cost: Result<nat>, o: Owners)
    requires Tidy(s, o) && call in s.inFlight
    ensures Tidy(FinishPriced(s, call, result, cost).0, o)
  {
  }

  lemma ReleaseStaysTidy(s: State, id: string, hash: string, o: Owners)
    requires Tidy(s, o)
    ensures Tidy(ReleasePaid(s, id, hash).0, o)
  {
    if id in s.pending {
      var p := s.pending[id];
      I.StepKeepsOwned(Alone(s.ledger), I.Reconcile(id, p.exactCost), o.request);
      I.StepKeepsOwned(Alone(L.Reconcile(s.ledger, id, p.exactCost).0), I.Reclaim(p.request.childId), o.request);
    }
  }

  // ----- the branch's own steps -----

  lemma OwnStepInvisible(s: State, d: State, step: Step, branch: string, o: Owners)
    requires Agree(s, d, branch, o) && Tidy(s, o) && UsesOwn(step, o) && Belongs(step, branch, o)
    ensures Agree(Apply(s, step).0, d, branch, o)
  {
    match step
    case Begin(call, request) =>
      OwnBegin(s, d, call, request, P.Cost(request.inputTokens, request.maxOutputTokens, s.price), branch, o);
    case Finish(call, result) =>
      if call in s.inFlight {
        OwnFinish(s, d, call, result, P.Cost(result.inputTokens, result.outputTokens, s.price), branch, o);
      }
    case ProviderFails(call) =>
    case Release(id, hash) => OwnRelease(s, d, id, hash, branch, o);
  }

  lemma OwnBegin(s: State, d: State, call: nat, request: Request, worstCase: Result<nat>, branch: string, o: Owners)
    requires Agree(s, d, branch, o) && Tidy(s, o) && UsesOwn(Begin(call, request), o) && request.childId == branch
    ensures Agree(BeginPriced(s, call, request, worstCase).0, d, branch, o)
  {
    if worstCase.Ok? {
      I.OwnStepInvisible(Alone(s.ledger), Alone(d.ledger),
                         I.Reserve(request.childId, worstCase.value, request.requestId), branch, o.request);
    }
  }

  lemma OwnFinish(s: State, d: State, call: nat, result: ProviderResult, cost: Result<nat>, branch: string, o: Owners)
    requires Agree(s, d, branch, o) && Tidy(s, o) && call in s.inFlight && o.call(call) == branch
    ensures Agree(FinishPriced(s, call, result, cost).0, d, branch, o)
  {
    var request := s.inFlight[call];
    CallRemoved(s, d, call, branch, o);
    if cost.Ok? && request.childId in s.circuits {
      var breaker := s.circuits[request.childId];
      var (judged, verdict) := C.Evaluate(breaker.config, breaker.state, cost.value);
      if verdict.Ok? {
        var t := s.(inFlight := s.inFlight - {call});
        CircuitMoved(t, d, request.childId, breaker.(state := judged), branch, o);
        CompletionHeld(t.(circuits := s.circuits[request.childId := breaker.(state := judged)]), d, request.requestId,
                       Pending(request, result, cost.value, verdict.value, None), branch, o);
      }
    }
  }

  lemma OwnRelease(s: State, d: State, id: string, hash: string, branch: string, o: Owners)
    requires Agree(s, d, branch, o) && Tidy(s, o) && o.request(id) == branch
    ensures Agree(ReleasePaid(s, id, hash).0, d, branch, o)
  {
    if id in s.pending && s.pending[id].released.None? {
      OwnLedgerRelease(s.ledger, d.ledger, id, s.pending[id], branch, o);
      var t := ReleasePaid(s, id, hash).0;
      ReleaseShape(s, id, hash);
      if t.pending != s.pending {
        LedgersReplaced(s, d, t.ledger, d.ledger, branch, o);
        CompletionHeld(s.(ledger := t.ledger), d, id, t.pending[id], branch, o);
      } else if t.ledger != s.ledger {
        LedgersReplaced(s, d, t.ledger, d.ledger, branch, o);
      }
    }
  }

  /** What a first release changes: nothing, the ledger, or the ledger and the held completion. */
  lemma ReleaseShape(s: State, id: string, hash: string)
    requires id in s.pending && s.pending[id].released.None?
    ensures var t := ReleasePaid(s, id, hash).0;
            && (t.ledger == s.ledger || t.ledger == ReleasedLedger(s.ledger, id, s.pending[id]))
            && id in t.pending && t == s.(ledger := t.ledger, pending := s.pending[id := t.pending[id]])
            && (t.pending != s.pending ==> t.ledger == ReleasedLedger(s.ledger, id, s.pending[id]))
            && (t.pending == s.pending ==> t == s.(ledger := t.ledger))
  {
    assert s.pending[id := s.pending[id]] == s.pending;
  }

  /** The ledger a release leaves: settled, and reclaimed when the call had tripped its branch. */
  function ReleasedLedger(ledger: L.State, id: string, p: Pending): L.State {
    var (settled, r) := L.Reconcile(ledger, id, p.exactCost);
    if r.Ok? && p.circuit.status.Tripped? then L.Reclaim(settled, p.request.childId).0 else settled
  }

  lemma OwnLedgerRelease(ledger: L.State, other: L.State, id: string, p: Pending, branch: string, o: Owners)
    requires I.Agree(Alone(ledger), Alone(other), branch, o.request) && I.Owned(Alone(ledger), o.request)
    requires o.request(id) == branch == p.request.childId
    ensures I.Agree(Alone(ReleasedLedger(ledger, id, p)), Alone(other), branch, o.request)
    ensures L.Reconcile(ledger, id, p.exactCost).1.Err? ==> L.Reconcile(ledger, id, p.exactCost).0 == ledger
  {
    var settled := L.Reconcile(ledger, id, p.exactCost).0;
    I.OwnStepInvisible(Alone(ledger), Alone(other), I.Reconcile(id, p.exactCost), branch, o.request);
    I.StepKeepsOwned(Alone(ledger), I.Reconcile(id, p.exactCost), o.request);
    I.OwnStepInvisible(Alone(settled), Alone(other), I.Reclaim(p.request.childId), branch, o.request);
  }

  // ----- everyone else's steps -----

  lemma OtherStepAgrees(s: State, d: State, step: Step, branch: string, o: Owners)
    requires Agree(s, d, branch, o) && Tidy(s, o) && Sound(s.ledger) && Sound(d.ledger)
    requires UsesOwn(step, o) && !Belongs(step, branch, o)
    ensures Apply(s, step).1 == Apply(d, step).1 && Agree(Apply(s, step).0, Apply(d, step).0, branch, o)
  {
    match step
    case Begin(call, request) =>
      OtherBegin(s, d, call, request, P.Cost(request.inputTokens, request.maxOutputTokens, s.price), branch, o);
    case Finish(call, result) =>
      if call in s.inFlight {
        OtherFinish(s, d, call, result, P.Cost(result.inputTokens, result.outputTokens, s.price), branch, o);
      }
    case ProviderFails(call) =>
    case Release(id, hash) => OtherRelease(s, d, id, hash, branch, o);
    case Restart =>
      L.FundedRestores(s.ledger);
      L.FundedRestores(d.ledger);
  }

  lemma OtherBegin(s: State, d: State, call: nat, request: Request, worstCase: Result<nat>, branch: string, o: Owners)
    requires Agree(s, d, branch, o) && Tidy(s, o) && Sound(s.ledger) && Sound(d.ledger)
    requires UsesOwn(Begin(call, request), o) && request.childId != branch
    ensures BeginPriced(s, call, request, worstCase).1 == BeginPriced(d, call, request, worstCase).1
    ensures Agree(BeginPriced(s, call, request, worstCase).0, BeginPriced(d, call, request, worstCase).0, branch, o)
  {
    if worstCase.Ok? {
      var c, id := request.childId, request.requestId;
      ReserveShared(s.ledger, d.ledger, c, worstCase.value, id, branch, o);
      ReservedAlike(s, d, call, request, L.Reserve(s.ledger, c, worstCase.value, id).0,
                    L.Reserve(d.ledger, c, worstCase.value, id).0, branch, o);
    }
  }

  lemma ReservedAlike(s: State, d: State, call: nat, request: Request, ls: L.State, ld: L.State, branch: string,
                      o: Owners)
    requires Agree(s, d, branch, o) && I.Agree(Alone(ls), Alone(ld), branch, o.request)
    ensures Agree(s.(ledger := ls, inFlight := s.inFlight[call := request]),
                  d.(ledger := ld, inFlight := d.inFlight[call := request]), branch, o)
  {
    LedgersReplaced(s, d, ls, ld, branch, o);
    CallAdded(s.(ledger := ls), d.(ledger := ld), call, request, branch, o);
  }

  lemma ReserveShared(b: L.State, d: L.State, childId: string, maximum: int, id: string, branch: string, o: Owners)
    requires I.Agree(Alone(b), Alone(d), branch, o.request) && I.Owned(Alone(b), o.request) && Sound(b) && Sound(d)
    requires o.request(id) == childId != branch
    ensures L.Reserve(b, childId, maximum, id).1 == L.Reserve(d, childId, maximum, id).1
    ensures I.Agree(Alone(L.Reserve(b, childId, maximum, id).0), Alone(L.Reserve(d, childId, maximum, id).0), branch,
                    o.request)
  {
    I.FundedRootsAgree(b, d, childId, maximum);
    I.OtherStepAgrees(Alone(b), Alone(d), I.Reserve(childId, maximum, id), branch, o.request);
  }

  lemma OtherFinish(s: State, d: State, call: nat, result: ProviderResult, cost: Result<nat>, branch: string, o: Owners)
    requires Agree(s, d, branch, o) && Tidy(s, o) && call in s.inFlight && o.call(call) != branch
    ensures call in d.inFlight
    ensures FinishPriced(s, call, result, cost).1 == FinishPriced(d, call, result, cost).1
    ensures Agree(FinishPriced(s, call, result, cost).0, FinishPriced(d, call, result, cost).0, branch, o)
  {
    var request := s.inFlight[call];
    assert call in d.inFlight && d.inFlight[call] == request && request.childId != branch;
    CallRemoved(s, d, call, branch, o);
    if cost.Ok? && request.childId in s.circuits {
      var breaker := s.circuits[request.childId];
      assert request.childId in d.circuits && d.circuits[request.childId] == breaker;
      JudgedAlike(s.(inFlight := s.inFlight - {call}), d.(inFlight := d.inFlight - {call}), request, result, cost.value,
                  C.Evaluate(breaker.config, breaker.state, cost.value), breaker, branch, o);
    }
  }

  lemma JudgedAlike(s: State, d: State, request: Request, result: ProviderResult, cost: nat,
                    judgement: (C.State, Result<C.Verdict>),
                    breaker: Breaker, branch: string, o: Owners)
    requires Agree(s, d, branch, o)
    ensures judgement.1.Ok? ==>
              var moved, held := breaker.(state := judgement.0),
                  Pending(request, result, cost, judgement.1.value, None);
              Agree(s.(circuits := s.circuits[request.childId := moved],
                       pending := s.pending[request.requestId := held]),
                    d.(circuits := d.circuits[request.childId := moved],
                       pending := d.pending[request.requestId := held]), branch, o)
  {
    if judgement.1.Ok? {
      var moved, held := breaker.(state := judgement.0), Pending(request, result, cost, judgement.1.value, None);
      CircuitMoved(s, d, request.childId, moved, branch, o);
      CompletionHeld(s.(circuits := s.circuits[request.childId := moved]),
                     d.(circuits := d.circuits[request.childId := moved]),
                     request.requestId, held, branch, o);
    }
  }

  lemma OtherRelease(s: State, d: State, id: string, hash: string, branch: string, o: Owners)
    requires Agree(s, d, branch, o) && Tidy(s, o) && o.request(id) != branch
    ensures ReleasePaid(s, id, hash).1 == ReleasePaid(d, id, hash).1
    ensures Agree(ReleasePaid(s, id, hash).0, ReleasePaid(d, id, hash).0, branch, o)
  {
    if id in s.pending && s.pending[id].released.None? {
      SharedLedgerRelease(s.ledger, d.ledger, id, s.pending[id], branch, o);
      SameReply(s, d, id, hash);
      var t, u := ReleasePaid(s, id, hash).0, ReleasePaid(d, id, hash).0;
      LedgersReplaced(s, d, t.ledger, u.ledger, branch, o);
      if ReleasePaid(s, id, hash).1.Released? {
        CompletionHeld(s.(ledger := t.ledger), d.(ledger := u.ledger), id, t.pending[id], branch, o);
      }
    }
  }

  /** Both ledgers answer the two operations of a release alike. */
  predicate AnswerAlike(b: L.State, d: L.State, id: string, p: Pending) {
    var (bs, br) := L.Reconcile(b, id, p.exactCost);
    var (ds, dr) := L.Reconcile(d, id, p.exactCost);
    br == dr && L.Reclaim(bs, p.request.childId).1 == L.Reclaim(ds, p.request.childId).1
  }

  lemma SharedLedgerRelease(b: L.State, d: L.State, id: string, p: Pending, branch: string, o: Owners)
    requires I.Agree(Alone(b), Alone(d), branch, o.request) && I.Owned(Alone(b), o.request)
    requires o.request(id) == p.request.childId != branch
    ensures AnswerAlike(b, d, id, p)
    ensures I.Agree(Alone(ReleasedLedger(b, id, p)), Alone(ReleasedLedger(d, id, p)), branch, o.request)
  {
    I.OtherStepAgrees(Alone(b), Alone(d), I.Reconcile(id, p.exactCost), branch, o.request);
    I.StepKeepsOwned(Alone(b), I.Reconcile(id, p.exactCost), o.request);
    var settled, also := L.Reconcile(b, id, p.exactCost).0, L.Reconcile(d, id, p.exactCost).0;
    I.OtherStepAgrees(Alone(settled), Alone(also), I.Reclaim(p.request.childId), branch, o.request);
  }

  lemma SameReply(s: State, d: State, id: string, hash: string)
    requires id in s.pending && id in d.pending && s.pending[id] == d.pending[id] && s.pending[id].released.None?
    requires s.payerWallet == d.payerWallet && AnswerAlike(s.ledger, d.ledger, id, s.pending[id])
    ensures var (t, r) := ReleasePaid(s, id, hash);
            var (u, q) := ReleasePaid(d, id, hash);
            && r == q
            && (r.Released? ==>
                  && t.ledger == ReleasedLedger(s.ledger, id, s.pending[id])
                  && u.ledger == ReleasedLedger(d.ledger, id, s.pending[id])
                  && id in t.pending && id in u.pending && t.pending[id] == u.pending[id]
                  && t == s.(ledger := t.ledger, pending := s.pending[id := t.pending[id]])
                  && u == d.(ledger := u.ledger, pending := d.pending[id := t.pending[id]]))
            && (!r.Released? ==>
                  (t == s && u == d)
                  || (t == s.(ledger := ReleasedLedger(s.ledger, id, s.pending[id]))
                      && u == d.(ledger := ReleasedLedger(d.ledger, id, s.pending[id]))))
  {
  }

  // ----- the two-run theorem -----

  lemma {:induction false} RunsAgree(s: State, steps: seq<Step>, branch: string, o: Owners)
    requires Tidy(s, o) && Sound(s.ledger) && Apart(steps, o)
    ensures Tidy(Run(s, steps).0, o) && Sound(Run(s, steps).0.ledger)
            && Sound(Run(s, Without(steps, branch, o)).0.ledger)
    ensures Agree(Run(s, steps).0, Run(s, Without(steps, branch, o)).0, branch, o)
    ensures Run(s, Without(steps, branch, o)).1 == RepliesWithout(steps, Run(s, steps).1, branch, o)
    decreases |steps|
  {
    if steps != [] {
      var front, step := steps[..|steps| - 1], steps[|steps| - 1];
      RunsAgree(s, front, branch, o);
      assert UsesOwn(step, o);
      var full, partial := Run(s, front), Run(s, Without(front, branch, o));
      assert Run(s, steps).1[..|front|] == full.1;
      StepStaysTidy(full.0, step, o);
      StepStaysSound(full.0, step);
      if Belongs(step, branch, o) {
        OwnStepInvisible(full.0, partial.0, step, branch, o);
        assert Without(steps, branch, o) == Without(front, branch, o);
      } else {
        OtherStepAgrees(full.0, partial.0, step, branch, o);
        StepStaysSound(partial.0, step);
        assert Without(steps, branch, o)[..|Without(front, branch, o)|] == Without(front, branch, o);
      }
    }
  }

  /**
    Take any interleaving of calls and restarts on a funded service whose branches use their own request ids and
    call numbers, and delete every step of one branch: each remaining step is answered as before, receipts
    included, and every other branch ends with the same account, circuit, reservations, completions and calls.
   */
  lemma ServiceIsolation(s: State, steps: seq<Step>, branch: string, o: Owners)
    requires Idle(s) && L.Funded(s.ledger) && s.ledger.root.authorized > 0 && Apart(steps, o)
    ensures Run(s, Without(steps, branch, o)).1 == RepliesWithout(steps, Run(s, steps).1, branch, o)
    ensures Agree(Run(s, steps).0, Run(s, Without(steps, branch, o)).0, branch, o)
  {
    L.FreshConserved(s.ledger.mandateId, s.ledger.root.authorized, L.AuthorizedOf(s.ledger.children));
    RunsAgree(s, steps, branch, o);
  }
}
