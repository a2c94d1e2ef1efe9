/**
  The two outcome matrices: the strict one behind the final report, and the one behind the settlement snapshot.
  Both judge the same rows; they were written separately, and the strict one refines the other.
 */
module OutcomeMatrix {
  import opened Results
  import opened Sorting
  import Decimal
  import Settlement

  datatype State =
    | NotDispatched
    | CompletedVerified
    | TerminalRejectedNotBilled
    | ReconciledNotBilled
    | ReconciledBilledWithResponse
    | ReconciledBilledNoResponse
    | UnresolvedProviderOutcome

  datatype Status = Denied | Failed | Completed | ReconciliationHold

  /** A row of any table, about one request. */
  datatype Row<T> = Row(requestId: string, data: T)

  datatype Attempt = Attempt(state: State, gateClassifications: int, actualCost: Option<string>, reservedCost: string)
  datatype Execution = Execution(status: Status, actualCost: Option<string>, queued: bool, cohortOrdinal: Option<int>)
  datatype Decision = Allow | Deny
  datatype Token = Token(primitiveEntered: bool, preDispatchProof: bool)
  datatype Queue = Queue(completed: bool, attempts: int)
  datatype Evidence = Evidence
  datatype Reconciliation = Reconciliation(accepted: bool, terminalState: State)

  datatype Inventory = Inventory(requestIds: seq<string>, attempts: seq<Row<Attempt>>, executions: seq<Row<Execution>>,
                                 decisions: seq<Row<Decision>>, tokens: seq<Row<Token>>, queues: seq<Row<Queue>>,
                                 evidence: seq<Row<Evidence>>, reconciliations: seq<Row<Reconciliation>>)

  /** What a table says about a request. */
  function RowsFor<T>(rows: seq<Row<T>>, id: string): (r: seq<T>)
    ensures |r| <= |rows|
    ensures (exists row :: row in rows && row.requestId == id) <==> r != []
  {
    if rows == [] then []
    else (if rows[0].requestId == id then [rows[0].data] else []) + RowsFor(rows[1..], id)
  }

  function ExactMicros(text: Option<string>): Option<nat> {
    if text.None? then None else Decimal.Exact(text.value)
  }

  // ----- the strict matrix -----

  predicate Behavioral(state: State) {
    state.CompletedVerified? || state.ReconciledBilledWithResponse?
  }

  predicate AcceptedResolution(rows: seq<Reconciliation>, state: State) {
    |rows| == 1 && rows[0].accepted && rows[0].terminalState == state
  }

  /** One execution in the given status, one allowing decision, one token that entered the primitive. */
  predicate Dispatched(inv: Inventory, id: string, status: Status) {
    var executions, decisions, tokens := RowsFor(inv.executions, id), RowsFor(inv.decisions, id),
        RowsFor(inv.tokens, id);
    && |executions| == 1 && executions[0].status == status
    && |decisions| == 1 && decisions[0].Allow?
    && |tokens| == 1 && tokens[0].primitiveEntered
  }

  predicate NeverDispatched(inv: Inventory, id: string) {
    var executions, decisions, tokens := RowsFor(inv.executions, id), RowsFor(inv.decisions, id),
        RowsFor(inv.tokens, id);
    || (executions == [] && decisions == [] && tokens == [])
    || (&& |executions| == 1 && |decisions| == 1
        && ((executions[0].status.Denied? && decisions[0].Deny? && tokens == [])
            || (executions[0].status.Failed? && decisions[0].Allow? && tokens == [])
            || (executions[0].status.Failed? && decisions[0].Allow?
                && |tokens| == 1 && tokens[0].preDispatchProof && !tokens[0].primitiveEntered)))
  }

  predicate StrictAttempt(inv: Inventory, id: string, a: Attempt) {
    var queues, evidence, reconciliations := RowsFor(inv.queues, id), RowsFor(inv.evidence, id),
        RowsFor(inv.reconciliations, id);
    var actual, reservation := ExactMicros(a.actualCost), ExactMicros(Some(a.reservedCost));
    && reservation.Some?
    && if Behavioral(a.state) then
         && Dispatched(inv, id, Completed)
         && actual.Some? && actual.value <= reservation.value
         && var execution := RowsFor(inv.executions, id)[0];
         && execution.actualCost == a.actualCost
         && execution.queued && execution.cohortOrdinal.Some? && execution.cohortOrdinal.value >= 1
         && |queues| == 1 && queues[0].completed && 1 <= queues[0].attempts <= 3
         && |evidence| == 1
         && (if a.state.CompletedVerified? then reconciliations == [] else AcceptedResolution(reconciliations, a.state))
       else
         && queues == [] && evidence == []
         && if a.state.NotDispatched? then
              NeverDispatched(inv, id) && actual == Some(0) && reconciliations == []
            else if a.state.UnresolvedProviderOutcome? then
              && Dispatched(inv, id, ReconciliationHold)
              && |reconciliations| == 1 && reconciliations[0].terminalState == a.state && !reconciliations[0].accepted
            else
              && Dispatched(inv, id, Failed)
              && AcceptedResolution(reconciliations, a.state)
              && (if a.state.ReconciledBilledNoResponse? then actual.Some? else actual == Some(0))
  }

  predicate AllPlanned<T(==)>(inv: Inventory, rows: seq<Row<T>>) {
    forall r :: r in rows ==> r.requestId in inv.requestIds
  }

  predicate MatrixValid(inv: Inventory) {
    && (forall a :: a in inv.attempts ==> StrictAttempt(inv, a.requestId, a.data))
    && AllPlanned(inv, inv.executions) && AllPlanned(inv, inv.decisions) && AllPlanned(inv, inv.tokens)
    && AllPlanned(inv, inv.queues) && AllPlanned(inv, inv.evidence) && AllPlanned(inv, inv.reconciliations)
  }

  // ----- the matrix of the settlement snapshot -----

  /** What a table says about a request, when it has exactly one row about it. */
  function One<T>(rows: seq<Row<T>>, id: string): Option<T> {
    var found := RowsFor(rows, id);
    if |found| == 1 then Some(found[0]) else None
  }

  predicate ClosureAttempt(inv: Inventory, id: string, a: Attempt) {
    var execution, decision, token := One(inv.executions, id), One(inv.decisions, id), One(inv.tokens, id);
    var queue, evidence := One(inv.queues, id), One(inv.evidence, id);
    && a.gateClassifications == 1
    && if Behavioral(a.state) then
         && execution.Some? && execution.value.status.Completed? && execution.value.actualCost == a.actualCost
         && execution.value.queued && execution.value.cohortOrdinal.Some? && execution.value.cohortOrdinal.value >= 1
         && decision == Some(Allow) && token.Some? && token.value.primitiveEntered
         && queue.Some? && queue.value.completed && 1 <= queue.value.attempts <= 3
         && evidence.Some? && a.actualCost.Some?
       else
         && queue.None? && evidence.None?
         && if a.state.NotDispatched? then
              && a.actualCost == Some("0")
              && (|| (execution.None? && decision.None? && token.None?)
                  || (&& execution.Some?
                      && ((execution.value.status.Denied? && decision == Some(Deny) && token.None?)
                          || (execution.value.status.Failed? && decision == Some(Allow) && token.None?)
                          || (execution.value.status.Failed? && decision == Some(Allow)
                              && token.Some? && token.value.preDispatchProof && !token.value.primitiveEntered))))
            else if a.state.UnresolvedProviderOutcome? then
              execution.Some? && execution.value.status.ReconciliationHold? && decision == Some(Allow) && token.Some?
              && token.value.primitiveEntered
            else
              && execution.Some? && execution.value.status.Failed? && decision == Some(Allow) && token.Some?
              && token.value.primitiveEntered
              && (if a.state.ReconciledBilledNoResponse? then a.actualCost.Some? else a.actualCost == Some("0"))
  }

  predicate OutcomeMatrixValid(inv: Inventory) {
    forall a :: a in inv.attempts ==> ClosureAttempt(inv, a.requestId, a.data)
  }

  /** Over all inventories: the strict matrix, with one gate classification per attempt, implies the other. */
  lemma StrictRefinesClosure(inv: Inventory)
    requires MatrixValid(inv) && forall a :: a in inv.attempts ==> a.data.gateClassifications == 1
    ensures OutcomeMatrixValid(inv)
  {
    forall a | a in inv.attempts ensures ClosureAttempt(inv, a.requestId, a.data) {
      StrictAttemptIff(inv, a.requestId, a.data);
    }
  }

  // ----- the strict matrix, state by state -----

  /** The one execution, decision and token of a call that went out. */
  ghost predicate WentOut(inv: Inventory, id: string, status: Status) {
    && (exists e :: RowsFor(inv.executions, id) == [e] && e.status == status)
    && RowsFor(inv.decisions, id) == [Allow]
    && (exists k :: RowsFor(inv.tokens, id) == [k] && k.primitiveEntered)
  }

  /** A finished execution in the queue, with its cost, its place in the cohort and its evidence. */
  ghost predicate Delivered(inv: Inventory, id: string, a: Attempt) {
    && (exists e :: RowsFor(inv.executions, id) == [e] && e.actualCost == a.actualCost && e.queued
                    && e.cohortOrdinal.Some? && e.cohortOrdinal.value > 0)
    && (exists q :: RowsFor(inv.queues, id) == [q] && q.completed && q.attempts in {1, 2, 3})
    && |RowsFor(inv.evidence, id)| == 1
  }

  /** What each outcome looks like in the tables. */
  ghost predicate LooksLike(inv: Inventory, id: string, a: Attempt) {
    var actual, reservation := ExactMicros(a.actualCost), ExactMicros(Some(a.reservedCost));
    var rows := RowsFor(inv.reconciliations, id);
    var kept := RowsFor(inv.queues, id) != [] || RowsFor(inv.evidence, id) != [];
    && reservation.Some?
    && match a.state
       case CompletedVerified =>
         WentOut(inv, id, Completed) && Delivered(inv, id, a) && rows == []
         && actual.Some? && actual.value <= reservation.value
       case ReconciledBilledWithResponse =>
         WentOut(inv, id, Completed) && Delivered(inv, id, a)
         && rows == [Reconciliation(true, ReconciledBilledWithResponse)]
         && actual.Some? && actual.value <= reservation.value
       case NotDispatched =>
         !kept && rows == [] && actual == Some(0) && NeverWentOut(inv, id)
       case TerminalRejectedNotBilled =>
         !kept && WentOut(inv, id, Failed) && rows == [Reconciliation(true, TerminalRejectedNotBilled)]
         && actual == Some(0)
       case ReconciledNotBilled =>
         !kept && WentOut(inv, id, Failed) && rows == [Reconciliation(true, ReconciledNotBilled)] && actual == Some(0)
       case ReconciledBilledNoResponse =>
         !kept && WentOut(inv, id, Failed) && rows == [Reconciliation(true, ReconciledBilledNoResponse)] && actual.Some?
       case UnresolvedProviderOutcome =>
         !kept && WentOut(inv, id, ReconciliationHold)
         && rows == [Reconciliation(false, UnresolvedProviderOutcome)]
  }

  /** No trace at all, or a denial, or a failure that no token or only an unused one stands for. */
  ghost predicate NeverWentOut(inv: Inventory, id: string) {
    var executions, decisions := RowsFor(inv.executions, id), RowsFor(inv.decisions, id);
    var tokens := RowsFor(inv.tokens, id);
    || (executions == [] && decisions == [] && tokens == [])
    || (exists e :: executions == [e] && e.status.Denied? && decisions == [Deny] && tokens == [])
    || (exists e :: executions == [e] && e.status.Failed? && decisions == [Allow]
                    && (tokens == [] || tokens == [Token(false, true)]))
  }

  lemma WentOutIff(inv: Inventory, id: string, status: Status)
    ensures Dispatched(inv, id, status) <==> WentOut(inv, id, status)
  {
    var executions, tokens := RowsFor(inv.executions, id), RowsFor(inv.tokens, id);
    if |executions| == 1 {
      assert executions == [executions[0]];
    }
    if |tokens| == 1 {
      assert tokens == [tokens[0]];
    }
  }

  lemma NeverWentOutIff(inv: Inventory, id: string)
    ensures NeverDispatched(inv, id) <==> NeverWentOut(inv, id)
  {
    var executions, tokens := RowsFor(inv.executions, id), RowsFor(inv.tokens, id);
    if |executions| == 1 {
      assert executions == [executions[0]];
    }
    if |tokens| == 1 {
      assert tokens == [tokens[0]];
    }
  }

  lemma DeliveredIff(inv: Inventory, id: string, a: Attempt)
    requires |RowsFor(inv.executions, id)| == 1
    ensures Delivered(inv, id, a) <==>
              var execution, queues := RowsFor(inv.executions, id)[0], RowsFor(inv.queues, id);
              && execution.actualCost == a.actualCost && execution.queued
              && execution.cohortOrdinal.Some? && execution.cohortOrdinal.value >= 1
              && |queues| == 1 && queues[0].completed && queues[0].attempts in {1, 2, 3}
              && |RowsFor(inv.evidence, id)| == 1
  {
    var executions, queues := RowsFor(inv.executions, id), RowsFor(inv.queues, id);
    assert executions == [executions[0]];
    if |queues| == 1 {
      assert queues == [queues[0]];
    }
  }

  lemma ResolvedIff(inv: Inventory, id: string, accepted: bool, state: State)
    ensures RowsFor(inv.reconciliations, id) == [Reconciliation(accepted, state)] <==>
              var rows := RowsFor(inv.reconciliations, id);
              |rows| == 1 && rows[0].accepted == accepted && rows[0].terminalState == state
  {
    var rows := RowsFor(inv.reconciliations, id);
    if |rows| == 1 {
      assert rows == [rows[0]];
    }
  }

  lemma StrictWhenUsable(inv: Inventory, id: string, a: Attempt)
    requires Behavioral(a.state)
    ensures StrictAttempt(inv, id, a) <==> LooksLike(inv, id, a)
  {
    ResolvedIff(inv, id, true, a.state);
    WentOutIff(inv, id, Completed);
    if |RowsFor(inv.executions, id)| == 1 {
      DeliveredIff(inv, id, a);
    }
  }

  lemma StrictWhenNotDispatched(inv: Inventory, id: string, a: Attempt)
    requires a.state.NotDispatched?
    ensures StrictAttempt(inv, id, a) <==> LooksLike(inv, id, a)
  {
    NeverWentOutIff(inv, id);
  }

  lemma StrictOtherwise(inv: Inventory, id: string, a: Attempt)
    requires !Behavioral(a.state) && !a.state.NotDispatched?
    ensures StrictAttempt(inv, id, a) <==> LooksLike(inv, id, a)
  {
    ResolvedIff(inv, id, !a.state.UnresolvedProviderOutcome?, a.state);
    WentOutIff(inv, id, if a.state.UnresolvedProviderOutcome? then ReconciliationHold else Failed);
  }

  /** The strict judgement on an attempt in any state is exactly that it looks as that state should. */
  lemma StrictIs(inv: Inventory, id: string, a: Attempt)
    ensures StrictAttempt(inv, id, a) <==> LooksLike(inv, id, a)
  {
    if Behavioral(a.state) {
      StrictWhenUsable(inv, id, a);
    } else if a.state.NotDispatched? {
      StrictWhenNotDispatched(inv, id, a);
    } else {
      StrictOtherwise(inv, id, a);
    }
  }

  /** The reconciliation rows the strict matrix wants for a state. */
  predicate ReconciliationsFit(rows: seq<Reconciliation>, state: State) {
    if state.NotDispatched? || state.CompletedVerified? then rows == []
    else if state.UnresolvedProviderOutcome? then |rows| == 1 && rows[0].terminalState == state && !rows[0].accepted
    else AcceptedResolution(rows, state)
  }

  /**
    All that the strict matrix asks of an attempt beyond the other one: no table repeats a row about it, its amounts
    are exact, a usable outcome stays within its reservation, and its reconciliation rows fit its state.
   */
  predicate Residual(inv: Inventory, id: string, a: Attempt) {
    var actual, reservation := ExactMicros(a.actualCost), ExactMicros(Some(a.reservedCost));
    && |RowsFor(inv.executions, id)| <= 1 && |RowsFor(inv.decisions, id)| <= 1 && |RowsFor(inv.tokens, id)| <= 1
    && |RowsFor(inv.queues, id)| <= 1 && |RowsFor(inv.evidence, id)| <= 1
    && reservation.Some?
    && (Behavioral(a.state) ==> actual.Some? && actual.value <= reservation.value)
    && (a.state.ReconciledBilledNoResponse? ==> actual.Some?)
    && ReconciliationsFit(RowsFor(inv.reconciliations, id), a.state)
  }

  /** The strict judgement of an attempt is exactly the other one together with the residual conditions. */
  lemma StrictAttemptIff(inv: Inventory, id: string, a: Attempt)
    ensures StrictAttempt(inv, id, a) && a.gateClassifications == 1
            <==> ClosureAttempt(inv, id, a) && Residual(inv, id, a)
  {
    ZeroText(a);
    if Behavioral(a.state) {
      BehavioralIff(inv, id, a);
    } else if a.state.NotDispatched? {
      NotDispatchedIff(inv, id, a);
    } else {
      DispatchedIff(inv, id, a);
    }
  }

  lemma ZeroText(a: Attempt)
    ensures ExactMicros(a.actualCost) == Some(0) <==> a.actualCost == Some("0")
  {
    Decimal.PrintedIsCanonical(0);
    if a.actualCost.Some? {
      Decimal.ExactIsPrinted(a.actualCost.value, 0);
    }
  }

  lemma BehavioralIff(inv: Inventory, id: string, a: Attempt)
    requires Behavioral(a.state)
    ensures StrictAttempt(inv, id, a) && a.gateClassifications == 1
            <==> ClosureAttempt(inv, id, a) && Residual(inv, id, a)
  {
  }

  lemma NotDispatchedIff(inv: Inventory, id: string, a: Attempt)
    requires a.state.NotDispatched? && (ExactMicros(a.actualCost) == Some(0) <==> a.actualCost == Some("0"))
    ensures StrictAttempt(inv, id, a) && a.gateClassifications == 1
            <==> ClosureAttempt(inv, id, a) && Residual(inv, id, a)
  {
  }

  lemma DispatchedIff(inv: Inventory, id: string, a: Attempt)
    requires !Behavioral(a.state) && !a.state.NotDispatched?
    requires ExactMicros(a.actualCost) == Some(0) <==> a.actualCost == Some("0")
    ensures StrictAttempt(inv, id, a) && a.gateClassifications == 1
            <==> ClosureAttempt(inv, id, a) && Residual(inv, id, a)
  {
  }

  predicate OnlyPlanned(inv: Inventory) {
    && AllPlanned(inv, inv.executions) && AllPlanned(inv, inv.decisions) && AllPlanned(inv, inv.tokens)
    && AllPlanned(inv, inv.queues) && AllPlanned(inv, inv.evidence) && AllPlanned(inv, inv.reconciliations)
  }

  /** When the two matrices agree: the strict one is the other, the residual conditions and planned rows only. */
  lemma MatricesAgreeIff(inv: Inventory)
    ensures MatrixValid(inv) && (forall a :: a in inv.attempts ==> a.data.gateClassifications == 1)
            <==> OutcomeMatrixValid(inv) && OnlyPlanned(inv)
                 && (forall a :: a in inv.attempts ==> Residual(inv, a.requestId, a.data))
  {
    forall a | a in inv.attempts
      ensures StrictAttempt(inv, a.requestId, a.data) && a.data.gateClassifications == 1
              <==> ClosureAttempt(inv, a.requestId, a.data) && Residual(inv, a.requestId, a.data)
    {
      StrictAttemptIff(inv, a.requestId, a.data);
    }
  }

  /**
    A table that repeats a row about an attempt, or a usable cost above its reservation, is only seen by the strict
    matrix.
   */
  lemma OnlyStrictSees(inv: Inventory, row: Row<Attempt>)
    requires OutcomeMatrixValid(inv) && row in inv.attempts
    requires || |RowsFor(inv.executions, row.requestId)| > 1
             || (Behavioral(row.data.state) && ExactMicros(Some(row.data.reservedCost)).Some?
                 && (ExactMicros(row.data.actualCost).Some? ==>
                       ExactMicros(row.data.actualCost).value > ExactMicros(Some(row.data.reservedCost)).value))
    ensures !MatrixValid(inv)
  {
    MatricesAgreeIff(inv);
    assert !Residual(inv, row.requestId, row.data);
    assert forall a :: a in inv.attempts ==> ClosureAttempt(inv, a.requestId, a.data);
  }

  /** The refinement is strict: wherever the other matrix accepts no execution row, it accepts any two as well. */
  lemma ClosureTakesTwoRowsForNone(inv: Inventory, row: Row<Attempt>, first: Execution, second: Execution)
    requires OutcomeMatrixValid(inv) && row in inv.attempts && RowsFor(inv.executions, row.requestId) == []
    ensures var id := row.requestId;
            var more := inv.(executions := [Row(id, first)] + ([Row(id, second)] + inv.executions));
            OutcomeMatrixValid(more) && !MatrixValid(more)
  {
    var id := row.requestId;
    var more := inv.(executions := [Row(id, first)] + ([Row(id, second)] + inv.executions));
    forall a | a in more.attempts ensures ClosureAttempt(more, a.requestId, a.data) {
      RowsForCons(Row(id, first), [Row(id, second)] + inv.executions, a.requestId);
      RowsForCons(Row(id, second), inv.executions, a.requestId);
      assert ClosureAttempt(inv, a.requestId, a.data);
    }
    RowsForCons(Row(id, first), [Row(id, second)] + inv.executions, id);
    RowsForCons(Row(id, second), inv.executions, id);
    OnlyStrictSees(more, row);
  }

  /** And it ignores the reservation: any text in its place is accepted alike, also one below a usable call's cost. */
  lemma ClosureIgnoresReservation(inv: Inventory, i: nat, reserved: string)
    requires i < |inv.attempts|
    ensures var row := inv.attempts[i];
            var changed := inv.(attempts := inv.attempts[i := row.(data := row.data.(reservedCost := reserved))]);
            && (OutcomeMatrixValid(changed) <==> OutcomeMatrixValid(inv))
            && (OutcomeMatrixValid(inv) && Behavioral(row.data.state)
                && ExactMicros(row.data.actualCost).Some? && ExactMicros(Some(reserved)).Some?
                && ExactMicros(row.data.actualCost).value > ExactMicros(Some(reserved)).value ==>
                  !MatrixValid(changed))
  {
    var row := inv.attempts[i];
    var other := row.(data := row.data.(reservedCost := reserved));
    var changed := inv.(attempts := inv.attempts[i := other]);
    forall k | 0 <= k < |inv.attempts|
      ensures ClosureAttempt(inv, inv.attempts[k].requestId, inv.attempts[k].data)
              <==> ClosureAttempt(changed, changed.attempts[k].requestId, changed.attempts[k].data)
    {
      SameClosure(inv, changed, inv.attempts[k].requestId, inv.attempts[k].data, changed.attempts[k].data);
    }
    if OutcomeMatrixValid(inv) && MatrixValid(changed) {
      StrictAttemptIff(changed, other.requestId, other.data);
    }
  }

  lemma SameClosure(inv: Inventory, changed: Inventory, id: string, a: Attempt, b: Attempt)
    requires changed == inv.(attempts := changed.attempts) && b == a.(reservedCost := b.reservedCost)
    ensures ClosureAttempt(inv, id, a) <==> ClosureAttempt(changed, id, b)
  {
  }

  // ----- the report -----

  predicate Unique(s: seq<string>) {
    forall i, j :: 0 <= i < j < |s| ==> s[i] != s[j]
  }

  predicate ExactMembers(actual: seq<string>, expected: seq<string>) {
    Unique(actual) && |actual| == |expected| && Sort(TextLeq, actual) == Sort(TextLeq, expected)
  }

  function Ids<T>(rows: seq<Row<T>>): (r: seq<string>)
    ensures |r| == |rows| && forall i :: 0 <= i < |rows| ==> r[i] == rows[i].requestId
  {
    seq(|rows|, i requires 0 <= i < |rows| => rows[i].requestId)
  }

  function CountOf(rows: seq<Row<Attempt>>, state: State): nat {
    if rows == [] then 0
    else (if rows[0].data.state == state then 1 else 0) + CountOf(rows[1..], state)
  }

  function Usable(rows: seq<Row<Attempt>>): nat {
    CountOf(rows, CompletedVerified) + CountOf(rows, ReconciledBilledWithResponse)
  }

  function NonUsable(rows: seq<Row<Attempt>>): nat {
    CountOf(rows, TerminalRejectedNotBilled) + CountOf(rows, ReconciledNotBilled)
        + CountOf(rows, ReconciledBilledNoResponse)
  }

  /** The known cost of all attempts: every exact actual cost outside the unresolved ones. */
  function KnownCost(rows: seq<Row<Attempt>>): nat {
    if rows == [] then 0
    else
      var amount := ExactMicros(rows[0].data.actualCost);
      (if rows[0].data.state.UnresolvedProviderOutcome? || amount.None? then 0 else amount.value) + KnownCost(rows[1..])
  }

  function UnresolvedExposure(rows: seq<Row<Attempt>>): nat {
    if rows == [] then 0
    else
      var amount := ExactMicros(Some(rows[0].data.reservedCost));
      (if !rows[0].data.state.UnresolvedProviderOutcome? || amount.None? then 0 else amount.value)
          + UnresolvedExposure(rows[1..])
  }

  datatype Costs = Costs(known: string, unresolved: string, knownCap: string, unresolvedCap: string)

  datatype SettlementFacts = SettlementFacts(passed: bool, acceptedOffset: Option<nat>, journalCardinality: nat,
                                             digestWellFormed: bool, finalRows: int)

  predicate AttemptsValid(inv: Inventory) {
    && |inv.attempts| == 100 && Unique(Ids(inv.attempts)) && ExactMembers(Ids(inv.attempts), inv.requestIds)
  }

  predicate KnownCostValid(inv: Inventory, costs: Costs) {
    var known, cap := ExactMicros(Some(costs.known)), ExactMicros(Some(costs.knownCap));
    known.Some? && cap == Some(3_000_000) && known.value == KnownCost(inv.attempts) && known.value <= 3_000_000
  }

  predicate ExposureValid(inv: Inventory, costs: Costs) {
    var unresolved, cap := ExactMicros(Some(costs.unresolved)), ExactMicros(Some(costs.unresolvedCap));
    unresolved.Some? && cap == Some(320_000) && unresolved.value == UnresolvedExposure(inv.attempts)
    && unresolved.value == 0
  }

  function Reason(ok: bool, code: string): seq<string> {
    if ok then [] else [code]
  }

  /** The reasons a report fails; `others` are those of the inventories that are not modelled here. */
  function Reasons(inv: Inventory, settlement: SettlementFacts, costs: Costs, others: seq<string>): seq<string> {
    var attemptsValid := AttemptsValid(inv);
    Reason(|inv.requestIds| == 100 && Unique(inv.requestIds) && attemptsValid, "ATTEMPT_INVENTORY_INVALID")
    + Reason(attemptsValid && forall a :: a in inv.attempts ==> a.data.gateClassifications == 1,
             "CLASSIFICATION_CARDINALITY_INVALID")
    + Reason(attemptsValid && MatrixValid(inv), "OUTCOME_MATRIX_INVALID")
    + others
    + Reason(settlement.passed && Settlement.DownstreamOffset(settlement.acceptedOffset, settlement.journalCardinality)
             && settlement.digestWellFormed && settlement.finalRows >= 100, "SETTLEMENT_INVALID")
    + Reason(KnownCostValid(inv, costs), "KNOWN_COST_CAP_EXCEEDED")
    + Reason(ExposureValid(inv, costs), "UNRESOLVED_EXPOSURE_INVALID")
    + Reason(Usable(inv.attempts) >= 99 && CountOf(inv.attempts, NotDispatched) == 0, "USABLE_OUTCOMES_INVALID")
    + Reason(CountOf(inv.attempts, UnresolvedProviderOutcome) == 0, "UNRESOLVED_OUTCOME")
    + Reason(NonUsable(inv.attempts) <= 1, "NONUSABLE_ALLOWANCE_EXCEEDED")
  }

  /** Every attempt is usable, unusable, not dispatched or unresolved, and only one of these. */
  lemma {:induction false} CountsAddUp(rows: seq<Row<Attempt>>)
    ensures Usable(rows) + NonUsable(rows) + CountOf(rows, NotDispatched) + CountOf(rows, UnresolvedProviderOutcome)
            == |rows|
  {
    if rows != [] {
      CountsAddUp(rows[1..]);
    }
  }

  lemma {:induction false} NoneCounted(rows: seq<Row<Attempt>>, state: State)
    requires CountOf(rows, state) == 0
    ensures forall a :: a in rows ==> a.data.state != state
  {
    if rows != [] {
      NoneCounted(rows[1..], state);
      assert rows == [rows[0]] + rows[1..];
    }
  }

  /** The rows that are not about a request. */
  function Without<T(!new)>(rows: seq<Row<T>>, id: string): (rest: seq<Row<T>>)
    ensures |rows| == |RowsFor(rows, id)| + |rest|
    ensures forall r :: r in rest <==> r in rows && r.requestId != id
  {
    if rows == [] then []
    else
      assert rows == [rows[0]] + rows[1..];
      (if rows[0].requestId == id then [] else [rows[0]]) + Without(rows[1..], id)
  }

  lemma {:induction false} WithoutKeepsOthers<T(!new)>(rows: seq<Row<T>>, id: string, other: string)
    requires other != id
    ensures RowsFor(Without(rows, id), other) == RowsFor(rows, other)
  {
    if rows != [] {
      var tail := Without(rows[1..], id);
      WithoutKeepsOthers(rows[1..], id, other);
      if rows[0].requestId == id {
        assert Without(rows, id) == tail;
      } else {
        assert Without(rows, id) == [rows[0]] + tail;
        RowsForCons(rows[0], tail, other);
      }
    }
  }

  lemma RowsForCons<T>(row: Row<T>, rows: seq<Row<T>>, id: string)
    ensures RowsFor([row] + rows, id) == (if row.requestId == id then [row.data] else []) + RowsFor(rows, id)
  {
    assert ([row] + rows)[1..] == rows;
  }

  /** A table whose rows are all about listed requests, one row each, has as many rows as requests. */
  lemma {:induction false} OneRowEach<T(!new)>(rows: seq<Row<T>>, ids: seq<string>)
    requires Unique(ids)
    requires forall r :: r in rows ==> r.requestId in ids
    requires forall id :: id in ids ==> |RowsFor(rows, id)| == 1
    ensures |rows| == |ids|
    decreases ids
  {
    assert rows != [] ==> rows[0] in rows;
    if ids != [] {
      var first, rest := ids[0], Without(rows, ids[0]);
      assert ids == [first] + ids[1..];
      assert first in ids;
      forall id | id in ids[1..] ensures |RowsFor(rest, id)| == 1 {
        var i :| 0 <= i < |ids| - 1 && ids[1..][i] == id;
        assert ids[i + 1] == id && id in ids;
        WithoutKeepsOthers(rows, first, id);
      }
      OneRowEach(rest, ids[1..]);
    }
  }

  lemma {:induction false} UniqueRow<T(!new)>(rows: seq<Row<T>>, row: Row<T>)
    requires Unique(Ids(rows)) && row in rows
    ensures |RowsFor(rows, row.requestId)| == 1
  {
    var ids := Ids(rows);
    assert Ids(rows[1..]) == ids[1..];
    if rows[0].requestId == row.requestId {
      forall k: nat | k < |rows| - 1 ensures rows[1..][k].requestId != row.requestId {
        assert ids[0] != ids[k + 1];
      }
      assert RowsFor(rows[1..], row.requestId) == [];
    } else {
      UniqueRow(rows[1..], row);
    }
  }

  lemma AttemptFor(inv: Inventory, id: string) returns (a: Row<Attempt>)
    requires AttemptsValid(inv) && id in inv.requestIds
    ensures a in inv.attempts && a.requestId == id
  {
    var ids := Ids(inv.attempts);
    SortKeepsElements(TextLeq, ids);
    SortKeepsElements(TextLeq, inv.requestIds);
    assert id in multiset(inv.requestIds);
    assert multiset(ids) == multiset(inv.requestIds);
    assert id in ids;
    var i :| 0 <= i < |ids| && ids[i] == id;
    a := inv.attempts[i];
  }

  /**
    What a passing report means: each of the hundred planned requests has exactly one attempt, execution,
    decision and dispatch token, and the tables hold nothing else; at least ninety-nine outcomes are usable and
    the rest unusable; the known cost is the sum over all attempts; and the snapshot matrix holds too.
   */
  lemma PassingReport(inv: Inventory, settlement: SettlementFacts, costs: Costs, others: seq<string>)
    requires Reasons(inv, settlement, costs, others) == []
    ensures |inv.requestIds| == 100 && Unique(inv.requestIds)
    ensures forall id :: id in inv.requestIds ==>
              && |RowsFor(inv.attempts, id)| == 1
              && |RowsFor(inv.executions, id)| == 1 && |RowsFor(inv.decisions, id)| == 1
              && |RowsFor(inv.tokens, id)| == 1
    ensures |inv.executions| == |inv.decisions| == |inv.tokens| == 100
    ensures Usable(inv.attempts) >= 99 && Usable(inv.attempts) + NonUsable(inv.attempts) == 100
    ensures ExactMicros(Some(costs.known)) == Some(KnownCost(inv.attempts)) && KnownCost(inv.attempts) <= 3_000_000
    ensures OutcomeMatrixValid(inv)
  {
    CountsAddUp(inv.attempts);
    NoneCounted(inv.attempts, NotDispatched);
    StrictRefinesClosure(inv);
    forall id | id in inv.requestIds
      ensures |RowsFor(inv.attempts, id)| == 1
      ensures |RowsFor(inv.executions, id)| == 1 && |RowsFor(inv.decisions, id)| == 1 && |RowsFor(inv.tokens, id)| == 1
    {
      var a := AttemptFor(inv, id);
      UniqueRow(inv.attempts, a);
      assert StrictAttempt(inv, id, a.data);
    }
    OneRowEach(inv.executions, inv.requestIds);
    OneRowEach(inv.decisions, inv.requestIds);
    OneRowEach(inv.tokens, inv.requestIds);
  }

  /** The attempts are those of the planned requests, one each, a hundred in all. */
  ghost predicate OneAttemptEach(inv: Inventory) {
    && |inv.attempts| == 100
    && (forall id :: id in inv.requestIds <==> exists a :: a in inv.attempts && a.requestId == id)
    && (forall i, j :: 0 <= i < j < |inv.attempts| ==> inv.attempts[i].requestId != inv.attempts[j].requestId)
  }

  lemma AttemptsValidIff(inv: Inventory)
    requires |inv.requestIds| == 100 && Unique(inv.requestIds)
    ensures AttemptsValid(inv) <==> OneAttemptEach(inv)
  {
    var ids := Ids(inv.attempts);
    assert forall i :: 0 <= i < |ids| ==> ids[i] == inv.attempts[i].requestId;
    if AttemptsValid(inv) {
      forall id ensures id in inv.requestIds <==> exists a :: a in inv.attempts && a.requestId == id {
        if id in inv.requestIds {
          var a := AttemptFor(inv, id);
        }
        if a :| a in inv.attempts && a.requestId == id {
          PlannedId(inv, a);
        }
      }
    }
    if OneAttemptEach(inv) {
      assert Unique(ids);
      forall id ensures id in ids <==> id in inv.requestIds {
        if id in inv.requestIds {
          var a :| a in inv.attempts && a.requestId == id;
          var i :| 0 <= i < |ids| && inv.attempts[i] == a;
          assert ids[i] == id;
        }
      }
      SameMembersSortAlike(ids, inv.requestIds);
    }
  }

  lemma PlannedId(inv: Inventory, a: Row<Attempt>)
    requires AttemptsValid(inv) && a in inv.attempts
    ensures a.requestId in inv.requestIds
  {
    var ids := Ids(inv.attempts);
    SortKeepsElements(TextLeq, ids);
    SortKeepsElements(TextLeq, inv.requestIds);
    var i :| 0 <= i < |inv.attempts| && inv.attempts[i] == a;
    assert ids[i] in multiset(ids);
  }

  /** The settlement passed at a multiple of five seconds up to two minutes, with a journal entry for each poll. */
  predicate SettledInTime(s: SettlementFacts) {
    && s.passed && s.digestWellFormed && s.finalRows >= 100
    && 1 <= s.journalCardinality <= 25 && s.acceptedOffset == Some(5 * (s.journalCardinality - 1))
  }

  /** The cost text is the printed sum of all attempts, under the cap; nothing is left exposed. */
  predicate CostsAdd(inv: Inventory, costs: Costs) {
    && costs.knownCap == Decimal.Print(3_000_000) && costs.unresolvedCap == Decimal.Print(320_000)
    && costs.known == Decimal.Print(KnownCost(inv.attempts)) && KnownCost(inv.attempts) <= 3_000_000
    && costs.unresolved == Decimal.Print(0) && UnresolvedExposure(inv.attempts) == 0
  }

  /** Every outcome is known, and ninety-nine are usable. */
  predicate OutcomesKnown(inv: Inventory) {
    && Usable(inv.attempts) >= 99
    && forall a :: a in inv.attempts ==> !a.data.state.NotDispatched? && !a.data.state.UnresolvedProviderOutcome?
  }

  lemma SettlementIff(s: SettlementFacts)
    ensures SettledInTime(s) <==>
              && s.passed && s.digestWellFormed && s.finalRows >= 100
              && Settlement.DownstreamOffset(s.acceptedOffset, s.journalCardinality)
  {
  }

  lemma CostsIff(inv: Inventory, costs: Costs)
    ensures CostsAdd(inv, costs) <==> KnownCostValid(inv, costs) && ExposureValid(inv, costs)
  {
    Decimal.ExactIsPrinted(costs.knownCap, 3_000_000);
    Decimal.ExactIsPrinted(costs.known, KnownCost(inv.attempts));
    Decimal.ExactIsPrinted(costs.unresolvedCap, 320_000);
    Decimal.ExactIsPrinted(costs.unresolved, 0);
  }

  lemma AbsentIff(rows: seq<Row<Attempt>>, state: State)
    ensures CountOf(rows, state) == 0 <==> forall a :: a in rows ==> a.data.state != state
  {
    if CountOf(rows, state) == 0 {
      NoneCounted(rows, state);
    } else {
      SomeCounted(rows, state);
    }
  }

  lemma {:induction false} SomeCounted(rows: seq<Row<Attempt>>, state: State)
    requires CountOf(rows, state) > 0
    ensures exists a :: a in rows && a.data.state == state
  {
    if rows[0].data.state == state {
      assert rows[0] in rows;
    } else {
      SomeCounted(rows[1..], state);
    }
  }

  /** Among a hundred attempts the allowance check follows from the others. */
  lemma OutcomesIff(inv: Inventory)
    requires |inv.attempts| == 100
    ensures OutcomesKnown(inv) <==>
              && Usable(inv.attempts) >= 99 && CountOf(inv.attempts, NotDispatched) == 0
              && CountOf(inv.attempts, UnresolvedProviderOutcome) == 0 && NonUsable(inv.attempts) <= 1
  {
    AbsentIff(inv.attempts, NotDispatched);
    AbsentIff(inv.attempts, UnresolvedProviderOutcome);
    CountsAddUp(inv.attempts);
  }

  lemma NoReasons(inv: Inventory, settlement: SettlementFacts, costs: Costs, others: seq<string>)
    ensures Reasons(inv, settlement, costs, others) == [] <==>
            && others == [] && |inv.requestIds| == 100 && Unique(inv.requestIds) && AttemptsValid(inv)
            && (forall a :: a in inv.attempts ==> a.data.gateClassifications == 1) && MatrixValid(inv)
            && settlement.passed && settlement.digestWellFormed && settlement.finalRows >= 100
            && Settlement.DownstreamOffset(settlement.acceptedOffset, settlement.journalCardinality)
            && KnownCostValid(inv, costs) && ExposureValid(inv, costs)
            && Usable(inv.attempts) >= 99 && CountOf(inv.attempts, NotDispatched) == 0
            && CountOf(inv.attempts, UnresolvedProviderOutcome) == 0 && NonUsable(inv.attempts) <= 1
  {
  }

  /** A hundred distinct requests with one attempt each. */
  ghost predicate Complete(inv: Inventory) {
    |inv.requestIds| == 100 && Unique(inv.requestIds) && OneAttemptEach(inv)
  }

  lemma CompleteIff(inv: Inventory)
    ensures Complete(inv) <==> |inv.requestIds| == 100 && Unique(inv.requestIds) && AttemptsValid(inv)
  {
    if |inv.requestIds| == 100 && Unique(inv.requestIds) {
      AttemptsValidIff(inv);
    }
  }

  /**
    Exactly when the report passes: a hundred requests with one attempt each, classified once and in order by the
    strict matrix, every outcome known and ninety-nine usable, the costs adding up, and the settlement in time.
   */
  lemma PassesIff(inv: Inventory, settlement: SettlementFacts, costs: Costs, others: seq<string>)
    ensures Reasons(inv, settlement, costs, others) == [] <==>
            && others == [] && Complete(inv)
            && (forall a :: a in inv.attempts ==> a.data.gateClassifications == 1) && MatrixValid(inv)
            && SettledInTime(settlement) && CostsAdd(inv, costs) && OutcomesKnown(inv)
  {
    CompleteIff(inv);
    SettlementIff(settlement);
    CostsIff(inv, costs);
    if Complete(inv) {
      OutcomesIff(inv);
    }
    NoReasons(inv, settlement, costs, others);
  }
}
