/**
  Branch isolation: whole runs of ledger and circuit operations, with and without one branch's steps.
  A run that keeps request ids apart gives every other branch the same outcomes and the same accounts.
 */
module Isolation {
  import opened Results
  import opened MapSums
  import L = Ledger
  import C = Circuit

  datatype Branches = Branches(ledger: L.State, config: C.Config, circuits: map<string, C.State>)

  datatype Op =
    | Reserve(childId: string, maximum: int, requestId: string)
    | Reconcile(requestId: string, actual: int)
    | Reclaim(childId: string)
    | Evaluate(childId: string, cost: int)

  datatype Outcome =
    | Reservation(reservation: Result<L.Reservation>)
    | Reclaimed(micros: Result<int>)
    | Judged(verdict: Result<C.Verdict>)

  function Step(b: Branches, op: Op): (Branches, Outcome) {
    match op
    case Reserve(childId, maximum, requestId) =>
      var (ledger, r) := L.Reserve(b.ledger, childId, maximum, requestId);
      (b.(ledger := ledger), Reservation(r))
    case Reconcile(requestId, actual) =>
      var (ledger, r) := L.Reconcile(b.ledger, requestId, actual);
      (b.(ledger := ledger), Reservation(r))
    case Reclaim(childId) =>
      var (ledger, r) := L.Reclaim(b.ledger, childId);
      (b.(ledger := ledger), Reclaimed(r))
    case Evaluate(childId, cost) =>
      if childId !in b.circuits then (b, Judged(Err("UNKNOWN_CHILD")))
      else
        var (circuit, r) := C.Evaluate(b.config, b.circuits[childId], cost);
        (b.(circuits := b.circuits[childId := circuit]), Judged(r))
  }

  /** The final state of a run, and the outcome of each of its steps. */
  function Run(b: Branches, ops: seq<Op>): (r: (Branches, seq<Outcome>))
    ensures |r.1| == |ops|
    decreases |ops|
  {
    if ops == [] then (b, [])
    else
      var (next, first) := Step(b, ops[0]);
      var (last, rest) := Run(next, ops[1..]);
      (last, [first] + rest)
  }

  function Fresh(maximum: int, allocations: map<string, int>, config: C.Config): Branches {
    Branches(L.Fresh("", maximum, allocations), config, map c | c in allocations :: C.FRESH)
  }

  ghost predicate Inv(b: Branches) {
    L.Conserved(b.ledger) && L.Funded(b.ledger)
  }

  /** No step of any run unbalances the books or overdraws the root. */
  lemma {:induction false} RunKeepsBooks(b: Branches, ops: seq<Op>)
    requires L.Conserved(b.ledger)
    ensures L.Conserved(Run(b, ops).0.ledger)
    ensures L.Funded(b.ledger) ==> L.Funded(Run(b, ops).0.ledger)
    ensures Run(b, ops).0.ledger.root.authorized == b.ledger.root.authorized
    decreases |ops|
  {
    if ops != [] {
      StepKeepsBooks(b, ops[0]);
      RunKeepsBooks(Step(b, ops[0]).0, ops[1..]);
    }
  }

  lemma StepKeepsBooks(b: Branches, op: Op)
    requires L.Conserved(b.ledger)
    ensures L.Conserved(Step(b, op).0.ledger)
    ensures L.Funded(b.ledger) ==> L.Funded(Step(b, op).0.ledger)
    ensures Step(b, op).0.ledger.root.authorized == b.ledger.root.authorized
  {
    match op
    case Reserve(childId, maximum, requestId) => L.ReserveConserves(b.ledger, childId, maximum, requestId);
    case Reconcile(requestId, actual) => L.ReconcileConserves(b.ledger, requestId, actual);
    case Reclaim(childId) => L.ReclaimConserves(b.ledger, childId);
    case Evaluate(childId, cost) =>
  }

  /** What a run's reclaiming steps returned, in total. */
  function ReclaimedTotal(outcomes: seq<Outcome>): int {
    if outcomes == [] then 0
    else
      (if outcomes[0].Reclaimed? && outcomes[0].micros.Ok? then outcomes[0].micros.value else 0)
      + ReclaimedTotal(outcomes[1..])
  }

  /** Authority is conserved over every run: the parent regains exactly what the run's reclaiming steps returned. */
  lemma {:induction false} AuthorityIsConserved(b: Branches, ops: seq<Op>)
    ensures L.Unallocated(Run(b, ops).0.ledger) == L.Unallocated(b.ledger) + ReclaimedTotal(Run(b, ops).1)
    decreases |ops|
  {
    if ops != [] {
      var (next, first) := Step(b, ops[0]);
      AuthorityIsConserved(next, ops[1..]);
      assert Run(b, ops).1[1..] == Run(next, ops[1..]).1;
      match ops[0]
      case Reserve(childId, maximum, requestId) => L.AuthorityMoves(b.ledger, childId, maximum, requestId, 0);
      case Reconcile(requestId, actual) => L.AuthorityMoves(b.ledger, "", 0, requestId, actual);
      case Reclaim(childId) => L.AuthorityMoves(b.ledger, childId, 0, "", 0);
      case Evaluate(_, _) =>
    }
  }

  /** After any run from a fresh, funded ledger, an exported state restores to itself. */
  lemma ReachableStatesRestore(maximum: int, allocations: map<string, int>, config: C.Config, ops: seq<Op>)
    requires maximum > 0
    requires L.Funded(L.Fresh("", maximum, allocations))
    ensures var s := Run(Fresh(maximum, allocations, config), ops).0.ledger;
            L.Restore(s) == Ok(s)
  {
    L.FreshConserved("", maximum, allocations);
    RunKeepsBooks(Fresh(maximum, allocations, config), ops);
    L.FundedRestores(Run(Fresh(maximum, allocations, config), ops).0.ledger);
  }

  // ----- when the root check can fire -----

  const ROOT_EXCEEDED: Outcome := Reservation(Err("ROOT_BUDGET_EXCEEDED"))

  lemma {:induction false} FundedNeverHitsRoot(b: Branches, ops: seq<Op>)
    requires Inv(b)
    ensures ROOT_EXCEEDED !in Run(b, ops).1
    decreases |ops|
  {
    if ops != [] {
      StepKeepsBooks(b, ops[0]);
      FundedNeverHitsRoot(Step(b, ops[0]).0, ops[1..]);
      if ops[0].Reserve? && ops[0].childId in b.ledger.children {
        L.RootCoversChild(b.ledger, ops[0].childId);
      }
      assert Step(b, ops[0]).1 != ROOT_EXCEEDED;
    }
  }

  ghost function Wanted(children: map<string, L.Account>, ids: set<string>): map<string, int> {
    map c | c in children && c in ids :: L.Positive(children[c].authorized)
  }

  /** Children that have drawn nothing yet and together want more than the root has: some run overdraws it. */
  lemma {:induction false} OverdrawingRun(b: Branches, ids: set<string>) returns (ops: seq<Op>)
    requires ids <= b.ledger.children.Keys
    requires forall c :: c in ids ==> b.ledger.children[c].reserved == 0 && b.ledger.children[c].settled == 0
    requires ids !! b.ledger.reservations.Keys
    requires 0 <= b.ledger.root.Available() < Sum(Wanted(b.ledger.children, ids))
    ensures ROOT_EXCEEDED in Run(b, ops).1
    decreases |ids|
  {
    var wanted := Wanted(b.ledger.children, ids);
    if ids == {} {
      SumZero(wanted);
      assert false;
    } else {
      var c :| c in ids;
      var amount := b.ledger.children[c].authorized;
      var rest := ids - {c};
      SumPick(wanted, c);
      assert wanted - {c} == Wanted(b.ledger.children, rest);
      if amount <= 0 {
        ops := OverdrawingRun(b, rest);
      } else {
        var op := Reserve(c, amount, c);
        var (next, outcome) := Step(b, op);
        if b.ledger.root.Available() < amount {
          ops := [op];
          assert Run(b, ops).1[0] == ROOT_EXCEEDED;
        } else {
          assert Wanted(next.ledger.children, rest) == Wanted(b.ledger.children, rest);
          var tail := OverdrawingRun(next, rest);
          ops := [op] + tail;
          assert ops[1..] == tail;
          assert Run(b, ops).1 == [outcome] + Run(next, tail).1;
        }
      }
    }
  }

  /**
    The root check is implied by the child checks, in every run, exactly when the positive allocations
    fit in the root. The constructor compares the plain sum, which negative allocations can pull down.
   */
  lemma RootCheckReachableIff(maximum: int, allocations: map<string, int>, config: C.Config)
    requires maximum > 0
    ensures (exists ops :: ROOT_EXCEEDED in Run(Fresh(maximum, allocations, config), ops).1)
       <==> Sum(map c | c in allocations :: L.Positive(allocations[c])) > maximum
  {
    var b := Fresh(maximum, allocations, config);
    var ceilings := map c | c in allocations :: L.Positive(allocations[c]);
    L.FreshConserved("", maximum, allocations);
    assert L.CeilingOf(b.ledger.children) == ceilings;
    assert Wanted(b.ledger.children, allocations.Keys) == ceilings;
    if Sum(ceilings) > maximum {
      var ops := OverdrawingRun(b, allocations.Keys);
      assert ROOT_EXCEEDED in Run(b, ops).1;
    } else {
      forall ops ensures ROOT_EXCEEDED !in Run(b, ops).1 {
        FundedNeverHitsRoot(b, ops);
      }
    }
  }

  // ----- the two-run theorem -----

  /** The branch a step belongs to, when each request id belongs to the branch `owner` gives it. */
  function BranchOf(op: Op, owner: string -> string): string {
    match op
    case Reserve(childId, _, _) => childId
    case Reconcile(requestId, _) => owner(requestId)
    case Reclaim(childId) => childId
    case Evaluate(childId, _) => childId
  }

  /** Request ids are not shared: a reservation is made only by the branch that owns its id. */
  predicate Apart(ops: seq<Op>, owner: string -> string) {
    forall i :: 0 <= i < |ops| ==> MadeByOwner(ops[i], owner)
  }

  function Without(ops: seq<Op>, branch: string, owner: string -> string): seq<Op> {
    if ops == [] then []
    else (if BranchOf(ops[0], owner) == branch then [] else [ops[0]]) + Without(ops[1..], branch, owner)
  }

  /** The outcomes of the steps that do not belong to `branch`. */
  function OutcomesWithout(ops: seq<Op>, outcomes: seq<Outcome>, branch: string, owner: string -> string): seq<Outcome>
    requires |ops| == |outcomes|
  {
    if ops == [] then []
    else (if BranchOf(ops[0], owner) == branch then [] else [outcomes[0]])
         + OutcomesWithout(ops[1..], outcomes[1..], branch, owner)
  }

  predicate SameOutside<V(==)>(m: map<string, V>, n: map<string, V>, branch: string) {
    && (forall k :: k in m && k != branch ==> k in n && n[k] == m[k])
    && (forall k :: k in n && k != branch ==> k in m)
  }

  ghost predicate SameReservations(m: map<string, L.Reservation>, n: map<string, L.Reservation>, branch: string,
                                   owner: string -> string) {
    && (forall r :: r in m && owner(r) != branch ==> r in n && n[r] == m[r])
    && (forall r :: r in n && owner(r) != branch ==> r in m)
  }

  /** The two states agree on everything that does not belong to `branch`. */
  ghost predicate Agree(b: Branches, d: Branches, branch: string, owner: string -> string) {
    && b.config == d.config
    && SameOutside(b.ledger.children, d.ledger.children, branch)
    && SameOutside(b.circuits, d.circuits, branch)
    && SameReservations(b.ledger.reservations, d.ledger.reservations, branch, owner)
  }

  ghost predicate Owned(b: Branches, owner: string -> string) {
    forall r :: r in b.ledger.reservations ==> b.ledger.reservations[r].childId == owner(r)
  }

  predicate MadeByOwner(op: Op, owner: string -> string) {
    op.Reserve? ==> owner(op.requestId) == op.childId
  }

  lemma StepKeepsOwned(b: Branches, op: Op, owner: string -> string)
    requires Owned(b, owner) && MadeByOwner(op, owner)
    ensures Owned(Step(b, op).0, owner)
  {
  }

  /** A step of the deleted branch is invisible to the others. */
  lemma OwnStepInvisible(b: Branches, d: Branches, op: Op, branch: string, owner: string -> string)
    requires Agree(b, d, branch, owner) && Owned(b, owner) && MadeByOwner(op, owner)
    requires BranchOf(op, owner) == branch
    ensures Agree(Step(b, op).0, d, branch, owner)
  {
  }

  /** The root check decides a reservation of `childId` alike in both ledgers. */
  predicate RootAgrees(b: L.State, d: L.State, childId: string, maximum: int) {
    childId in b.children && childId in d.children && b.children[childId] == d.children[childId]
    && b.children[childId].Available() >= maximum > 0 ==>
      (b.root.Available() < maximum <==> d.root.Available() < maximum)
  }

  /** Any other step has the same outcome in both states, and keeps them in agreement. */
  lemma OtherStepAgrees(b: Branches, d: Branches, op: Op, branch: string, owner: string -> string)
    requires Agree(b, d, branch, owner) && Owned(b, owner) && MadeByOwner(op, owner)
    requires BranchOf(op, owner) != branch
    requires op.Reserve? ==> RootAgrees(b.ledger, d.ledger, op.childId, op.maximum)
    ensures Step(b, op).1 == Step(d, op).1
    ensures Agree(Step(b, op).0, Step(d, op).0, branch, owner)
  {
    match op
    case Reserve(childId, maximum, requestId) => ReserveAgrees(b, d, childId, maximum, requestId, branch, owner);
    case Reconcile(requestId, actual) => ReconcileAgrees(b, d, requestId, actual, branch, owner);
    case Reclaim(childId) =>
    case Evaluate(childId, cost) =>
  }

  lemma ReserveAgrees(b: Branches, d: Branches, childId: string, maximum: int, requestId: string, branch: string,
                      owner: string -> string)
    requires Agree(b, d, branch, owner) && owner(requestId) == childId != branch
    requires RootAgrees(b.ledger, d.ledger, childId, maximum)
    ensures var op := Reserve(childId, maximum, requestId);
            Step(b, op).1 == Step(d, op).1 && Agree(Step(b, op).0, Step(d, op).0, branch, owner)
  {
  }

  lemma ReconcileAgrees(b: Branches, d: Branches, requestId: string, actual: int, branch: string,
                        owner: string -> string)
    requires Agree(b, d, branch, owner) && Owned(b, owner) && owner(requestId) != branch
    ensures var op := Reconcile(requestId, actual);
            Step(b, op).1 == Step(d, op).1 && Agree(Step(b, op).0, Step(d, op).0, branch, owner)
  {
    if requestId in b.ledger.reservations {
      var held := b.ledger.reservations[requestId];
      assert requestId in d.ledger.reservations && d.ledger.reservations[requestId] == held;
      assert held.childId == owner(requestId);
      SameReconciliation(b.ledger, d.ledger, requestId, actual);
      SettledAlike(b, d, L.Reconcile(b.ledger, requestId, actual).0, L.Reconcile(d.ledger, requestId, actual).0,
                   held.childId, requestId, branch, owner);
    } else {
      assert requestId !in d.ledger.reservations;
    }
  }

  /** Two ledgers that share a reservation and its child settle it alike, whatever their roots are. */
  lemma SameReconciliation(b: L.State, d: L.State, requestId: string, actual: int)
    requires requestId in b.reservations && requestId in d.reservations
             && b.reservations[requestId] == d.reservations[requestId]
    requires var c := b.reservations[requestId].childId;
             (c in b.children <==> c in d.children) && (c in b.children ==> b.children[c] == d.children[c])
    ensures var (t, r) := L.Reconcile(b, requestId, actual);
            var (u, q) := L.Reconcile(d, requestId, actual);
            && r == q && OnlyTouches(b, t, b.reservations[requestId].childId, requestId)
            && OnlyTouches(d, u, b.reservations[requestId].childId, requestId)
            && SameAt(t, u, b.reservations[requestId].childId, requestId)
  {
  }

  /** Of the children and reservations, at most child `c` and reservation `r` differ. */
  predicate OnlyTouches(s: L.State, t: L.State, c: string, r: string) {
    && t.children.Keys == s.children.Keys && (forall k :: k in s.children && k != c ==> t.children[k] == s.children[k])
    && t.reservations.Keys == s.reservations.Keys
    && (forall k :: k in s.reservations && k != r ==> t.reservations[k] == s.reservations[k])
  }

  predicate SameAt(t: L.State, u: L.State, c: string, r: string) {
    && (c in t.children && c in u.children ==> t.children[c] == u.children[c])
    && (r in t.reservations && r in u.reservations ==> t.reservations[r] == u.reservations[r])
  }

  lemma SettledAlike(b: Branches, d: Branches, t: L.State, u: L.State, c: string, r: string, branch: string,
                     owner: string -> string)
    requires Agree(b, d, branch, owner) && OnlyTouches(b.ledger, t, c, r) && OnlyTouches(d.ledger, u, c, r)
             && SameAt(t, u, c, r)
    ensures Agree(b.(ledger := t), d.(ledger := u), branch, owner)
  {
  }

  /** In funded ledgers the root check never binds, so it cannot differ. */
  lemma FundedRootsAgree(b: L.State, d: L.State, childId: string, maximum: int)
    requires L.Conserved(b) && L.Funded(b) && L.Conserved(d) && L.Funded(d)
    ensures RootAgrees(b, d, childId, maximum)
  {
    if childId in b.children && childId in d.children {
      L.RootCoversChild(b, childId);
      L.RootCoversChild(d, childId);
    }
  }

  lemma {:induction false} RunsAgree(b: Branches, d: Branches, ops: seq<Op>, branch: string, owner: string -> string)
    requires Inv(b) && Inv(d) && Owned(b, owner) && Agree(b, d, branch, owner) && Apart(ops, owner)
    ensures Agree(Run(b, ops).0, Run(d, Without(ops, branch, owner)).0, branch, owner)
    ensures Run(d, Without(ops, branch, owner)).1 == OutcomesWithout(ops, Run(b, ops).1, branch, owner)
    decreases |ops|
  {
    if ops != [] {
      var op, rest := ops[0], ops[1..];
      assert MadeByOwner(op, owner);
      var b' := Step(b, op).0;
      StepKeepsBooks(b, op);
      StepKeepsOwned(b, op, owner);
      assert Run(b, ops).1[1..] == Run(b', rest).1;
      if BranchOf(op, owner) == branch {
        OwnStepInvisible(b, d, op, branch, owner);
        RunsAgree(b', d, rest, branch, owner);
        assert Without(ops, branch, owner) == Without(rest, branch, owner);
      } else {
        if op.Reserve? {
          FundedRootsAgree(b.ledger, d.ledger, op.childId, op.maximum);
        }
        OtherStepAgrees(b, d, op, branch, owner);
        StepKeepsBooks(d, op);
        RunsAgree(b', Step(d, op).0, rest, branch, owner);
        assert Without(ops, branch, owner)[1..] == Without(rest, branch, owner);
      }
    }
  }

  /**
    Isolation. Take any run from a fresh ledger whose positive allocations fit in the root, with request
    ids kept apart, and delete every step of one branch: each remaining step has the same outcome, and
    every other branch ends with the same account, circuit and reservations.
   */
  lemma BranchIsolation(maximum: int, allocations: map<string, int>, config: C.Config,
                        ops: seq<Op>, branch: string, owner: string -> string)
    requires L.Funded(L.Fresh("", maximum, allocations))
    requires Apart(ops, owner)
    ensures var b := Fresh(maximum, allocations, config);
            var (full, outcomes) := Run(b, ops);
            var (partial, remaining) := Run(b, Without(ops, branch, owner));
            && remaining == OutcomesWithout(ops, outcomes, branch, owner)
            && SameOutside(full.ledger.children, partial.ledger.children, branch)
            && SameOutside(full.circuits, partial.circuits, branch)
            && SameReservations(full.ledger.reservations, partial.ledger.reservations, branch, owner)
  {
    L.FreshConserved("", maximum, allocations);
    var b := Fresh(maximum, allocations, config);
    RunsAgree(b, b, ops, branch, owner);
  }
}
