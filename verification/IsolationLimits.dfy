/**
  When branches are isolated: exactly which allocations, and which sharing of request ids, keep one branch out of the
  others' way.
 */
module IsolationLimits {
  import opened Results
  import opened MapSums
  import opened Isolation
  import L = Ledger
  import C = Circuit

  /** Deleting the branch's steps leaves the other steps' outcomes and the other branches' state as they were. */
  ghost predicate Isolated(b: Branches, ops: seq<Op>, branch: string, owner: string -> string) {
    var (full, outcomes) := Run(b, ops);
    var (partial, remaining) := Run(b, Without(ops, branch, owner));
    && remaining == OutcomesWithout(ops, outcomes, branch, owner)
    && SameOutside(full.ledger.children, partial.ledger.children, branch)
    && SameOutside(full.circuits, partial.circuits, branch)
    && SameReservations(full.ledger.reservations, partial.ledger.reservations, branch, owner)
  }

  // ----- who may ask for which request ids -----

  /** Whether a child may ask for a reservation under a request id. */
  type Permission = (string, string) -> bool

  predicate Allowed(op: Op, may: Permission) {
    op.Reserve? ==> may(op.childId, op.requestId)
  }

  predicate Permitted(ops: seq<Op>, may: Permission) {
    forall i :: 0 <= i < |ops| ==> Allowed(ops[i], may)
  }

  /** The children that can draw: they have an allocation, and some request id to use. */
  ghost function Active(allocations: map<string, int>, may: Permission): set<string> {
    set c | c in allocations && allocations[c] > 0 && exists id :: may(c, id)
  }

  predicate AtMostOne(ids: set<string>) {
    forall c, d :: c in ids && d in ids ==> c == d
  }

  /** Every id that an active child may use is attributed to that child, and no other child may ask for it. */
  ghost predicate IdsApart(active: set<string>, may: Permission, owner: string -> string) {
    forall c, id :: c in active && may(c, id) ==> owner(id) == c && forall d :: may(d, id) ==> d == c
  }

  /** Only active children have drawn anything or can, each under its own ids. */
  ghost predicate Drawn(s: L.State, active: set<string>, may: Permission) {
    && (forall c :: c in s.children && c !in active ==>
          s.children[c].reserved == 0 == s.children[c].settled
          && (s.children[c].authorized <= 0 || forall id :: !may(c, id)))
    && (forall r :: r in s.reservations ==> s.reservations[r].childId in active && may(s.reservations[r].childId, r))
  }

  lemma StepKeepsDrawn(b: Branches, op: Op, active: set<string>, may: Permission)
    requires Drawn(b.ledger, active, may) && Allowed(op, may)
    ensures Drawn(Step(b, op).0.ledger, active, may)
  {
    match op
    case Reserve(childId, maximum, requestId) => ReserveKeepsDrawn(b.ledger, childId, maximum, requestId, active, may);
    case Reconcile(requestId, actual) => ReconcileKeepsDrawn(b.ledger, requestId, actual, active, may);
    case Reclaim(childId) =>
    case Evaluate(_, _) =>
  }

  lemma ReserveKeepsDrawn(s: L.State, childId: string, maximum: int, requestId: string,
                          active: set<string>, may: Permission)
    requires Drawn(s, active, may) && may(childId, requestId)
    ensures Drawn(L.Reserve(s, childId, maximum, requestId).0, active, may)
    ensures childId !in active ==> L.Reserve(s, childId, maximum, requestId).0 == s
  {
  }

  lemma ReconcileKeepsDrawn(s: L.State, requestId: string, actual: int, active: set<string>, may: Permission)
    requires Drawn(s, active, may)
    ensures Drawn(L.Reconcile(s, requestId, actual).0, active, may)
  {
  }

  /** A child that cannot draw gets an answer that depends on its own account alone. */
  lemma IdleReserve(b: Branches, d: Branches, op: Op, active: set<string>, may: Permission,
                    branch: string, owner: string -> string)
    requires Drawn(b.ledger, active, may) && Drawn(d.ledger, active, may) && IdsApart(active, may, owner)
    requires op.Reserve? && Allowed(op, may) && op.childId !in active
    ensures Step(b, op).0 == b
    ensures Agree(b, d, branch, owner) && op.childId != branch ==> Step(b, op).1 == Step(d, op).1
  {
    assert op.requestId !in b.ledger.reservations && op.requestId !in d.ledger.reservations;
  }

  // ----- what two runs share -----

  /** The ledger with its active children only. */
  function Part(s: L.State, active: set<string>): L.State {
    s.(children := map c | c in s.children && c in active :: s.children[c])
  }

  /** The active children's ceilings fit in the root, so that its check does not bind. */
  ghost predicate Covered(s: L.State, active: set<string>) {
    L.Conserved(Part(s, active)) && L.Funded(Part(s, active))
  }

  lemma StepKeepsCovered(b: Branches, op: Op, active: set<string>, may: Permission)
    requires Covered(b.ledger, active) && Drawn(b.ledger, active, may) && Allowed(op, may)
    ensures Covered(Step(b, op).0.ledger, active)
  {
    var s, part := b.ledger, Part(b.ledger, active);
    match op
    case Reserve(childId, maximum, requestId) =>
      L.ReserveConserves(part, childId, maximum, requestId);
      ReservePart(s, childId, maximum, requestId, active, may);
    case Reconcile(requestId, actual) =>
      L.ReconcileConserves(part, requestId, actual);
      ReconcilePart(s, requestId, actual, active, may);
    case Reclaim(childId) =>
      L.ReclaimConserves(part, childId);
      ReclaimPart(s, childId, active);
    case Evaluate(_, _) =>
  }

  lemma ReservePart(s: L.State, childId: string, maximum: int, requestId: string, active: set<string>, may: Permission)
    requires Drawn(s, active, may) && may(childId, requestId)
    ensures Part(L.Reserve(s, childId, maximum, requestId).0, active)
            == L.Reserve(Part(s, active), childId, maximum, requestId).0
  {
    ReserveKeepsDrawn(s, childId, maximum, requestId, active, may);
  }

  lemma ReconcilePart(s: L.State, requestId: string, actual: int, active: set<string>, may: Permission)
    requires Drawn(s, active, may)
    ensures Part(L.Reconcile(s, requestId, actual).0, active) == L.Reconcile(Part(s, active), requestId, actual).0
  {
  }

  lemma ReclaimPart(s: L.State, childId: string, active: set<string>)
    ensures Part(L.Reclaim(s, childId).0, active) == L.Reclaim(Part(s, active), childId).0
  {
  }

  /** The root decides alike in both runs: it never binds, or it is the same, or only the deleted branch draws on it. */
  ghost predicate RootsLinked(b: L.State, d: L.State, branch: string, active: set<string>) {
    || (Covered(b, active) && Covered(d, active))
    || (AtMostOne(active) && (branch !in active ==> b.root == d.root))
  }

  ghost predicate Linked(b: Branches, d: Branches, branch: string, owner: string -> string,
                         active: set<string>, may: Permission) {
    && Agree(b, d, branch, owner) && Drawn(b.ledger, active, may) && Drawn(d.ledger, active, may)
    && RootsLinked(b.ledger, d.ledger, branch, active)
  }

  lemma OwnStepKeepsLinked(b: Branches, d: Branches, op: Op, branch: string, owner: string -> string,
                           active: set<string>, may: Permission)
    requires Linked(b, d, branch, owner, active, may) && IdsApart(active, may, owner)
    requires Allowed(op, may) && BranchOf(op, owner) == branch
    ensures Linked(Step(b, op).0, d, branch, owner, active, may)
  {
    if op.Reserve? && op.childId !in active {
      IdleReserve(b, d, op, active, may, branch, owner);
    } else {
      assert Owned(b, owner);
      OwnStepInvisible(b, d, op, branch, owner);
      StepKeepsDrawn(b, op, active, may);
      if Covered(b.ledger, active) && Covered(d.ledger, active) {
        StepKeepsCovered(b, op, active, may);
      } else if branch !in active {
        RootUntouched(b, op, owner, active, may);
      }
    }
  }

  lemma RootUntouched(b: Branches, op: Op, owner: string -> string, active: set<string>, may: Permission)
    requires Drawn(b.ledger, active, may) && Owned(b, owner) && Allowed(op, may) && BranchOf(op, owner) !in active
    ensures Step(b, op).0.ledger.root == b.ledger.root
  {
    if op.Reserve? {
      ReserveKeepsDrawn(b.ledger, op.childId, op.maximum, op.requestId, active, may);
    }
  }

  lemma OtherStepKeepsLinked(b: Branches, d: Branches, op: Op, branch: string, owner: string -> string,
                             active: set<string>, may: Permission)
    requires Linked(b, d, branch, owner, active, may) && IdsApart(active, may, owner)
    requires Allowed(op, may) && BranchOf(op, owner) != branch
    ensures Step(b, op).1 == Step(d, op).1
    ensures Linked(Step(b, op).0, Step(d, op).0, branch, owner, active, may)
  {
    if op.Reserve? && op.childId !in active {
      IdleReserve(b, d, op, active, may, branch, owner);
      IdleReserve(d, b, op, active, may, branch, owner);
    } else {
      assert Owned(b, owner) && Owned(d, owner);
      if op.Reserve? {
        LinkedRootsAgree(b.ledger, d.ledger, op.childId, op.maximum, branch, active);
      }
      OtherStepAgrees(b, d, op, branch, owner);
      StepKeepsDrawn(b, op, active, may);
      StepKeepsDrawn(d, op, active, may);
      if Covered(b.ledger, active) && Covered(d.ledger, active) {
        StepKeepsCovered(b, op, active, may);
        StepKeepsCovered(d, op, active, may);
      } else if branch !in active {
        RootsStayEqual(b, d, op, branch, owner);
      }
    }
  }

  lemma LinkedRootsAgree(b: L.State, d: L.State, childId: string, maximum: int, branch: string, active: set<string>)
    requires RootsLinked(b, d, branch, active) && childId in active && childId != branch
    ensures RootAgrees(b, d, childId, maximum)
  {
    if Covered(b, active) && Covered(d, active) && childId in b.children && childId in d.children {
      L.RootCoversChild(Part(b, active), childId);
      L.RootCoversChild(Part(d, active), childId);
    }
  }

  lemma RootsStayEqual(b: Branches, d: Branches, op: Op, branch: string, owner: string -> string)
    requires Agree(b, d, branch, owner) && Owned(b, owner) && MadeByOwner(op, owner) && BranchOf(op, owner) != branch
    requires b.ledger.root == d.ledger.root
    ensures Step(b, op).0.ledger.root == Step(d, op).0.ledger.root
  {
    match op
    case Reserve(_, _, _) =>
    case Reconcile(requestId, _) =>
    case Reclaim(_) =>
    case Evaluate(_, _) =>
  }

  lemma {:induction false} LinkedRunsAgree(b: Branches, d: Branches, ops: seq<Op>, branch: string,
                                           owner: string -> string, active: set<string>, may: Permission)
    requires Linked(b, d, branch, owner, active, may) && IdsApart(active, may, owner) && Permitted(ops, may)
    ensures Agree(Run(b, ops).0, Run(d, Without(ops, branch, owner)).0, branch, owner)
    ensures Run(d, Without(ops, branch, owner)).1 == OutcomesWithout(ops, Run(b, ops).1, branch, owner)
    decreases |ops|
  {
    if ops != [] {
      var op, rest := ops[0], ops[1..];
      assert Allowed(op, may);
      var b' := Step(b, op).0;
      assert Run(b, ops).1[1..] == Run(b', rest).1;
      if BranchOf(op, owner) == branch {
        OwnStepKeepsLinked(b, d, op, branch, owner, active, may);
        LinkedRunsAgree(b', d, rest, branch, owner, active, may);
        assert Without(ops, branch, owner) == Without(rest, branch, owner);
      } else {
        OtherStepKeepsLinked(b, d, op, branch, owner, active, may);
        LinkedRunsAgree(b', Step(d, op).0, rest, branch, owner, active, may);
        assert Without(ops, branch, owner)[1..] == Without(rest, branch, owner);
      }
    }
  }

  /** The active children's allocations. */
  function Shares(allocations: map<string, int>, ids: set<string>): map<string, int> {
    map c | c in allocations && c in ids :: L.Positive(allocations[c])
  }

  /** Ids apart, and the active allocations fitting the root or only one of them: isolated in every permitted run. */
  lemma PermittedIsolates(maximum: int, allocations: map<string, int>, config: C.Config, may: Permission,
                          owner: string -> string, ops: seq<Op>, branch: string)
    requires var active := Active(allocations, may);
             IdsApart(active, may, owner) && (Sum(Shares(allocations, active)) <= maximum || AtMostOne(active))
    requires Permitted(ops, may)
    ensures Isolated(Fresh(maximum, allocations, config), ops, branch, owner)
  {
    var b, active := Fresh(maximum, allocations, config), Active(allocations, may);
    var shares := Shares(allocations, active);
    assert Part(b.ledger, active) == L.Fresh("", maximum, shares);
    assert L.CeilingOf(L.Fresh("", maximum, shares).children) == shares;
    L.FreshConserved("", maximum, shares);
    LinkedRunsAgree(b, b, ops, branch, owner, active, may);
  }

  /** At most one child has a positive allocation. */
  predicate OneDraws(allocations: map<string, int>) {
    forall c, d :: c in allocations && d in allocations && allocations[c] > 0 && allocations[d] > 0 ==> c == d
  }

  lemma OneDrawsIsolates(maximum: int, allocations: map<string, int>, config: C.Config,
                         ops: seq<Op>, branch: string, owner: string -> string)
    requires OneDraws(allocations) && Apart(ops, owner)
    ensures Isolated(Fresh(maximum, allocations, config), ops, branch, owner)
  {
    var may: Permission := (c, id) => owner(id) == c;
    forall i | 0 <= i < |ops| ensures Allowed(ops[i], may) {
      assert MadeByOwner(ops[i], owner);
    }
    PermittedIsolates(maximum, allocations, config, may, owner, ops, branch);
  }

  // ----- ids that are not apart -----

  /** In every state, one child's reservation of an id makes any other child's request under it a conflict. */
  lemma SharedIdReaches(b: Branches, a: string, x: int, c: string, y: int, id: string)
    requires a != c && id !in b.ledger.reservations
    requires Step(b, Reserve(a, x, id)).1.reservation.Ok?
    ensures Step(Step(b, Reserve(a, x, id)).0, Reserve(c, y, id)).1 == Reservation(Err("IDEMPOTENCY_CONFLICT"))
    ensures Step(b, Reserve(c, y, id)).1 != Reservation(Err("IDEMPOTENCY_CONFLICT"))
  {
  }

  lemma TwoStepsBreak(b: Branches, first: Op, second: Op, branch: string, owner: string -> string)
    requires BranchOf(first, owner) == branch != BranchOf(second, owner)
    requires Step(Step(b, first).0, second).1 != Step(b, second).1
    ensures !Isolated(b, [first, second], branch, owner)
  {
    var ops := [first, second];
    ShortRuns(b, first, second);
    ShortWithout(first, second, branch, owner);
    var outcomes := Run(b, ops).1;
    assert ops[1..] == [second] && outcomes[1..] == [outcomes[1]];
    assert OutcomesWithout([second], [outcomes[1]], branch, owner) == [outcomes[1]];
    assert OutcomesWithout(ops, outcomes, branch, owner) == [outcomes[1]];
    assert Run(b, Without(ops, branch, owner)).1[0] == Step(b, second).1;
  }

  /** An active child whose id is shared, or attributed to another branch: two steps show it. */
  lemma SharedIdBreaks(maximum: int, allocations: map<string, int>, config: C.Config, may: Permission,
                       owner: string -> string) returns (ops: seq<Op>, branch: string)
    requires maximum > 0 && !IdsApart(Active(allocations, may), may, owner)
    ensures Permitted(ops, may) && !Isolated(Fresh(maximum, allocations, config), ops, branch, owner)
  {
    var b, active := Fresh(maximum, allocations, config), Active(allocations, may);
    var c, id :| c in active && may(c, id) && !(owner(id) == c && forall d :: may(d, id) ==> d == c);
    var first := Reserve(c, 1, id);
    branch := c;
    if owner(id) != c {
      ops := [first, Reconcile(id, 1)];
      TwoStepsBreak(b, first, Reconcile(id, 1), c, owner);
    } else {
      var d :| may(d, id) && d != c;
      ops := [first, Reserve(d, 1, id)];
      SharedIdReaches(b, c, 1, d, 1, id);
      TwoStepsBreak(b, first, Reserve(d, 1, id), c, owner);
    }
  }

  // ----- two drawing children and more allocated than the root has -----

  lemma {:induction false} RunConcat(b: Branches, xs: seq<Op>, ys: seq<Op>)
    ensures Run(b, xs + ys).0 == Run(Run(b, xs).0, ys).0
    decreases |xs|
  {
    if xs == [] {
      assert xs + ys == ys;
    } else {
      assert (xs + ys)[1..] == xs[1..] + ys;
      RunConcat(Step(b, xs[0]).0, xs[1..], ys);
    }
  }

  lemma {:induction false} WithoutConcat(xs: seq<Op>, ys: seq<Op>, branch: string, owner: string -> string)
    ensures Without(xs + ys, branch, owner) == Without(xs, branch, owner) + Without(ys, branch, owner)
  {
    if xs == [] {
      assert xs + ys == ys;
    } else {
      assert (xs + ys)[0] == xs[0] && (xs + ys)[1..] == xs[1..] + ys;
      WithoutConcat(xs[1..], ys, branch, owner);
      var first := if BranchOf(xs[0], owner) == branch then [] else [xs[0]];
      assert Without(xs, branch, owner) == first + Without(xs[1..], branch, owner);
    }
  }

  /** Reservations of children other than `c` and `d`, each under the id `name` gives it. */
  predicate Context(ops: seq<Op>, ids: set<string>, name: string -> string, c: string, d: string) {
    forall i :: 0 <= i < |ops| ==>
      ops[i].Reserve? && ops[i].childId in ids - {c, d} && ops[i].requestId == name(ops[i].childId)
  }

  lemma {:induction false} ContextIsKept(ops: seq<Op>, ids: set<string>, name: string -> string, c: string, d: string,
                                         owner: string -> string)
    requires Context(ops, ids, name, c, d)
    ensures Without(ops, d, owner) == ops
  {
    if ops != [] {
      ContextIsKept(ops[1..], ids, name, c, d, owner);
    }
  }

  /** The children of `ids` have drawn nothing, and each has a request id of its own that is not taken. */
  predicate Unused(b: Branches, ids: set<string>, name: string -> string) {
    && ids <= b.ledger.children.Keys
    && (forall c :: c in ids ==> name(c) !in b.ledger.reservations)
    && (forall c, d :: c in ids && d in ids && name(c) == name(d) ==> c == d)
    && (forall c :: c in ids ==> b.ledger.children[c].reserved == 0 && b.ledger.children[c].settled == 0)
  }

  predicate Draws(b: Branches, ids: set<string>, c: string) {
    c in ids && c in b.ledger.children && b.ledger.children[c].authorized > 0
  }

  function Least(a: int, b: int): int {
    if a <= b then a else b
  }

  /** `d` reserving `u` takes from the root what `c` needs for `x`, though the root has enough for either. */
  ghost predicate Blocks(b: Branches, name: string -> string, d: string, u: int, c: string, x: int) {
    && c != d && name(c) != name(d) && name(c) !in b.ledger.reservations && name(d) !in b.ledger.reservations
    && Step(b, Reserve(c, x, name(c))).1.reservation.Ok?
    && Step(b, Reserve(d, u, name(d))).1.reservation.Ok?
    && Step(Step(b, Reserve(d, u, name(d))).0, Reserve(c, x, name(c))).1 == ROOT_EXCEEDED
  }

  lemma BlocksNow(b: Branches, ids: set<string>, name: string -> string, d: string, c: string)
    requires Unused(b, ids, name) && Draws(b, ids, c) && Draws(b, ids, d) && c != d && b.ledger.root.Available() > 0
    requires var left := b.ledger.root.Available();
             Least(b.ledger.children[d].authorized, left) + Least(b.ledger.children[c].authorized, left) > left
    ensures var left := b.ledger.root.Available();
            Blocks(b, name, d, Least(b.ledger.children[d].authorized, left),
                   c, Least(b.ledger.children[c].authorized, left))
  {
  }

  /** When both fit, their sum leaves a third child that draws. */
  lemma ThirdDraws(b: Branches, ids: set<string>, d: string, c: string) returns (e: string)
    requires Draws(b, ids, c) && Draws(b, ids, d) && c != d
    requires Sum(Wanted(b.ledger.children, ids)) > b.ledger.children[c].authorized + b.ledger.children[d].authorized
    ensures Draws(b, ids, e) && e != c && e != d
  {
    var wanted := Wanted(b.ledger.children, ids);
    SumPick(wanted, c);
    SumPick(wanted - {c}, d);
    var rest := wanted - {c} - {d};
    if forall k :: k in rest ==> rest[k] == 0 {
      SumZero(rest);
      assert false;
    }
    e :| e in rest && rest[e] != 0;
  }

  /** The state after child `d` has reserved its whole allocation. */
  function Taken(b: Branches, name: string -> string, d: string): Branches
    requires d in b.ledger.children
  {
    Step(b, Reserve(d, b.ledger.children[d].authorized, name(d))).0
  }

  predicate Fits(b: Branches, ids: set<string>, d: string) {
    Draws(b, ids, d) && b.ledger.children[d].authorized <= b.ledger.root.Available()
  }

  lemma TakenState(b: Branches, ids: set<string>, name: string -> string, d: string)
    requires Unused(b, ids, name) && Fits(b, ids, d)
    ensures var next, u := Taken(b, name, d).ledger, b.ledger.children[d].authorized;
            && next.root.Available() == b.ledger.root.Available() - u
            && next.children.Keys == b.ledger.children.Keys
            && (forall k :: k in next.children && k != d ==> next.children[k] == b.ledger.children[k])
            && (forall r :: r in next.reservations ==> r in b.ledger.reservations || r == name(d))
  {
  }

  lemma TakenUnused(b: Branches, ids: set<string>, name: string -> string, d: string)
    requires Unused(b, ids, name) && Fits(b, ids, d)
    ensures Unused(Taken(b, name, d), ids - {d}, name)
    ensures forall e :: Draws(b, ids, e) && e != d ==> Draws(Taken(b, name, d), ids - {d}, e)
  {
    TakenState(b, ids, name, d);
  }

  lemma TakenWanted(b: Branches, ids: set<string>, name: string -> string, d: string)
    requires Unused(b, ids, name) && Fits(b, ids, d)
    ensures Sum(Wanted(Taken(b, name, d).ledger.children, ids - {d}))
            == Sum(Wanted(b.ledger.children, ids)) - b.ledger.children[d].authorized
  {
    var wanted := Wanted(b.ledger.children, ids);
    SumPick(wanted, d);
    TakenState(b, ids, name, d);
    assert wanted - {d} == Wanted(Taken(b, name, d).ledger.children, ids - {d});
  }

  lemma {:induction false} BlockingRun(b: Branches, ids: set<string>, name: string -> string, d: string, c: string)
    returns (context: seq<Op>, blocker: string, u: int, blocked: string, x: int)
    requires Unused(b, ids, name) && Draws(b, ids, c) && Draws(b, ids, d) && c != d
    requires 0 < b.ledger.root.Available() < Sum(Wanted(b.ledger.children, ids))
    ensures Context(context, ids, name, blocked, blocker) && Blocks(Run(b, context).0, name, blocker, u, blocked, x)
    ensures blocker in ids && blocked in ids
    decreases |ids|
  {
    var left := b.ledger.root.Available();
    u, x := Least(b.ledger.children[d].authorized, left), Least(b.ledger.children[c].authorized, left);
    if u + x > left {
      BlocksNow(b, ids, name, d, c);
      context, blocker, blocked := [], d, c;
    } else {
      var e := ThirdDraws(b, ids, d, c);
      var next := Taken(b, name, d);
      TakenState(b, ids, name, d);
      TakenUnused(b, ids, name, d);
      TakenWanted(b, ids, name, d);
      context, blocker, u, blocked, x := BlockingRun(next, ids - {d}, name, e, c);
      context := ContextFrom(b, ids, name, d, context, blocker, u, blocked, x);
    }
  }

  /** A context found after `d` has taken its share is one before it, with that step in front. */
  lemma ContextFrom(b: Branches, ids: set<string>, name: string -> string, d: string, tail: seq<Op>, blocker: string,
                    u: int, blocked: string, x: int) returns (context: seq<Op>)
    requires Draws(b, ids, d) && blocker in ids - {d} && blocked in ids - {d}
    requires var next := Taken(b, name, d);
             Context(tail, ids - {d}, name, blocked, blocker) && Blocks(Run(next, tail).0, name, blocker, u, blocked, x)
    ensures Context(context, ids, name, blocked, blocker) && Blocks(Run(b, context).0, name, blocker, u, blocked, x)
  {
    var op := Reserve(d, b.ledger.children[d].authorized, name(d));
    context := [op] + tail;
    assert context[0] == op && context[1..] == tail;
    assert Run(b, context).0 == Run(Step(b, op).0, tail).0;
  }

  lemma ShortRuns(s: Branches, first: Op, second: Op)
    ensures Run(s, [second]).0 == Step(s, second).0 && Run(s, [second]).1 == [Step(s, second).1]
    ensures Run(s, [first, second]).0 == Step(Step(s, first).0, second).0
    ensures Run(s, [first, second]).1 == [Step(s, first).1, Step(Step(s, first).0, second).1]
  {
    assert [second][1..] == [] && [first, second][1..] == [second];
    var next := Step(s, first).0;
    assert Run(Step(s, second).0, []) == (Step(s, second).0, []);
    assert Run(Step(next, second).0, []) == (Step(next, second).0, []);
    assert Run(next, [second]).1 == [Step(next, second).1];
  }

  lemma ShortWithout(first: Op, second: Op, branch: string, owner: string -> string)
    requires BranchOf(first, owner) == branch != BranchOf(second, owner)
    ensures Without([first, second], branch, owner) == [second]
  {
    assert [second][1..] == [] && [first, second][1..] == [second];
    assert Without([second], branch, owner) == [second];
  }

  /** The context, then the reservation that takes what the next one needs. */
  function BlockedOps(context: seq<Op>, name: string -> string, blocker: string, u: int, blocked: string,
                      x: int): seq<Op> {
    context + [Reserve(blocker, u, name(blocker)), Reserve(blocked, x, name(blocked))]
  }

  lemma WithoutBlocker(context: seq<Op>, ids: set<string>, name: string -> string, blocker: string, u: int,
                       blocked: string, x: int, owner: string -> string)
    requires Context(context, ids, name, blocked, blocker) && blocked != blocker
    ensures Without(BlockedOps(context, name, blocker, u, blocked, x), blocker, owner)
            == context + [Reserve(blocked, x, name(blocked))]
  {
    var first, second := Reserve(blocker, u, name(blocker)), Reserve(blocked, x, name(blocked));
    WithoutConcat(context, [first, second], blocker, owner);
    ContextIsKept(context, ids, name, blocked, blocker, owner);
    ShortWithout(first, second, blocker, owner);
  }

  lemma BlockedHasNoReservation(s: Branches, name: string -> string, blocker: string, u: int, blocked: string, x: int)
    requires Blocks(s, name, blocker, u, blocked, x)
    ensures var first, second := Reserve(blocker, u, name(blocker)), Reserve(blocked, x, name(blocked));
            && name(blocked) in Step(s, second).0.ledger.reservations
            && name(blocked) !in Step(Step(s, first).0, second).0.ledger.reservations
  {
  }

  lemma BlockingBreaks(b: Branches, context: seq<Op>, ids: set<string>, name: string -> string, blocker: string, u: int,
                       blocked: string, x: int, owner: string -> string)
    requires Context(context, ids, name, blocked, blocker) && Blocks(Run(b, context).0, name, blocker, u, blocked, x)
    requires owner(name(blocked)) == blocked
    ensures !Isolated(b, BlockedOps(context, name, blocker, u, blocked, x), blocker, owner)
  {
    var first, second := Reserve(blocker, u, name(blocker)), Reserve(blocked, x, name(blocked));
    RunConcat(b, context, [first, second]);
    RunConcat(b, context, [second]);
    ShortRuns(Run(b, context).0, first, second);
    WithoutBlocker(context, ids, name, blocker, u, blocked, x, owner);
    BlockedHasNoReservation(Run(b, context).0, name, blocker, u, blocked, x);
    ReservationShows(b, BlockedOps(context, name, blocker, u, blocked, x), blocker, name(blocked), owner);
  }

  lemma ReservationShows(b: Branches, ops: seq<Op>, branch: string, id: string, owner: string -> string)
    requires owner(id) != branch && id !in Run(b, ops).0.ledger.reservations
    requires id in Run(b, Without(ops, branch, owner)).0.ledger.reservations
    ensures !Isolated(b, ops, branch, owner)
  {
  }

  /** An id that the child may use, if there is one. */
  ghost function Usable(may: Permission, c: string): string {
    if id :| may(c, id) then id else ""
  }

  lemma UsableIds(allocations: map<string, int>, may: Permission, owner: string -> string, name: string -> string)
    requires IdsApart(Active(allocations, may), may, owner) && forall c :: name(c) == Usable(may, c)
    ensures forall c :: c in Active(allocations, may) ==> may(c, name(c)) && owner(name(c)) == c
  {
  }

  lemma BlockedPermitted(context: seq<Op>, ids: set<string>, name: string -> string, blocker: string, u: int,
                         blocked: string, x: int, may: Permission)
    requires Context(context, ids, name, blocked, blocker) && blocker in ids && blocked in ids
    requires forall c :: c in ids ==> may(c, name(c))
    ensures Permitted(BlockedOps(context, name, blocker, u, blocked, x), may)
  {
  }

  /** More allocated than the root has, to two or more active children: some run lets one branch block another. */
  lemma OverdrawnBreaks(maximum: int, allocations: map<string, int>, config: C.Config, may: Permission,
                        owner: string -> string) returns (ops: seq<Op>, branch: string)
    requires maximum > 0
    requires var active := Active(allocations, may);
             IdsApart(active, may, owner) && Sum(Shares(allocations, active)) > maximum && !AtMostOne(active)
    ensures Permitted(ops, may) && !Isolated(Fresh(maximum, allocations, config), ops, branch, owner)
  {
    var b, active := Fresh(maximum, allocations, config), Active(allocations, may);
    var name := (c: string) => Usable(may, c);
    UsableIds(allocations, may, owner, name);
    var c, d :| c in active && d in active && c != d;
    assert Wanted(b.ledger.children, active) == Shares(allocations, active);
    var context, blocker, u, blocked, x := BlockingRun(b, active, name, d, c);
    BlockedPermitted(context, active, name, blocker, u, blocked, x, may);
    BlockingBreaks(b, context, active, name, blocker, u, blocked, x, owner);
    ops, branch := BlockedOps(context, name, blocker, u, blocked, x), blocker;
  }

  // ----- the exact conditions -----

  /**
    Whatever rule says which child may ask for which ids, and whatever branch an id is attributed to: every branch is
    isolated from every other in every permitted run exactly when each id an active child may use is its own and
    nobody else's, and the active children's allocations fit in the root or there is only one.
   */
  lemma PermittedIsolationIff(maximum: int, allocations: map<string, int>, config: C.Config, may: Permission,
                              owner: string -> string)
    requires maximum > 0
    ensures var active := Active(allocations, may);
            (forall ops, branch :: Permitted(ops, may) ==>
               Isolated(Fresh(maximum, allocations, config), ops, branch, owner))
            <==> IdsApart(active, may, owner) && (Sum(Shares(allocations, active)) <= maximum || AtMostOne(active))
  {
    var b, active := Fresh(maximum, allocations, config), Active(allocations, may);
    if !IdsApart(active, may, owner) {
      var ops, branch := SharedIdBreaks(maximum, allocations, config, may, owner);
    } else if Sum(Shares(allocations, active)) > maximum && !AtMostOne(active) {
      var ops, branch := OverdrawnBreaks(maximum, allocations, config, may, owner);
    } else {
      forall ops, branch | Permitted(ops, may) ensures Isolated(b, ops, branch, owner) {
        PermittedIsolates(maximum, allocations, config, may, owner, ops, branch);
      }
    }
  }

  /**
    With request ids kept apart, every branch is isolated from every other in every run exactly when the positive
    allocations fit in the root, or at most one child has one.
   */
  lemma IsolationIff(maximum: int, allocations: map<string, int>, config: C.Config)
    requires maximum > 0
    ensures (forall ops, branch, owner :: Apart(ops, owner) ==>
               Isolated(Fresh(maximum, allocations, config), ops, branch, owner))
            <==> L.Funded(L.Fresh("", maximum, allocations)) || OneDraws(allocations)
  {
    var b := Fresh(maximum, allocations, config);
    if L.Funded(L.Fresh("", maximum, allocations)) {
      forall ops, branch, owner | Apart(ops, owner) ensures Isolated(b, ops, branch, owner) {
        BranchIsolation(maximum, allocations, config, ops, branch, owner);
      }
    } else if OneDraws(allocations) {
      forall ops, branch, owner | Apart(ops, owner) ensures Isolated(b, ops, branch, owner) {
        OneDrawsIsolates(maximum, allocations, config, ops, branch, owner);
      }
    } else {
      var own: string -> string := id => id;
      var may: Permission := (c, id) => c == id;
      var active := Active(allocations, may);
      forall c | c in allocations && allocations[c] > 0 ensures c in active {
        assert may(c, c);
      }
      PositiveShares(allocations, active);
      assert L.CeilingOf(b.ledger.children) == Shares(allocations, allocations.Keys);
      var ops, branch := OverdrawnBreaks(maximum, allocations, config, may, own);
      forall i | 0 <= i < |ops| ensures MadeByOwner(ops[i], own) {
        assert Allowed(ops[i], may);
      }
    }
  }

  /** Children without a positive allocation add nothing. */
  lemma PositiveShares(allocations: map<string, int>, ids: set<string>)
    requires forall c :: c in allocations && c !in ids ==> allocations[c] <= 0
    ensures Sum(Shares(allocations, ids)) == Sum(Shares(allocations, allocations.Keys))
    decreases |allocations|
  {
    if c :| c in allocations && c !in ids {
      var rest := allocations - {c};
      PositiveShares(rest, ids);
      SumPick(Shares(allocations, allocations.Keys), c);
      assert Shares(allocations, ids) == Shares(rest, ids);
      assert Shares(allocations, allocations.Keys) - {c} == Shares(rest, rest.Keys);
    } else {
      assert Shares(allocations, ids) == Shares(allocations, allocations.Keys);
    }
  }
}
