/** The hierarchical budget ledger: a root pool, child accounts, and one reservation per request id. */
module Ledger {
  import opened Results
  import opened MapSums

  datatype Account = Account(authorized: int, reserved: int, settled: int) {
    function Available(): int {
      authorized - reserved - settled
    }
  }

  datatype Status = Reserved | Reconciled | Released

  datatype Reservation = Reservation(requestId: string, childId: string, maximum: int, actual: Option<int>,
                                     status: Status)

  datatype State = State(mandateId: string, root: Account, children: map<string, Account>,
                         reservations: map<string, Reservation>)

  // ----- what each operation does to the state, and what it returns or throws -----

  function Reserve(s: State, childId: string, maximum: int, requestId: string): (State, Result<Reservation>) {
    if requestId in s.reservations then
      var existing := s.reservations[requestId];
      (s, if existing.childId == childId && existing.maximum == maximum then Ok(existing)
       else Err("IDEMPOTENCY_CONFLICT"))
    else if maximum <= 0 then (s, Err("INVALID_RESERVATION"))
    else if childId !in s.children then (s, Err("UNKNOWN_CHILD"))
    else if s.children[childId].Available() < maximum then (s, Err("CHILD_BUDGET_EXCEEDED"))
    else if s.root.Available() < maximum then (s, Err("ROOT_BUDGET_EXCEEDED"))
    else
      var child := s.children[childId];
      var reservation := Reservation(requestId, childId, maximum, None, Reserved);
      (s.(root := s.root.(reserved := s.root.reserved + maximum),
          children := s.children[childId := child.(reserved := child.reserved + maximum)],
          reservations := s.reservations[requestId := reservation]),
       Ok(reservation))
  }

  function Reconcile(s: State, requestId: string, actual: int): (State, Result<Reservation>) {
    if requestId !in s.reservations then (s, Err("RESERVATION_NOT_FOUND"))
    else
      var held := s.reservations[requestId];
      if held.status.Reconciled? then
        (s, if held.actual == Some(actual) then Ok(held) else Err("IDEMPOTENCY_CONFLICT"))
      else if !held.status.Reserved? then (s, Err("RESERVATION_NOT_ACTIVE"))
      else if actual < 0 || actual > held.maximum then (s, Err("ACTUAL_COST_EXCEEDS_RESERVATION"))
      else if held.childId !in s.children then (s, Err("TYPE_ERROR"))
      else
        var child := s.children[held.childId];
        var reservation := held.(actual := Some(actual), status := Reconciled);
        (s.(root := s.root.(reserved := s.root.reserved - held.maximum, settled := s.root.settled + actual),
            children := s.children[held.childId := child.(reserved := child.reserved - held.maximum,
                                                          settled := child.settled + actual)],
            reservations := s.reservations[requestId := reservation]),
         Ok(reservation))
  }

  function Reclaim(s: State, childId: string): (State, Result<int>) {
    if childId !in s.children then (s, Err("UNKNOWN_CHILD"))
    else
      var child := s.children[childId];
      (s.(children := s.children[childId := child.(authorized := child.authorized - child.Available())]),
       Ok(child.Available()))
  }

  function Fresh(mandateId: string, maximum: int, allocations: map<string, int>): State {
    State(mandateId, Account(maximum, 0, 0), map c | c in allocations :: Account(allocations[c], 0, 0), map[])
  }

  // ----- projections whose sums the invariant relates -----

  function Positive(x: int): int {
    if x > 0 then x else 0
  }

  function AuthorizedOf(children: map<string, Account>): map<string, int> {
    map c | c in children :: children[c].authorized
  }

  function ReservedOf(children: map<string, Account>): map<string, int> {
    map c | c in children :: children[c].reserved
  }

  function SettledOf(children: map<string, Account>): map<string, int> {
    map c | c in children :: children[c].settled
  }

  /** What each child could ever draw: its authorization, or nothing when that is negative. */
  function CeilingOf(children: map<string, Account>): map<string, int> {
    map c | c in children :: Positive(children[c].authorized)
  }

  /** Per request: the amount it holds reserved against child `c`. */
  function HeldBy(reservations: map<string, Reservation>, c: string): map<string, int> {
    map r | r in reservations ::
      if reservations[r].childId == c && reservations[r].status.Reserved? then reservations[r].maximum else 0
  }

  /** Per request: the amount it has settled against child `c`. */
  function SpentBy(reservations: map<string, Reservation>, c: string): map<string, int> {
    map r | r in reservations ::
      if reservations[r].childId == c && reservations[r].actual.Some? then reservations[r].actual.value else 0
  }

  predicate Sound(r: Reservation) {
    && r.maximum > 0
    && match r.status
       case Reserved => r.actual.None?
       case Reconciled => r.actual.Some? && 0 <= r.actual.value <= r.maximum
       case Released => false
  }

  predicate WithinCeiling(a: Account) {
    0 <= a.reserved && 0 <= a.settled && a.reserved + a.settled <= Positive(a.authorized)
  }

  ghost predicate AccountConserved(account: Account, reservations: map<string, Reservation>, c: string) {
    && account.reserved == Sum(HeldBy(reservations, c))
    && account.settled == Sum(SpentBy(reservations, c))
    && WithinCeiling(account)
  }

  predicate Registered(s: State, r: string)
    requires r in s.reservations
  {
    && s.reservations[r].requestId == r
    && s.reservations[r].childId in s.children
    && Sound(s.reservations[r])
  }

  /** Money is conserved: root totals are the sums over children, child totals the sums over reservations. */
  ghost predicate Conserved(s: State) {
    && s.root.reserved == Sum(ReservedOf(s.children))
    && s.root.settled == Sum(SettledOf(s.children))
    && (forall c {:trigger AccountConserved(s.children[c], s.reservations, c)} :: c in s.children ==>
        AccountConserved(s.children[c], s.reservations, c))
    && (forall r {:trigger Registered(s, r)} :: r in s.reservations ==> Registered(s, r))
  }

  /** The children's ceilings together fit in the root pool. */
  ghost predicate Funded(s: State) {
    Sum(CeilingOf(s.children)) <= s.root.authorized
  }

  // ----- how the sums move when one child or one reservation changes -----

  lemma ChildSums(children: map<string, Account>, c: string, a: Account)
    requires c in children
    ensures Sum(ReservedOf(children[c := a])) == Sum(ReservedOf(children)) + a.reserved - children[c].reserved
    ensures Sum(SettledOf(children[c := a])) == Sum(SettledOf(children)) + a.settled - children[c].settled
    ensures Sum(CeilingOf(children[c := a])) == Sum(CeilingOf(children))
            + Positive(a.authorized) - Positive(children[c].authorized)
  {
    assert ReservedOf(children[c := a]) == ReservedOf(children)[c := a.reserved];
    assert SettledOf(children[c := a]) == SettledOf(children)[c := a.settled];
    assert CeilingOf(children[c := a]) == CeilingOf(children)[c := Positive(a.authorized)];
    SumUpdate(ReservedOf(children), c, a.reserved);
    SumUpdate(SettledOf(children), c, a.settled);
    SumUpdate(CeilingOf(children), c, Positive(a.authorized));
  }

  lemma ReservationSums(reservations: map<string, Reservation>, id: string, r: Reservation, c: string)
    ensures var held := HeldBy(map[id := r], c)[id];
            Sum(HeldBy(reservations[id := r], c)) ==
            Sum(HeldBy(reservations, c)) + held - (if id in reservations then HeldBy(reservations, c)[id] else 0)
    ensures var spent := SpentBy(map[id := r], c)[id];
            Sum(SpentBy(reservations[id := r], c)) ==
            Sum(SpentBy(reservations, c)) + spent - (if id in reservations then SpentBy(reservations, c)[id] else 0)
  {
    var held, spent := HeldBy(map[id := r], c)[id], SpentBy(map[id := r], c)[id];
    assert HeldBy(reservations[id := r], c) == HeldBy(reservations, c)[id := held];
    assert SpentBy(reservations[id := r], c) == SpentBy(reservations, c)[id := spent];
    SumUpdate(HeldBy(reservations, c), id, held);
    SumUpdate(SpentBy(reservations, c), id, spent);
  }

  // ----- the invariant -----

  lemma FreshConserved(mandateId: string, maximum: int, allocations: map<string, int>)
    ensures Conserved(Fresh(mandateId, maximum, allocations))
  {
    var s := Fresh(mandateId, maximum, allocations);
    SumZero(ReservedOf(s.children));
    SumZero(SettledOf(s.children));
    forall c | c in s.children ensures Sum(HeldBy(map[], c)) == 0 && Sum(SpentBy(map[], c)) == 0 {
      SumZero(HeldBy(map[], c));
      SumZero(SpentBy(map[], c));
    }
  }

  /** One account stays conserved when one reservation is written and the account moves by the same amounts. */
  lemma AccountStep(before: Account, after: Account, reservations: map<string, Reservation>, id: string, r: Reservation,
                    c: string)
    requires AccountConserved(before, reservations, c)
    requires WithinCeiling(after)
    requires after.reserved - before.reserved ==
             HeldBy(map[id := r], c)[id] - (if id in reservations then HeldBy(reservations, c)[id] else 0)
    requires after.settled - before.settled ==
             SpentBy(map[id := r], c)[id] - (if id in reservations then SpentBy(reservations, c)[id] else 0)
    ensures AccountConserved(after, reservations[id := r], c)
  {
    ReservationSums(reservations, id, r, c);
  }

  /** A child account holds at least the maximum of each of its active reservations. */
  lemma HeldAtLeast(s: State, requestId: string)
    requires Conserved(s) && requestId in s.reservations && s.reservations[requestId].status.Reserved?
    ensures s.reservations[requestId].childId in s.children
    ensures s.reservations[requestId].maximum <= s.children[s.reservations[requestId].childId].reserved
  {
    assert Registered(s, requestId);
    var c := s.reservations[requestId].childId;
    assert AccountConserved(s.children[c], s.reservations, c);
    forall r | r in s.reservations ensures 0 <= HeldBy(s.reservations, c)[r] {
      assert Registered(s, r);
    }
    SumAtLeast(HeldBy(s.reservations, c), requestId);
  }

  /**
    One child's account and one of its reservations are written, and the account moves by what the reservation moves.
   */
  ghost predicate Write(s: State, t: State, c: string, id: string) {
    && c in s.children && c in t.children && id in t.reservations
    && t.children == s.children[c := t.children[c]]
    && t.reservations == s.reservations[id := t.reservations[id]]
    && (id in s.reservations ==> s.reservations[id].childId == c)
    && t.reservations[id].childId == c && t.reservations[id].requestId == id && Sound(t.reservations[id])
    && WithinCeiling(t.children[c])
    && t.children[c].reserved - s.children[c].reserved ==
       HeldBy(map[id := t.reservations[id]], c)[id]
       - (if id in s.reservations then HeldBy(s.reservations, c)[id] else 0)
    && t.children[c].settled - s.children[c].settled ==
       SpentBy(map[id := t.reservations[id]], c)[id]
       - (if id in s.reservations then SpentBy(s.reservations, c)[id] else 0)
  }

  lemma WriteConservesAccount(s: State, t: State, c: string, id: string, k: string)
    requires Write(s, t, c, id)
    requires k in s.children && AccountConserved(s.children[k], s.reservations, k)
    ensures AccountConserved(t.children[k], t.reservations, k)
  {
    if k != c {
      assert t.children[k] == s.children[k];
    }
    AccountStep(s.children[k], t.children[k], s.reservations, id, t.reservations[id], k);
  }

  lemma WriteConservesRecord(s: State, t: State, c: string, id: string, r: string)
    requires Write(s, t, c, id) && r in t.reservations
    requires r in s.reservations ==> Registered(s, r)
    ensures Registered(t, r)
  {
    assert t.children.Keys == s.children.Keys;
  }

  /** Such a write keeps the books when the root moves with the child. */
  lemma WriteConserves(s: State, t: State, c: string, id: string)
    requires Conserved(s) && Write(s, t, c, id)
    requires t.root.reserved - s.root.reserved == t.children[c].reserved - s.children[c].reserved
    requires t.root.settled - s.root.settled == t.children[c].settled - s.children[c].settled
    ensures Conserved(t)
  {
    assert t.root.reserved == Sum(ReservedOf(t.children)) && t.root.settled == Sum(SettledOf(t.children)) by {
      ChildSums(s.children, c, t.children[c]);
    }
    forall k | k in t.children ensures AccountConserved(t.children[k], t.reservations, k) {
      assert AccountConserved(s.children[k], s.reservations, k);
      WriteConservesAccount(s, t, c, id, k);
    }
    forall r | r in t.reservations ensures Registered(t, r) {
      assert r in s.reservations ==> Registered(s, r);
      WriteConservesRecord(s, t, c, id, r);
    }
  }

  lemma ReserveConserves(s: State, childId: string, maximum: int, requestId: string)
    requires Conserved(s)
    ensures Conserved(Reserve(s, childId, maximum, requestId).0)
    ensures Funded(s) ==> Funded(Reserve(s, childId, maximum, requestId).0)
  {
    var t := Reserve(s, childId, maximum, requestId).0;
    if requestId !in s.reservations && requestId in t.reservations {
      assert AccountConserved(s.children[childId], s.reservations, childId);
      WriteConserves(s, t, childId, requestId);
      assert CeilingOf(t.children) == CeilingOf(s.children);
    }
  }

  lemma ReconcileConserves(s: State, requestId: string, actual: int)
    requires Conserved(s)
    ensures Conserved(Reconcile(s, requestId, actual).0)
    ensures Funded(s) ==> Funded(Reconcile(s, requestId, actual).0)
  {
    var (t, result) := Reconcile(s, requestId, actual);
    if result.Ok? && s.reservations[requestId].status.Reserved? {
      assert Registered(s, requestId);
      var childId := s.reservations[requestId].childId;
      assert AccountConserved(s.children[childId], s.reservations, childId);
      HeldAtLeast(s, requestId);
      WriteConserves(s, t, childId, requestId);
      assert CeilingOf(t.children) == CeilingOf(s.children);
    }
  }

  lemma ReclaimConserves(s: State, childId: string)
    requires Conserved(s)
    ensures Conserved(Reclaim(s, childId).0)
    ensures Funded(s) ==> Funded(Reclaim(s, childId).0)
  {
    var t := Reclaim(s, childId).0;
    if childId in s.children {
      assert AccountConserved(s.children[childId], s.reservations, childId);
      ChildSums(s.children, childId, t.children[childId]);
      forall c | c in t.children ensures AccountConserved(t.children[c], t.reservations, c) {
        assert AccountConserved(s.children[c], s.reservations, c);
      }
      forall r | r in t.reservations ensures Registered(t, r) {
        assert Registered(s, r);
      }
    }
  }

  /** What the parent has not delegated to any child. */
  ghost function Unallocated(s: State): int {
    s.root.authorized - Sum(AuthorizedOf(s.children))
  }

  /** Only reclaiming moves authority: exactly the reclaimed amount returns to the parent. */
  lemma AuthorityMoves(s: State, childId: string, maximum: int, requestId: string, actual: int)
    ensures Unallocated(Reserve(s, childId, maximum, requestId).0) == Unallocated(s)
    ensures Unallocated(Reconcile(s, requestId, actual).0) == Unallocated(s)
    ensures var (t, r) := Reclaim(s, childId); Unallocated(t) == Unallocated(s) + if r.Ok? then r.value else 0
  {
    assert AuthorizedOf(Reserve(s, childId, maximum, requestId).0.children) == AuthorizedOf(s.children);
    assert AuthorizedOf(Reconcile(s, requestId, actual).0.children) == AuthorizedOf(s.children);
    if childId in s.children {
      var kept := s.children[childId].authorized - s.children[childId].Available();
      assert AuthorizedOf(Reclaim(s, childId).0.children) == AuthorizedOf(s.children)[childId := kept];
      SumUpdate(AuthorizedOf(s.children), childId, kept);
    }
  }

  /** A reclaimed child can reserve nothing new, whatever its other reservations are. */
  lemma ReclaimedChildIsClosed(s: State, childId: string, maximum: int, requestId: string)
    requires childId in s.children && requestId !in s.reservations && maximum > 0
    ensures var t := Reclaim(s, childId).0; Reserve(t, childId, maximum, requestId) == (t, Err("CHILD_BUDGET_EXCEEDED"))
  {
    assert Reclaim(s, childId).0.children[childId].Available() == 0;
  }

  /** In a funded ledger the root always has at least what any child has. */
  lemma RootCoversChild(s: State, c: string)
    requires Conserved(s) && Funded(s) && c in s.children
    ensures s.children[c].Available() <= s.root.Available()
  {
    forall k | k in s.children ensures WithinCeiling(s.children[k]) {
      assert AccountConserved(s.children[k], s.reservations, k);
    }
    var ceiling, reserved, settled := CeilingOf(s.children), ReservedOf(s.children), SettledOf(s.children);
    var unreserved := map k | k in s.children :: ceiling[k] - reserved[k];
    var slack := map k | k in s.children :: unreserved[k] - settled[k];
    SumDifference(ceiling, reserved, unreserved);
    SumDifference(unreserved, settled, slack);
    SumAtLeast(slack, c);
  }

  // ----- checkpoints -----

  /**
    What restoring an exported state yields: the constructor's checks on the current authorizations, then the state.
   */
  ghost function Restore(s: State): Result<State> {
    if s.root.authorized <= 0 then Err("INVALID_ROOT_BUDGET")
    else if Sum(AuthorizedOf(s.children)) > s.root.authorized then Err("CHILD_ALLOCATIONS_EXCEED_ROOT")
    else Ok(s)
  }

  lemma FundedRestores(s: State)
    requires Funded(s) && s.root.authorized > 0
    ensures Restore(s) == Ok(s)
  {
    SumMonotone(AuthorizedOf(s.children), CeilingOf(s.children));
  }

  // ----- the ledger object -----

  class FuseLedger {
    const mandateId: string
    var root: Account
    var children: map<string, Account>
    var reservations: map<string, Reservation>

    function View(): State
      reads this
    {
      State(mandateId, root, children, reservations)
    }

    constructor (s: State)
      ensures View() == s
    {
      mandateId, root, children, reservations := s.mandateId, s.root, s.children, s.reservations;
    }

    /** Adds the allocations up in whatever order the record yields them. */
    static method Total(allocations: map<string, int>) returns (total: int)
      ensures total == Sum(allocations)
    {
      total := 0;
      var rest := allocations;
      while rest != map[]
        invariant total + Sum(rest) == Sum(allocations)
        decreases |rest|
      {
        var c :| c in rest;
        SumPick(rest, c);
        total := total + rest[c];
        rest := rest - {c};
      }
    }

    static method Create(mandateId: string, maximum: int, allocations: map<string, int>) returns (r: Result<FuseLedger>)
      ensures r.Err? ==> r.code == if maximum <= 0 then "INVALID_ROOT_BUDGET" else "CHILD_ALLOCATIONS_EXCEED_ROOT"
      ensures r.Ok? <==> maximum > 0 && Sum(allocations) <= maximum
      ensures r.Ok? ==> fresh(r.value) && r.value.View() == Fresh(mandateId, maximum, allocations)
    {
      if maximum <= 0 {
        return Err("INVALID_ROOT_BUDGET");
      }
      var total := Total(allocations);
      if total > maximum {
        return Err("CHILD_ALLOCATIONS_EXCEED_ROOT");
      }
      var ledger := new FuseLedger(Fresh(mandateId, maximum, allocations));
      r := Ok(ledger);
    }

    static method FromState(s: State) returns (r: Result<FuseLedger>)
      ensures r.Ok? <==> Restore(s).Ok?
      ensures r.Ok? ==> fresh(r.value) && r.value.View() == s
      ensures r.Err? ==> Restore(s) == Err(r.code)
    {
      var created := Create(s.mandateId, s.root.authorized, AuthorizedOf(s.children));
      if created.Err? {
        return Err(created.code);
      }
      var ledger := created.value;
      ledger.root, ledger.children, ledger.reservations := s.root, s.children, s.reservations;
      r := Ok(ledger);
    }

    method ReserveFor(childId: string, maximum: int, requestId: string) returns (r: Result<Reservation>)
      modifies this
      ensures (View(), r) == Reserve(old(View()), childId, maximum, requestId)
    {
      if requestId in reservations {
        var existing := reservations[requestId];
        if existing.childId != childId || existing.maximum != maximum {
          return Err("IDEMPOTENCY_CONFLICT");
        }
        return Ok(existing);
      }
      if maximum <= 0 {
        return Err("INVALID_RESERVATION");
      }
      if childId !in children {
        return Err("UNKNOWN_CHILD");
      }
      var child := children[childId];
      if child.Available() < maximum {
        return Err("CHILD_BUDGET_EXCEEDED");
      }
      if root.Available() < maximum {
        return Err("ROOT_BUDGET_EXCEEDED");
      }
      children := children[childId := child.(reserved := child.reserved + maximum)];
      root := root.(reserved := root.reserved + maximum);
      var reservation := Reservation(requestId, childId, maximum, None, Reserved);
      reservations := reservations[requestId := reservation];
      r := Ok(reservation);
    }

    method ReconcileRequest(requestId: string, actual: int) returns (r: Result<Reservation>)
      modifies this
      ensures (View(), r) == Reconcile(old(View()), requestId, actual)
    {
      if requestId !in reservations {
        return Err("RESERVATION_NOT_FOUND");
      }
      var reservation := reservations[requestId];
      if reservation.status.Reconciled? {
        if reservation.actual != Some(actual) {
          return Err("IDEMPOTENCY_CONFLICT");
        }
        return Ok(reservation);
      }
      if !reservation.status.Reserved? {
        return Err("RESERVATION_NOT_ACTIVE");
      }
      if actual < 0 || actual > reservation.maximum {
        return Err("ACTUAL_COST_EXCEEDS_RESERVATION");
      }
      if reservation.childId !in children {
        return Err("TYPE_ERROR");
      }
      var child := children[reservation.childId];
      child := child.(reserved := child.reserved - reservation.maximum);
      root := root.(reserved := root.reserved - reservation.maximum);
      child := child.(settled := child.settled + actual);
      root := root.(settled := root.settled + actual);
      children := children[reservation.childId := child];
      reservation := reservation.(actual := Some(actual));
      reservation := reservation.(status := Reconciled);
      reservations := reservations[requestId := reservation];
      r := Ok(reservation);
    }

    method ReclaimAvailable(childId: string) returns (r: Result<int>)
      modifies this
      ensures (View(), r) == Reclaim(old(View()), childId)
    {
      if childId !in children {
        return Err("UNKNOWN_CHILD");
      }
      var child := children[childId];
      var reclaimed := child.Available();
      children := children[childId := child.(authorized := child.authorized - reclaimed)];
      r := Ok(reclaimed);
    }
  }
}
