/**
  What the ledger answers, read off its books: the amounts held and spent by its reservations, not the running
  totals that the operations keep.
 */
module LedgerAnswers {
  import opened Results
  import opened MapSums
  import opened Ledger

  /** Per request: what it holds, whichever child it belongs to. */
  function HeldByAny(reservations: map<string, Reservation>): map<string, int> {
    map r | r in reservations :: if reservations[r].status.Reserved? then reservations[r].maximum else 0
  }

  /** Per request: what it has spent, whichever child it belongs to. */
  function SpentByAny(reservations: map<string, Reservation>): map<string, int> {
    map r | r in reservations :: if reservations[r].actual.Some? then reservations[r].actual.value else 0
  }

  /** What a child's reservations hold and have spent. */
  ghost function Drawn(s: State, childId: string): int {
    Sum(HeldBy(s.reservations, childId)) + Sum(SpentBy(s.reservations, childId))
  }

  /** What all reservations hold and have spent. */
  ghost function DrawnByAll(s: State): int {
    Sum(HeldByAny(s.reservations)) + Sum(SpentByAny(s.reservations))
  }

  // ----- sums over children and over reservations are the same -----

  /** The amounts of those requests that `owner` gives to child `c`. */
  function Part(amounts: map<string, int>, owner: map<string, string>, c: string): map<string, int> {
    map r | r in amounts :: if r in owner && owner[r] == c then amounts[r] else 0
  }

  ghost function Parts(children: set<string>, amounts: map<string, int>, owner: map<string, string>): map<string, int> {
    map c | c in children :: Sum(Part(amounts, owner, c))
  }

  lemma PartStep(amounts: map<string, int>, owner: map<string, string>, r: string, c: string)
    requires r in amounts && r in owner
    ensures Sum(Part(amounts, owner, c)) == Sum(Part(amounts - {r}, owner, c)) + if owner[r] == c then amounts[r] else 0
  {
    SumPick(Part(amounts, owner, c), r);
    assert Part(amounts, owner, c) - {r} == Part(amounts - {r}, owner, c);
  }

  lemma PartsStep(children: set<string>, amounts: map<string, int>, owner: map<string, string>, r: string)
    requires r in amounts && r in owner && owner[r] in children
    ensures Sum(Parts(children, amounts, owner)) == Sum(Parts(children, amounts - {r}, owner)) + amounts[r]
  {
    var before, after := Parts(children, amounts - {r}, owner), Parts(children, amounts, owner);
    forall k | k in children ensures after[k] == before[k] + if k == owner[r] then amounts[r] else 0 {
      PartStep(amounts, owner, r, k);
    }
    SumExcept(after, before, owner[r]);
  }

  lemma NoParts(children: set<string>, owner: map<string, string>)
    ensures Sum(Parts(children, map[], owner)) == 0
  {
    forall c | c in children ensures Sum(Part(map[], owner, c)) == 0 {
      SumZero(Part(map[], owner, c));
    }
    SumZero(Parts(children, map[], owner));
  }

  /** Amounts that each belong to one child sum to the sum over the children's parts. */
  lemma {:induction false} SumOfParts(children: set<string>, amounts: map<string, int>, owner: map<string, string>)
    requires forall r :: r in amounts ==> r in owner && owner[r] in children
    ensures Sum(Parts(children, amounts, owner)) == Sum(amounts)
    decreases |amounts|
  {
    if amounts == map[] {
      NoParts(children, owner);
    } else {
      var r :| r in amounts;
      SumPick(amounts, r);
      SumOfParts(children, amounts - {r}, owner);
      PartsStep(children, amounts, owner, r);
    }
  }

  function Owners(reservations: map<string, Reservation>): map<string, string> {
    map r | r in reservations :: reservations[r].childId
  }

  lemma OwnersAreChildren(s: State)
    requires Conserved(s)
    ensures forall r :: r in s.reservations ==> r in Owners(s.reservations) && Owners(s.reservations)[r] in s.children
  {
    forall r | r in s.reservations ensures Owners(s.reservations)[r] in s.children {
      assert Registered(s, r);
    }
  }

  lemma ChildHolds(s: State, c: string)
    requires Conserved(s) && c in s.children
    ensures s.children[c].reserved == Sum(Part(HeldByAny(s.reservations), Owners(s.reservations), c))
  {
    assert AccountConserved(s.children[c], s.reservations, c);
    SumSame(Part(HeldByAny(s.reservations), Owners(s.reservations), c), HeldBy(s.reservations, c));
  }

  lemma ChildSpent(s: State, c: string)
    requires Conserved(s) && c in s.children
    ensures s.children[c].settled == Sum(Part(SpentByAny(s.reservations), Owners(s.reservations), c))
  {
    assert AccountConserved(s.children[c], s.reservations, c);
    SumSame(Part(SpentByAny(s.reservations), Owners(s.reservations), c), SpentBy(s.reservations, c));
  }

  lemma RootHolds(s: State)
    requires Conserved(s)
    ensures s.root.reserved == Sum(HeldByAny(s.reservations))
  {
    OwnersAreChildren(s);
    SumOfParts(s.children.Keys, HeldByAny(s.reservations), Owners(s.reservations));
    forall c | c in s.children
      ensures ReservedOf(s.children)[c] == Sum(Part(HeldByAny(s.reservations), Owners(s.reservations), c))
    {
      ChildHolds(s, c);
    }
    SumSame(ReservedOf(s.children), Parts(s.children.Keys, HeldByAny(s.reservations), Owners(s.reservations)));
  }

  lemma RootSpent(s: State)
    requires Conserved(s)
    ensures s.root.settled == Sum(SpentByAny(s.reservations))
  {
    OwnersAreChildren(s);
    SumOfParts(s.children.Keys, SpentByAny(s.reservations), Owners(s.reservations));
    forall c | c in s.children
      ensures SettledOf(s.children)[c] == Sum(Part(SpentByAny(s.reservations), Owners(s.reservations), c))
    {
      ChildSpent(s, c);
    }
    SumSame(SettledOf(s.children), Parts(s.children.Keys, SpentByAny(s.reservations), Owners(s.reservations)));
  }

  /** In balanced books the root's totals are what all reservations hold and have spent. */
  lemma RootIsDrawnByAll(s: State)
    requires Conserved(s)
    ensures s.root.reserved == Sum(HeldByAny(s.reservations)) && s.root.settled == Sum(SpentByAny(s.reservations))
  {
    RootHolds(s);
    RootSpent(s);
  }

  lemma ChildIsDrawn(s: State, c: string)
    requires Conserved(s) && c in s.children
    ensures s.children[c].reserved + s.children[c].settled == Drawn(s, c)
  {
    assert AccountConserved(s.children[c], s.reservations, c);
  }

  // ----- what each operation answers -----

  /**
    A new reservation is made exactly when the child exists, the amount is positive, and it fits beside all that the
    child's reservations, and all reservations, already hold and have spent. The first condition that fails gives the
    error.
   */
  lemma ReserveAnswers(s: State, childId: string, maximum: int, requestId: string)
    requires Conserved(s) && requestId !in s.reservations
    ensures var (t, r) := Reserve(s, childId, maximum, requestId);
            if maximum <= 0 then r == Err("INVALID_RESERVATION") && t == s
            else if childId !in s.children then r == Err("UNKNOWN_CHILD") && t == s
            else if Drawn(s, childId) + maximum > s.children[childId].authorized then
              r == Err("CHILD_BUDGET_EXCEEDED") && t == s
            else if DrawnByAll(s) + maximum > s.root.authorized then r == Err("ROOT_BUDGET_EXCEEDED") && t == s
            else
              && r == Ok(Reservation(requestId, childId, maximum, None, Reserved))
              && t.reservations == s.reservations[requestId := r.value]
              && Drawn(t, childId) == Drawn(s, childId) + maximum && DrawnByAll(t) == DrawnByAll(s) + maximum
  {
    var (t, r) := Reserve(s, childId, maximum, requestId);
    RootIsDrawnByAll(s);
    if childId in s.children {
      ChildIsDrawn(s, childId);
    }
    if r.Ok? {
      ReserveConserves(s, childId, maximum, requestId);
      RootIsDrawnByAll(t);
      ChildIsDrawn(t, childId);
    }
  }

  /** In a funded ledger the root has no say. */
  lemma FundedReserveAnswers(s: State, childId: string, maximum: int, requestId: string)
    requires Conserved(s) && Funded(s) && requestId !in s.reservations
    ensures Reserve(s, childId, maximum, requestId).1.Ok? <==>
              && childId in s.children && maximum > 0
              && Drawn(s, childId) + maximum <= s.children[childId].authorized
  {
    ReserveAnswers(s, childId, maximum, requestId);
    if childId in s.children {
      RootCoversChild(s, childId);
      ChildIsDrawn(s, childId);
      RootIsDrawnByAll(s);
    }
  }

  /** A request id that is taken: the same reservation again, or a conflict; nothing moves. */
  lemma RepeatedReserveAnswers(s: State, childId: string, maximum: int, requestId: string)
    requires requestId in s.reservations
    ensures var (t, r) := Reserve(s, childId, maximum, requestId);
            var held := s.reservations[requestId];
            && t == s
            && r == (if childId == held.childId && maximum == held.maximum then Ok(held)
                     else Err("IDEMPOTENCY_CONFLICT"))
  {
  }

  /**
    Settling: an active reservation settles at every amount from nothing to its maximum, which leaves the child with
    the rest; a settled one repeats its own amount only.
   */
  lemma ReconcileAnswers(s: State, requestId: string, actual: int)
    requires Conserved(s)
    ensures var (t, r) := Reconcile(s, requestId, actual);
            if requestId !in s.reservations then r == Err("RESERVATION_NOT_FOUND") && t == s
            else
              var held := s.reservations[requestId];
              if held.actual.Some? then
                t == s && r == (if actual == held.actual.value then Ok(held) else Err("IDEMPOTENCY_CONFLICT"))
              else if actual < 0 || held.maximum < actual then r == Err("ACTUAL_COST_EXCEEDS_RESERVATION") && t == s
              else
                && r == Ok(Reservation(requestId, held.childId, held.maximum, Some(actual), Reconciled))
                && t.reservations == s.reservations[requestId := r.value]
                && Drawn(t, held.childId) == Drawn(s, held.childId) - held.maximum + actual
                && DrawnByAll(t) == DrawnByAll(s) - held.maximum + actual
                && t.children.Keys == s.children.Keys && t.root.authorized == s.root.authorized
                && forall c :: c in s.children ==> t.children[c].authorized == s.children[c].authorized
  {
    if requestId in s.reservations {
      assert Registered(s, requestId);
      var (t, r) := Reconcile(s, requestId, actual);
      var c := s.reservations[requestId].childId;
      ReconcileConserves(s, requestId, actual);
      RootIsDrawnByAll(s);
      RootIsDrawnByAll(t);
      ChildIsDrawn(s, c);
      ChildIsDrawn(t, c);
    }
  }

  /** Reclaiming returns all of a child's authority that its reservations neither hold nor have spent. */
  lemma ReclaimAnswers(s: State, childId: string)
    requires Conserved(s)
    ensures var (t, r) := Reclaim(s, childId);
            if childId !in s.children then r == Err("UNKNOWN_CHILD") && t == s
            else
              && r == Ok(s.children[childId].authorized - Drawn(s, childId))
              && t.reservations == s.reservations && t.root == s.root && t.children.Keys == s.children.Keys
              && t.children[childId].authorized == Drawn(s, childId)
              && forall c :: c in s.children && c != childId ==> t.children[c] == s.children[c]
  {
    if childId in s.children {
      ChildIsDrawn(s, childId);
    }
  }
}
