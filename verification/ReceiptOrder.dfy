/**
  Exactly when the order of the input does not matter to a receipt commitment, the error it throws included. The
  first sequence that two receipts share decides: what the loop says there depends on which of them come first.
 */
module ReceiptOrder {
  import opened Results
  import opened Sorting
  import opened ReceiptCommitment

  const SHARED_SEQUENCE: string := "DUPLICATE_RECEIPT_SEQUENCE"
  const SHARED_REQUEST: string := "DUPLICATE_REQUEST_ID"

  // ----- the receipts of some sequences, in their order -----

  function Select(xs: seq<Receipt>, keep: Receipt -> bool): (r: seq<Receipt>)
    ensures forall i :: 0 <= i < |r| ==> keep(r[i])
  {
    if xs == [] then []
    else (if keep(xs[0]) then [xs[0]] else []) + Select(xs[1..], keep)
  }

  function Under(q: int): Receipt -> bool {
    (r: Receipt) => r.sequence < q
  }

  function From(q: int): Receipt -> bool {
    (r: Receipt) => r.sequence >= q
  }

  function Below(xs: seq<Receipt>, q: int): (r: seq<Receipt>)
    ensures forall i :: 0 <= i < |r| ==> r[i].sequence < q
  {
    Select(xs, Under(q))
  }

  function At(q: int): Receipt -> bool {
    (r: Receipt) => r.sequence == q
  }

  function Group(xs: seq<Receipt>, q: int): (r: seq<Receipt>)
    ensures forall i :: 0 <= i < |r| ==> r[i].sequence == q
  {
    Select(xs, At(q))
  }

  function Above(xs: seq<Receipt>, q: int): seq<Receipt> {
    Select(xs, From(q + 1))
  }

  lemma {:induction false} SelectTwice(xs: seq<Receipt>, first: Receipt -> bool, second: Receipt -> bool,
                                       both: Receipt -> bool)
    requires forall r :: both(r) <==> first(r) && second(r)
    ensures Select(Select(xs, first), second) == Select(xs, both)
  {
    if xs != [] {
      var x, rest := xs[0], Select(xs[1..], first);
      SelectTwice(xs[1..], first, second, both);
      assert both(x) <==> first(x) && second(x);
      if first(x) {
        assert Select(xs, first) == [x] + rest && ([x] + rest)[1..] == rest;
        assert Select([x] + rest, second) == (if second(x) then [x] else []) + Select(rest, second);
      } else {
        assert Select(xs, first) == rest;
      }
    }
  }

  lemma {:induction false} SelectCounts(xs: seq<Receipt>, keep: Receipt -> bool, x: Receipt)
    ensures multiset(Select(xs, keep))[x] == if keep(x) then multiset(xs)[x] else 0
  {
    if xs != [] {
      SelectCounts(xs[1..], keep, x);
      assert xs == [xs[0]] + xs[1..];
    }
  }

  lemma SelectIgnoresOrder(xs: seq<Receipt>, ys: seq<Receipt>, keep: Receipt -> bool)
    requires multiset(xs) == multiset(ys)
    ensures multiset(Select(xs, keep)) == multiset(Select(ys, keep))
  {
    forall x ensures multiset(Select(xs, keep))[x] == multiset(Select(ys, keep))[x] {
      SelectCounts(xs, keep, x);
      SelectCounts(ys, keep, x);
    }
  }

  lemma {:induction false} SelectConcat(xs: seq<Receipt>, ys: seq<Receipt>, keep: Receipt -> bool)
    ensures Select(xs + ys, keep) == Select(xs, keep) + Select(ys, keep)
  {
    if xs == [] {
      assert xs + ys == ys;
    } else {
      assert (xs + ys)[1..] == xs[1..] + ys;
      SelectConcat(xs[1..], ys, keep);
    }
  }

  lemma {:induction false} SelectAll(xs: seq<Receipt>, keep: Receipt -> bool)
    requires forall i :: 0 <= i < |xs| ==> keep(xs[i])
    ensures Select(xs, keep) == xs
  {
    if xs != [] {
      SelectAll(xs[1..], keep);
      assert xs == [xs[0]] + xs[1..];
    }
  }

  lemma {:induction false} SelectNone(xs: seq<Receipt>, keep: Receipt -> bool)
    requires forall i :: 0 <= i < |xs| ==> !keep(xs[i])
    ensures Select(xs, keep) == []
  {
    if xs != [] {
      SelectNone(xs[1..], keep);
    }
  }

  // ----- sorting group by group -----

  lemma {:induction false} InsertLow(x: Receipt, a: seq<Receipt>, b: seq<Receipt>, q: int)
    requires x.sequence < q && forall i :: 0 <= i < |b| ==> b[i].sequence >= q
    ensures Insert(BySequence, x, a + b) == Insert(BySequence, x, a) + b
  {
    if a == [] {
      assert a + b == b;
    } else {
      assert (a + b)[1..] == a[1..] + b;
      InsertLow(x, a[1..], b, q);
    }
  }

  lemma {:induction false} InsertHigh(x: Receipt, a: seq<Receipt>, b: seq<Receipt>, q: int)
    requires x.sequence >= q && forall i :: 0 <= i < |a| ==> a[i].sequence < q
    ensures Insert(BySequence, x, a + b) == a + Insert(BySequence, x, b)
  {
    if a == [] {
      assert a + b == b;
    } else {
      assert (a + b)[1..] == a[1..] + b;
      InsertHigh(x, a[1..], b, q);
      assert a == [a[0]] + a[1..];
    }
  }

  lemma SortKeepsSequences(xs: seq<Receipt>, holds: Receipt -> bool)
    requires forall i :: 0 <= i < |xs| ==> holds(xs[i])
    ensures forall i :: 0 <= i < |Sort(BySequence, xs)| ==> holds(Sort(BySequence, xs)[i])
  {
    var sorted := Sort(BySequence, xs);
    SortKeepsElements(BySequence, xs);
    forall i | 0 <= i < |sorted| ensures holds(sorted[i]) {
      assert sorted[i] in multiset(xs);
    }
  }

  lemma {:induction false} SortSplit(xs: seq<Receipt>, q: int)
    ensures Sort(BySequence, xs) == Sort(BySequence, Below(xs, q)) + Sort(BySequence, Select(xs, From(q)))
  {
    if xs != [] {
      var x, rest := xs[0], xs[1..];
      SortSplit(rest, q);
      SortKeepsSequences(Below(rest, q), Under(q));
      SortKeepsSequences(Select(rest, From(q)), From(q));
      if x.sequence < q {
        InsertLow(x, Sort(BySequence, Below(rest, q)), Sort(BySequence, Select(rest, From(q))), q);
        assert Below(xs, q) == [x] + Below(rest, q) && Below(xs, q)[1..] == Below(rest, q);
        assert Select(xs, From(q)) == Select(rest, From(q));
      } else {
        InsertHigh(x, Sort(BySequence, Below(rest, q)), Sort(BySequence, Select(rest, From(q))), q);
        assert Below(xs, q) == Below(rest, q);
        assert Select(xs, From(q)) == [x] + Select(rest, From(q)) && Select(xs, From(q))[1..] == Select(rest, From(q));
      }
    }
  }

  lemma SortByGroup(xs: seq<Receipt>, q: int)
    ensures Sort(BySequence, xs) == Sort(BySequence, Below(xs, q)) + (Group(xs, q) + Sort(BySequence, Above(xs, q)))
  {
    SortSplit(xs, q);
    SortSplit(Select(xs, From(q)), q + 1);
    SelectTwice(xs, From(q), Under(q + 1), At(q));
    SelectTwice(xs, From(q), From(q + 1), From(q + 1));
    SortOfTies(Group(xs, q), q);
  }

  // ----- the first error -----

  lemma {:induction false} ErrorInPrefix(a: seq<Receipt>, b: seq<Receipt>, i: nat)
    requires i <= |a|
    ensures ErrorFrom(a, i).Some? ==> ErrorFrom(a + b, i) == ErrorFrom(a, i)
    ensures ErrorFrom(a, i).None? ==> ErrorFrom(a + b, i) == ErrorFrom(a + b, |a|)
    decreases |a| - i
  {
    if i < |a| {
      assert (a + b)[..|a|] == a;
      assert NewSequence(a + b, i) == NewSequence(a, i) && NewRequest(a + b, i) == NewRequest(a, i);
      ErrorInPrefix(a, b, i + 1);
    }
  }

  predicate Used(below: seq<Receipt>, id: string) {
    exists j :: 0 <= j < |below| && below[j].requestId == id
  }

  /** What the loop says of a receipt whose sequence it sees for the first time. */
  function HeadError(below: seq<Receipt>, e: Receipt): Option<string> {
    if ReceiptError(e).Some? then ReceiptError(e)
    else if Used(below, e.requestId) then Some(SHARED_REQUEST)
    else None
  }

  /** What it says when `a` and then `b` come first among the receipts of one sequence. */
  function PairError(below: seq<Receipt>, a: Receipt, b: Receipt): string {
    match HeadError(below, a)
    case Some(code) => code
    case None => if ReceiptError(b).Some? then ReceiptError(b).value else SHARED_SEQUENCE
  }

  lemma ErrorAtTie(below: seq<Receipt>, g: seq<Receipt>, rest: seq<Receipt>, q: int)
    requires forall i :: 0 <= i < |below| ==> below[i].sequence < q
    requires |g| >= 2 && g[0].sequence == g[1].sequence == q
    ensures ErrorFrom(below + (g + rest), |below|) == Some(PairError(below, g[0], g[1]))
  {
    var rs, n := below + (g + rest), |below|;
    assert rs[n] == g[0] && rs[n + 1] == g[1];
    assert forall j :: 0 <= j < n ==> rs[j] == below[j];
    assert NewSequence(rs, n);
    assert NewRequest(rs, n) <==> !Used(below, g[0].requestId);
    assert !NewSequence(rs, n + 1) by {
      assert rs[n].sequence == rs[n + 1].sequence;
    }
  }

  /** The error of a list whose first shared sequence is `q`, unless a smaller sequence is already in error. */
  lemma BuildAtTie(mandateId: string, xs: seq<Receipt>, q: int)
    requires mandateId != "" && |Group(xs, q)| >= 2
    ensures var before := ErrorFrom(Sort(BySequence, Below(xs, q)), 0);
            Build(mandateId, xs) ==
            Err(if before.Some? then before.value else PairError(Below(xs, q), Group(xs, q)[0], Group(xs, q)[1]))
  {
    var below, g := Sort(BySequence, Below(xs, q)), Group(xs, q);
    SortByGroup(xs, q);
    SortKeepsSequences(Below(xs, q), Under(q));
    ErrorInPrefix(below, g + Sort(BySequence, Above(xs, q)), 0);
    ErrorAtTie(below, g, Sort(BySequence, Above(xs, q)), q);
    SortKeepsElements(BySequence, Below(xs, q));
    SameHeads(below, Below(xs, q), g[0]);
  }

  lemma SameHeads(a: seq<Receipt>, b: seq<Receipt>, e: Receipt)
    requires multiset(a) == multiset(b)
    ensures HeadError(a, e) == HeadError(b, e)
  {
    if Used(a, e.requestId) {
      var j :| 0 <= j < |a| && a[j].requestId == e.requestId;
      assert a[j] in multiset(b);
    }
    if Used(b, e.requestId) {
      var j :| 0 <= j < |b| && b[j].requestId == e.requestId;
      assert b[j] in multiset(a);
    }
  }

  // ----- when a group says the same in every order -----

  /**
    All receipts of the group fare alike when they come first; or one of them passes and all others are invalid for
    one and the same reason.
   */
  ghost predicate Agreeing(below: seq<Receipt>, g: seq<Receipt>) {
    || (forall i, j :: 0 <= i < |g| && 0 <= j < |g| ==> HeadError(below, g[i]) == HeadError(below, g[j]))
    || (exists p :: 0 <= p < |g| && OnlyPasses(below, g, p))
  }

  ghost predicate OnlyPasses(below: seq<Receipt>, g: seq<Receipt>, p: nat)
    requires p < |g|
  {
    && HeadError(below, g[p]).None?
    && forall j, k :: 0 <= j < |g| && 0 <= k < |g| && j != p && k != p ==>
         ReceiptError(g[j]).Some? && ReceiptError(g[j]) == ReceiptError(g[k])
  }

  lemma AgreeingPairs(below: seq<Receipt>, g: seq<Receipt>, i: nat, j: nat, k: nat, l: nat)
    requires Agreeing(below, g) && i < |g| && j < |g| && k < |g| && l < |g| && i != j && k != l
    ensures PairError(below, g[i], g[j]) == PairError(below, g[k], g[l])
  {
    if !(forall m, n :: 0 <= m < |g| && 0 <= n < |g| ==> HeadError(below, g[m]) == HeadError(below, g[n])) {
      var p :| 0 <= p < |g| && OnlyPasses(below, g, p);
      var r := if i == p then j else i;
      OnlyPassesPair(below, g, p, i, j, r);
      OnlyPassesPair(below, g, p, k, l, r);
    } else {
      assert HeadError(below, g[i]) == HeadError(below, g[j]) == HeadError(below, g[k]) == HeadError(below, g[l]);
    }
  }

  lemma OnlyPassesPair(below: seq<Receipt>, g: seq<Receipt>, p: nat, i: nat, j: nat, r: nat)
    requires p < |g| && OnlyPasses(below, g, p) && i < |g| && j < |g| && i != j && r < |g| && r != p
    ensures Some(PairError(below, g[i], g[j])) == ReceiptError(g[r])
  {
    var other := if i == p then j else i;
    assert ReceiptError(g[other]).Some? && ReceiptError(g[other]) == ReceiptError(g[r]);
  }

  lemma CodesDiffer(e: Receipt)
    ensures ReceiptError(e).Some? ==>
              ReceiptError(e).value != SHARED_SEQUENCE && ReceiptError(e).value != SHARED_REQUEST
    ensures SHARED_SEQUENCE != SHARED_REQUEST
  {
    assert SHARED_SEQUENCE[0] == 'D' && SHARED_REQUEST[0] == 'D' && |SHARED_SEQUENCE| != |SHARED_REQUEST|;
    if ReceiptError(e).Some? {
      assert ReceiptError(e).value[0] == 'I';
    }
  }

  /** A group that does not agree has two pairs of receipts that give different errors. */
  lemma DisagreeingPairs(below: seq<Receipt>, g: seq<Receipt>) returns (i: nat, j: nat, k: nat, l: nat)
    requires !Agreeing(below, g)
    ensures i < |g| && j < |g| && k < |g| && l < |g| && i != j && k != l
    ensures PairError(below, g[i], g[j]) != PairError(below, g[k], g[l])
  {
    var a: nat, b: nat :| a < |g| && b < |g| && HeadError(below, g[a]) != HeadError(below, g[b]);
    if HeadError(below, g[a]).Some? && HeadError(below, g[b]).Some? {
      i, j, k, l := a, b, b, a;
    } else if HeadError(below, g[a]).None? {
      i, j, k, l := PassAndFail(below, g, a, b);
    } else {
      i, j, k, l := PassAndFail(below, g, b, a);
    }
  }

  lemma PassAndFail(below: seq<Receipt>, g: seq<Receipt>, p: nat, b: nat) returns (i: nat, j: nat, k: nat, l: nat)
    requires !Agreeing(below, g) && p < |g| && b < |g| && HeadError(below, g[p]).None? && HeadError(below, g[b]).Some?
    ensures i < |g| && j < |g| && k < |g| && l < |g| && i != j && k != l
    ensures PairError(below, g[i], g[j]) != PairError(below, g[k], g[l])
  {
    assert !OnlyPasses(below, g, p);
    var m: nat, n: nat :| m < |g| && n < |g| && m != p && n != p
        && (ReceiptError(g[m]).None? || ReceiptError(g[m]) != ReceiptError(g[n]));
    CodesDiffer(g[b]);
    if ReceiptError(g[b]).None? {
      // the failing receipt repeats an earlier request: first, that is what is said of it; second, that it shares the
      // sequence
      i, j, k, l := b, p, p, b;
    } else if ReceiptError(g[m]).None? {
      // after the passing receipt, one valid and one invalid receipt are told apart
      i, j, k, l := p, m, p, b;
    } else if ReceiptError(g[n]).None? {
      i, j, k, l := p, n, p, b;
    } else {
      i, j, k, l := m, p, n, p;
    }
  }

  // ----- the condition -----

  /** Every receipt of a smaller sequence is valid and shares nothing. */
  predicate Clean(xs: seq<Receipt>, q: int) {
    AllValid(Below(xs, q)) && Distinct(Below(xs, q))
  }

  /** Wherever the loop can get to, the receipts of one sequence agree. */
  ghost predicate TiesAgree(xs: seq<Receipt>) {
    forall q :: Clean(xs, q) ==> Agreeing(Below(xs, q), Group(xs, q))
  }

  lemma CleanIff(xs: seq<Receipt>, q: int)
    ensures ErrorFrom(Sort(BySequence, Below(xs, q)), 0).None? <==> Clean(xs, q)
  {
    BuildsIff("m", Below(xs, q));
  }

  /** The least sequence that is shared, if any. */
  lemma {:induction false} LeastTie(xs: seq<Receipt>, q: int) returns (least: int)
    requires |Group(xs, q)| >= 2
    ensures |Group(xs, least)| >= 2 && forall p :: p < least ==> |Group(xs, p)| <= 1
    decreases |Below(xs, q)|
  {
    if p :| p < q && |Group(xs, p)| >= 2 {
      FewerBelow(xs, p, q);
      least := LeastTie(xs, p);
    } else {
      least := q;
    }
  }

  lemma {:induction false} BelowNested(xs: seq<Receipt>, p: int, q: int)
    requires p < q
    ensures |Below(xs, p)| + |Group(xs, p)| <= |Below(xs, q)|
  {
    if xs != [] {
      BelowNested(xs[1..], p, q);
    }
  }

  lemma FewerBelow(xs: seq<Receipt>, p: int, q: int)
    requires p < q && |Group(xs, p)| >= 2
    ensures |Below(xs, p)| < |Below(xs, q)|
  {
    BelowNested(xs, p, q);
  }

  lemma InGroup(xs: seq<Receipt>, x: Receipt)
    requires x in xs
    ensures multiset(Group(xs, x.sequence))[x] >= 1
  {
    SelectCounts(xs, At(x.sequence), x);
    assert x in multiset(xs);
  }

  lemma OneEachMeansEqual(xs: seq<Receipt>, x: Receipt, y: Receipt)
    requires x in xs && y in xs && x.sequence == y.sequence && |Group(xs, x.sequence)| <= 1
    ensures x == y
  {
    InGroup(xs, x);
    InGroup(xs, y);
    var g := Group(xs, x.sequence);
    assert x in multiset(g) && y in multiset(g);
  }

  lemma NoTies(xs: seq<Receipt>)
    requires forall q :: |Group(xs, q)| <= 1
    ensures TiesAreEqual(xs)
  {
    forall x, y | x in xs && y in xs && x.sequence == y.sequence ensures x == y {
      OneEachMeansEqual(xs, x, y);
    }
  }

  lemma BelowHasNoTies(xs: seq<Receipt>, q: int)
    requires forall p :: p < q ==> |Group(xs, p)| <= 1
    ensures TiesAreEqual(Below(xs, q))
  {
    var below := Below(xs, q);
    forall x, y | x in below && y in below && x.sequence == y.sequence ensures x == y {
      SelectCounts(xs, Under(q), x);
      SelectCounts(xs, Under(q), y);
      assert x in multiset(below) && y in multiset(below);
      assert x in multiset(xs) && y in multiset(xs);
      OneEachMeansEqual(xs, x, y);
    }
  }

  lemma GroupIgnoresOrder(xs: seq<Receipt>, ys: seq<Receipt>, q: int)
    requires multiset(xs) == multiset(ys)
    ensures multiset(Group(xs, q)) == multiset(Group(ys, q)) && multiset(Below(xs, q)) == multiset(Below(ys, q))
    ensures |Group(xs, q)| == |Group(ys, q)|
  {
    SelectIgnoresOrder(xs, ys, Under(q));
    SelectIgnoresOrder(xs, ys, At(q));
    assert |multiset(Group(xs, q))| == |Group(xs, q)| && |multiset(Group(ys, q))| == |Group(ys, q)|;
  }

  /** The first two of a permutation stand at two different places of the original. */
  lemma FirstTwo(s: seq<Receipt>, t: seq<Receipt>) returns (i: nat, j: nat)
    requires multiset(s) == multiset(t) && |t| >= 2
    ensures i < |s| && j < |s| && i != j && s[i] == t[0] && s[j] == t[1]
  {
    i := FindFirst(t, s);
    var rest := s[..i] + s[i + 1..];
    var k := FindFirst(t[1..], rest);
    j := if k < i then k else k + 1;
  }

  lemma SamePairs(below: seq<Receipt>, other: seq<Receipt>, a: Receipt, b: Receipt)
    requires multiset(below) == multiset(other)
    ensures PairError(below, a, b) == PairError(other, a, b)
  {
    SameHeads(below, other, a);
  }

  lemma TiesAgreeMeansSame(mandateId: string, xs: seq<Receipt>, ys: seq<Receipt>)
    requires mandateId != "" && TiesAgree(xs) && multiset(xs) == multiset(ys)
    ensures Build(mandateId, ys) == Build(mandateId, xs)
  {
    if q0 :| |Group(xs, q0)| >= 2 {
      var q := LeastTie(xs, q0);
      GroupIgnoresOrder(xs, ys, q);
      BuildAtTie(mandateId, xs, q);
      BuildAtTie(mandateId, ys, q);
      BelowHasNoTies(xs, q);
      OrderBySequence();
      SortIgnoresOrder(BySequence, Below(xs, q), Below(ys, q));
      CleanIff(xs, q);
      if Clean(xs, q) {
        TieSaysTheSame(xs, ys, q);
      }
    } else {
      NoTies(xs);
      CommitmentIgnoresOrder(mandateId, xs, ys);
    }
  }

  lemma TieSaysTheSame(xs: seq<Receipt>, ys: seq<Receipt>, q: int)
    requires multiset(xs) == multiset(ys) && |Group(xs, q)| >= 2 && |Group(ys, q)| >= 2
    requires Agreeing(Below(xs, q), Group(xs, q))
    ensures PairError(Below(xs, q), Group(xs, q)[0], Group(xs, q)[1])
            == PairError(Below(ys, q), Group(ys, q)[0], Group(ys, q)[1])
  {
    GroupIgnoresOrder(xs, ys, q);
    var i, j := FirstTwo(Group(xs, q), Group(ys, q));
    AgreeingPairs(Below(xs, q), Group(xs, q), 0, 1, i, j);
    SamePairs(Below(xs, q), Below(ys, q), Group(xs, q)[i], Group(xs, q)[j]);
  }

  // ----- a permutation that shows it -----

  lemma Drop(g: seq<Receipt>, i: nat) returns (r: seq<Receipt>)
    requires i < |g|
    ensures |r| == |g| - 1 && multiset(g) == multiset(r) + multiset{g[i]}
    ensures forall k :: 0 <= k < |r| ==> r[k] == g[if k < i then k else k + 1]
  {
    r := g[..i] + g[i + 1..];
    RemoveElement(g, i);
    assert g[i] in multiset(g);
  }

  lemma TwoFirst(g: seq<Receipt>, i: nat, j: nat) returns (r: seq<Receipt>)
    requires i < |g| && j < |g| && i != j
    ensures multiset(r) == multiset(g) && |r| >= 2 && r[0] == g[i] && r[1] == g[j]
  {
    var once := Drop(g, i);
    var k := if j < i then j else j - 1;
    var twice := Drop(once, k);
    r := [g[i], g[j]] + twice;
    assert once[k] == g[j];
    assert multiset(r) == multiset{g[i]} + multiset{g[j]} + multiset(twice);
  }

  lemma Partition(xs: seq<Receipt>, q: int)
    ensures multiset(xs) == multiset(Group(xs, q)) + multiset(Below(xs, q)) + multiset(Above(xs, q))
  {
    forall x
      ensures multiset(xs)[x] == multiset(Group(xs, q))[x] + multiset(Below(xs, q))[x] + multiset(Above(xs, q))[x]
    {
      SelectCounts(xs, Under(q), x);
      SelectCounts(xs, At(q), x);
      SelectCounts(xs, From(q + 1), x);
    }
  }

  /** The same receipts with two of a group in front: the commitment then fails with what that pair says. */
  lemma PairInFront(mandateId: string, xs: seq<Receipt>, q: int, i: nat, j: nat) returns (ys: seq<Receipt>)
    requires mandateId != "" && Clean(xs, q) && i < |Group(xs, q)| && j < |Group(xs, q)| && i != j
    ensures multiset(ys) == multiset(xs)
    ensures Build(mandateId, ys) == Err(PairError(Below(xs, q), Group(xs, q)[i], Group(xs, q)[j]))
  {
    var g := TwoFirst(Group(xs, q), i, j);
    var rest := Below(xs, q) + Above(xs, q);
    ys := g + rest;
    Partition(xs, q);
    GroupIgnoresOrder(xs, ys, q);
    GroupInFront(g, rest, xs, q);
    BuildAtTie(mandateId, ys, q);
    ValidIgnoresOrder(Below(xs, q), Below(ys, q));
    DistinctIgnoresOrder(Below(xs, q), Below(ys, q));
    CleanIff(ys, q);
    SamePairs(Below(xs, q), Below(ys, q), g[0], g[1]);
  }

  lemma GroupInFront(g: seq<Receipt>, rest: seq<Receipt>, xs: seq<Receipt>, q: int)
    requires multiset(g) == multiset(Group(xs, q)) && rest == Below(xs, q) + Above(xs, q)
    ensures Group(g + rest, q) == g
  {
    forall k | 0 <= k < |g| ensures g[k].sequence == q {
      assert g[k] in multiset(Group(xs, q));
    }
    SelectConcat(g, rest, At(q));
    SelectAll(g, At(q));
    SelectConcat(Below(xs, q), Above(xs, q), At(q));
    SelectNone(Below(xs, q), At(q));
    SelectNone(Above(xs, q), At(q));
  }

  /**
    The commitment, or the error thrown, is the same for every order of the input exactly when, at each sequence with
    nothing wrong before it, the receipts of that sequence agree.
   */
  lemma BuildIgnoresOrderIff(mandateId: string, xs: seq<Receipt>)
    ensures (forall ys :: multiset(ys) == multiset(xs) ==> Build(mandateId, ys) == Build(mandateId, xs))
            <==> mandateId == "" || TiesAgree(xs)
  {
    if mandateId != "" {
      if TiesAgree(xs) {
        forall ys | multiset(ys) == multiset(xs) ensures Build(mandateId, ys) == Build(mandateId, xs) {
          TiesAgreeMeansSame(mandateId, xs, ys);
        }
      } else {
        var q :| Clean(xs, q) && !Agreeing(Below(xs, q), Group(xs, q));
        var i, j, k, l := DisagreeingPairs(Below(xs, q), Group(xs, q));
        var ys := PairInFront(mandateId, xs, q, i, j);
        var zs := PairInFront(mandateId, xs, q, k, l);
        assert Build(mandateId, ys) != Build(mandateId, zs);
      }
    }
  }
}
