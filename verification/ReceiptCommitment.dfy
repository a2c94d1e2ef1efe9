/**
  The receipt commitment: receipts sorted by sequence, refused when two share a sequence or a request, and totalled.
 */
module ReceiptCommitment {
  import opened Results
  import opened Sorting
  import Decimal
  import J = CanonicalJson

  const MAX_SAFE_INTEGER: int := 9_007_199_254_740_991

  datatype Receipt = Receipt(sequence: int, requestId: string, childId: string, inputTokens: int, outputTokens: int,
                             costAtomic: string, authorizationHash: string, circuitState: string)

  datatype Commitment = Commitment(mandateId: string, receipts: seq<Receipt>, totalPaid: nat)

  function ReceiptError(r: Receipt): Option<string> {
    if r.requestId == "" || r.childId == "" || r.authorizationHash == "" || r.circuitState == "" then
      Some("INVALID_RECEIPT_FIELDS")
    else if r.sequence < 1 || r.sequence > MAX_SAFE_INTEGER then Some("INVALID_RECEIPT_SEQUENCE")
    else if Decimal.Exact(r.costAtomic).None? then Some("INVALID_COST_ATOMIC")
    else if r.inputTokens < 0 || r.inputTokens > MAX_SAFE_INTEGER then Some("INVALID_INPUT_TOKENS")
    else if r.outputTokens < 0 || r.outputTokens > MAX_SAFE_INTEGER then Some("INVALID_OUTPUT_TOKENS")
    else None
  }

  predicate BySequence(a: Receipt, b: Receipt) {
    a.sequence <= b.sequence
  }

  /** The first error of a sorted list, from position `i` on. */
  function ErrorFrom(rs: seq<Receipt>, i: nat): (e: Option<string>)
    requires i <= |rs|
    ensures e.None? <==>
              forall k :: i <= k < |rs| ==> ReceiptError(rs[k]).None? && NewSequence(rs, k) && NewRequest(rs, k)
    decreases |rs| - i
  {
    if i == |rs| then None
    else if ReceiptError(rs[i]).Some? then ReceiptError(rs[i])
    else if !NewSequence(rs, i) then Some("DUPLICATE_RECEIPT_SEQUENCE")
    else if !NewRequest(rs, i) then Some("DUPLICATE_REQUEST_ID")
    else ErrorFrom(rs, i + 1)
  }

  predicate NewSequence(rs: seq<Receipt>, k: nat)
    requires k < |rs|
  {
    forall j :: 0 <= j < k ==> rs[j].sequence != rs[k].sequence
  }

  predicate NewRequest(rs: seq<Receipt>, k: nat)
    requires k < |rs|
  {
    forall j :: 0 <= j < k ==> rs[j].requestId != rs[k].requestId
  }

  function Cost(r: Receipt): nat {
    match Decimal.Exact(r.costAtomic)
    case None => 0
    case Some(n) => n
  }

  function Total(rs: seq<Receipt>): nat {
    if rs == [] then 0 else Total(rs[..|rs| - 1]) + Cost(rs[|rs| - 1])
  }

  function Build(mandateId: string, input: seq<Receipt>): Result<Commitment> {
    if mandateId == "" then Err("INVALID_MANDATE_ID")
    else
      var receipts := Sort(BySequence, input);
      match ErrorFrom(receipts, 0)
      case Some(code) => Err(code)
      case None => Ok(Commitment(mandateId, receipts, Total(receipts)))
  }

  method BuildReceiptCommitment(mandateId: string, input: seq<Receipt>) returns (r: Result<Commitment>)
    ensures r == Build(mandateId, input)
  {
    if mandateId == "" {
      return Err("INVALID_MANDATE_ID");
    }
    var receipts := Sort(BySequence, input);
    var seenSequences: set<int>, seenRequests: set<string> := {}, {};
    for i := 0 to |receipts|
      invariant ErrorFrom(receipts, 0) == ErrorFrom(receipts, i)
      invariant seenSequences == set j | 0 <= j < i :: receipts[j].sequence
      invariant seenRequests == set j | 0 <= j < i :: receipts[j].requestId
    {
      var error := ReceiptError(receipts[i]);
      if error.Some? { return Err(error.value); }
      if receipts[i].sequence in seenSequences { return Err("DUPLICATE_RECEIPT_SEQUENCE"); }
      if receipts[i].requestId in seenRequests { return Err("DUPLICATE_REQUEST_ID"); }
      seenSequences := seenSequences + {receipts[i].sequence};
      seenRequests := seenRequests + {receipts[i].requestId};
    }
    var total := 0;
    for i := 0 to |receipts|
      invariant total == Total(receipts[..i])
    {
      assert receipts[..i + 1][..i] == receipts[..i];
      total := total + Cost(receipts[i]);
    }
    assert receipts[..|receipts|] == receipts;
    return Ok(Commitment(mandateId, receipts, total));
  }

  // ----- what is accepted -----

  predicate Distinct(input: seq<Receipt>) {
    forall i, j :: 0 <= i < j < |input| ==>
      input[i].sequence != input[j].sequence && input[i].requestId != input[j].requestId
  }

  predicate AllValid(input: seq<Receipt>) {
    forall i :: 0 <= i < |input| ==> ReceiptError(input[i]).None?
  }

  /** A receipt with all its texts, safe counts from their least values, and a printed cost. */
  ghost predicate Acceptable(r: Receipt) {
    && r.requestId != "" && r.childId != "" && r.authorizationHash != "" && r.circuitState != ""
    && 1 <= r.sequence <= 9_007_199_254_740_991
    && 0 <= r.inputTokens <= 9_007_199_254_740_991 && 0 <= r.outputTokens <= 9_007_199_254_740_991
    && exists n: nat :: r.costAtomic == Decimal.Print(n)
  }

  lemma ValidIffAcceptable(input: seq<Receipt>)
    ensures AllValid(input) <==> forall i :: 0 <= i < |input| ==> Acceptable(input[i])
  {
    forall i | 0 <= i < |input| ensures ReceiptError(input[i]).None? <==> Acceptable(input[i]) {
      forall n: nat {
        Decimal.ExactIsPrinted(input[i].costAtomic, n);
      }
    }
  }

  lemma OrderBySequence()
    ensures TotalPreorder(BySequence)
  {
  }

  /** The same on the multiset of receipts: none occurs twice, and no two share a sequence or a request. */
  ghost predicate DistinctBag(bag: multiset<Receipt>) {
    && (forall x :: bag[x] <= 1)
    && (forall x, y :: x in bag && y in bag && x != y ==> x.sequence != y.sequence && x.requestId != y.requestId)
  }

  lemma {:induction false} OccursOnce(xs: seq<Receipt>, x: Receipt)
    requires Distinct(xs)
    ensures multiset(xs)[x] <= 1
  {
    if xs != [] {
      assert xs == [xs[0]] + xs[1..];
      OccursOnce(xs[1..], x);
      if x == xs[0] {
        forall i | 0 <= i < |xs| - 1 ensures xs[1..][i] != x {
          assert xs[1..][i] == xs[i + 1];
        }
        assert x !in multiset(xs[1..]);
      }
    }
  }

  lemma DistinctIffBag(xs: seq<Receipt>)
    ensures Distinct(xs) <==> DistinctBag(multiset(xs))
  {
    if Distinct(xs) {
      forall x ensures multiset(xs)[x] <= 1 {
        OccursOnce(xs, x);
      }
      forall x, y | x in multiset(xs) && y in multiset(xs) && x != y
        ensures x.sequence != y.sequence && x.requestId != y.requestId
      {
        var i :| 0 <= i < |xs| && xs[i] == x;
        var j :| 0 <= j < |xs| && xs[j] == y;
      }
    }
    if DistinctBag(multiset(xs)) {
      forall i, j | 0 <= i < j < |xs| ensures xs[i].sequence != xs[j].sequence && xs[i].requestId != xs[j].requestId {
        assert xs[i] in multiset(xs) && xs[j] in multiset(xs);
        if xs[i] == xs[j] {
          TwiceIn(xs, i, j);
        }
      }
    }
  }

  lemma DistinctIgnoresOrder(xs: seq<Receipt>, ys: seq<Receipt>)
    requires multiset(xs) == multiset(ys) && Distinct(xs)
    ensures Distinct(ys)
  {
    DistinctIffBag(xs);
    DistinctIffBag(ys);
  }

  lemma ValidIgnoresOrder(xs: seq<Receipt>, ys: seq<Receipt>)
    requires multiset(xs) == multiset(ys) && AllValid(xs)
    ensures AllValid(ys)
  {
    forall i | 0 <= i < |ys| ensures ReceiptError(ys[i]).None? {
      assert ys[i] in multiset(xs);
      var j :| 0 <= j < |xs| && xs[j] == ys[i];
    }
  }

  /**
    A commitment is built exactly when every receipt is acceptable and no two share a sequence or a request id,
    wherever they stand; it then holds the receipts in strictly ascending sequence.
   */
  lemma BuildsIff(mandateId: string, input: seq<Receipt>)
    ensures Build(mandateId, input).Ok? <==> mandateId != "" && AllValid(input) && Distinct(input)
    ensures Build(mandateId, input).Ok? <==>
              mandateId != "" && Distinct(input) && forall i :: 0 <= i < |input| ==> Acceptable(input[i])
    ensures Build(mandateId, input).Ok? ==>
              var c := Build(mandateId, input).value;
              && c.mandateId == mandateId && multiset(c.receipts) == multiset(input)
              && forall i, j :: 0 <= i < j < |c.receipts| ==> c.receipts[i].sequence < c.receipts[j].sequence
  {
    var receipts := Sort(BySequence, input);
    ValidIffAcceptable(input);
    OrderBySequence();
    SortKeepsElements(BySequence, input);
    SortSorts(BySequence, input);
    if mandateId != "" && ErrorFrom(receipts, 0).None? {
      forall i, j | 0 <= i < j < |receipts|
        ensures receipts[i].sequence < receipts[j].sequence && receipts[i].requestId != receipts[j].requestId
      {
        assert NewSequence(receipts, j) && NewRequest(receipts, j) && BySequence(receipts[i], receipts[j]);
      }
      ValidIgnoresOrder(receipts, input);
      DistinctIgnoresOrder(receipts, input);
    }
    if AllValid(input) && Distinct(input) {
      ValidIgnoresOrder(input, receipts);
      DistinctIgnoresOrder(input, receipts);
    }
  }

  // ----- order of the input -----

  /** No two different receipts share a sequence. */
  ghost predicate TiesAreEqual(input: seq<Receipt>) {
    forall x, y :: x in input && y in input && x.sequence == y.sequence ==> x == y
  }

  /** Whether a commitment is built, and the commitment, do not depend on the order of the input. */
  lemma CommitmentIgnoresOrder(mandateId: string, xs: seq<Receipt>, ys: seq<Receipt>)
    requires multiset(xs) == multiset(ys)
    ensures Build(mandateId, xs).Ok? <==> Build(mandateId, ys).Ok?
    ensures Build(mandateId, xs).Ok? || TiesAreEqual(xs) ==> Build(mandateId, xs) == Build(mandateId, ys)
  {
    BuildsIff(mandateId, xs);
    BuildsIff(mandateId, ys);
    if AllValid(xs) && Distinct(xs) {
      ValidIgnoresOrder(xs, ys);
      DistinctIgnoresOrder(xs, ys);
    }
    if AllValid(ys) && Distinct(ys) {
      ValidIgnoresOrder(ys, xs);
      DistinctIgnoresOrder(ys, xs);
    }
    if Distinct(xs) || TiesAreEqual(xs) {
      OrderBySequence();
      SortIgnoresOrder(BySequence, xs, ys);
    }
  }

  /** Only which error is thrown can depend on the order: any invalid receipt beside two with its sequence shows it. */
  lemma ErrorDependsOnOrder(mandateId: string, good: Receipt, other: Receipt, bad: Receipt)
    requires mandateId != "" && ReceiptError(good).None? && ReceiptError(other).None? && ReceiptError(bad).Some?
    requires good.sequence == other.sequence == bad.sequence
    ensures Build(mandateId, [good, other, bad]) == Err("DUPLICATE_RECEIPT_SEQUENCE")
    ensures Build(mandateId, [bad, good, other]) == Err(ReceiptError(bad).value)
    ensures Build(mandateId, [good, other, bad]) != Build(mandateId, [bad, good, other])
  {
    SortOfTies([good, other, bad], good.sequence);
    SortOfTies([bad, good, other], good.sequence);
    var twice := [good, other, bad];
    assert NewSequence(twice, 0) && NewRequest(twice, 0) && ErrorFrom(twice, 0) == ErrorFrom(twice, 1);
    assert twice[0].sequence == twice[1].sequence && !NewSequence(twice, 1);
    assert ReceiptError(bad).value[0] == 'I';
  }

  lemma {:induction false} SortOfTies(xs: seq<Receipt>, sequence: int)
    requires forall i :: 0 <= i < |xs| ==> xs[i].sequence == sequence
    ensures Sort(BySequence, xs) == xs
  {
    if xs != [] {
      SortOfTies(xs[1..], sequence);
      assert xs == [xs[0]] + xs[1..];
    }
  }

  // ----- the committed text -----

  function Number(n: nat): J.Json {
    J.Num(Units(Decimal.Print(n)))
  }

  function Text(s: string): J.Json {
    J.Str(Units(s))
  }

  /** A receipt as it is serialized, members in the order of its type. */
  function ReceiptJson(r: Receipt): J.Json
    requires ReceiptError(r).None?
  {
    J.Obj([J.Member(Units("sequence"), Number(r.sequence)), J.Member(Units("requestId"), Text(r.requestId)),
           J.Member(Units("childId"), Text(r.childId)), J.Member(Units("inputTokens"), Number(r.inputTokens)),
           J.Member(Units("outputTokens"), Number(r.outputTokens)), J.Member(Units("costAtomic"), Text(r.costAtomic)),
           J.Member(Units("authorizationHash"), Text(r.authorizationHash)),
           J.Member(Units("circuitState"), Text(r.circuitState))])
  }

  function ReceiptsJson(rs: seq<Receipt>): seq<J.Json>
    requires AllValid(rs)
  {
    seq(|rs|, i requires 0 <= i < |rs| => ReceiptJson(rs[i]))
  }

  function BundleJson(mandateId: string, rs: seq<Receipt>): J.Json
    requires AllValid(rs)
  {
    J.Obj([J.Member(Units("version"), Number(1)), J.Member(Units("mandateId"), Text(mandateId)),
           J.Member(Units("receipts"), J.Arr(ReceiptsJson(rs)))])
  }

  lemma UnitsInjective(a: string, b: string)
    requires Units(a) == Units(b)
    ensures a == b
  {
    forall i | 0 <= i < |a| ensures a[i] == b[i] {
      assert Units(a)[i] == Units(b)[i];
    }
  }

  lemma NumberInjective(a: nat, b: nat)
    requires Number(a) == Number(b)
    ensures a == b
  {
    UnitsInjective(Decimal.Print(a), Decimal.Print(b));
    Decimal.ValueOfPrint(a);
    Decimal.ValueOfPrint(b);
  }

  lemma ReceiptInjective(a: Receipt, b: Receipt)
    requires ReceiptError(a).None? && ReceiptError(b).None? && ReceiptJson(a) == ReceiptJson(b)
    ensures a == b
  {
    var m, n := ReceiptJson(a).members, ReceiptJson(b).members;
    assert m[0] == n[0] && m[1] == n[1] && m[2] == n[2] && m[3] == n[3] && m[4] == n[4] && m[5] == n[5] && m[6] == n[6]
        && m[7] == n[7];
    NumberInjective(a.sequence, b.sequence);
    UnitsInjective(a.requestId, b.requestId);
    UnitsInjective(a.childId, b.childId);
    NumberInjective(a.inputTokens, b.inputTokens);
    NumberInjective(a.outputTokens, b.outputTokens);
    UnitsInjective(a.costAtomic, b.costAtomic);
    UnitsInjective(a.authorizationHash, b.authorizationHash);
    UnitsInjective(a.circuitState, b.circuitState);
  }

  lemma NumberIsValid(n: nat)
    ensures J.Valid(Number(n))
  {
    var s := Decimal.Print(n);
    assert forall i :: 0 <= i < |s| ==> Decimal.IsDigit(s[i]);
  }

  lemma ReceiptIsValid(r: Receipt)
    requires ReceiptError(r).None?
    ensures J.Valid(ReceiptJson(r))
  {
    NumberIsValid(r.sequence);
    NumberIsValid(r.inputTokens);
    NumberIsValid(r.outputTokens);
    var names := ["sequence", "requestId", "childId", "inputTokens", "outputTokens", "costAtomic", "authorizationHash",
                  "circuitState"];
    var members := ReceiptJson(r).members;
    forall i, j | 0 <= i < j < 8 ensures members[i].key != members[j].key {
      if members[i].key == members[j].key {
        UnitsInjective(names[i], names[j]);
      }
    }
  }

  lemma BundleIsValid(mandateId: string, rs: seq<Receipt>)
    requires AllValid(rs)
    ensures J.Valid(BundleJson(mandateId, rs))
  {
    NumberIsValid(1);
    var items := ReceiptsJson(rs);
    forall i | 0 <= i < |items| ensures J.Valid(items[i]) {
      ReceiptIsValid(rs[i]);
    }
    assert J.Valid(J.Arr(items));
    assert |Units("version")| == 7 && |Units("mandateId")| == 9 && |Units("receipts")| == 8;
  }

  /** The committed text decides the commitment: equal texts mean the same mandate, receipts and total. */
  lemma TextDecidesCommitment(m: string, xs: seq<Receipt>, n: string, ys: seq<Receipt>)
    requires Build(m, xs).Ok? && Build(n, ys).Ok?
    ensures AllValid(Build(m, xs).value.receipts) && AllValid(Build(n, ys).value.receipts)
    ensures J.Render(BundleJson(m, Build(m, xs).value.receipts)) == J.Render(BundleJson(n, Build(n, ys).value.receipts))
            <==> m == n && multiset(xs) == multiset(ys)
  {
    var a, b := Build(m, xs).value.receipts, Build(n, ys).value.receipts;
    BuildsIff(m, xs);
    BuildsIff(n, ys);
    ValidIgnoresOrder(xs, a);
    ValidIgnoresOrder(ys, b);
    if J.Render(BundleJson(m, a)) == J.Render(BundleJson(n, b)) {
      BundleIsValid(m, a);
      BundleIsValid(n, b);
      J.RenderIsInjective(BundleJson(m, a), BundleJson(n, b));
      SameBundle(m, a, n, b);
    }
    if m == n && multiset(xs) == multiset(ys) {
      CommitmentIgnoresOrder(m, xs, ys);
    }
  }

  lemma SameBundle(m: string, a: seq<Receipt>, n: string, b: seq<Receipt>)
    requires AllValid(a) && AllValid(b) && BundleJson(m, a) == BundleJson(n, b)
    ensures m == n && a == b
  {
    var p, q := BundleJson(m, a).members, BundleJson(n, b).members;
    assert p[1] == q[1] && p[2] == q[2];
    UnitsInjective(m, n);
    assert ReceiptsJson(a) == ReceiptsJson(b);
    assert |a| == |ReceiptsJson(a)| == |b|;
    forall i | 0 <= i < |a| ensures a[i] == b[i] {
      assert ReceiptsJson(a)[i] == ReceiptsJson(b)[i];
      ReceiptInjective(a[i], b[i]);
    }
  }
}
