/**
  When canonical texts agree: exactly for values equal up to object key order, provided no two distinct keys
  of one object tie under the key comparison; with a tie, some reordering of the same value has another text.
 */
module KeyOrder {
  import opened Sorting
  import opened CanonicalJson

  type Leq = (Text, Text) -> bool

  /** Equal up to the order of object members, at every depth. */
  ghost predicate Same(a: Json, b: Json)
    decreases a, 2
  {
    match a
    case Arr(items) => b.Arr? && |items| == |b.items| && forall i :: 0 <= i < |items| ==> Same(items[i], b.items[i])
    case Obj(members) =>
      && b.Obj?
      && (forall m :: m in members ==> Finds(m, b.members))
      && (forall n :: n in b.members ==> FoundBy(members, n))
    case _ => a == b
  }

  ghost predicate Finds(m: Member, others: seq<Member>)
    decreases m, 1
  {
    exists n :: n in others && m.key == n.key && Same(m.value, n.value)
  }

  ghost predicate FoundBy(members: seq<Member>, n: Member)
    decreases members, 1
  {
    exists m :: m in members && m.key == n.key && Same(m.value, n.value)
  }

  /** No two distinct keys of one object tie. */
  predicate Separated(leq: Leq, v: Json) {
    match v
    case Arr(items) => forall i :: 0 <= i < |items| ==> Separated(leq, items[i])
    case Obj(members) =>
      && (forall i, j :: 0 <= i < j < |members| ==> !Tied(leq, members[i].key, members[j].key))
      && (forall i :: 0 <= i < |members| ==> Separated(leq, members[i].value))
    case _ => true
  }

  lemma ByKeyIsPreorder(leq: Leq)
    requires TotalPreorder(leq)
    ensures TotalPreorder(ByKey(leq))
  {
    var order := ByKey(leq);
    forall x, y ensures order(x, y) || order(y, x) {
      assert leq(x.key, y.key) || leq(y.key, x.key);
    }
    forall x, y, z | order(x, y) && order(y, z) ensures order(x, z) {
      assert leq(x.key, y.key) && leq(y.key, z.key);
    }
  }

  lemma InSort<T>(leq: (T, T) -> bool, s: seq<T>, x: T)
    ensures x in Sort(leq, s) <==> x in s
  {
    SortKeepsElements(leq, s);
    assert x in Sort(leq, s) <==> x in multiset(Sort(leq, s));
    assert x in s <==> x in multiset(s);
  }

  // ----- normalizing keeps the value, up to order -----

  lemma {:induction false} SameAsNormal(leq: Leq, v: Json)
    ensures Same(v, Normalize(leq, v))
  {
    match v
    case Arr(items) =>
      forall i | 0 <= i < |items| ensures Same(items[i], Normalize(leq, items[i])) {
        SameAsNormal(leq, items[i]);
      }
    case Obj(members) =>
      var normal := NormalizeMembers(leq, members);
      var sorted := Sort(ByKey(leq), normal);
      forall m | m in members ensures Finds(m, sorted) {
        var i :| 0 <= i < |members| && members[i] == m;
        SameAsNormal(leq, m.value);
        InSort(ByKey(leq), normal, normal[i]);
        assert normal[i] in sorted;
      }
      forall n | n in sorted ensures FoundBy(members, n) {
        InSort(ByKey(leq), normal, n);
        var i :| 0 <= i < |normal| && normal[i] == n;
        SameAsNormal(leq, members[i].value);
        assert members[i] in members;
      }
    case _ =>
  }

  /** Two values that are the same as a third are the same as each other. */
  lemma {:induction false} SameJoins(a: Json, b: Json, n: Json)
    requires Same(a, n) && Same(b, n)
    ensures Same(a, b)
  {
    match a
    case Arr(items) =>
      forall i | 0 <= i < |items| ensures Same(items[i], b.items[i]) {
        SameJoins(items[i], b.items[i], n.items[i]);
      }
    case Obj(members) =>
      forall x | x in members ensures Finds(x, b.members) {
        assert Finds(x, n.members);
        var z :| z in n.members && x.key == z.key && Same(x.value, z.value);
        assert FoundBy(b.members, z);
        var y :| y in b.members && y.key == z.key && Same(y.value, z.value);
        SameJoins(x.value, y.value, z.value);
      }
      forall y | y in b.members ensures FoundBy(members, y) {
        assert Finds(y, n.members);
        var z :| z in n.members && y.key == z.key && Same(y.value, z.value);
        assert FoundBy(members, z);
        var x :| x in members && x.key == z.key && Same(x.value, z.value);
        SameJoins(x.value, y.value, z.value);
      }
    case _ =>
  }

  lemma {:induction false} NormalIsValid(leq: Leq, v: Json)
    requires Valid(v)
    ensures Valid(Normalize(leq, v))
  {
    match v
    case Arr(items) =>
      forall i | 0 <= i < |items| ensures Valid(Normalize(leq, items[i])) {
        NormalIsValid(leq, items[i]);
      }
    case Obj(members) =>
      var normal := NormalizeMembers(leq, members);
      var sorted := Sort(ByKey(leq), normal);
      forall j | 0 <= j < |sorted| ensures Valid(sorted[j].value) {
        InSort(ByKey(leq), normal, sorted[j]);
        var i :| 0 <= i < |normal| && normal[i] == sorted[j];
        NormalIsValid(leq, members[i].value);
      }
      KeysStayDistinct(ByKey(leq), normal);
    case _ =>
  }

  lemma {:induction false} InsertKeepsDistinct(leq: (Member, Member) -> bool, x: Member, s: seq<Member>)
    requires DistinctKeys(s) && forall i :: 0 <= i < |s| ==> s[i].key != x.key
    ensures DistinctKeys(Insert(leq, x, s))
  {
    if s != [] && !leq(x, s[0]) {
      InsertKeepsDistinct(leq, x, s[1..]);
      var rest := Insert(leq, x, s[1..]);
      InsertKeepsElements(leq, x, s[1..]);
      forall j | 0 <= j < |rest| ensures rest[j].key != s[0].key {
        assert rest[j] in multiset(rest);
        assert rest[j] == x || rest[j] in s[1..];
      }
    }
  }

  lemma {:induction false} KeysStayDistinct(leq: (Member, Member) -> bool, s: seq<Member>)
    requires DistinctKeys(s)
    ensures DistinctKeys(Sort(leq, s))
  {
    if s != [] {
      KeysStayDistinct(leq, s[1..]);
      var rest := Sort(leq, s[1..]);
      forall i | 0 <= i < |rest| ensures rest[i].key != s[0].key {
        InSort(leq, s[1..], rest[i]);
      }
      InsertKeepsDistinct(leq, s[0], rest);
    }
  }

  // ----- the same value, separated keys: the same text -----

  /** Lists of members with distinct keys and the same elements are permutations of each other. */
  lemma {:induction false} SameSetSameMultiset(s: seq<Member>, t: seq<Member>)
    requires DistinctKeys(s) && DistinctKeys(t)
    requires forall m :: m in s <==> m in t
    ensures multiset(s) == multiset(t)
  {
    forall m ensures multiset(s)[m] == multiset(t)[m] {
      CountOne(s, m);
      CountOne(t, m);
    }
  }

  lemma {:induction false} CountOne(s: seq<Member>, m: Member)
    requires DistinctKeys(s)
    ensures multiset(s)[m] == if m in s then 1 else 0
  {
    if s != [] {
      CountOne(s[1..], m);
      assert s == [s[0]] + s[1..];
      assert s[0] !in s[1..];
    }
  }

  lemma {:induction false} SameNormal(leq: Leq, a: Json, b: Json)
    requires TotalPreorder(leq) && Valid(a) && Valid(b) && Same(a, b) && Separated(leq, a)
    ensures Normalize(leq, a) == Normalize(leq, b)
    decreases a, 1
  {
    match a
    case Arr(items) =>
      forall i | 0 <= i < |items| ensures Normalize(leq, items[i]) == Normalize(leq, b.items[i]) {
        SameNormal(leq, items[i], b.items[i]);
      }
      assert NormalizeItems(leq, items) == NormalizeItems(leq, b.items);
    case Obj(members) =>
      var s, t := NormalizeMembers(leq, members), NormalizeMembers(leq, b.members);
      forall m | m in members ensures Normal(leq, m) in t {
        assert Finds(m, b.members);
        NormalFound(leq, m, b.members);
      }
      forall n | n in b.members ensures Normal(leq, n) in s {
        assert FoundBy(members, n);
        NormalFoundBy(leq, members, n);
      }
      SortedAlike(leq, members, b.members);
    case _ =>
  }

  function Normal(leq: Leq, m: Member): Member {
    Member(m.key, Normalize(leq, m.value))
  }

  lemma {:induction false} NormalFound(leq: Leq, m: Member, others: seq<Member>)
    requires TotalPreorder(leq) && Valid(m.value) && Separated(leq, m.value)
    requires forall n :: n in others ==> Valid(n.value)
    requires Finds(m, others)
    ensures Normal(leq, m) in NormalizeMembers(leq, others)
    decreases m, 0
  {
    var n :| n in others && m.key == n.key && Same(m.value, n.value);
    var j :| 0 <= j < |others| && others[j] == n;
    SameNormal(leq, m.value, n.value);
    assert NormalizeMembers(leq, others)[j] == Normal(leq, m);
  }

  lemma {:induction false} NormalFoundBy(leq: Leq, members: seq<Member>, n: Member)
    requires TotalPreorder(leq) && Valid(n.value)
    requires forall m :: m in members ==> Valid(m.value) && Separated(leq, m.value)
    requires FoundBy(members, n)
    ensures Normal(leq, n) in NormalizeMembers(leq, members)
    decreases members, 0
  {
    var m :| m in members && m.key == n.key && Same(m.value, n.value);
    var i :| 0 <= i < |members| && members[i] == m;
    SameNormal(leq, m.value, n.value);
    assert NormalizeMembers(leq, members)[i] == Normal(leq, n);
  }

  lemma SortedAlike(leq: Leq, members: seq<Member>, others: seq<Member>)
    requires TotalPreorder(leq) && DistinctKeys(members) && DistinctKeys(others)
    requires forall i, j :: 0 <= i < j < |members| ==> !Tied(leq, members[i].key, members[j].key)
    requires forall m :: m in members ==> Normal(leq, m) in NormalizeMembers(leq, others)
    requires forall n :: n in others ==> Normal(leq, n) in NormalizeMembers(leq, members)
    ensures Sort(ByKey(leq), NormalizeMembers(leq, members)) == Sort(ByKey(leq), NormalizeMembers(leq, others))
  {
    var s, t := NormalizeMembers(leq, members), NormalizeMembers(leq, others);
    forall x ensures x in s <==> x in t {
      if x in s {
        var i :| 0 <= i < |s| && s[i] == x;
        assert x == Normal(leq, members[i]);
      }
      if x in t {
        var j :| 0 <= j < |t| && t[j] == x;
        assert x == Normal(leq, others[j]);
      }
    }
    SameSetSameMultiset(s, t);
    ByKeyIsPreorder(leq);
    forall x, y | x in s && y in s && ByKey(leq)(x, y) && ByKey(leq)(y, x) ensures x == y {
      var i :| 0 <= i < |s| && s[i] == x;
      var j :| 0 <= j < |s| && s[j] == y;
      assert Tied(leq, members[i].key, members[j].key) && Tied(leq, members[j].key, members[i].key);
    }
    SortIgnoresOrder(ByKey(leq), s, t);
  }

  /** Equal text always means the same value; the same value means equal text when no keys tie. */
  lemma CanonicalTextDecides(leq: Leq, a: Json, b: Json)
    requires TotalPreorder(leq) && Valid(a) && Valid(b)
    ensures Canonical(leq, a) == Canonical(leq, b) ==> Same(a, b)
    ensures Separated(leq, a) && Same(a, b) ==> Canonical(leq, a) == Canonical(leq, b)
  {
    if Canonical(leq, a) == Canonical(leq, b) {
      NormalIsValid(leq, a);
      NormalIsValid(leq, b);
      RenderIsInjective(Normalize(leq, a), Normalize(leq, b));
      SameAsNormal(leq, a);
      SameAsNormal(leq, b);
      SameJoins(a, b, Normalize(leq, a));
    }
    if Separated(leq, a) && Same(a, b) {
      SameNormal(leq, a, b);
    }
  }

  // ----- a tie always shows -----

  lemma {:induction false} SameReflexive(v: Json)
    ensures Same(v, v)
  {
    match v
    case Arr(items) =>
      forall i | 0 <= i < |items| ensures Same(items[i], items[i]) {
        SameReflexive(items[i]);
      }
    case Obj(members) =>
      forall m | m in members ensures Finds(m, members) && FoundBy(members, m) {
        SameReflexive(m.value);
      }
    case _ =>
  }

  /** The first position whose key ties with a later one. */
  lemma FirstTie(leq: Leq, members: seq<Member>) returns (i: nat, j: nat)
    requires exists p, q :: 0 <= p < q < |members| && Tied(leq, members[p].key, members[q].key)
    requires TotalPreorder(leq)
    ensures i < j < |members| && Tied(leq, members[i].key, members[j].key)
    ensures forall k :: 0 <= k < i ==> !Tied(leq, members[k].key, members[i].key)
  {
    var p, q :| 0 <= p < q < |members| && Tied(leq, members[p].key, members[q].key);
    i, j := p, q;
    while exists k :: 0 <= k < i && Tied(leq, members[k].key, members[i].key)
      invariant 0 <= i < j < |members| && Tied(leq, members[i].key, members[j].key)
      decreases i
    {
      var k :| 0 <= k < i && Tied(leq, members[k].key, members[i].key);
      i, j := k, i;
    }
  }

  lemma SameElementsSame(members: seq<Member>, others: seq<Member>)
    requires forall m :: m in members <==> m in others
    ensures Same(Obj(members), Obj(others))
  {
    forall m | m in members ensures Finds(m, others) && FoundBy(members, m) {
      SameReflexive(m.value);
    }
  }

  lemma SwapElements(members: seq<Member>, i: nat, j: nat)
    requires i < j < |members|
    ensures forall m :: m in members <==> m in members[i := members[j]][j := members[i]]
  {
    var swapped := members[i := members[j]][j := members[i]];
    assert swapped[i] == members[j] && swapped[j] == members[i];
    forall m | m in members ensures m in swapped {
      var k :| 0 <= k < |members| && members[k] == m;
      assert swapped[if k == i then j else if k == j then i else k] == m;
    }
  }

  lemma SwapTied(leq: Leq, members: seq<Member>) returns (swapped: seq<Member>)
    requires TotalPreorder(leq) && Valid(Obj(members))
    requires exists p, q :: 0 <= p < q < |members| && Tied(leq, members[p].key, members[q].key)
    ensures Valid(Obj(swapped)) && Same(Obj(members), Obj(swapped))
    ensures Normalize(leq, Obj(members)) != Normalize(leq, Obj(swapped))
  {
    var i, j := FirstTie(leq, members);
    swapped := members[i := members[j]][j := members[i]];
    SwapElements(members, i, j);
    SameElementsSame(members, swapped);
    SwapValid(members, i, j);
    SwapShows(leq, members, swapped, i, j);
  }

  lemma SwapValid(members: seq<Member>, i: nat, j: nat)
    requires i < j < |members| && Valid(Obj(members))
    ensures Valid(Obj(members[i := members[j]][j := members[i]]))
  {
  }

  lemma SwapShows(leq: Leq, members: seq<Member>, swapped: seq<Member>, i: nat, j: nat)
    requires TotalPreorder(leq) && DistinctKeys(members)
    requires i < j < |members| && Tied(leq, members[i].key, members[j].key)
    requires forall k :: 0 <= k < i ==> !Tied(leq, members[k].key, members[i].key)
    requires swapped == members[i := members[j]][j := members[i]]
    ensures Normalize(leq, Obj(members)) != Normalize(leq, Obj(swapped))
  {
    var s, t := NormalizeMembers(leq, members), NormalizeMembers(leq, swapped);
    var order, c := ByKey(leq), s[i];
    ByKeyIsPreorder(leq);
    forall k | 0 <= k < i ensures !Tied(order, s[k], c) && !Tied(order, t[k], c) {
      assert !Tied(leq, members[k].key, members[i].key);
      assert swapped[k] == members[k];
    }
    assert leq(c.key, c.key);
    FirstTied(order, c, s, i);
    FirstTied(order, c, t, i);
    SortIsStable(order, c, s);
    SortIsStable(order, c, t);
    assert s[i].key != t[i].key;
  }

  /** Replacing one member's value by another with a different normal form changes the object's normal form. */
  lemma MemberShows(leq: Leq, members: seq<Member>, i: nat, value: Json)
    requires i < |members| && DistinctKeys(members)
    requires Normalize(leq, members[i].value) != Normalize(leq, value)
    ensures Normalize(leq, Obj(members)) != Normalize(leq, Obj(members[i := Member(members[i].key, value)]))
  {
    var changed := members[i := Member(members[i].key, value)];
    var s, t := NormalizeMembers(leq, members), NormalizeMembers(leq, changed);
    InSort(ByKey(leq), s, s[i]);
    InSort(ByKey(leq), t, s[i]);
    forall k | 0 <= k < |t| ensures t[k] != s[i] {
      assert t[k].key == members[k].key;
    }
  }

  lemma ReplaceMember(members: seq<Member>, i: nat, value: Json)
    requires i < |members| && Valid(Obj(members)) && Valid(value) && Same(members[i].value, value)
    ensures var w := Obj(members[i := Member(members[i].key, value)]); Valid(w) && Same(Obj(members), w)
  {
    var changed := members[i := Member(members[i].key, value)];
    forall m | m in members ensures Finds(m, changed) {
      var k :| 0 <= k < |members| && members[k] == m;
      SameReflexive(m.value);
      assert changed[k] in changed;
    }
    forall n | n in changed ensures FoundBy(members, n) {
      var k :| 0 <= k < |changed| && changed[k] == n;
      SameReflexive(members[k].value);
      assert members[k] in members;
    }
    assert DistinctKeys(changed);
  }

  lemma ReplaceItem(leq: Leq, items: seq<Json>, i: nat, item: Json)
    requires i < |items| && Valid(Arr(items)) && Valid(item)
    requires Same(items[i], item) && Normalize(leq, items[i]) != Normalize(leq, item)
    ensures var w := Arr(items[i := item]);
            Valid(w) && Same(Arr(items), w) && Normalize(leq, Arr(items)) != Normalize(leq, w)
  {
    var changed := items[i := item];
    forall k | 0 <= k < |items| ensures Same(items[k], changed[k]) {
      SameReflexive(items[k]);
    }
    assert NormalizeItems(leq, items)[i] != NormalizeItems(leq, changed)[i];
  }

  lemma UnseparatedMember(leq: Leq, members: seq<Member>) returns (i: nat)
    requires Valid(Obj(members)) && !Separated(leq, Obj(members))
    requires forall p, q :: 0 <= p < q < |members| ==> !Tied(leq, members[p].key, members[q].key)
    ensures i < |members| && !Separated(leq, members[i].value) && Valid(members[i].value) && DistinctKeys(members)
  {
    i :| 0 <= i < |members| && !Separated(leq, members[i].value);
  }

  /** A valid value with tied keys somewhere has a reordering whose normal form differs. */
  lemma {:induction false} TieVariant(leq: Leq, v: Json) returns (w: Json)
    requires TotalPreorder(leq) && Valid(v) && !Separated(leq, v)
    ensures Valid(w) && Same(v, w) && Normalize(leq, v) != Normalize(leq, w)
  {
    match v
    case Arr(items) =>
      var i :| 0 <= i < |items| && !Separated(leq, items[i]);
      var item := TieVariant(leq, items[i]);
      w := Arr(items[i := item]);
      ReplaceItem(leq, items, i, item);
    case Obj(members) =>
      if p, q :| 0 <= p < q < |members| && Tied(leq, members[p].key, members[q].key) {
        var swapped := SwapTied(leq, members);
        w := Obj(swapped);
      } else {
        var i := UnseparatedMember(leq, members);
        var value := TieVariant(leq, members[i].value);
        w := Obj(members[i := Member(members[i].key, value)]);
        ReplaceMember(members, i, value);
        MemberShows(leq, members, i, value);
      }
    case _ =>
  }

  /**
    The canonical text of a value is independent of key order exactly when no two distinct keys of one of
    its objects tie under the key comparison.
   */
  lemma TextIgnoresKeyOrderIff(leq: Leq, v: Json)
    requires TotalPreorder(leq) && Valid(v)
    ensures (forall w :: Valid(w) && Same(v, w) ==> Canonical(leq, w) == Canonical(leq, v)) <==> Separated(leq, v)
  {
    if Separated(leq, v) {
      forall w | Valid(w) && Same(v, w) ensures Canonical(leq, w) == Canonical(leq, v) {
        CanonicalTextDecides(leq, v, w);
      }
    } else {
      var w := TieVariant(leq, v);
      NormalIsValid(leq, v);
      NormalIsValid(leq, w);
      if Canonical(leq, w) == Canonical(leq, v) {
        RenderIsInjective(Normalize(leq, v), Normalize(leq, w));
      }
    }
  }

  /** Sorted by code unit, as the settlement digests are, no two distinct keys tie. */
  lemma {:induction false} UnitOrderSeparates(v: Json)
    requires Valid(v)
    ensures Separated(UnitsLeq, v)
  {
    match v
    case Arr(items) =>
      forall i | 0 <= i < |items| ensures Separated(UnitsLeq, items[i]) {
        UnitOrderSeparates(items[i]);
      }
    case Obj(members) =>
      forall i, j | 0 <= i < j < |members| ensures !Tied(UnitsLeq, members[i].key, members[j].key) {
        UnitsTotal(members[i].key, members[j].key);
      }
      forall i | 0 <= i < |members| ensures Separated(UnitsLeq, members[i].value) {
        UnitOrderSeparates(members[i].value);
      }
    case _ =>
  }

  lemma UnitTextsEqualIffSame(a: Json, b: Json)
    requires Valid(a) && Valid(b)
    ensures Canonical(UnitsLeq, a) == Canonical(UnitsLeq, b) <==> Same(a, b)
  {
    UnitsOrder();
    UnitOrderSeparates(a);
    CanonicalTextDecides(UnitsLeq, a, b);
  }
}
