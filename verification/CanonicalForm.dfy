/**
  The form of canonical texts: members in ascending key order at every depth, inventory rows in ascending order of
  their texts, and every string unit written in the shortest legal way.
 */
module CanonicalForm {
  import opened Results
  import opened Sorting
  import opened CanonicalJson
  import opened KeyOrder
  import opened Inventory

  /** Every object's members come in ascending key order, at every depth. */
  predicate InOrder(leq: Leq, v: Json) {
    match v
    case Arr(items) => forall i :: 0 <= i < |items| ==> InOrder(leq, items[i])
    case Obj(members) =>
      && (forall i, j :: 0 <= i < j < |members| ==> leq(members[i].key, members[j].key))
      && (forall i :: 0 <= i < |members| ==> InOrder(leq, members[i].value))
    case _ => true
  }

  /** The canonical text is the text of a value whose members are in order, and equal but for that order. */
  lemma {:induction false} NormalIsInOrder(leq: Leq, v: Json)
    requires TotalPreorder(leq)
    ensures InOrder(leq, Normalize(leq, v))
    decreases v
  {
    match v
    case Arr(items) =>
      forall i | 0 <= i < |items| ensures InOrder(leq, NormalizeItems(leq, items)[i]) {
        NormalIsInOrder(leq, items[i]);
      }
    case Obj(members) =>
      var normal := NormalizeMembers(leq, members);
      forall i | 0 <= i < |members| ensures InOrder(leq, normal[i].value) {
        NormalIsInOrder(leq, members[i].value);
      }
      MembersInOrder(leq, normal);
    case _ =>
  }

  lemma MembersInOrder(leq: Leq, members: seq<Member>)
    requires TotalPreorder(leq) && forall i :: 0 <= i < |members| ==> InOrder(leq, members[i].value)
    ensures InOrder(leq, Obj(Sort(ByKey(leq), members)))
  {
    var sorted := Sort(ByKey(leq), members);
    ByKeyIsPreorder(leq);
    SortSorts(ByKey(leq), members);
    forall i, j | 0 <= i < j < |sorted| ensures leq(sorted[i].key, sorted[j].key) {
      assert ByKey(leq)(sorted[i], sorted[j]);
    }
    forall i | 0 <= i < |sorted| ensures InOrder(leq, sorted[i].value) {
      InSort(ByKey(leq), members, sorted[i]);
    }
  }

  /** The rows of an inventory table are written in ascending order of their texts. */
  lemma RowsInOrder(collate: Leq, rows: seq<Json>)
    requires TotalPreorder(collate)
    ensures multiset(SortedRows(collate, rows)) == multiset(rows)
    ensures var sorted := SortedRows(collate, rows);
            forall i, j :: 0 <= i < j < |sorted| ==> collate(RowText(sorted[i]), RowText(sorted[j]))
  {
    SortKeepsElements(ByText(collate), rows);
    SortedTexts(collate, rows);
    SortSorts(collate, RowTexts(rows));
    var sorted := SortedRows(collate, rows);
    forall i, j | 0 <= i < j < |sorted| ensures collate(RowText(sorted[i]), RowText(sorted[j])) {
      assert collate(RowTexts(sorted)[i], RowTexts(sorted)[j]);
    }
  }

  // ----- escapes -----

  /** No unit that may not stand in a JSON text. */
  predicate Legal(e: Text) {
    forall i :: 0 <= i < |e| ==> e[i] >= 32
  }

  lemma PrependGives(x: int, rest: Option<(Text, Text)>, u: int)
    requires Prepend(x, rest) == Some(([u], []))
    ensures x == u && rest == Some(([], []))
  {
    assert ([x] + rest.value.0)[0] == x && ([x] + rest.value.0)[1..] == rest.value.0;
  }

  /** Nothing legal that reads as a unit is shorter than the way it is written, surrogates on their own apart. */
  lemma EscapeIsShortest(u: int, e: Text)
    requires 0 <= u < 0x1_0000 && !Lead(u) && !Trail(u)
    requires Legal(e) && ReadString(e + [QUOTE]) == Some(([u], []))
    ensures |EscapeUnit(u)| <= |e|
  {
    var t := e + [QUOTE];
    if e == [] {
      assert false;
    } else if e[0] != BACKSLASH {
      RawUnit(u, e, t);
    } else if |e| == 1 || e[1] != LOWER_U {
      MarkedUnit(u, e, t);
    } else {
      HexUnit(u, e, t);
    }
  }

  lemma RawUnit(u: int, e: Text, t: Text)
    requires Legal(e) && t == e + [QUOTE] && e != [] && e[0] != BACKSLASH && ReadString(t) == Some(([u], []))
    requires !Lead(u) && !Trail(u)
    ensures |EscapeUnit(u)| == 1
  {
    assert t[0] == e[0];
    PrependGives(t[0], ReadString(t[1..]), u);
  }

  lemma MarkedUnit(u: int, e: Text, t: Text)
    requires Legal(e) && t == e + [QUOTE] && e != [] && e[0] == BACKSLASH && (|e| == 1 || e[1] != LOWER_U)
    requires ReadString(t) == Some(([u], [])) && !Lead(u) && !Trail(u)
    ensures |EscapeUnit(u)| <= 2 <= |e|
  {
    assert t[0] == BACKSLASH && t[1] != LOWER_U;
    PrependGives(UnescapedUnit(t[1]), ReadString(t[2..]), u);
    assert |t[2..]| > 0 && t[1] == e[1];
  }

  lemma HexUnit(u: int, e: Text, t: Text)
    requires t == e + [QUOTE] && |e| >= 2 && e[0] == BACKSLASH && e[1] == LOWER_U
    requires ReadString(t) == Some(([u], []))
    ensures |EscapeUnit(u)| <= 6 <= |e|
  {
    assert t[0] == BACKSLASH && t[1] == LOWER_U && |t| >= 6;
    var unit := ((HexValue(t[2]) * 16 + HexValue(t[3])) * 16 + HexValue(t[4])) * 16 + HexValue(t[5]);
    PrependGives(unit, ReadString(t[6..]), u);
    assert |t[6..]| > 0;
  }
}
