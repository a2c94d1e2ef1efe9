/**
  The digest preimage of a settlement inventory: tables of rows, rows sorted by their canonical text under a
  locale comparison, then the whole written canonically. It decides exactly the multiset of rows per table.
 */
module Inventory {
  import opened Sorting
  import opened CanonicalJson
  import opened KeyOrder

  datatype Table = Table(name: Text, rows: seq<Json>)

  type Tables = seq<Table>

  predicate ValidTables(tables: Tables) {
    && (forall i, j :: 0 <= i < j < |tables| ==> tables[i].name != tables[j].name)
    && (forall t :: t in tables ==> ValidRows(t))
  }

  predicate ValidRows(t: Table) {
    forall i :: 0 <= i < |t.rows| ==> Valid(t.rows[i])
  }

  function RowText(row: Json): Text {
    Canonical(UnitsLeq, row)
  }

  function RowTexts(rows: seq<Json>): (r: seq<Text>)
    ensures |r| == |rows|
    ensures forall i :: 0 <= i < |rows| ==> r[i] == RowText(rows[i])
  {
    if rows == [] then [] else [RowText(rows[0])] + RowTexts(rows[1..])
  }

  function ByText(collate: Leq): (Json, Json) -> bool {
    (x: Json, y: Json) => collate(RowText(x), RowText(y))
  }

  function SortedRows(collate: Leq, rows: seq<Json>): seq<Json> {
    Sort(ByText(collate), rows)
  }

  function TableMember(collate: Leq, t: Table): Member {
    Member(t.name, Arr(SortedRows(collate, t.rows)))
  }

  function TableMembers(collate: Leq, tables: Tables): seq<Member> {
    seq(|tables|, i requires 0 <= i < |tables| => TableMember(collate, tables[i]))
  }

  /** The text whose digest identifies the inventory. */
  function InventoryText(collate: Leq, tables: Tables): Text {
    Canonical(UnitsLeq, Obj(TableMembers(collate, tables)))
  }

  /** The tables have the same name and the same rows, as multisets of canonical texts. */
  ghost predicate SameTable(t: Table, u: Table) {
    t.name == u.name && multiset(RowTexts(t.rows)) == multiset(RowTexts(u.rows))
  }

  ghost predicate SameTables(a: Tables, b: Tables) {
    && (forall t :: t in a ==> HasTwin(t, b))
    && (forall u :: u in b ==> IsTwin(a, u))
  }

  ghost predicate HasTwin(t: Table, others: Tables) {
    exists u :: u in others && SameTable(t, u)
  }

  ghost predicate IsTwin(tables: Tables, u: Table) {
    exists t :: t in tables && SameTable(t, u)
  }

  /** No two rows of one table with different texts tie under the comparison. */
  predicate Untied(collate: Leq, rows: seq<Json>) {
    forall i, j :: 0 <= i < j < |rows| && RowText(rows[i]) != RowText(rows[j]) ==>
        !Tied(collate, RowText(rows[i]), RowText(rows[j]))
  }

  lemma {:induction false} InsertTexts(collate: Leq, row: Json, rows: seq<Json>)
    ensures RowTexts(Insert(ByText(collate), row, rows)) == Insert(collate, RowText(row), RowTexts(rows))
  {
    if rows != [] && !collate(RowText(row), RowText(rows[0])) {
      InsertTexts(collate, row, rows[1..]);
      assert RowTexts(rows)[1..] == RowTexts(rows[1..]);
    }
  }

  /** Sorting rows by text and reading their texts is sorting their texts. */
  lemma {:induction false} SortedTexts(collate: Leq, rows: seq<Json>)
    ensures RowTexts(SortedRows(collate, rows)) == Sort(collate, RowTexts(rows))
  {
    if rows != [] {
      SortedTexts(collate, rows[1..]);
      InsertTexts(collate, rows[0], SortedRows(collate, rows[1..]));
      assert RowTexts(rows)[1..] == RowTexts(rows[1..]);
    }
  }

  lemma SortedRowsValid(collate: Leq, rows: seq<Json>)
    requires forall i :: 0 <= i < |rows| ==> Valid(rows[i])
    ensures Valid(Arr(SortedRows(collate, rows)))
  {
    var s := SortedRows(collate, rows);
    forall i | 0 <= i < |s| ensures Valid(s[i]) {
      InSort(ByText(collate), rows, s[i]);
    }
  }

  lemma InventoryValid(collate: Leq, tables: Tables)
    requires ValidTables(tables)
    ensures Valid(Obj(TableMembers(collate, tables)))
  {
    forall i | 0 <= i < |tables| ensures Valid(TableMember(collate, tables[i]).value) {
      assert tables[i] in tables;
      SortedRowsValid(collate, tables[i].rows);
    }
  }

  /** Two valid arrays are the same exactly when their items have the same canonical texts in order. */
  lemma ArraysSame(s: seq<Json>, t: seq<Json>)
    requires Valid(Arr(s)) && Valid(Arr(t))
    ensures Same(Arr(s), Arr(t)) <==> RowTexts(s) == RowTexts(t)
  {
    if |s| == |t| {
      forall i | 0 <= i < |s| ensures Same(s[i], t[i]) <==> RowTexts(s)[i] == RowTexts(t)[i] {
        UnitTextsEqualIffSame(s[i], t[i]);
      }
    } else {
      assert |RowTexts(s)| != |RowTexts(t)|;
    }
  }

  /** The sorted tables are the same exactly when the sorted texts are; then the rows are the same multiset. */
  lemma TableMembersSame(collate: Leq, t: Table, u: Table)
    requires ValidRows(t) && ValidRows(u)
    ensures Same(TableMember(collate, t).value, TableMember(collate, u).value)
            <==> Sort(collate, RowTexts(t.rows)) == Sort(collate, RowTexts(u.rows))
    ensures Same(TableMember(collate, t).value, TableMember(collate, u).value)
            ==> multiset(RowTexts(t.rows)) == multiset(RowTexts(u.rows))
    ensures TotalPreorder(collate) && Untied(collate, t.rows)
            && multiset(RowTexts(t.rows)) == multiset(RowTexts(u.rows))
            ==> Same(TableMember(collate, t).value, TableMember(collate, u).value)
  {
    SortedRowsValid(collate, t.rows);
    SortedRowsValid(collate, u.rows);
    ArraysSame(SortedRows(collate, t.rows), SortedRows(collate, u.rows));
    SortedTexts(collate, t.rows);
    SortedTexts(collate, u.rows);
    SortKeepsElements(collate, RowTexts(t.rows));
    SortKeepsElements(collate, RowTexts(u.rows));
    if TotalPreorder(collate) && Untied(collate, t.rows) && multiset(RowTexts(t.rows)) == multiset(RowTexts(u.rows)) {
      UntiedTexts(collate, t.rows);
      SortIgnoresOrder(collate, RowTexts(t.rows), RowTexts(u.rows));
    }
  }

  lemma UntiedPair(collate: Leq, rows: seq<Json>, i: nat, j: nat)
    requires Untied(collate, rows) && i < |rows| && j < |rows| && i != j
    requires Tied(collate, RowText(rows[i]), RowText(rows[j]))
    ensures RowText(rows[i]) == RowText(rows[j])
  {
  }

  lemma UntiedTexts(collate: Leq, rows: seq<Json>)
    requires Untied(collate, rows)
    ensures forall x, y :: x in RowTexts(rows) && y in RowTexts(rows) && collate(x, y) && collate(y, x) ==> x == y
  {
    forall x, y | x in RowTexts(rows) && y in RowTexts(rows) && collate(x, y) && collate(y, x) ensures x == y {
      var i := RowOf(rows, x);
      var j := RowOf(rows, y);
      if i != j {
        UntiedPair(collate, rows, i, j);
      }
    }
  }

  lemma RowOf(rows: seq<Json>, x: Text) returns (i: nat)
    requires x in RowTexts(rows)
    ensures i < |rows| && RowText(rows[i]) == x
  {
    i :| i < |RowTexts(rows)| && RowTexts(rows)[i] == x;
  }

  lemma MemberOfTable(collate: Leq, tables: Tables, t: Table)
    requires t in tables
    ensures TableMember(collate, t) in TableMembers(collate, tables)
  {
    var i :| 0 <= i < |tables| && tables[i] == t;
    assert TableMembers(collate, tables)[i] == TableMember(collate, t);
  }

  lemma TableOfMember(collate: Leq, tables: Tables, m: Member) returns (t: Table)
    requires m in TableMembers(collate, tables)
    ensures t in tables && m == TableMember(collate, t)
  {
    var i :| 0 <= i < |tables| && TableMembers(collate, tables)[i] == m;
    t := tables[i];
  }

  lemma TwinFromText(collate: Leq, x: Table, b: Tables)
    requires ValidRows(x) && (forall u :: u in b ==> ValidRows(u))
    requires Finds(TableMember(collate, x), TableMembers(collate, b))
    ensures HasTwin(x, b)
  {
    var m := TableMember(collate, x);
    var n :| n in TableMembers(collate, b) && m.key == n.key && Same(m.value, n.value);
    var u := TableOfMember(collate, b, n);
    TableMembersSame(collate, x, u);
    assert SameTable(x, u);
  }

  lemma TwinOfText(collate: Leq, a: Tables, u: Table)
    requires ValidRows(u) && (forall t :: t in a ==> ValidRows(t))
    requires FoundBy(TableMembers(collate, a), TableMember(collate, u))
    ensures IsTwin(a, u)
  {
    var n := TableMember(collate, u);
    var m :| m in TableMembers(collate, a) && m.key == n.key && Same(m.value, n.value);
    var t := TableOfMember(collate, a, m);
    TableMembersSame(collate, t, u);
    assert SameTable(t, u);
  }

  lemma TextsToTables(collate: Leq, a: Tables, b: Tables)
    requires ValidTables(a) && ValidTables(b)
    requires Same(Obj(TableMembers(collate, a)), Obj(TableMembers(collate, b)))
    ensures SameTables(a, b)
  {
    forall x | x in a ensures HasTwin(x, b) {
      MemberOfTable(collate, a, x);
      TwinFromText(collate, x, b);
    }
    forall u | u in b ensures IsTwin(a, u) {
      MemberOfTable(collate, b, u);
      TwinOfText(collate, a, u);
    }
  }

  lemma TextFromTwin(collate: Leq, x: Table, b: Tables)
    requires TotalPreorder(collate) && ValidRows(x) && Untied(collate, x.rows) && (forall u :: u in b ==> ValidRows(u))
    requires HasTwin(x, b)
    ensures Finds(TableMember(collate, x), TableMembers(collate, b))
  {
    var u :| u in b && SameTable(x, u);
    TableMembersSame(collate, x, u);
    MemberOfTable(collate, b, u);
  }

  lemma TextOfTwin(collate: Leq, a: Tables, u: Table)
    requires TotalPreorder(collate) && ValidRows(u) && (forall t :: t in a ==> ValidRows(t) && Untied(collate, t.rows))
    requires IsTwin(a, u)
    ensures FoundBy(TableMembers(collate, a), TableMember(collate, u))
  {
    var t :| t in a && SameTable(t, u);
    TableMembersSame(collate, t, u);
    MemberOfTable(collate, a, t);
  }

  lemma TablesToTexts(collate: Leq, a: Tables, b: Tables)
    requires TotalPreorder(collate) && ValidTables(a) && ValidTables(b) && SameTables(a, b)
    requires forall t :: t in a ==> Untied(collate, t.rows)
    ensures Same(Obj(TableMembers(collate, a)), Obj(TableMembers(collate, b)))
  {
    forall m | m in TableMembers(collate, a) ensures Finds(m, TableMembers(collate, b)) {
      var x := TableOfMember(collate, a, m);
      TextFromTwin(collate, x, b);
    }
    forall n | n in TableMembers(collate, b) ensures FoundBy(TableMembers(collate, a), n) {
      var u := TableOfMember(collate, b, n);
      TextOfTwin(collate, a, u);
    }
  }

  /**
    Equal preimages always mean the same tables with the same multisets of rows; and the same tables give
    equal preimages when no two different rows of a table tie under the locale comparison.
   */
  lemma PreimageDecidesRows(collate: Leq, a: Tables, b: Tables)
    requires TotalPreorder(collate) && ValidTables(a) && ValidTables(b)
    ensures InventoryText(collate, a) == InventoryText(collate, b) ==> SameTables(a, b)
    ensures (forall t :: t in a ==> Untied(collate, t.rows)) && SameTables(a, b) ==>
              InventoryText(collate, a) == InventoryText(collate, b)
  {
    InventoryValid(collate, a);
    InventoryValid(collate, b);
    UnitTextsEqualIffSame(Obj(TableMembers(collate, a)), Obj(TableMembers(collate, b)));
    if InventoryText(collate, a) == InventoryText(collate, b) {
      TextsToTables(collate, a, b);
    }
    if (forall t :: t in a ==> Untied(collate, t.rows)) && SameTables(a, b) {
      TablesToTexts(collate, a, b);
    }
  }

  // ----- a tie always shows -----

  /** The first position whose row ties with a later, different one. */
  lemma FirstRowTie(collate: Leq, texts: seq<Text>) returns (i: nat, j: nat)
    requires TotalPreorder(collate)
    requires exists p, q :: 0 <= p < q < |texts| && texts[p] != texts[q] && Tied(collate, texts[p], texts[q])
    ensures i < j < |texts| && texts[i] != texts[j] && Tied(collate, texts[i], texts[j])
    ensures forall k :: 0 <= k < i ==> !Tied(collate, texts[k], texts[i])
  {
    var p, q :| 0 <= p < q < |texts| && texts[p] != texts[q] && Tied(collate, texts[p], texts[q]);
    i, j := p, q;
    while exists k :: 0 <= k < i && Tied(collate, texts[k], texts[i])
      invariant 0 <= i < j < |texts| && texts[i] != texts[j] && Tied(collate, texts[i], texts[j])
      decreases i
    {
      var k :| 0 <= k < i && Tied(collate, texts[k], texts[i]);
      if texts[k] == texts[i] {
        i := k;
      } else {
        i, j := k, i;
      }
    }
  }

  /** Swapping two tied, different rows changes the sorted texts. */
  lemma SwappedRowsShow(collate: Leq, texts: seq<Text>, swapped: seq<Text>, i: nat, j: nat)
    requires TotalPreorder(collate)
    requires i < j < |texts| && texts[i] != texts[j] && Tied(collate, texts[i], texts[j])
    requires forall k :: 0 <= k < i ==> !Tied(collate, texts[k], texts[i])
    requires swapped == texts[i := texts[j]][j := texts[i]]
    ensures Sort(collate, texts) != Sort(collate, swapped)
    ensures multiset(texts) == multiset(swapped)
  {
    var c := texts[i];
    assert collate(c, c);
    FirstTied(collate, c, texts, i);
    FirstTied(collate, c, swapped, i);
    SortIsStable(collate, c, texts);
    SortIsStable(collate, c, swapped);
  }

  lemma SwapRows(t: Table, i: nat, j: nat) returns (u: Table)
    requires ValidRows(t) && i < j < |t.rows|
    ensures u.name == t.name && ValidRows(u)
    ensures RowTexts(u.rows) == RowTexts(t.rows)[i := RowText(t.rows[j])][j := RowText(t.rows[i])]
  {
    u := Table(t.name, t.rows[i := t.rows[j]][j := t.rows[i]]);
    forall k | 0 <= k < |u.rows| ensures Valid(u.rows[k]) {
      assert u.rows[k] == t.rows[if k == i then j else if k == j then i else k];
    }
    SwappedTexts(t.rows, i, j);
  }

  lemma SwappedTexts(rows: seq<Json>, i: nat, j: nat)
    requires i < j < |rows|
    ensures RowTexts(rows[i := rows[j]][j := rows[i]]) == RowTexts(rows)[i := RowText(rows[j])][j := RowText(rows[i])]
  {
    var swapped := rows[i := rows[j]][j := rows[i]];
    var texts, expected := RowTexts(swapped), RowTexts(rows)[i := RowText(rows[j])][j := RowText(rows[i])];
    forall k | 0 <= k < |rows| ensures texts[k] == expected[k] {
      assert texts[k] == RowText(swapped[k]);
    }
    assert |texts| == |expected|;
  }

  /** A table with two rows swapped, whose sorted form differs. */
  lemma TiedTableVariant(collate: Leq, t: Table) returns (u: Table)
    requires TotalPreorder(collate) && ValidRows(t) && !Untied(collate, t.rows)
    ensures ValidRows(u) && SameTable(t, u)
    ensures !Same(TableMember(collate, t).value, TableMember(collate, u).value)
  {
    var texts := RowTexts(t.rows);
    assert exists p, q :: 0 <= p < q < |texts| && texts[p] != texts[q] && Tied(collate, texts[p], texts[q]) by {
      var p, q :| 0 <= p < q < |t.rows| && RowText(t.rows[p]) != RowText(t.rows[q])
                  && Tied(collate, RowText(t.rows[p]), RowText(t.rows[q]));
      assert texts[p] != texts[q] && Tied(collate, texts[p], texts[q]);
    }
    var i, j := FirstRowTie(collate, texts);
    u := SwapRows(t, i, j);
    SwappedRowsShow(collate, texts, RowTexts(u.rows), i, j);
    TableMembersSame(collate, t, u);
  }

  lemma ReplaceTable(tables: Tables, n: nat, u: Table)
    requires ValidTables(tables) && n < |tables| && SameTable(tables[n], u) && ValidRows(u)
    ensures ValidTables(tables[n := u]) && SameTables(tables, tables[n := u])
  {
    ReplacedIsValid(tables, n, u);
    forall x | x in tables ensures HasTwin(x, tables[n := u]) {
      var i: nat :| i < |tables| && tables[i] == x;
      ReplacedTwins(tables, n, u, i);
    }
    forall y | y in tables[n := u] ensures IsTwin(tables, y) {
      var i: nat :| i < |tables| && tables[n := u][i] == y;
      ReplacedTwins(tables, n, u, i);
    }
  }

  lemma ReplacedIsValid(tables: Tables, n: nat, u: Table)
    requires ValidTables(tables) && n < |tables| && u.name == tables[n].name && ValidRows(u)
    ensures ValidTables(tables[n := u])
  {
    forall t | t in tables[n := u] ensures ValidRows(t) {
      assert t == u || t in tables;
    }
  }

  lemma ReplacedTwins(tables: Tables, n: nat, u: Table, i: nat)
    requires n < |tables| && SameTable(tables[n], u) && i < |tables|
    ensures HasTwin(tables[i], tables[n := u]) && IsTwin(tables, tables[n := u][i])
  {
    assert tables[i] in tables && tables[n := u][i] in tables[n := u] && SameTable(tables[i], tables[n := u][i]);
  }

  lemma ReplacedTableShows(collate: Leq, tables: Tables, n: nat, u: Table)
    requires ValidTables(tables) && n < |tables| && u.name == tables[n].name
    requires !Same(TableMember(collate, tables[n]).value, TableMember(collate, u).value)
    ensures !Same(Obj(TableMembers(collate, tables)), Obj(TableMembers(collate, tables[n := u])))
  {
    var s, t := TableMembers(collate, tables), TableMembers(collate, tables[n := u]);
    assert s[n] in s;
    forall k | 0 <= k < |t| && t[k].key == s[n].key ensures k == n {
      assert tables[n := u][k].name == tables[k].name;
    }
  }

  lemma TiedRowsVariant(collate: Leq, tables: Tables, n: nat) returns (other: Tables)
    requires TotalPreorder(collate) && ValidTables(tables) && n < |tables| && !Untied(collate, tables[n].rows)
    ensures ValidTables(other) && SameTables(tables, other)
    ensures InventoryText(collate, tables) != InventoryText(collate, other)
  {
    assert tables[n] in tables;
    var u := TiedTableVariant(collate, tables[n]);
    other := tables[n := u];
    ReplaceTable(tables, n, u);
    ReplacedTableShows(collate, tables, n, u);
    InventoryValid(collate, tables);
    InventoryValid(collate, other);
    UnitTextsEqualIffSame(Obj(TableMembers(collate, tables)), Obj(TableMembers(collate, other)));
  }

  /** The preimage is independent of the order of rows exactly when no two different rows of a table tie. */
  lemma PreimageIgnoresRowOrderIff(collate: Leq, tables: Tables)
    requires TotalPreorder(collate) && ValidTables(tables)
    ensures (forall other :: ValidTables(other) && SameTables(tables, other) ==>
               InventoryText(collate, other) == InventoryText(collate, tables))
       <==> (forall t :: t in tables ==> Untied(collate, t.rows))
  {
    if forall t :: t in tables ==> Untied(collate, t.rows) {
      forall other | ValidTables(other) && SameTables(tables, other)
        ensures InventoryText(collate, other) == InventoryText(collate, tables)
      {
        PreimageDecidesRows(collate, tables, other);
      }
    } else {
      var t :| t in tables && !Untied(collate, t.rows);
      var n :| 0 <= n < |tables| && tables[n] == t;
      var other := TiedRowsVariant(collate, tables, n);
    }
  }
}
