/**
  Canonical JSON text: object members sorted by key, then written without spaces, as in sections 4, 5 and 7
  of RFC 8259. Texts are sequences of UTF-16 code units. The key comparison is a parameter: one caller sorts
  by code unit, another by locale, where distinct keys can tie.
 */
module CanonicalJson {
  import opened Results
  import opened Sorting

  type Text = seq<int>

  /** A number is its printed token; object members keep their insertion order. */
  datatype Json =
    | Null
    | Bool(b: bool)
    | Num(token: Text)
    | Str(text: Text)
    | Arr(items: seq<Json>)
    | Obj(members: seq<Member>)

  datatype Member = Member(key: Text, value: Json)

  const QUOTE: int := 34
  const COMMA: int := 44
  const COLON: int := 58
  const LBRACKET: int := 91
  const BACKSLASH: int := 92
  const RBRACKET: int := 93
  const LOWER_U: int := 117
  const LBRACE: int := 123
  const RBRACE: int := 125

  predicate NumberUnit(u: int) {
    48 <= u <= 57 || u == 43 || u == 45 || u == 46 || u == 69 || u == 101
  }

  predicate NumberToken(t: Text) {
    && t != [] && (48 <= t[0] <= 57 || t[0] == 45)
    && forall i :: 0 <= i < |t| ==> NumberUnit(t[i])
  }

  predicate DistinctKeys(members: seq<Member>) {
    forall i, j :: 0 <= i < j < |members| ==> members[i].key != members[j].key
  }

  predicate Valid(v: Json) {
    match v
    case Num(token) => NumberToken(token)
    case Arr(items) => forall i :: 0 <= i < |items| ==> Valid(items[i])
    case Obj(members) => DistinctKeys(members) && forall i :: 0 <= i < |members| ==> Valid(members[i].value)
    case _ => true
  }

  // ----- writing -----

  function Hex(n: int): int
    requires 0 <= n < 16
  {
    if n < 10 then 48 + n else 87 + n
  }

  function HexEscape(u: int): Text
    requires 0 <= u < 0x1_0000
  {
    [BACKSLASH, LOWER_U, Hex(u / 4096), Hex(u / 256 % 16), Hex(u / 16 % 16), Hex(u % 16)]
  }

  predicate Lead(u: int) {
    0xD800 <= u < 0xDC00
  }

  predicate Trail(u: int) {
    0xDC00 <= u < 0xE000
  }

  function EscapeUnit(u: int): Text {
    if u == QUOTE || u == BACKSLASH then [BACKSLASH, u]
    else if u == 8 then [BACKSLASH, 98]
    else if u == 9 then [BACKSLASH, 116]
    else if u == 10 then [BACKSLASH, 110]
    else if u == 12 then [BACKSLASH, 102]
    else if u == 13 then [BACKSLASH, 114]
    else if 0 <= u < 32 || Lead(u) || Trail(u) then HexEscape(u)
    else [u]
  }

  /** A surrogate pair is written as it is; a surrogate on its own is escaped. */
  function Escape(s: Text): Text {
    if s == [] then []
    else if |s| > 1 && Lead(s[0]) && Trail(s[1]) then s[..2] + Escape(s[2..])
    else EscapeUnit(s[0]) + Escape(s[1..])
  }

  function Quoted(s: Text): Text {
    [QUOTE] + (Escape(s) + [QUOTE])
  }

  function Render(v: Json): Text
    decreases v, 1
  {
    match v
    case Null => [110, 117, 108, 108]
    case Bool(b) => if b then [116, 114, 117, 101] else [102, 97, 108, 115, 101]
    case Num(token) => token
    case Str(text) => Quoted(text)
    case Arr(items) => [LBRACKET] + (RenderItems(items) + [RBRACKET])
    case Obj(members) => [LBRACE] + (RenderMembers(members) + [RBRACE])
  }

  function RenderItems(items: seq<Json>): Text
    decreases items, 0
  {
    if items == [] then []
    else Render(items[0]) + (if |items| == 1 then [] else [COMMA] + RenderItems(items[1..]))
  }

  function RenderMembers(members: seq<Member>): Text
    decreases members, 0
  {
    if members == [] then []
    else Quoted(members[0].key) + ([COLON] + (Render(members[0].value)
         + (if |members| == 1 then [] else [COMMA] + RenderMembers(members[1..]))))
  }

  // ----- sorting members -----

  function ByKey(leq: (Text, Text) -> bool): (Member, Member) -> bool {
    (m: Member, n: Member) => leq(m.key, n.key)
  }

  /** Every object's members sorted by key, at every depth. */
  function Normalize(leq: (Text, Text) -> bool, v: Json): Json
    decreases v, 1
  {
    match v
    case Arr(items) => Arr(NormalizeItems(leq, items))
    case Obj(members) => Obj(Sort(ByKey(leq), NormalizeMembers(leq, members)))
    case _ => v
  }

  function NormalizeItems(leq: (Text, Text) -> bool, items: seq<Json>): (r: seq<Json>)
    ensures |r| == |items|
    ensures forall i :: 0 <= i < |items| ==> r[i] == Normalize(leq, items[i])
    decreases items, 0
  {
    if items == [] then [] else [Normalize(leq, items[0])] + NormalizeItems(leq, items[1..])
  }

  function NormalizeMembers(leq: (Text, Text) -> bool, members: seq<Member>): (r: seq<Member>)
    ensures |r| == |members|
    ensures forall i :: 0 <= i < |members| ==> r[i] == Member(members[i].key, Normalize(leq, members[i].value))
    decreases members, 0
  {
    if members == [] then []
    else [Member(members[0].key, Normalize(leq, members[0].value))] + NormalizeMembers(leq, members[1..])
  }

  function Canonical(leq: (Text, Text) -> bool, v: Json): Text {
    Render(Normalize(leq, v))
  }

  // ----- reading strings back -----

  function HexValue(u: int): int {
    if u < 58 then u - 48 else u - 87
  }

  function UnescapedUnit(u: int): int {
    if u == 98 then 8 else if u == 116 then 9 else if u == 110 then 10
    else if u == 102 then 12 else if u == 114 then 13 else u
  }

  /** Reads up to the closing quote: the string, and the text after the quote. */
  function ReadString(t: Text): Option<(Text, Text)> {
    if t == [] then None
    else if t[0] == QUOTE then Some(([], t[1..]))
    else if t[0] != BACKSLASH then Prepend(t[0], ReadString(t[1..]))
    else if |t| < 2 then None
    else if t[1] != LOWER_U then Prepend(UnescapedUnit(t[1]), ReadString(t[2..]))
    else if |t| < 6 then None
    else Prepend(((HexValue(t[2]) * 16 + HexValue(t[3])) * 16 + HexValue(t[4])) * 16 + HexValue(t[5]),
                 ReadString(t[6..]))
  }

  function Prepend(u: int, rest: Option<(Text, Text)>): Option<(Text, Text)> {
    match rest
    case None => None
    case Some(r) => Some(([u] + r.0, r.1))
  }

  lemma ReadUnit(u: int, rest: Text)
    ensures ReadString(EscapeUnit(u) + rest) == Prepend(u, ReadString(rest))
  {
    var t := EscapeUnit(u) + rest;
    if u == QUOTE || u == BACKSLASH || u == 8 || u == 9 || u == 10 || u == 12 || u == 13 {
      assert t[2..] == rest;
    } else if 0 <= u < 32 || Lead(u) || Trail(u) {
      ReadHex(u, rest);
    } else {
      assert t[1..] == rest;
    }
  }

  lemma ReadHex(u: int, rest: Text)
    requires 0 <= u < 0x1_0000
    ensures ReadString(HexEscape(u) + rest) == Prepend(u, ReadString(rest))
  {
    assert (HexEscape(u) + rest)[6..] == rest;
    HexDigits(u);
  }

  lemma HexDigits(u: int)
    requires 0 <= u < 0x1_0000
    ensures ((HexValue(Hex(u / 4096)) * 16 + HexValue(Hex(u / 256 % 16))) * 16 + HexValue(Hex(u / 16 % 16))) * 16
            + HexValue(Hex(u % 16)) == u
  {
    HexRound(u / 4096);
    HexRound(u / 256 % 16);
    HexRound(u / 16 % 16);
    HexRound(u % 16);
    BaseSixteen(u);
  }

  lemma HexRound(n: int)
    requires 0 <= n < 16
    ensures HexValue(Hex(n)) == n
  {
  }

  lemma BaseSixteen(u: int)
    requires 0 <= u < 0x1_0000
    ensures ((u / 4096 * 16 + u / 256 % 16) * 16 + u / 16 % 16) * 16 + u % 16 == u
  {
    assert u / 16 * 16 + u % 16 == u;
    assert u / 256 * 16 + u / 16 % 16 == u / 16;
    assert u / 4096 * 16 + u / 256 % 16 == u / 256;
  }

  lemma ReadPair(u: int, w: int, rest: Text)
    requires Lead(u) && Trail(w)
    ensures ReadString([u, w] + rest) == Prepend(u, Prepend(w, ReadString(rest)))
  {
    var t := [u, w] + rest;
    assert t[1..] == [w] + rest;
    assert ([w] + rest)[1..] == rest;
  }

  lemma Reassociate(p: Text, x: Text, y: Text, r: Text)
    ensures p + x + y + r == p + (x + y + r)
    ensures p + (x + y) + r == p + (x + (y + r))
  {
  }

  /** An escaped string reads back exactly, whatever follows its closing quote. */
  lemma {:induction false} ReadEscaped(s: Text, rest: Text)
    ensures ReadString(Escape(s) + [QUOTE] + rest) == Some((s, rest))
  {
    if s == [] {
      assert Escape(s) + [QUOTE] + rest == [QUOTE] + rest;
      assert ([QUOTE] + rest)[1..] == rest;
    } else if |s| > 1 && Lead(s[0]) && Trail(s[1]) {
      ReadEscaped(s[2..], rest);
      ReadPair(s[0], s[1], Escape(s[2..]) + [QUOTE] + rest);
      Reassociate(s[..2], Escape(s[2..]), [QUOTE], rest);
      assert s[..2] == [s[0], s[1]];
      assert s == [s[0]] + ([s[1]] + s[2..]);
    } else {
      ReadEscaped(s[1..], rest);
      FirstEscaped(s, rest);
    }
  }

  lemma FirstEscaped(s: Text, rest: Text)
    requires s != [] && !(|s| > 1 && Lead(s[0]) && Trail(s[1]))
    requires ReadString(Escape(s[1..]) + [QUOTE] + rest) == Some((s[1..], rest))
    ensures ReadString(Escape(s) + [QUOTE] + rest) == Some((s, rest))
  {
    var unit, tail := EscapeUnit(s[0]), Escape(s[1..]);
    assert Escape(s) == unit + tail;
    Reassociate(unit, tail, [QUOTE], rest);
    ReadUnit(s[0], tail + [QUOTE] + rest);
    assert s == [s[0]] + s[1..];
  }

  lemma ReadQuoted(s: Text, t: Text, rs: Text, rt: Text)
    requires Quoted(s) + rs == Quoted(t) + rt
    ensures s == t && rs == rt
  {
    ReadEscaped(s, rs);
    ReadEscaped(t, rt);
    Unquote(s, rs);
    Unquote(t, rt);
  }

  lemma Unquote(s: Text, rest: Text)
    ensures (Quoted(s) + rest)[1..] == Escape(s) + [QUOTE] + rest
  {
    var e := Escape(s);
    assert [QUOTE] + (e + [QUOTE]) + rest == [QUOTE] + (e + [QUOTE] + rest);
  }

  // ----- the text of a value determines it -----

  /** What can follow a value inside a larger text. */
  predicate Stops(rest: Text) {
    rest == [] || rest[0] == COMMA || rest[0] == RBRACKET || rest[0] == RBRACE
  }

  lemma FirstUnit(v: Json)
    requires Valid(v)
    ensures Render(v) != []
    ensures var u := Render(v)[0];
            match v
            case Null => u == 110
            case Bool(b) => u == (if b then 116 else 102)
            case Num(_) => 48 <= u <= 57 || u == 45
            case Str(_) => u == QUOTE
            case Arr(_) => u == LBRACKET
            case Obj(_) => u == LBRACE
  {
  }

  lemma {:induction false} ReadToken(s: Text, t: Text, rs: Text, rt: Text)
    requires (forall i :: 0 <= i < |s| ==> NumberUnit(s[i])) && (forall i :: 0 <= i < |t| ==> NumberUnit(t[i]))
    requires Stops(rs) && Stops(rt) && s + rs == t + rt
    ensures s == t && rs == rt
  {
    var whole := s + rs;
    assert s == [] ==> whole == rs;
    assert t == [] ==> whole == rt;
    assert s != [] ==> whole[0] == s[0];
    assert t != [] ==> whole[0] == t[0];
    if s != [] && t != [] {
      assert whole[1..] == s[1..] + rs;
      assert (t + rt)[1..] == t[1..] + rt;
      ReadToken(s[1..], t[1..], rs, rt);
      assert s == [s[0]] + s[1..] && t == [t[0]] + t[1..];
    }
  }

  lemma DropPrefix(p: Text, a: Text, b: Text)
    requires p + a == p + b
    ensures a == b
  {
    assert (p + a)[|p|..] == a && (p + b)[|p|..] == b;
  }

  /** Two values with the same text, each followed by something that can follow a value, are the same value. */
  lemma {:induction false} ReadValue(a: Json, b: Json, ra: Text, rb: Text)
    requires Valid(a) && Valid(b) && Stops(ra) && Stops(rb)
    requires Render(a) + ra == Render(b) + rb
    ensures a == b && ra == rb
    decreases a, 1
  {
    FirstUnit(a);
    FirstUnit(b);
    assert (Render(a) + ra)[0] == Render(a)[0] && (Render(b) + rb)[0] == Render(b)[0];
    match a
    case Null => DropPrefix(Render(a), ra, rb);
    case Bool(_) => DropPrefix(Render(a), ra, rb);
    case Num(token) => ReadToken(token, b.token, ra, rb);
    case Str(text) => ReadQuoted(text, b.text, ra, rb);
    case Arr(items) =>
      Reassociate([LBRACKET], RenderItems(items), [RBRACKET], ra);
      Reassociate([LBRACKET], RenderItems(b.items), [RBRACKET], rb);
      DropPrefix([LBRACKET], RenderItems(items) + ([RBRACKET] + ra), RenderItems(b.items) + ([RBRACKET] + rb));
      ReadItems(items, b.items, ra, rb);
    case Obj(members) =>
      Reassociate([LBRACE], RenderMembers(members), [RBRACE], ra);
      Reassociate([LBRACE], RenderMembers(b.members), [RBRACE], rb);
      DropPrefix([LBRACE], RenderMembers(members) + ([RBRACE] + ra), RenderMembers(b.members) + ([RBRACE] + rb));
      ReadMembers(members, b.members, ra, rb);
  }

  lemma Associate(a: Text, b: Text, c: Text)
    ensures a + b + c == a + (b + c)
  {
  }

  /** What follows the first item inside the array's text. */
  function MoreItems(items: seq<Json>): Text
    requires items != []
  {
    if |items| == 1 then [] else [COMMA] + RenderItems(items[1..])
  }

  function ItemsAfter(items: seq<Json>, rest: Text): Text
    requires items != []
  {
    MoreItems(items) + ([RBRACKET] + rest)
  }

  lemma FirstItem(items: seq<Json>, rest: Text)
    requires items != []
    ensures RenderItems(items) + ([RBRACKET] + rest) == Render(items[0]) + ItemsAfter(items, rest)
    ensures |items| == 1 ==> ItemsAfter(items, rest) == [RBRACKET] + rest
    ensures |items| > 1 ==> ItemsAfter(items, rest) == [COMMA] + (RenderItems(items[1..]) + ([RBRACKET] + rest))
  {
    Associate(Render(items[0]), MoreItems(items), [RBRACKET] + rest);
    if |items| > 1 {
      Associate([COMMA], RenderItems(items[1..]), [RBRACKET] + rest);
    } else {
      assert [] + ([RBRACKET] + rest) == [RBRACKET] + rest;
    }
  }

  lemma ItemsStart(items: seq<Json>, rest: Text)
    requires forall i :: 0 <= i < |items| ==> Valid(items[i])
    ensures (RenderItems(items) + ([RBRACKET] + rest))[0] == RBRACKET <==> items == []
  {
    if items != [] {
      FirstUnit(items[0]);
      assert (RenderItems(items) + ([RBRACKET] + rest))[0] == Render(items[0])[0];
    }
  }

  lemma {:induction false} ReadItems(xs: seq<Json>, ys: seq<Json>, rx: Text, ry: Text)
    requires (forall i :: 0 <= i < |xs| ==> Valid(xs[i])) && (forall i :: 0 <= i < |ys| ==> Valid(ys[i]))
    requires RenderItems(xs) + ([RBRACKET] + rx) == RenderItems(ys) + ([RBRACKET] + ry)
    ensures xs == ys && rx == ry
    decreases xs, 0
  {
    ItemsStart(xs, rx);
    ItemsStart(ys, ry);
    if xs == [] {
      assert RenderItems(xs) + ([RBRACKET] + rx) == [RBRACKET] + rx;
      assert RenderItems(ys) + ([RBRACKET] + ry) == [RBRACKET] + ry;
      DropPrefix([RBRACKET], rx, ry);
    } else {
      FirstItem(xs, rx);
      FirstItem(ys, ry);
      ReadValue(xs[0], ys[0], ItemsAfter(xs, rx), ItemsAfter(ys, ry));
      LaterItems(xs, ys, rx, ry);
      if |xs| > 1 {
        ReadItems(xs[1..], ys[1..], rx, ry);
      }
      assert xs == [xs[0]] + xs[1..] && ys == [ys[0]] + ys[1..];
    }
  }

  lemma LaterItems(xs: seq<Json>, ys: seq<Json>, rx: Text, ry: Text)
    requires xs != [] && ys != [] && ItemsAfter(xs, rx) == ItemsAfter(ys, ry)
    ensures |xs| == 1 <==> |ys| == 1
    ensures |xs| == 1 ==> rx == ry
    ensures |xs| > 1 ==> RenderItems(xs[1..]) + ([RBRACKET] + rx) == RenderItems(ys[1..]) + ([RBRACKET] + ry)
  {
    FirstItem(xs, rx);
    FirstItem(ys, ry);
    assert ItemsAfter(xs, rx)[0] == if |xs| == 1 then RBRACKET else COMMA;
    assert ItemsAfter(ys, ry)[0] == if |ys| == 1 then RBRACKET else COMMA;
    if |xs| == 1 {
      DropPrefix([RBRACKET], rx, ry);
    } else {
      DropPrefix([COMMA], RenderItems(xs[1..]) + ([RBRACKET] + rx), RenderItems(ys[1..]) + ([RBRACKET] + ry));
    }
  }

  function MoreMembers(members: seq<Member>): Text
    requires members != []
  {
    if |members| == 1 then [] else [COMMA] + RenderMembers(members[1..])
  }

  function MembersAfter(members: seq<Member>, rest: Text): Text
    requires members != []
  {
    MoreMembers(members) + ([RBRACE] + rest)
  }

  lemma FirstMember(members: seq<Member>, rest: Text)
    requires members != []
    ensures RenderMembers(members) + ([RBRACE] + rest)
            == Quoted(members[0].key) + ([COLON] + (Render(members[0].value) + MembersAfter(members, rest)))
    ensures |members| == 1 ==> MembersAfter(members, rest) == [RBRACE] + rest
    ensures |members| > 1 ==> MembersAfter(members, rest) == [COMMA] + (RenderMembers(members[1..]) + ([RBRACE] + rest))
  {
    var value, more, end := Render(members[0].value), MoreMembers(members), [RBRACE] + rest;
    Associate(Quoted(members[0].key), [COLON] + (value + more), end);
    Associate([COLON], value + more, end);
    Associate(value, more, end);
    if |members| > 1 {
      Associate([COMMA], RenderMembers(members[1..]), end);
    } else {
      assert [] + end == end;
    }
  }

  lemma MembersStart(members: seq<Member>, rest: Text)
    ensures (RenderMembers(members) + ([RBRACE] + rest))[0] == RBRACE <==> members == []
  {
    if members != [] {
      assert (RenderMembers(members) + ([RBRACE] + rest))[0] == QUOTE;
    }
  }

  lemma ReadFirstKey(xs: seq<Member>, ys: seq<Member>, rx: Text, ry: Text)
    requires xs != [] && ys != []
    requires RenderMembers(xs) + ([RBRACE] + rx) == RenderMembers(ys) + ([RBRACE] + ry)
    ensures xs[0].key == ys[0].key
    ensures Render(xs[0].value) + MembersAfter(xs, rx) == Render(ys[0].value) + MembersAfter(ys, ry)
    ensures MembersAfter(xs, rx)[0] == (if |xs| == 1 then RBRACE else COMMA)
    ensures MembersAfter(ys, ry)[0] == (if |ys| == 1 then RBRACE else COMMA)
  {
    FirstMember(xs, rx);
    FirstMember(ys, ry);
    var vx, vy := Render(xs[0].value) + MembersAfter(xs, rx), Render(ys[0].value) + MembersAfter(ys, ry);
    ReadQuoted(xs[0].key, ys[0].key, [COLON] + vx, [COLON] + vy);
    DropPrefix([COLON], vx, vy);
  }

  lemma LaterMembers(xs: seq<Member>, ys: seq<Member>, rx: Text, ry: Text)
    requires xs != [] && ys != [] && MembersAfter(xs, rx) == MembersAfter(ys, ry)
    ensures |xs| == 1 <==> |ys| == 1
    ensures |xs| == 1 ==> rx == ry
    ensures |xs| > 1 ==> RenderMembers(xs[1..]) + ([RBRACE] + rx) == RenderMembers(ys[1..]) + ([RBRACE] + ry)
  {
    FirstMember(xs, rx);
    FirstMember(ys, ry);
    assert MembersAfter(xs, rx)[0] == if |xs| == 1 then RBRACE else COMMA;
    assert MembersAfter(ys, ry)[0] == if |ys| == 1 then RBRACE else COMMA;
    if |xs| == 1 {
      DropPrefix([RBRACE], rx, ry);
    } else {
      DropPrefix([COMMA], RenderMembers(xs[1..]) + ([RBRACE] + rx), RenderMembers(ys[1..]) + ([RBRACE] + ry));
    }
  }

  lemma {:induction false} ReadMembers(xs: seq<Member>, ys: seq<Member>, rx: Text, ry: Text)
    requires (forall i :: 0 <= i < |xs| ==> Valid(xs[i].value)) && (forall i :: 0 <= i < |ys| ==> Valid(ys[i].value))
    requires RenderMembers(xs) + ([RBRACE] + rx) == RenderMembers(ys) + ([RBRACE] + ry)
    ensures xs == ys && rx == ry
    decreases xs, 0
  {
    MembersStart(xs, rx);
    MembersStart(ys, ry);
    if xs == [] {
      NoMembers(rx, ry);
    } else {
      ReadFirstKey(xs, ys, rx, ry);
      ReadValue(xs[0].value, ys[0].value, MembersAfter(xs, rx), MembersAfter(ys, ry));
      LaterMembers(xs, ys, rx, ry);
      if |xs| > 1 {
        ReadMembers(xs[1..], ys[1..], rx, ry);
      }
      SameMembers(xs, ys);
    }
  }

  lemma NoMembers(rx: Text, ry: Text)
    requires RenderMembers([]) + ([RBRACE] + rx) == RenderMembers([]) + ([RBRACE] + ry)
    ensures rx == ry
  {
    assert RenderMembers([]) + ([RBRACE] + rx) == [RBRACE] + rx;
    assert RenderMembers([]) + ([RBRACE] + ry) == [RBRACE] + ry;
    DropPrefix([RBRACE], rx, ry);
  }

  lemma SameMembers(xs: seq<Member>, ys: seq<Member>)
    requires xs != [] && ys != [] && xs[0].key == ys[0].key && xs[0].value == ys[0].value && xs[1..] == ys[1..]
    ensures xs == ys
  {
    assert xs == [xs[0]] + xs[1..] && ys == [ys[0]] + ys[1..];
  }

  /** JSON text with its members in order determines the value. */
  lemma RenderIsInjective(a: Json, b: Json)
    requires Valid(a) && Valid(b) && Render(a) == Render(b)
    ensures a == b
  {
    assert Render(a) + [] == Render(a) && Render(b) + [] == Render(b);
    ReadValue(a, b, [], []);
  }
}
