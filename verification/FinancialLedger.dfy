/** The double-entry journal: append-only entries whose postings balance in every asset, and running balances. */
module FinancialLedger {
  import opened Results
  import opened Texts
  import MapSums

  datatype Posting = Posting(accountId: string, assetId: string, side: string, amount: int)

  /** `occurredAt` is the parsed time, absent when the text is no date. */
  datatype Entry = Entry(id: string, actorId: string, causationId: string, occurredAt: Option<int>, description: string,
                         postings: seq<Posting>)

  datatype Books = Books(journal: seq<Entry>, entryIds: set<string>, balances: map<string, int>)

  const EMPTY: Books := Books([], {}, map[])

  const NUL: char := 0 as char

  function Key(accountId: string, assetId: string): string {
    accountId + [NUL] + assetId
  }

  function KeyOf(p: Posting): string {
    Key(p.accountId, p.assetId)
  }

  function Signed(p: Posting): int {
    if p.side == "debit" then p.amount else -p.amount
  }

  function OfKey(key: string): Posting -> bool {
    (p: Posting) => KeyOf(p) == key
  }

  function OfAsset(assetId: string): Posting -> bool {
    (p: Posting) => p.assetId == assetId
  }

  function OfPair(accountId: string, assetId: string): Posting -> bool {
    (p: Posting) => p.assetId == assetId && p.accountId == accountId
  }

  function OfClass(keep: Posting -> bool, sort: Posting -> string, x: string): Posting -> bool {
    (p: Posting) => keep(p) && sort(p) == x
  }

  /** The signed amounts of the postings that `keep` selects. */
  function Total(ps: seq<Posting>, keep: Posting -> bool): int {
    if ps == [] then 0
    else Total(ps[..|ps| - 1], keep) + (if keep(ps[|ps| - 1]) then Signed(ps[|ps| - 1]) else 0)
  }

  /** The amounts posted on one side of an asset. */
  function SideTotal(ps: seq<Posting>, assetId: string, debit: bool): int {
    if ps == [] then 0
    else
      var last := ps[|ps| - 1];
      SideTotal(ps[..|ps| - 1], assetId, debit)
          + (if last.assetId == assetId && (last.side == "debit") == debit then last.amount else 0)
  }

  /** The assets of some postings, each at its first occurrence. */
  function AssetOrder(ps: seq<Posting>): (r: seq<string>)
    ensures forall a :: a in r <==> exists p :: p in ps && p.assetId == a
  {
    if ps == [] then []
    else
      var front, last := ps[..|ps| - 1], ps[|ps| - 1];
      assert ps == front + [last];
      AssetOrder(front) + (if last.assetId in AssetOrder(front) then [] else [last.assetId])
  }

  // ----- acceptance -----

  function PostingError(p: Posting): Option<string> {
    if Blank(p.accountId) then Some("JOURNAL_POSTING_ACCOUNT_REQUIRED")
    else if Blank(p.assetId) then Some("JOURNAL_POSTING_ASSET_REQUIRED")
    else if p.side != "debit" && p.side != "credit" then Some("JOURNAL_POSTING_SIDE_INVALID")
    else if p.amount <= 0 then Some("JOURNAL_POSTING_AMOUNT_INVALID")
    else None
  }

  function PostingErrorFrom(ps: seq<Posting>, i: nat): (r: Option<string>)
    requires i <= |ps|
    ensures r.None? <==> forall k :: i <= k < |ps| ==> PostingError(ps[k]).None?
    decreases |ps| - i
  {
    if i == |ps| then None
    else if PostingError(ps[i]).Some? then PostingError(ps[i])
    else PostingErrorFrom(ps, i + 1)
  }

  predicate Balanced(ps: seq<Posting>, assetId: string) {
    SideTotal(ps, assetId, true) == SideTotal(ps, assetId, false)
  }

  function UnbalancedFrom(ps: seq<Posting>, assets: seq<string>, i: nat): (r: Option<string>)
    requires i <= |assets|
    ensures r.None? <==> forall k :: i <= k < |assets| ==> Balanced(ps, assets[k])
    decreases |assets| - i
  {
    if i == |assets| then None
    else if !Balanced(ps, assets[i]) then Some(assets[i])
    else UnbalancedFrom(ps, assets, i + 1)
  }

  /** The error an append throws, if any: the checks in their order. */
  function Rejection(entryIds: set<string>, c: Entry): Option<string> {
    if Blank(c.id) then Some("JOURNAL_ENTRY_ID_REQUIRED")
    else if Blank(c.actorId) then Some("JOURNAL_ENTRY_ACTOR_REQUIRED")
    else if Blank(c.causationId) then Some("JOURNAL_ENTRY_CAUSATION_REQUIRED")
    else if Blank(c.description) then Some("JOURNAL_ENTRY_DESCRIPTION_REQUIRED")
    else if c.occurredAt.None? then Some("JOURNAL_ENTRY_OCCURRED_AT_INVALID")
    else if c.id in entryIds then Some("JOURNAL_ENTRY_DUPLICATE:" + c.id)
    else if |c.postings| < 2 then Some("JOURNAL_ENTRY_POSTINGS_REQUIRED")
    else if PostingErrorFrom(c.postings, 0).Some? then PostingErrorFrom(c.postings, 0)
    else
      var unbalanced := UnbalancedFrom(c.postings, AssetOrder(c.postings), 0);
      if unbalanced.Some? then Some("JOURNAL_ENTRY_UNBALANCED:" + unbalanced.value) else None
  }

  /** A posting to a named account in a named asset, on one side or the other, of a positive amount. */
  predicate ProperPosting(p: Posting) {
    && !Blank(p.accountId) && !Blank(p.assetId) && (p.side == "debit" || p.side == "credit") && p.amount >= 1
  }

  /** What an entry of the journal satisfies: every asset balances, also those it never mentions. */
  ghost predicate WellFormed(c: Entry) {
    && !Blank(c.id) && !Blank(c.actorId) && !Blank(c.causationId) && !Blank(c.description) && c.occurredAt.Some?
    && |c.postings| >= 2
    && (forall p :: p in c.postings ==> ProperPosting(p))
    && (forall assetId :: Balanced(c.postings, assetId))
  }

  /** An append is accepted exactly when the entry is well formed and its id is new. */
  lemma AcceptedIff(entryIds: set<string>, c: Entry)
    ensures Rejection(entryIds, c).None? <==> WellFormed(c) && c.id !in entryIds
  {
    assert forall p :: p in c.postings ==> (PostingError(p).None? <==> ProperPosting(p));
    if Rejection(entryIds, c).None? {
      var assets := AssetOrder(c.postings);
      forall assetId ensures Balanced(c.postings, assetId) {
        if assetId in assets {
          var k :| 0 <= k < |assets| && assets[k] == assetId;
        } else {
          AbsentAsset(c.postings, assetId);
        }
      }
    }
  }

  lemma {:induction false} AbsentAsset(ps: seq<Posting>, assetId: string)
    requires forall p :: p in ps ==> p.assetId != assetId
    ensures SideTotal(ps, assetId, true) == SideTotal(ps, assetId, false) == 0
  {
    if ps != [] {
      AbsentAsset(ps[..|ps| - 1], assetId);
    }
  }

  // ----- posting -----

  function Get(balances: map<string, int>, key: string): int {
    if key in balances then balances[key] else 0
  }

  function Post(balances: map<string, int>, ps: seq<Posting>): map<string, int> {
    if ps == [] then balances
    else
      var before, last := Post(balances, ps[..|ps| - 1]), ps[|ps| - 1];
      before[KeyOf(last) := Get(before, KeyOf(last)) + Signed(last)]
  }

  function Appended(b: Books, c: Entry): (Books, Option<string>) {
    var rejection := Rejection(b.entryIds, c);
    if rejection.Some? then (b, rejection)
    else (Books(b.journal + [c], b.entryIds + {c.id}, Post(b.balances, c.postings)), None)
  }

  function Run(cs: seq<Entry>): Books {
    if cs == [] then EMPTY else Appended(Run(cs[..|cs| - 1]), cs[|cs| - 1]).0
  }

  /** Every posting of a journal. */
  function Postings(journal: seq<Entry>): seq<Posting> {
    if journal == [] then [] else Postings(journal[..|journal| - 1]) + journal[|journal| - 1].postings
  }

  /** The sum over the journal of the postings whose key is `key`. */
  function KeyTotal(ps: seq<Posting>, key: string): int {
    Total(ps, OfKey(key))
  }

  /** Balances are the fold over the journal; ids are unique and recorded; entries are well formed. */
  ghost predicate Faithful(b: Books) {
    && (forall key :: Get(b.balances, key) == KeyTotal(Postings(b.journal), key))
    && (forall i, j :: 0 <= i < j < |b.journal| ==> b.journal[i].id != b.journal[j].id)
    && (forall id :: id in b.entryIds <==> exists i :: 0 <= i < |b.journal| && b.journal[i].id == id)
    && (forall i :: 0 <= i < |b.journal| ==> WellFormed(b.journal[i]))
  }

  lemma {:induction false} TotalOfConcat(a: seq<Posting>, b: seq<Posting>, keep: Posting -> bool)
    ensures Total(a + b, keep) == Total(a, keep) + Total(b, keep)
  {
    if b == [] {
      assert a + b == a;
    } else {
      TotalOfConcat(a, b[..|b| - 1], keep);
      assert (a + b)[..|a + b| - 1] == a + b[..|b| - 1];
    }
  }

  lemma {:induction false} PostAddsTotals(balances: map<string, int>, ps: seq<Posting>, key: string)
    ensures Get(Post(balances, ps), key) == Get(balances, key) + KeyTotal(ps, key)
  {
    if ps != [] {
      PostAddsTotals(balances, ps[..|ps| - 1], key);
    }
  }

  lemma AppendKeeps(b: Books, c: Entry)
    requires Faithful(b)
    ensures Faithful(Appended(b, c).0)
  {
    if Rejection(b.entryIds, c).None? {
      var after := Appended(b, c).0;
      AcceptedIff(b.entryIds, c);
      assert after.journal[..|after.journal| - 1] == b.journal;
      assert Postings(after.journal) == Postings(b.journal) + c.postings;
      forall key ensures Get(after.balances, key) == KeyTotal(Postings(after.journal), key) {
        PostAddsTotals(b.balances, c.postings, key);
        TotalOfConcat(Postings(b.journal), c.postings, OfKey(key));
      }
      forall id | id in after.entryIds ensures exists i :: 0 <= i < |after.journal| && after.journal[i].id == id {
        if id in b.entryIds {
          var i :| 0 <= i < |b.journal| && b.journal[i].id == id;
          assert after.journal[i].id == id;
        } else {
          assert after.journal[|b.journal|].id == id;
        }
      }
    }
  }

  /** After any run of appends, accepted or rejected, the books are the fold over the journal. */
  lemma {:induction false} RunIsFaithful(cs: seq<Entry>)
    ensures Faithful(Run(cs))
  {
    if cs != [] {
      RunIsFaithful(cs[..|cs| - 1]);
      AppendKeeps(Run(cs[..|cs| - 1]), cs[|cs| - 1]);
    }
  }

  /** An entry that was accepted is refused as a duplicate ever after, whatever is appended in between. */
  lemma AcceptedOnce(cs: seq<Entry>, c: Entry, d: Entry)
    requires exists i :: 0 <= i < |cs| && cs[i].id == c.id && Appended(Run(cs[..i]), cs[i]).1.None?
    requires WellFormed(d) && d.id == c.id
    ensures Appended(Run(cs), d) == (Run(cs), Some("JOURNAL_ENTRY_DUPLICATE:" + d.id))
  {
    var i: nat :| i < |cs| && cs[i].id == c.id && Appended(Run(cs[..i]), cs[i]).1.None?;
    AcceptedIsRecorded(cs, i);
    IdsAreKept(cs, i + 1, c.id);
    RecordedIsRefused(Run(cs), d);
  }

  lemma AcceptedIsRecorded(cs: seq<Entry>, i: nat)
    requires i < |cs| && Appended(Run(cs[..i]), cs[i]).1.None?
    ensures cs[i].id in Run(cs[..i + 1]).entryIds
  {
    assert cs[..i + 1][..i] == cs[..i];
  }

  lemma RecordedIsRefused(b: Books, d: Entry)
    requires WellFormed(d) && d.id in b.entryIds
    ensures Appended(b, d) == (b, Some("JOURNAL_ENTRY_DUPLICATE:" + d.id))
  {
  }

  lemma {:induction false} IdsAreKept(cs: seq<Entry>, n: nat, id: string)
    requires n <= |cs| && id in Run(cs[..n]).entryIds
    ensures id in Run(cs).entryIds
  {
    if n == |cs| {
      assert cs[..n] == cs;
    } else {
      assert cs[..|cs| - 1][..n] == cs[..n];
      IdsAreKept(cs[..|cs| - 1], n, id);
    }
  }

  // ----- conservation -----

  lemma {:induction false} TotalIsSides(ps: seq<Posting>, assetId: string)
    ensures Total(ps, OfAsset(assetId)) == SideTotal(ps, assetId, true) - SideTotal(ps, assetId, false)
  {
    if ps != [] {
      TotalIsSides(ps[..|ps| - 1], assetId);
    }
  }

  lemma {:induction false} AssetTotalsVanish(journal: seq<Entry>, assetId: string)
    requires forall i :: 0 <= i < |journal| ==> WellFormed(journal[i])
    ensures Total(Postings(journal), OfAsset(assetId)) == 0
  {
    if journal != [] {
      var front, last := journal[..|journal| - 1], journal[|journal| - 1];
      AssetTotalsVanish(front, assetId);
      TotalIsSides(last.postings, assetId);
      assert Balanced(last.postings, assetId);
      TotalOfConcat(Postings(front), last.postings, OfAsset(assetId));
    }
  }

  lemma {:induction false} TotalsAgree(ps: seq<Posting>, keep: Posting -> bool, same: Posting -> bool)
    requires forall p :: p in ps ==> keep(p) == same(p)
    ensures Total(ps, keep) == Total(ps, same)
  {
    if ps != [] {
      TotalsAgree(ps[..|ps| - 1], keep, same);
    }
  }

  /** The totals of each class, for every class of a finite set. */
  ghost function ClassTotals(ps: seq<Posting>, keep: Posting -> bool, sort: Posting -> string,
                             classes: set<string>): map<string, int> {
    map x | x in classes :: Total(ps, OfClass(keep, sort, x))
  }

  /** Splitting postings into classes loses and repeats nothing. */
  lemma {:induction false} ClassesPartition(ps: seq<Posting>, keep: Posting -> bool, sort: Posting -> string,
                                            classes: set<string>)
    requires forall p :: p in ps ==> sort(p) in classes
    ensures MapSums.Sum(ClassTotals(ps, keep, sort, classes)) == Total(ps, keep)
  {
    var totals := ClassTotals(ps, keep, sort, classes);
    if ps == [] {
      MapSums.SumZero(totals);
    } else {
      var front, last := ps[..|ps| - 1], ps[|ps| - 1];
      var before := ClassTotals(front, keep, sort, classes);
      ClassesPartition(front, keep, sort, classes);
      var x := sort(last);
      assert totals == before[x := before[x] + if keep(last) then Signed(last) else 0];
      MapSums.SumUpdate(before, x, totals[x]);
    }
  }

  // ----- balances by account -----

  function Balance(b: Books, accountId: string, assetId: string): int {
    Get(b.balances, Key(accountId, assetId))
  }

  function AccountTotal(ps: seq<Posting>, accountId: string, assetId: string): int {
    Total(ps, OfPair(accountId, assetId))
  }

  /** Two pairs share a key exactly when they are the same pair, or a separator inside one account hides the split. */
  lemma KeysCollideIff(a: string, x: string, c: string, y: string)
    ensures Key(a, x) == Key(c, y) <==> (a == c && x == y) || Hides(a, x, c, y) || Hides(c, y, a, x)
  {
    var k, l := Key(a, x), Key(c, y);
    if k == l {
      assert a == k[..|a|] && x == k[|a| + 1..] && c == l[..|c|] && y == l[|c| + 1..];
      if |c| < |a| {
        var m := a[|c| + 1..];
        assert a == c + [NUL] + m && y == m + [NUL] + x;
      } else if |a| < |c| {
        var m := c[|a| + 1..];
        assert c == a + [NUL] + m && x == m + [NUL] + y;
      }
    }
    if Hides(a, x, c, y) {
      var m :| a == c + [NUL] + m && y == m + [NUL] + x;
      assert k == c + [NUL] + (m + [NUL] + x);
    }
    if Hides(c, y, a, x) {
      var m :| c == a + [NUL] + m && x == m + [NUL] + y;
      assert l == a + [NUL] + (m + [NUL] + y);
    }
  }

  /** The account `a` is `c`, a separator and a piece that the asset `y` starts with. */
  ghost predicate Hides(a: string, x: string, c: string, y: string) {
    exists m: string :: a == c + [NUL] + m && y == m + [NUL] + x
  }

  /** The postings of other pairs that share the pair's key. */
  function OfColliders(accountId: string, assetId: string): Posting -> bool {
    (p: Posting) => KeyOf(p) == Key(accountId, assetId) && !(p.assetId == assetId && p.accountId == accountId)
  }

  lemma {:induction false} KeySplits(ps: seq<Posting>, accountId: string, assetId: string)
    ensures KeyTotal(ps, Key(accountId, assetId)) == AccountTotal(ps, accountId, assetId)
            + Total(ps, OfColliders(accountId, assetId))
  {
    if ps != [] {
      KeySplits(ps[..|ps| - 1], accountId, assetId);
    }
  }

  /**
    What a balance is after any run: the account's own fold and the folds of the pairs that collide with it. So it
    is the account's own fold exactly when the colliding pairs' postings cancel out.
   */
  lemma BalanceSplits(cs: seq<Entry>, accountId: string, assetId: string)
    ensures var ps := Postings(Run(cs).journal);
            && Balance(Run(cs), accountId, assetId) == AccountTotal(ps, accountId, assetId)
                + Total(ps, OfColliders(accountId, assetId))
            && (Balance(Run(cs), accountId, assetId) == AccountTotal(ps, accountId, assetId)
                <==> Total(ps, OfColliders(accountId, assetId)) == 0)
  {
    RunIsFaithful(cs);
    KeySplits(Postings(Run(cs).journal), accountId, assetId);
  }

  /** A balance is the account's own fold unless another pair in the journal has the same key. */
  lemma BalanceIsAccountTotal(b: Books, accountId: string, assetId: string)
    requires Faithful(b)
    requires forall p :: p in Postings(b.journal) && KeyOf(p) == Key(accountId, assetId) ==>
               p.accountId == accountId && p.assetId == assetId
    ensures Balance(b, accountId, assetId) == AccountTotal(Postings(b.journal), accountId, assetId)
  {
    var ps := Postings(b.journal);
    TotalsAgree(ps, OfKey(Key(accountId, assetId)), OfPair(accountId, assetId));
  }

  function Balances(b: Books, accounts: set<string>, assetId: string): map<string, int> {
    map a | a in accounts :: Balance(b, a, assetId)
  }

  /**
    Conservation: after any run, the balances of an asset over all accounts sum to zero, and each is the
    account's own fold, when no account has a separator in its id.
   */
  lemma AssetSumsToZero(cs: seq<Entry>, accounts: set<string>, assetId: string)
    requires forall a :: a in accounts ==> NUL !in a
    requires forall p :: p in Postings(Run(cs).journal) ==> p.accountId in accounts
    ensures MapSums.Sum(Balances(Run(cs), accounts, assetId)) == 0
    ensures forall a :: a in accounts ==>
            Balance(Run(cs), a, assetId) == AccountTotal(Postings(Run(cs).journal), a, assetId)
  {
    var b := Run(cs);
    var ps := Postings(b.journal);
    RunIsFaithful(cs);
    forall a | a in accounts ensures Balance(b, a, assetId) == AccountTotal(ps, a, assetId) {
      forall p | p in ps && KeyOf(p) == Key(a, assetId) ensures p.accountId == a && p.assetId == assetId {
        KeysCollideIff(p.accountId, p.assetId, a, assetId);
      }
      BalanceIsAccountTotal(b, a, assetId);
    }
    var keep, sort := OfAsset(assetId), (p: Posting) => p.accountId;
    forall a | a in accounts ensures AccountTotal(ps, a, assetId) == Total(ps, OfClass(keep, sort, a)) {
      TotalsAgree(ps, OfPair(a, assetId), OfClass(keep, sort, a));
    }
    assert Balances(b, accounts, assetId) == ClassTotals(ps, keep, sort, accounts);
    ClassesPartition(ps, keep, sort, accounts);
    AssetTotalsVanish(b.journal, assetId);
  }

  /** With separators in ids the sum over all keys is still zero: nothing is lost, only attributed elsewhere. */
  lemma AllBalancesSumToZero(cs: seq<Entry>)
    ensures MapSums.Sum(Run(cs).balances) == 0
  {
    var b := Run(cs);
    var ps := Postings(b.journal);
    RunIsFaithful(cs);
    KeysArePosted(cs);
    var all := (p: Posting) => true;
    ClassesPartition(ps, all, KeyOf, b.balances.Keys);
    forall key | key in b.balances ensures b.balances[key] == Total(ps, OfClass(all, KeyOf, key)) {
      assert Get(b.balances, key) == KeyTotal(ps, key);
      TotalsAgree(ps, OfKey(key), OfClass(all, KeyOf, key));
    }
    assert b.balances == ClassTotals(ps, all, KeyOf, b.balances.Keys);
    var assets := set p | p in ps :: p.assetId;
    var asset := (p: Posting) => p.assetId;
    ClassesPartition(ps, all, asset, assets);
    forall x | x in assets ensures Total(ps, OfClass(all, asset, x)) == 0 {
      AssetTotalsVanish(b.journal, x);
      TotalsAgree(ps, OfAsset(x), OfClass(all, asset, x));
    }
    MapSums.SumZero(ClassTotals(ps, all, asset, assets));
  }

  lemma {:induction false} PostKeys(balances: map<string, int>, ps: seq<Posting>)
    ensures balances.Keys <= Post(balances, ps).Keys
    ensures forall p :: p in ps ==> KeyOf(p) in Post(balances, ps)
  {
    if ps != [] {
      PostKeys(balances, ps[..|ps| - 1]);
      assert ps == ps[..|ps| - 1] + [ps[|ps| - 1]];
    }
  }

  lemma {:induction false} KeysArePosted(cs: seq<Entry>)
    ensures forall p :: p in Postings(Run(cs).journal) ==> KeyOf(p) in Run(cs).balances
  {
    if cs != [] {
      var b, c := Run(cs[..|cs| - 1]), cs[|cs| - 1];
      KeysArePosted(cs[..|cs| - 1]);
      PostKeys(b.balances, c.postings);
      assert (b.journal + [c])[..|b.journal|] == b.journal;
    }
  }

  lemma SameAssetKeys(a: string, c: string, assetId: string)
    requires a != c
    ensures Key(a, assetId) != Key(c, assetId)
  {
    assert Key(a, assetId)[..|Key(a, assetId)| - |assetId| - 1] == a;
    assert Key(c, assetId)[..|Key(c, assetId)| - |assetId| - 1] == c;
  }

  /** With a separator in an account id, an account that nothing was posted to has a balance. */
  lemma SeparatorMovesBalance(c: Entry, a: string, m: string, other: string, assetId: string, n: int)
    requires WellFormed(c) && other != a + [NUL] + m
    requires c.postings == [Posting(a + [NUL] + m, assetId, "debit", n), Posting(other, assetId, "credit", n)]
    ensures Run([c]).journal == [c]
    ensures Balance(Run([c]), a, m + [NUL] + assetId) == n
    ensures AccountTotal(c.postings, a, m + [NUL] + assetId) == 0
  {
    AcceptedIff({}, c);
    assert [c][..0] == [] && Run([]) == EMPTY && EMPTY.journal + [c] == [c];
    var p, q := c.postings[0], c.postings[1];
    assert c.postings[..1] == [p] && [p][..0] == [];
    var key := Key(a, m + [NUL] + assetId);
    assert KeyOf(p) == key;
    SameAssetKeys(other, a + [NUL] + m, assetId);
    PostAddsTotals(map[], c.postings, key);
    assert Total([p], OfKey(key)) == n;
    assert |m + [NUL] + assetId| != |assetId|;
    assert Total([p], OfPair(a, m + [NUL] + assetId)) == 0;
  }

  // ----- the class -----

  class FinancialLedger {
    var journal: seq<Entry>
    var entryIds: set<string>
    var balances: map<string, int>

    constructor ()
      ensures Contents() == EMPTY
    {
      journal, entryIds, balances := [], {}, map[];
    }

    function Contents(): Books
      reads this
    {
      Books(journal, entryIds, balances)
    }

    method PostAll(ps: seq<Posting>)
      modifies this`balances
      ensures balances == Post(old(balances), ps)
    {
      for i := 0 to |ps|
        invariant balances == Post(old(balances), ps[..i])
      {
        var key := Key(ps[i].accountId, ps[i].assetId);
        var direction := if ps[i].side == "debit" then 1 else -1;
        assert ps[..i + 1][..i] == ps[..i];
        balances := balances[key := (if key in balances then balances[key] else 0) + direction * ps[i].amount];
      }
      assert ps[..|ps|] == ps;
    }

    /** Appends an entry, or throws and leaves everything as it was. */
    method Append(candidate: Entry) returns (rejection: Option<string>)
      modifies this
      ensures (Contents(), rejection) == Appended(old(Contents()), candidate)
    {
      if Blank(candidate.id) { return Some("JOURNAL_ENTRY_ID_REQUIRED"); }
      if Blank(candidate.actorId) { return Some("JOURNAL_ENTRY_ACTOR_REQUIRED"); }
      if Blank(candidate.causationId) { return Some("JOURNAL_ENTRY_CAUSATION_REQUIRED"); }
      if Blank(candidate.description) { return Some("JOURNAL_ENTRY_DESCRIPTION_REQUIRED"); }
      if candidate.occurredAt.None? { return Some("JOURNAL_ENTRY_OCCURRED_AT_INVALID"); }
      if candidate.id in entryIds { return Some("JOURNAL_ENTRY_DUPLICATE:" + candidate.id); }
      if |candidate.postings| < 2 { return Some("JOURNAL_ENTRY_POSTINGS_REQUIRED"); }
      var error, order, totals := SumPostings(candidate.postings);
      if error.Some? { return error; }
      var unbalanced := FindUnbalanced(candidate.postings, order, totals);
      if unbalanced.Some? { return Some("JOURNAL_ENTRY_UNBALANCED:" + unbalanced.value); }
      PostAll(candidate.postings);
      entryIds := entryIds + {candidate.id};
      journal := journal + [candidate];
      return None;
    }

    method BalanceOf(accountId: string, assetId: string) returns (amount: int)
      ensures amount == Balance(Contents(), accountId, assetId)
    {
      var key := Key(accountId, assetId);
      amount := if key in balances then balances[key] else 0;
    }
  }

  function WithPosting(totals: map<string, (int, int)>, p: Posting): map<string, (int, int)> {
    var (debits, credits) := if p.assetId in totals then totals[p.assetId] else (0, 0);
    totals[p.assetId := if p.side == "debit" then (debits + p.amount, credits) else (debits, credits + p.amount)]
  }

  function Totals(ps: seq<Posting>): map<string, (int, int)> {
    if ps == [] then map[] else WithPosting(Totals(ps[..|ps| - 1]), ps[|ps| - 1])
  }

  lemma {:induction false} TotalsAreSides(ps: seq<Posting>, assetId: string)
    ensures assetId in Totals(ps) <==> assetId in AssetOrder(ps)
    ensures (if assetId in Totals(ps) then Totals(ps)[assetId] else (0, 0))
            == (SideTotal(ps, assetId, true), SideTotal(ps, assetId, false))
  {
    if ps != [] {
      var front, last := ps[..|ps| - 1], ps[|ps| - 1];
      TotalsAreSides(front, assetId);
      TotalsAreSides(front, last.assetId);
    }
  }

  /** The first loop: the totals per asset, unless a posting is in error. */
  method SumPostings(ps: seq<Posting>)
    returns (error: Option<string>, order: seq<string>, totals: map<string, (int, int)>)
    ensures error == PostingErrorFrom(ps, 0)
    ensures error.None? ==> order == AssetOrder(ps) && totals == Totals(ps)
  {
    error, order, totals := None, [], map[];
    for i := 0 to |ps|
      invariant error.None? && PostingErrorFrom(ps, 0) == PostingErrorFrom(ps, i)
      invariant order == AssetOrder(ps[..i]) && totals == Totals(ps[..i])
    {
      var p := ps[i];
      error := PostingError(p);
      if error.Some? {
        return;
      }
      TotalsAreSides(ps[..i], p.assetId);
      assert ps[..i + 1][..i] == ps[..i];
      order := if p.assetId in totals then order else order + [p.assetId];
      totals := WithPosting(totals, p);
    }
    assert ps[..|ps|] == ps;
  }

  /** The second loop: the first asset whose totals differ. */
  method FindUnbalanced(ghost ps: seq<Posting>, order: seq<string>, totals: map<string, (int, int)>)
    returns (assetId: Option<string>)
    requires order == AssetOrder(ps) && totals == Totals(ps)
    ensures assetId == UnbalancedFrom(ps, AssetOrder(ps), 0)
  {
    for j := 0 to |order|
      invariant UnbalancedFrom(ps, order, 0) == UnbalancedFrom(ps, order, j)
    {
      TotalsAreSides(ps, order[j]);
      var total := totals[order[j]];
      if total.0 != total.1 {
        return Some(order[j]);
      }
    }
    return None;
  }
}
