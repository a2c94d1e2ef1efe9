/**
  Unbiased draws: a stream of 32-bit words hashed from a counter, and rejection of the words that would bias a range.
 */
module RejectionDraw {
  import opened Results

  const WORDS: nat := 0x1_0000_0000

  predicate IsBlock(s: seq<int>) {
    |s| == 8 && forall i :: 0 <= i < 8 ==> 0 <= s[i] < WORDS
  }

  /** The eight words of one digest. */
  type Block = s: seq<int> | IsBlock(s) witness [0, 0, 0, 0, 0, 0, 0, 0]

  /** Words below the limit are accepted: the greatest multiple of `m` in the word range. */
  function Limit(m: nat): nat
    requires m > 0
  {
    (WORDS / m) * m
  }

  /** The accepted words that a draw from `m` values maps to its value number `r`. */
  ghost function Preimages(m: nat, r: nat): set<int>
    requires m > 0
  {
    set w | 0 <= w < Limit(m) && w % m == r
  }

  lemma {:induction false} ResiduesCount(q: nat, m: nat, r: nat)
    requires r < m
    ensures |set w | 0 <= w < q * m && w % m == r| == q
  {
    var now := set w | 0 <= w < q * m && w % m == r;
    if q == 0 {
      assert now == {};
    } else {
      ResiduesCount(q - 1, m, r);
      var before := set w | 0 <= w < (q - 1) * m && w % m == r;
      var last := (q - 1) * m + r;
      assert q * m == (q - 1) * m + m;
      QuotientRest(q - 1, m, r);
      forall w | w in now && w !in before ensures w == last {
        QuotientRest(q - 1, m, w - (q - 1) * m);
      }
      forall w | w in before ensures w in now {
      }
      assert now == before + {last};
    }
  }

  lemma QuotientRest(q: nat, m: nat, x: nat)
    requires x < m
    ensures q * m + x >= 0 && (q * m + x) % m == x
  {
    var n := q * m + x;
    var d := n / m - q;
    assert n == m * (n / m) + n % m;
    assert m * d == x - n % m by {
      assert m * d == m * (n / m) - m * q;
    }
    AwayFromZero(m, d);
  }

  lemma AwayFromZero(m: int, d: int)
    requires m >= 0
    ensures d >= 1 ==> m * d >= m
    ensures d <= -1 ==> m * d <= -m
  {
  }

  /**
    For every range of size `m` up to 2^32, each of its values comes from exactly floor(2^32 / m) accepted words,
    and more than half of all words are accepted.
   */
  lemma DrawsAreUnbiased(m: nat, r: nat)
    requires 1 <= m <= WORDS && r < m
    ensures |Preimages(m, r)| == WORDS / m
    ensures WORDS < 2 * Limit(m) && Limit(m) <= WORDS < Limit(m) + m
  {
    ResiduesCount(WORDS / m, m, r);
    var q := WORDS / m;
    assert WORDS == m * q + WORDS % m;
    assert q >= 1;
    assert q * m >= m;
  }

  /** Beyond 2^32 values nothing is accepted, so a draw uses the stream up and throws. */
  lemma TooManyValues(m: nat)
    requires m > WORDS
    ensures Limit(m) == 0
  {
    assert WORDS / m == 0;
  }

  // ----- the stream -----

  /** The words of a stream: those of each digest in turn, for every counter that four bytes hold. */
  const END: nat := 8 * WORDS

  function WordAt(digest: nat -> Block, k: nat): int {
    digest(k / 8)[k % 8]
  }

  /** Position `j` holds the first accepted word at or after `from`. */
  ghost predicate FirstAccepted(digest: nat -> Block, m: nat, from: nat, j: nat)
    requires m > 0
  {
    && from <= j < END && WordAt(digest, j) < Limit(m)
    && forall k :: from <= k < j ==> WordAt(digest, k) >= Limit(m)
  }

  class RejectionWordStream {
    const digest: nat -> Block
    var counter: nat
    var words: seq<int>

    constructor (digest: nat -> Block)
      ensures Valid() && Position() == 0 && this.digest == digest
    {
      this.digest := digest;
      counter, words := 0, [];
    }

    /** The words at hand are the rest of the latest digest. */
    ghost predicate Valid()
      reads this
    {
      && |words| <= 8
      && (counter == 0 || counter > WORDS ==> words == [])
      && (words != [] ==> words == digest(counter - 1)[8 - |words|..])
    }

    /** How many words of the stream have been used. */
    ghost function Position(): nat
      requires Valid()
      reads this
    {
      if counter > WORDS then END else 8 * counter - |words|
    }

    /** Uses one word, or throws when four bytes no longer hold the counter. */
    method Next() returns (r: Result<int>)
      requires Valid()
      modifies this
      ensures Valid()
      ensures r == if old(Position()) < END then Ok(WordAt(digest, old(Position()))) else Err("ERR_OUT_OF_RANGE")
      ensures Position() == if old(Position()) < END then old(Position()) + 1 else END
    {
      ghost var at := Position();
      if |words| == 0 {
        counter := counter + 1;
        if counter > WORDS {
          return Err("ERR_OUT_OF_RANGE");
        }
        words := digest(counter - 1);
      }
      assert at / 8 == counter - 1 && at % 8 == 8 - |words|;
      assert words[0] == digest(counter - 1)[8 - |words|];
      r := Ok(words[0]);
      words := words[1..];
    }

    /**
      Draws from min to max: the first accepted word from here on decides, every word up to it is used up, and
      the draw throws exactly when the rest of the stream has no accepted word.
     */
    method Draw(min: int, max: int) returns (r: Result<int>)
      requires Valid() && min <= max
      modifies this
      ensures Valid()
      ensures r.Ok? ==> Position() > 0 && FirstAccepted(digest, max - min + 1, old(Position()), Position() - 1)
                        && r.value == min + WordAt(digest, Position() - 1) % (max - min + 1)
                        && min <= r.value <= max
      ensures r.Err? ==> Position() == END && forall k :: old(Position()) <= k < END ==>
              WordAt(digest, k) >= Limit(max - min + 1)
    {
      var m := max - min + 1;
      var limit := WORDS / m * m;
      ghost var from := Position();
      while true
        invariant Valid() && from <= Position()
        invariant forall k :: from <= k < Position() ==> WordAt(digest, k) >= limit
        decreases END - Position()
      {
        var next := Next();
        if next.Err? {
          return next;
        }
        if next.value < limit {
          return Ok(min + next.value % m);
        }
      }
    }
  }
}
