/** How a random byte picks a symbol (index.js:10): the floor of the byte
    times the alphabet length over 256.
    The product is at most 255 * 56 and the divisor is a power of two, so the
    double arithmetic of the script is exact and the expression is the integer
    quotient below. */
module Scaling {
  import opened Buffers
  import opened Alphabet

  /** The index a byte selects in an alphabet of `n` symbols. */
  function Scale(v: Byte, n: nat): (i: nat)
    ensures i * 256 <= v * n < (i + 1) * 256
    ensures n > 0 ==> i < n
  {
    (v * n) / 256
  }

  /** A larger byte never selects an earlier symbol. */
  lemma ScaleMonotone(v: Byte, w: Byte, n: nat)
    requires v <= w
    ensures Scale(v, n) <= Scale(w, n)
  {
    assert v * n <= w * n by {
      assert (w - v) * n >= 0;
    }
  }

  /** The first byte whose index is at least `i` in the 56-symbol alphabet:
      the ceiling of 256 * i / 56. */
  function First(i: nat): nat {
    (256 * i + AssertedLength - 1) / AssertedLength
  }

  /** A byte reaches index `i` exactly when it is at least `First(i)`. */
  lemma ReachesFrom(v: Byte, i: nat)
    ensures Scale(v, AssertedLength) >= i <==> v >= First(i)
  {
    var q := First(i);
    assert q * 56 <= 256 * i + 55 < q * 56 + 56;
  }

  /** The bytes that select index `i`. */
  ghost function Bucket(i: nat): set<int> {
    set v | 0 <= v < 256 && Scale(v, AssertedLength) == i
  }

  /** The integers from `a` up to, not including, `b`. */
  ghost function Interval(a: int, b: int): set<int>
    decreases b - a
  {
    if a < b then {a} + Interval(a + 1, b) else {}
  }

  lemma {:induction false} IntervalMembers(a: int, b: int)
    ensures forall v :: v in Interval(a, b) <==> a <= v < b
    decreases b - a
  {
    if a < b {
      IntervalMembers(a + 1, b);
    }
  }

  lemma {:induction false} IntervalSize(a: int, b: int)
    requires a <= b
    ensures |Interval(a, b)| == b - a
    decreases b - a
  {
    if a < b {
      IntervalSize(a + 1, b);
      IntervalMembers(a + 1, b);
    }
  }

  /** The bucket of index `i` is the run of bytes from `First(i)` up to,
      not including, `First(i + 1)`. */
  lemma BucketIsInterval(i: nat)
    requires i < AssertedLength
    ensures Bucket(i) == Interval(First(i), First(i + 1))
  {
    forall v: int | 0 <= v < 256
      ensures v in Bucket(i) <==> First(i) <= v < First(i + 1)
    {
      ReachesFrom(v, i);
      ReachesFrom(v, i + 1);
    }
    IntervalMembers(First(i), First(i + 1));
    assert First(0) == 0 && First(AssertedLength) == 256;
    assert First(0) <= First(i) && First(i + 1) <= First(AssertedLength);
  }

  /** How many bytes select index `i`: four or five, never fewer, never more. */
  lemma BucketSize(i: nat)
    requires i < AssertedLength
    ensures |Bucket(i)| == First(i + 1) - First(i)
    ensures |Bucket(i)| == 4 || |Bucket(i)| == 5
  {
    BucketIsInterval(i);
    var a, b := First(i), First(i + 1);
    assert a * 56 <= 256 * i + 55 < a * 56 + 56;
    assert b * 56 <= 256 * i + 311 < b * 56 + 56;
    IntervalSize(a, b);
  }

  /** Every one of the 56 symbols can be produced. */
  lemma ScaleOnto(i: nat)
    requires i < AssertedLength
    ensures First(i) < 256 && Scale(First(i), AssertedLength) == i
  {
    BucketSize(i);
    BucketIsInterval(i);
    assert First(i) in Bucket(i);
  }

  /** The indices below `k` whose bucket holds `size` bytes. */
  ghost function IndicesOfSize(k: nat, size: nat): set<int>
    requires k <= AssertedLength
  {
    set i | 0 <= i < k && |Bucket(i)| == size
  }

  /** Extending the prefix by index `j` adds `j` to the class of its bucket
      size and leaves the other classes alone. */
  lemma IndicesStep(j: nat, size: nat)
    requires j < AssertedLength
    ensures j !in IndicesOfSize(j, size)
    ensures |Bucket(j)| == size ==> IndicesOfSize(j + 1, size) == IndicesOfSize(j, size) + {j}
    ensures |Bucket(j)| != size ==> IndicesOfSize(j + 1, size) == IndicesOfSize(j, size)
  {
  }

  lemma {:induction false} PrefixCounts(k: nat)
    requires k <= AssertedLength
    ensures |IndicesOfSize(k, 4)| + |IndicesOfSize(k, 5)| == k
    ensures 4 * |IndicesOfSize(k, 4)| + 5 * |IndicesOfSize(k, 5)| == First(k)
  {
    if k == 0 {
      assert IndicesOfSize(0, 4) == {} && IndicesOfSize(0, 5) == {};
    } else {
      var j := k - 1;
      PrefixCounts(j);
      BucketSize(j);
      IndicesStep(j, 4);
      IndicesStep(j, 5);
    }
  }

  /** The bias of the mapping, exactly: 256 = 56 * 4 + 32, so 32 symbols are
      selected by five byte values each and the other 24 by four. */
  lemma BucketCounts()
    ensures forall i :: 0 <= i < AssertedLength ==> |Bucket(i)| == 4 || |Bucket(i)| == 5
    ensures |IndicesOfSize(AssertedLength, 5)| == 32
    ensures |IndicesOfSize(AssertedLength, 4)| == 24
  {
    forall i | 0 <= i < AssertedLength
      ensures |Bucket(i)| == 4 || |Bucket(i)| == 5
    {
      BucketSize(i);
    }
    PrefixCounts(AssertedLength);
  }
}
