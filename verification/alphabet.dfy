/** The 56-symbol alphabet of index.js: eight digits, twenty-four capitals and
    the same twenty-four letters in lower case, with 0, 1, I and O left out. */
module Alphabet {
  import opened Text
  import opened Wrappers

  const Letters24: string := "ABCDEFGHJKLMNPQRSTUVWXYZ"
  const Digits8: string := "23456789"

  /** The alphabet of index.js:5: the digits, the capitals, then the capitals
      lower-cased, joined in that order. */
  const Charset: string := Digits8 + Letters24 + ToLower(Letters24)

  /** The length the script asserts before it does anything else. */
  const AssertedLength: nat := 56

  /** Every character comes strictly after the ones before it. */
  predicate Ascending(s: string) {
    forall j, k :: 0 <= j < k < |s| ==> s[j] < s[k]
  }

  predicate AdjacentAscending(s: string) {
    forall k :: 0 <= k < |s| - 1 ==> s[k] < s[k + 1]
  }

  /** No character occurs twice. */
  predicate Distinct(s: string) {
    forall j, k :: 0 <= j < |s| && 0 <= k < |s| && j != k ==> s[j] != s[k]
  }

  lemma {:induction false} Chain(s: string, j: nat, k: nat)
    requires AdjacentAscending(s)
    requires j < k < |s|
    ensures s[j] < s[k]
    decreases k - j
  {
    if j + 1 < k {
      Chain(s, j + 1, k);
    }
  }

  /** Checking neighbours is enough to know the whole string ascends. */
  lemma AscendingFromAdjacent(s: string)
    requires AdjacentAscending(s)
    ensures Ascending(s)
  {
    forall j, k | 0 <= j < k < |s|
      ensures s[j] < s[k]
    {
      Chain(s, j, k);
    }
  }

  lemma AscendingIsDistinct(s: string)
    requires Ascending(s)
    ensures Distinct(s)
  {
    forall j, k | 0 <= j < |s| && 0 <= k < |s| && j != k
      ensures s[j] != s[k]
    {
      if j < k { assert s[j] < s[k]; } else { assert s[k] < s[j]; }
    }
  }

  /** Gluing two ascending strings, the first wholly below the second, ascends. */
  lemma AscendingAppend(a: string, b: string)
    requires Ascending(a) && Ascending(b)
    requires forall i, j :: 0 <= i < |a| && 0 <= j < |b| ==> a[i] < b[j]
    ensures Ascending(a + b)
  {
    var s := a + b;
    forall j, k | 0 <= j < k < |s|
      ensures s[j] < s[k]
    {
      if k < |a| {
        assert s[j] == a[j] && s[k] == a[k];
      } else if j < |a| {
        assert s[j] == a[j] && s[k] == b[k - |a|];
      } else {
        assert s[j] == b[j - |a|] && s[k] == b[k - |a|];
      }
    }
  }

  /** What the digit literal holds: eight ascending digits, neither 0 nor 1. */
  lemma DigitsLiteral()
    ensures |Digits8| == 8 && AdjacentAscending(Digits8)
    ensures forall k :: 0 <= k < |Digits8| ==> IsDigit(Digits8[k])
    ensures '0' !in Digits8 && '1' !in Digits8
  {
  }

  lemma LettersAscend()
    ensures |Letters24| == 24 && AdjacentAscending(Letters24)
    ensures Letters24[0] == 'A' && Letters24[23] == 'Z'
  {
  }

  /** What the letter literal holds: twenty-four ascending capitals, with L
      and without I and O. */
  lemma LettersLiteral()
    ensures |Letters24| == 24 && AdjacentAscending(Letters24)
    ensures AllUpper(Letters24)
    ensures 'I' !in Letters24 && 'O' !in Letters24 && Letters24[10] == 'L'
  {
    LettersAscend();
    forall k | 0 <= k < 24
      ensures IsUpper(Letters24[k])
    {
      if 0 < k { Chain(Letters24, 0, k); }
      if k < 23 { Chain(Letters24, k, 23); }
    }
  }

  predicate AllUpper(u: string) {
    forall k :: 0 <= k < |u| ==> IsUpper(u[k])
  }

  /** Lower-casing an ascending run of capitals gives an ascending run of small
      letters, and a small letter occurs in it exactly when its capital occurs
      in the run. */
  lemma LowerOfCapitals(u: string)
    requires AllUpper(u) && Ascending(u)
    ensures |ToLower(u)| == |u|
    ensures forall k :: 0 <= k < |u| ==> IsLower(ToLower(u)[k])
    ensures Ascending(ToLower(u))
    ensures forall c :: IsUpper(c) ==> (Lower(c) in ToLower(u) <==> c in u)
  {
    var low := ToLower(u);
    forall j, k | 0 <= j < k < |low|
      ensures low[j] < low[k]
    {
      LowerMonotoneOnCapitals(u[j], u[k]);
    }
    forall c | IsUpper(c)
      ensures Lower(c) in low <==> c in u
    {
      if Lower(c) in low {
        var k :| 0 <= k < |low| && low[k] == Lower(c);
        LowerMonotoneOnCapitals(u[k], c);
      }
      if c in u {
        var k :| 0 <= k < |u| && u[k] == c;
        assert low[k] == Lower(c);
      }
    }
  }

  /** Digits, then capitals, then small letters, each block ascending, make
      one ascending string. */
  lemma BlocksAscending(d: string, u: string, w: string)
    requires Ascending(d) && forall k :: 0 <= k < |d| ==> IsDigit(d[k])
    requires Ascending(u) && AllUpper(u)
    requires Ascending(w) && forall k :: 0 <= k < |w| ==> IsLower(w[k])
    ensures Ascending(d + u + w)
  {
    AscendingAppend(d, u);
    var du := d + u;
    assert forall i :: 0 <= i < |du| ==> du[i] <= 'Z' by {
      forall i | 0 <= i < |du|
        ensures du[i] <= 'Z'
      {
        if i < |d| { assert du[i] == d[i]; } else { assert du[i] == u[i - |d|]; }
      }
    }
    AscendingAppend(du, w);
  }

  /** The length assertion of index.js:6 holds, the alphabet has no
      repeated symbol, and its blocks are 8 digits, 24 capitals and the same 24
      letters in lower case. */
  lemma CharsetShape()
    ensures |Charset| == AssertedLength
    ensures Distinct(Charset)
    ensures forall k :: 0 <= k < 8 ==> IsDigit(Charset[k])
    ensures forall k :: 8 <= k < 32 ==> IsUpper(Charset[k])
    ensures forall k :: 32 <= k < 56 ==> IsLower(Charset[k]) && Charset[k] == Lower(Charset[k - 24])
  {
    CharsetDistinct();
    CharsetBlocks();
  }

  lemma CharsetDistinct()
    ensures |Charset| == AssertedLength && Distinct(Charset)
  {
    DigitsLiteral();
    LettersLiteral();
    AscendingFromAdjacent(Digits8);
    AscendingFromAdjacent(Letters24);
    LowerOfCapitals(Letters24);
    BlocksAscending(Digits8, Letters24, ToLower(Letters24));
    AscendingIsDistinct(Charset);
  }

  lemma CharsetBlocks()
    ensures |Charset| == AssertedLength
    ensures forall k :: 0 <= k < 8 ==> IsDigit(Charset[k])
    ensures forall k :: 8 <= k < 32 ==> IsUpper(Charset[k])
    ensures forall k :: 32 <= k < 56 ==> IsLower(Charset[k]) && Charset[k] == Lower(Charset[k - 24])
  {
    var low := ToLower(Letters24);
    DigitsLiteral();
    LettersLiteral();
    assert forall k :: 0 <= k < 8 ==> Charset[k] == Digits8[k];
    assert forall k :: 8 <= k < 32 ==> Charset[k] == Letters24[k - 8];
    assert forall k :: 32 <= k < 56 ==> Charset[k] == low[k - 32] == Lower(Letters24[k - 32]);
  }

  /** Every symbol is a seven-bit character, so a byte buffer can hold its code. */
  lemma CharsetIsAscii()
    ensures |Charset| == AssertedLength
    ensures forall k :: 0 <= k < |Charset| ==> IsAscii(Charset[k])
  {
    CharsetShape();
  }

  /** The look-alikes 0, 1, I, O, i and o are not in the alphabet. */
  lemma CharsetExcludesLookAlikes(c: char)
    requires c in ['0', '1', 'I', 'O', 'i', 'o']
    ensures c !in Charset
  {
    var low := ToLower(Letters24);
    DigitsLiteral();
    assert c !in Digits8 by {
      forall k | 0 <= k < |Digits8|
        ensures Digits8[k] != c
      {
        assert IsDigit(Digits8[k]);
      }
    }
    LettersLiteral();
    assert c !in Letters24 by {
      forall k | 0 <= k < |Letters24|
        ensures Letters24[k] != c
      {
        assert IsUpper(Letters24[k]);
      }
    }
    SmallLookAlikesNotLowered(c);
    assert Charset == Digits8 + (Letters24 + low);
  }

  lemma SmallLookAlikesNotLowered(c: char)
    requires c in ['0', '1', 'I', 'O', 'i', 'o']
    ensures c !in ToLower(Letters24)
  {
    var low := ToLower(Letters24);
    LettersLiteral();
    AscendingFromAdjacent(Letters24);
    LowerOfCapitals(Letters24);
    assert Lower('I') == 'i' && Lower('O') == 'o';
    forall k | 0 <= k < |low|
      ensures low[k] != c
    {
      assert IsLower(low[k]);
    }
  }

  /** The small letter l, unlike capital I and O, is kept: it is the
      forty-third symbol. */
  lemma CharsetKeepsSmallL()
    ensures |Charset| == AssertedLength && Charset[42] == 'l'
  {
    CharsetShape();
    LettersLiteral();
    assert Charset[42] == Lower(Charset[18]) == Lower(Letters24[10]);
  }

  datatype Error = AlphabetLengthMismatch(actual: nat)

  /** The length assertion of index.js:6: the run stops when the alphabet has
      the wrong length. */
  function CheckLength(cs: string): (r: Result<string, Error>)
    ensures r.Success? <==> |cs| == AssertedLength
    ensures r.Success? ==> r.value == cs
    ensures r.Failure? ==> r.error.actual == |cs|
  {
    if |cs| == AssertedLength then Success(cs) else Failure(AlphabetLengthMismatch(|cs|))
  }

  /** The assertion never fires on the charset the script builds. */
  lemma CharsetPassesCheck()
    ensures CheckLength(Charset) == Success(Charset)
  {
    CharsetShape();
  }
}
