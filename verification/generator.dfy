/** The identifier pipeline of index.js:9-11: map every random byte to the
    code of the symbol it selects, then decode the mapped buffer as a string.
    The random buffer is an argument. */
module Generator {
  import opened Text
  import opened Buffers
  import opened Alphabet
  import opened Scaling

  /** The map callback: the code of the symbol a byte selects. */
  function SymbolCode(v: Byte): (c: Number)
    ensures c.Int? && 0 <= c.n < 128
  {
    CharsetIsAscii();
    CharCodeAt(Charset, Scale(v, |Charset|))
  }

  /** The identifier spelled by a buffer of random bytes. */
  function Generate(bytes: seq<Byte>): (s: string)
    ensures |s| == |bytes|
    ensures forall k :: 0 <= k < |bytes| ==> s[k] == Charset[Scale(bytes[k], AssertedLength)]
    ensures forall k :: 0 <= k < |s| ==> s[k] in Charset
  {
    CharsetIsAscii();
    var codes := MapBuffer(bytes, SymbolCode);
    assert AllAscii(codes);
    Decode(codes)
  }

  /** Output order is byte order: the identifier of a concatenation is the
      concatenation of the identifiers. */
  lemma GenerateAppend(a: seq<Byte>, b: seq<Byte>)
    ensures Generate(a + b) == Generate(a) + Generate(b)
  {
    var s, t := Generate(a + b), Generate(a) + Generate(b);
    assert |s| == |t|;
    forall k | 0 <= k < |s|
      ensures s[k] == t[k]
    {
      if k < |a| {
        assert (a + b)[k] == a[k];
      } else {
        assert (a + b)[k] == b[k - |a|];
      }
    }
  }

  /** Because no symbol repeats, an identifier pins down exactly which bucket
      each byte fell in, and nothing more. */
  lemma GenerateSameBuckets(a: seq<Byte>, b: seq<Byte>)
    ensures Generate(a) == Generate(b) <==>
      |a| == |b| && forall k :: 0 <= k < |a| ==> Scale(a[k], AssertedLength) == Scale(b[k], AssertedLength)
  {
    CharsetShape();
    if Generate(a) == Generate(b) {
      forall k | 0 <= k < |a|
        ensures Scale(a[k], AssertedLength) == Scale(b[k], AssertedLength)
      {
        assert Generate(a)[k] == Generate(b)[k];
      }
    }
    if |a| == |b| && forall k :: 0 <= k < |a| ==> Scale(a[k], AssertedLength) == Scale(b[k], AssertedLength) {
      assert forall k :: 0 <= k < |a| ==> Generate(a)[k] == Generate(b)[k];
    }
  }

  /** A symbol is printed for exactly the bytes of its bucket, so its weight
      among the 256 byte values is four or five. */
  lemma SymbolWeight(i: nat)
    requires i < AssertedLength
    ensures (set v | 0 <= v < 256 && Generate([v]) == [Charset[i]]) == Bucket(i)
    ensures |Bucket(i)| == 4 || |Bucket(i)| == 5
  {
    CharsetShape();
    BucketSize(i);
    forall v | 0 <= v < 256
      ensures Generate([v]) == [Charset[i]] <==> Scale(v, AssertedLength) == i
    {
      assert Generate([v])[0] == Charset[Scale(v, AssertedLength)];
    }
  }

  /** Byte 0 prints the first symbol, byte 255 the last and byte 128 the
      twenty-ninth. */
  lemma GenerateExample()
    ensures Generate([0, 255, 128]) == "2zW"
  {
    var bytes: seq<Byte> := [0, 255, 128];
    var s := Generate(bytes);
    assert Scale(0, AssertedLength) == 0;
    assert Scale(255, AssertedLength) == 55;
    assert Scale(128, AssertedLength) == 28;
    assert Charset[0] == Digits8[0] == '2';
    assert Charset[28] == Letters24[20] == 'W';
    assert Charset[55] == Lower(Letters24[23]) == 'z';
    assert s == [s[0], s[1], s[2]];
  }
}
