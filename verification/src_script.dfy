/** src/index.js: the same script with its own names (`Letters24`, `Digits8`,
    `Symbols`) and the pipeline on one line. */
module SrcScript {
  import opened Wrappers
  import opened Text
  import opened Buffers
  import Alphabet
  import opened Scaling
  import opened Config
  import IndexScript

  const Letters24: string := "ABCDEFGHJKLMNPQRSTUVWXYZ"
  const Digits8: string := "23456789"

  /** The alphabet of src/index.js:5: the digits, the capitals, then the
      capitals lower-cased, joined in that order. */
  const Symbols: string := Digits8 + Letters24 + ToLower(Letters24)

  /** The two copies build the same alphabet, so everything proved of one
      holds of the other. */
  lemma SymbolsIsCharset()
    ensures Symbols == Alphabet.Charset
    ensures |Symbols| == Alphabet.AssertedLength && Alphabet.Distinct(Symbols)
  {
    Alphabet.CharsetShape();
  }

  /** The map callback of src/index.js:8: the code of the symbol a byte selects. */
  function SymbolCode(v: Byte): (c: Number)
    ensures c.Int? && 0 <= c.n < 128
  {
    SymbolsIsCharset();
    Alphabet.CharsetIsAscii();
    CharCodeAt(Symbols, Scale(v, |Symbols|))
  }

  function Run(env: Option<string>, entropy: seq<Byte>): (r: Result<string, IndexScript.RunError>)
    ensures r.Success? <==> RequestedLength(env).Some? && RequestedLength(env).value <= |entropy|
    ensures r.Success? ==> |r.value| == RequestedLength(env).value
    ensures r.Success? ==> forall k :: 0 <= k < |r.value| ==>
      r.value[k] == Symbols[Scale(entropy[k], |Symbols|)]
  {
    SymbolsIsCharset();
    match Alphabet.CheckLength(Symbols)
    case Failure(e) => Failure(IndexScript.AlphabetMismatch(e.actual))
    case Success(cs) =>
      match RequestedLength(env)
      case None => Failure(IndexScript.LengthNotNumeric(LengthText(env)))
      case Some(n) =>
        match IndexScript.RandomBytes(n, entropy)
        case None => Failure(IndexScript.EntropyExhausted(n))
        case Some(bytes) =>
          var codes := MapBuffer(bytes, SymbolCode);
          assert AllAscii(codes);
          var out := Decode(codes);
          assert forall k :: 0 <= k < |out| ==> out[k] as int == Symbols[Scale(bytes[k], |Symbols|)] as int;
          Success(out)
  }

  /** The two scripts print the same identifier, or fail the same way, for
      every setting and every random source. */
  lemma RunAgrees(env: Option<string>, entropy: seq<Byte>)
    ensures Run(env, entropy) == IndexScript.Run(env, entropy)
  {
    SymbolsIsCharset();
    var r, q := Run(env, entropy), IndexScript.Run(env, entropy);
    if r.Success? {
      var s, t := r.value, q.value;
      assert |s| == |t|;
      forall k | 0 <= k < |s|
        ensures s[k] == t[k]
      {
      }
      assert s == t;
    }
  }
}
