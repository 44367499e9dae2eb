/** The whole of index.js: check the alphabet, read the length setting, draw
    that many random bytes and spell them out. The random source and the
    environment are arguments; printing the result is left to the caller. */
module IndexScript {
  import opened Wrappers
  import opened Buffers
  import opened Alphabet
  import opened Scaling
  import opened Generator
  import opened Config

  /** Why a run stops without printing an identifier. */
  datatype RunError =
    | AlphabetMismatch(actual: nat)    // `assert.equal` throws
    | LengthNotNumeric(setting: string) // no number to pass; `crypto.randomBytes` throws
    | EntropyExhausted(requested: nat)  // the random source cannot deliver

  /** `crypto.randomBytes(n)` over a source that can deliver the bytes of
      `entropy`, in order: the first `n` of them, or nothing at all. */
  function RandomBytes(n: nat, entropy: seq<Byte>): (r: Option<seq<Byte>>)
    ensures r.Some? <==> n <= |entropy|
    ensures r.Some? ==> |r.value| == n && r.value <= entropy
  {
    if n <= |entropy| then Some(entropy[..n]) else None
  }

  function Run(env: Option<string>, entropy: seq<Byte>): (r: Result<string, RunError>)
    ensures RequestedLength(env).None? ==> r == Failure(LengthNotNumeric(LengthText(env)))
    ensures RequestedLength(env).Some? && |entropy| < RequestedLength(env).value ==>
      r == Failure(EntropyExhausted(RequestedLength(env).value))
    ensures r.Success? <==> RequestedLength(env).Some? && RequestedLength(env).value <= |entropy|
    ensures r.Success? ==> |r.value| == RequestedLength(env).value
    ensures r.Success? ==> forall k :: 0 <= k < |r.value| ==>
      r.value[k] == Charset[Scale(entropy[k], AssertedLength)]
  {
    CharsetPassesCheck();
    match CheckLength(Charset)
    case Failure(e) => Failure(AlphabetMismatch(e.actual))
    case Success(cs) =>
      match RequestedLength(env)
      case None => Failure(LengthNotNumeric(LengthText(env)))
      case Some(n) =>
        match RandomBytes(n, entropy)
        case None => Failure(EntropyExhausted(n))
        case Some(bytes) => Success(Generate(bytes))
  }

  /** With the variable unset or empty the script prints sixteen symbols drawn from the
      first sixteen random bytes. */
  lemma RunDefault(env: Option<string>, entropy: seq<Byte>)
    requires env.None? || env == Some("")
    requires 16 <= |entropy|
    ensures Run(env, entropy) == Success(Generate(entropy[..16]))
  {
    DefaultLength(env);
  }

  /** A length of zero prints the empty string. */
  lemma RunZero(entropy: seq<Byte>)
    ensures Run(Some("0"), entropy) == Success("")
  {
    assert ShowNat(0) == "0";
    NumeralLength(0);
  }
}
