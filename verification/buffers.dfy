/** The parts of JavaScript and Node the script leans on: numbers that may be
    NaN, `String.prototype.charCodeAt`, `Buffer.prototype.map` and the UTF-8
    `Buffer.prototype.toString` on seven-bit data. */
module Buffers {
  import opened Text

  /** One element of a Node `Buffer`. */
  type Byte = v: int | 0 <= v < 256

  /** The integer-or-NaN numbers the map callback can return. */
  datatype Number = NaN | Int(n: int)

  /** `charCodeAt`: the code point at `i`, which is its UTF-16 code unit on
      ASCII text, or NaN past either end. */
  function CharCodeAt(s: string, i: int): (r: Number)
    ensures r.Int? <==> 0 <= i < |s|
    ensures r.Int? ==> r.n == s[i] as int
  {
    if 0 <= i < |s| then Int(s[i] as int) else NaN
  }

  /** ECMAScript's ToUint8, applied when a number is stored into a byte buffer:
      NaN becomes 0 and an integer is reduced modulo 256. */
  function ToUint8(x: Number): (b: Byte)
    ensures x.NaN? ==> b == 0
    ensures x.Int? ==> (x.n - b) % 256 == 0
    ensures x.Int? && 0 <= x.n < 256 ==> b == x.n
  {
    match x
    case NaN => 0
    case Int(n) => n % 256
  }

  /** `buf.map(f)`: a new buffer of the same length whose elements are the
      callback's results squeezed into bytes. */
  function MapBuffer(buf: seq<Byte>, f: Byte -> Number): (r: seq<Byte>)
    ensures |r| == |buf|
    ensures forall k :: 0 <= k < |buf| ==> r[k] == ToUint8(f(buf[k]))
  {
    if buf == [] then [] else [ToUint8(f(buf[0]))] + MapBuffer(buf[1..], f)
  }

  predicate AllAscii(buf: seq<Byte>) {
    forall k :: 0 <= k < |buf| ==> buf[k] < 128
  }

  /** `buf.toString()` on a buffer of seven-bit bytes: UTF-8 decodes each byte
      to the character with that code. */
  function Decode(buf: seq<Byte>): (s: string)
    requires AllAscii(buf)
    ensures |s| == |buf|
    ensures forall k :: 0 <= k < |buf| ==> s[k] as int == buf[k] && IsAscii(s[k])
  {
    if buf == [] then [] else [buf[0] as char] + Decode(buf[1..])
  }

  /** `Buffer.from(s)` on a seven-bit string: one byte per character. */
  function Encode(s: string): (buf: seq<Byte>)
    requires forall k :: 0 <= k < |s| ==> IsAscii(s[k])
    ensures AllAscii(buf)
    ensures |buf| == |s|
    ensures forall k :: 0 <= k < |s| ==> buf[k] == s[k] as int
  {
    if s == [] then [] else
      assert IsAscii(s[0]);
      var b: Byte := s[0] as int;
      [b] + Encode(s[1..])
  }

  /** Decoding undoes encoding on seven-bit strings ... */
  lemma DecodeEncode(s: string)
    requires forall k :: 0 <= k < |s| ==> IsAscii(s[k])
    ensures Decode(Encode(s)) == s
  {
    var t := Decode(Encode(s));
    assert |t| == |s|;
    forall k | 0 <= k < |s|
      ensures t[k] == s[k]
    {
      assert t[k] as int == s[k] as int;
    }
  }

  /** ... and encoding undoes decoding on seven-bit buffers. */
  lemma EncodeDecode(buf: seq<Byte>)
    requires AllAscii(buf)
    ensures Encode(Decode(buf)) == buf
  {
  }
}
