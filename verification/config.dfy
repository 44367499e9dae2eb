/** The requested identifier length (index.js:8): the `length` environment
    variable with a fallback, read by `parseInt`. */
module Config {
  import opened Wrappers
  import opened Text

  /** The fallback text the script uses for the length. */
  const DefaultSetting: string := "16"

  /** The `||` fallback of index.js:8: an unset variable and the empty string
      are falsy, so both fall back to the default; any other text is kept as is. */
  function LengthText(env: Option<string>): (t: string)
    ensures env.None? || env == Some("") ==> t == DefaultSetting
    ensures env.Some? && env.value != "" ==> t == env.value
    ensures t != ""
  {
    if env.None? || env.value == "" then DefaultSetting else env.value
  }

  predicate IsNumeral(t: string) {
    |t| > 0 && forall k :: 0 <= k < |t| ==> IsDigit(t[k])
  }

  function DigitValue(c: char): nat
    requires IsDigit(c)
  {
    c as int - '0' as int
  }

  /** The number a string of decimal digits denotes, most significant first. */
  function DigitsValue(t: string): nat
    requires forall k :: 0 <= k < |t| ==> IsDigit(t[k])
  {
    if t == [] then 0 else 10 * DigitsValue(t[..|t| - 1]) + DigitValue(t[|t| - 1])
  }

  /** `parseInt(t)` on plain decimal numerals; any other text yields no number. */
  function ParseDecimal(t: string): (r: Option<nat>)
    ensures r.Some? <==> IsNumeral(t)
  {
    if IsNumeral(t) then Some(DigitsValue(t)) else None
  }

  /** The decimal numeral of `n`, without leading zeros. */
  function ShowNat(n: nat): (t: string)
    ensures IsNumeral(t)
  {
    if n < 10 then [('0' as int + n) as char]
    else ShowNat(n / 10) + [('0' as int + n % 10) as char]
  }

  /** Parsing reads back the number a numeral was written from. */
  lemma {:induction false} ParseShow(n: nat)
    ensures ParseDecimal(ShowNat(n)) == Some(n)
  {
    var t := ShowNat(n);
    if n >= 10 {
      ParseShow(n / 10);
      assert t[..|t| - 1] == ShowNat(n / 10);
      assert DigitValue(t[|t| - 1]) == n % 10;
      assert DigitsValue(t) == 10 * (n / 10) + n % 10;
    } else {
      assert t[..0] == [];
    }
  }

  /** The length the script asks the random source for. */
  function RequestedLength(env: Option<string>): (r: Option<nat>)
    ensures r.Some? <==> IsNumeral(LengthText(env))
  {
    ParseDecimal(LengthText(env))
  }

  /** An unset or empty setting asks for sixteen symbols. */
  lemma DefaultLength(env: Option<string>)
    requires env.None? || env == Some("")
    ensures RequestedLength(env) == Some(16)
  {
    assert DefaultSetting == ShowNat(16);
    ParseShow(16);
  }

  /** A setting written as a decimal numeral asks for that many symbols, zero
      included. */
  lemma NumeralLength(n: nat)
    ensures RequestedLength(Some(ShowNat(n))) == Some(n)
  {
    ParseShow(n);
  }
}
