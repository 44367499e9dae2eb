# secret-base56 in Dafny

secret-base56 is a one-file Node script. It prints a random identifier drawn
from a 56-symbol alphabet that avoids look-alike characters. The alphabet is
the eight digits `2`–`9`, twenty-four capitals without `I` and `O`, and the
same capitals in lower case. The script asks `crypto.randomBytes` for
`length` bytes, sixteen by default. It maps every byte `v` to the symbol at
`floor(v * 56 / 256)`. The resulting byte buffer is turned into a string.

The repository holds the script twice: `index.js` and `src/index.js`. They
differ only in identifier names and line layout. This model follows
`index.js` and proves the `src/index.js` copy equivalent to it.

Modules (one file each):

- `Text` (`text.dfy`): character classes and the ASCII part of `toLowerCase`.
- `Alphabet` (`alphabet.dfy`): `Letters24`, `Digits8`, `Charset`, and the
  length assertion of index.js:6.
- `Buffers` (`buffers.dfy`): byte buffers. This covers NaN-or-integer numbers,
  `charCodeAt`, `Buffer.prototype.map` with its ToUint8 store, and
  `Buffer.prototype.toString` on seven-bit data.
- `Scaling` (`scaling.dfy`): the byte-to-index scaling, and the exact size of
  the set of bytes that picks each index.
- `Generator` (`generator.dfy`): the byte-buffer-to-identifier pipeline.
- `Config` (`config.dfy`): the length setting of index.js:8, with its
  fallback and its `parseInt`.
- `IndexScript` (`index_script.dfy`) and `SrcScript` (`src_script.dfy`): the
  two scripts end to end.
- `Wrappers` (`wrappers.dfy`): `Option` and `Result`.

The random source and the environment variable are arguments. `entropy` is
the sequence of bytes the source can deliver. `RandomBytes(n, entropy)`
takes the first `n` bytes, or fails when there are fewer. The script computes
`v * 56 / 256` in doubles. The product is at most 14280 and the divisor is a
power of two, so the result is exact. The model therefore uses the integer
quotient `(v * 56) / 256`.

Two behaviours of the code are easy to misread:

- The comment at index.js:4 names `l` as a possible look-alike, but the code
  keeps it: `l` is the 43rd symbol (`Alphabet.CharsetKeepsSmallL`). Only `0`,
  `1`, `I`, `O`, `i` and `o` are proved absent.
- Only an unset or empty variable falls back to 16 (the `||`). Other text
  reaches `parseInt`, and NaN makes `crypto.randomBytes` throw. The model
  reports this as `LengthNotNumeric`.

## Model

| member | source | states |
|---|---|---|
| Text.Lower | index.js:5 | A capital gains 32 and becomes a small letter; any other character is unchanged. |
| Alphabet.CharsetShape | index.js:3-6 | The joined charset has exactly 56 symbols, so the assertion holds. No symbol repeats. Positions 0–7 are digits and 8–31 are capitals. Position 32+k is the lower-case form of position 8+k. |
| Alphabet.CharsetExcludesLookAlikes | index.js:3-4 | None of `0`, `1`, `I`, `O`, `i`, `o` is in the charset. |
| Alphabet.CharsetKeepsSmallL | index.js:4-5 | Small `l` is in the charset, at position 42. |
| Alphabet.CharsetIsAscii | index.js:10-11 | Every symbol has a code below 128. A byte buffer therefore holds each code unchanged, and UTF-8 decodes it back to one character. |
| Alphabet.CheckLength | index.js:6 | The length assertion passes exactly when the alphabet has 56 symbols. On failure it reports the actual length. |
| Alphabet.CharsetPassesCheck | index.js:5-6 | The length assertion never fires on the charset the script builds. |
| Buffers.CharCodeAt | index.js:10 | `charCodeAt` returns a number exactly for in-range positions, namely that character's code. Past either end it returns NaN. |
| Buffers.ToUint8 | index.js:10 | A value stored into the mapped buffer becomes a byte. NaN becomes 0. An integer keeps its residue mod 256 and is unchanged when already in 0..255. |
| Buffers.MapBuffer | index.js:9-10 | `Buffer.map` keeps the length. Element k is the callback's result on byte k, stored as a byte. |
| Buffers.Decode | index.js:11 | `toString` on seven-bit bytes yields one ASCII character per byte, carrying that byte's code. |
| Buffers.DecodeEncode | index.js:11 | Decoding the UTF-8 bytes of a seven-bit string gives back the string. |
| Buffers.EncodeDecode | index.js:11 | Encoding a decoded seven-bit buffer gives back the buffer. |
| Scaling.Scale | index.js:10 | The index is the floor of v·n/256: index·256 ≤ v·n < (index+1)·256. So it lies in [0, n) and `charCodeAt` is never out of range. |
| Scaling.ScaleMonotone | index.js:10 | A larger byte never selects an earlier symbol. |
| Scaling.ReachesFrom | index.js:10 | A byte's index is at least i exactly when the byte is at least ⌈256·i/56⌉. |
| Scaling.BucketIsInterval | index.js:10 | The bytes that pick index i form one contiguous run, from ⌈256·i/56⌉ up to ⌈256·(i+1)/56⌉. |
| Scaling.BucketSize | index.js:10 | Each index is picked by exactly four or five byte values. |
| Scaling.ScaleOnto | index.js:10 | Every index 0..55 is picked by some byte, so every symbol can appear. |
| Scaling.BucketCounts | index.js:10 | The bias is exact: 32 indices are picked by five byte values and 24 by four. |
| Generator.SymbolCode | index.js:10 | The map callback always returns a number, never NaN, and it is a seven-bit code. |
| Generator.Generate | index.js:9-11 | The identifier has one character per random byte. Character k is the charset symbol at index floor(b[k]·56/256), so every character is in the charset. |
| Generator.GenerateAppend | index.js:9-11 | Output order follows byte order: the identifier of a+b is the identifier of a followed by that of b. |
| Generator.GenerateSameBuckets | index.js:10 | Two byte buffers give the same identifier if and only if they have the same length and the same index at every position. |
| Generator.SymbolWeight | index.js:10 | Symbol i is printed for exactly the bytes of bucket i, which holds four or five of the 256 values. |
| Generator.GenerateExample | index.js:10 | Bytes [0, 255, 128] print "2zW": the first symbol, the last symbol, then the 29th symbol. |
| Config.LengthText | index.js:8 | An unset or empty variable is falsy and becomes "16". Any other text is kept as it is. |
| Config.ParseDecimal | index.js:8 | `parseInt` yields a number exactly when the text is a non-empty run of decimal digits. |
| Config.ParseShow | index.js:8 | Parsing the decimal numeral of n gives back n. |
| Config.RequestedLength | index.js:8 | The requested length exists exactly when the setting, after defaulting, is a decimal numeral. |
| Config.DefaultLength | index.js:8 | An unset or empty setting requests 16 symbols. |
| Config.NumeralLength | index.js:8 | A setting written as the numeral of n requests n symbols, zero included. |
| IndexScript.RandomBytes | index.js:9 | The random source delivers exactly n bytes, namely the first n it has, or fails when it has fewer. |
| IndexScript.Run | index.js:5-11 | A run succeeds exactly when the length parses and the source has enough bytes. On success the output has the requested length and follows the byte-to-symbol rule. An unparsable setting or a short source gives the matching failure. |
| IndexScript.RunDefault | index.js:8-11 | With the variable unset or empty, a run prints the identifier of the first sixteen random bytes. |
| IndexScript.RunZero | index.js:8-11 | A length of "0" prints the empty string without error. |
| SrcScript.SymbolsIsCharset | src/index.js:3-6 | `Symbols` equals the index.js charset. It has 56 distinct symbols. |
| SrcScript.SymbolCode | src/index.js:8 | The src/index.js callback never returns NaN and always returns a seven-bit code. |
| SrcScript.Run | src/index.js:5-8 | A run succeeds exactly when the length parses and the source has enough bytes. The output has the requested length, and character k is `Symbols[floor(b[k]·56/256)]`. |
| SrcScript.RunAgrees | src/index.js:3-8 | For every setting and every random source, src/index.js prints the same identifier, or fails the same way, as index.js. |

## Left out

- `crypto.randomBytes` is an argument: the bytes the source can deliver.
  Its randomness is not modelled. Its upper limit on `size` (2^31 − 1) is not
  modelled either.
- Config.ParseDecimal: only plain decimal numerals are modelled. Real
  `parseInt` also skips leading white space, takes a sign and a `0x` prefix,
  and reads a digit prefix such as the `12` of `"12abc"`. All such texts are
  reported as `LengthNotNumeric` here. That includes negative numbers, on
  which `crypto.randomBytes` also throws.
- Config.RequestedLength, IndexScript.Run and SrcScript.Run inherit that
  restriction. For example, `length=12abc` makes either script print 12
  symbols, while the model reports `LengthNotNumeric`.
- Buffers.Decode: requires seven-bit bytes. UTF-8 decoding of bytes 128–255
  (multi-byte sequences, replacement characters) is not modelled.
  `Alphabet.CharsetIsAscii` and `Generator.SymbolCode` show such bytes never
  occur.
- Buffers.CharCodeAt: returns the code point of a character. For characters
  above U+FFFF, JavaScript returns the two UTF-16 surrogate halves instead,
  at two positions. Only the ASCII charset reaches this function.
- Text.Lower: only the ASCII capitals are lower-cased. Full Unicode case
  mapping is not modelled, and the alphabet has no other letters.
- `console.log`, the trailing newline and the process exit status are I/O and
  are not modelled. So is the message an uncaught exception prints.
- The frequency of symbols over many samples is statistical. The model proves
  the exact bucket sizes that determine it instead (`Scaling.BucketCounts`).
