# gf256_calc in Dafny

A model of `gf256_calc`, a reverse Polish calculator over the finite field GF(2^8). The
field polynomial is x^8 + x^4 + x^3 + x + 1 (0x11B), the one AES uses.

The program has two parts, and the model follows it in five modules:

- **`Bits`** (`bits.dfy`) gives bitwise exclusive or, and, and shift right on
  unbounded naturals. It defines them by recursion on the binary digits and proves the
  facts the field needs. Among them, two values below 2^k have their exclusive or below
  2^k. `Xor8` is an eight-bit unrolled exclusive or, used to evaluate constants.
- **`GaloisField`** (`field.dfy`) is the field as the source computes it:
  - `Add` is exclusive or;
  - `XTime` is the xtime step of section 4.2.1 of FIPS-197;
  - `Product` is the product written as repeated xtime over the bits of the second
    factor;
  - `Power` is repeated `Product`.

  The field laws are proved from these definitions.
- **`Generator`** (`generator.dfy`) walks the 255 powers of 3 one multiplication at a
  time. This shows that they cover every nonzero byte, and hence that every nonzero byte
  has an inverse.
- **`Gf256`** (`gf256.dfy`) holds the `GF256` value type and its operators.
  - `Gmul` is the eight-round shift-and-reduce loop of `gmul`, proved to compute
    `Product`. Its integers are unbounded; the loop invariant keeps them below 256, so
    the range check after the loop cannot panic.
  - `Ginv` fills a 256-entry array by the same nested brute-force search as `ginv`, and
    is proved to produce inverses.
  - `Inverse` is the table as a function. Division multiplies by it.
  - `FromU8Array` is `from_u8array`.
- **`Calculator`** (`calculator.dfy`) models what `main` does. Standard input is a
  sequence of lines and standard output a string, so the session is a pure function of
  the input.
  - It covers `str::trim`, the split on single spaces, `u8` parsing in radix 10 and 16,
    and `trim_start_matches("0x")`.
  - `Classify` is the order of the `match` arms. `Step` gives the effect of each arm.
  - `Run` gives the effect of a line. `Session` gives the effect of the whole loop.
  - `Apply`, `EvalLine` and `Repl` are the imperative versions: a matched arm, the
    token loop over one line, and the read loop. Each is proved equal to its function.

Two behaviours of the code are modelled as written:

- **Dividing by zero does not fail.** The inverse table is never written at index 0, so
  `b / 0` is `b * 0`, which is 0 (`DivByZero`).
- **An empty line ends the session.** Trimming it leaves "", and splitting "" yields one
  empty token, which matches no arm. The end of input reads as an empty line too
  (`BlankLineQuits`, `OtherLiterals`).

## Model

| member | source | states |
|---|---|---|
| Bits.XorBelow | src/main.rs:46-68 | the exclusive or of two values below 2^k is below 2^k, which is why `r` and the reduced `a` stay below 0x100 |
| GaloisField.Add | src/main.rs:29-31 | `add_by_xor` on the values: the sum of two bytes is their bitwise exclusive or, again a byte (`XorByte`); its laws are `AddZero` to `AddSelf` |
| GaloisField.XTime | src/main.rs:52-60 | the shift-and-reduce step: double `a`, and when bit 7 was set subtract 0x100 and add 0x1b; its properties are `XTimeLinear` and `ProductXTime` |
| GaloisField.Product | src/main.rs:40-71 | the product the multiply loop computes: for each bit of `b`, low bit first, add the current `a` when the bit is set, then advance `a` by xtime; 0 once `b` is 0. `Gmul` is proved equal to it, and the field laws below are proved about it |
| GaloisField.XorByte | src/main.rs:29-31 | `a ^ b` of two bytes is a byte |
| GaloisField.ProductUnfold | src/main.rs:46-63 | one round of the multiply: `a * b` is `a` (when `b` is odd) plus `xtime(a) * (b >> 1)` |
| GaloisField.XTimeLinear | src/main.rs:52-60 | the shift-and-reduce step distributes over exclusive or |
| GaloisField.AddZero | src/main.rs:29-31 | 0 is the identity of addition on both sides |
| GaloisField.AddComm | src/main.rs:29-31 | addition commutes |
| GaloisField.AddAssoc | src/main.rs:29-31 | addition is associative |
| GaloisField.AddSelf | src/main.rs:29-31 | `a + a == 0`: every element is its own negative |
| GaloisField.ProductXTime | src/main.rs:40-71 | multiplying the first factor by x (xtime) multiplies the product by x |
| GaloisField.ProductZeroLeft | src/main.rs:40-71 | `gmul(0, c) == 0`; `gmul(x, 0) == 0` holds by definition, since the loop adds nothing |
| GaloisField.ProductOneLeft | src/main.rs:40-71 | `gmul(1, c) == c` |
| GaloisField.ProductOneRight | src/main.rs:40-71 | `gmul(x, 1) == x` |
| GaloisField.ProductLinearLeft | src/main.rs:40-71 | the product distributes over addition in its first factor |
| GaloisField.ProductLinearRight | src/main.rs:40-71 | the product distributes over addition in its second factor |
| GaloisField.ProductComm | src/main.rs:40-71 | `gmul(a, b) == gmul(b, a)` |
| GaloisField.ProductAssoc | src/main.rs:40-71 | the product is associative |
| GaloisField.AddEval | src/main.rs:29-31 | addition equals the eight-bit unrolled exclusive or |
| GaloisField.ProductThree | src/main.rs:40-71 | `gmul(e, 3) == e ^ xtime(e)` |
| GaloisField.PowerAdd | src/main.rs:40-71 | `g^m * g^n == g^(m+n)` |
| Generator.Generates | src/main.rs:109-114 | `3^255 == 1`, and every nonzero byte is `3^k` for some `k < 255` |
| Generator.InverseExists | src/main.rs:109-114 | every nonzero `i` has a `j` with `gmul(i, j) == 1`, so the inner search of `ginv` always succeeds |
| Gf256.AddByXor | src/main.rs:29-31 | the field element holding `a ^ b` |
| Gf256.GF256.Add | src/main.rs:81-87 | `+` is `add_by_xor` of the two values; its laws are `AddCommutative` to `AddSelfCancels` |
| Gf256.GF256.BitXor | src/main.rs:89-95 | `^` is the same `add_by_xor` (`BitXorIsAdd`) |
| Gf256.GF256.Mul | src/main.rs:73-79 | `*` holds the product of the values, which `gmul` computes (`Gmul`); its laws are `MulCommutative` to `MulDistributes` |
| Gf256.GF256.Div | src/main.rs:124-130 | `/` multiplies by the divisor's table entry `Inverse(rhs)` (`DivUndoesMul`, `DivByZero`, `DivSelf`) |
| Gf256.FindInverse | src/main.rs:109-114 | the first `j` from `from` to 255 with `x * j == 1`, or 0 when there is none (`FindInverseSpec`) |
| Gf256.Inverse | src/main.rs:120-122 | `GINV_TABLE[x]`: the inverse of `x`, and 0 for 0; `GinvTable` ties it to the array `Ginv` fills |
| Gf256.GmulTests | src/main.rs:48-57 | `b & 1 == 1` exactly when `b` is odd, and `a & 0x80 == 0x80` exactly when `a >= 0x80` |
| Gf256.GmulAccumulate | src/main.rs:48-50 | the conditional `r ^= a` adds `a` exactly when bit 0 of `b` is set |
| Gf256.GmulRound | src/main.rs:46-63 | one round preserves "`r` plus `a * b` equals the product asked for" |
| Gf256.Gmul | src/main.rs:40-71 | the loop returns the field product of `x` and `y`; `r` stays below 256, so the panic is unreachable |
| Gf256.FipsExample | src/main.rs:40-71 | the worked example of section 4.2 of FIPS-197: `{57} * {83} == {c1}` |
| Gf256.FindInverseSpec | src/main.rs:109-114 | the search returns 0 when nothing in the range inverts `x`, and otherwise an inverse of `x` in that range |
| Gf256.InverseZero | src/main.rs:104 | entry 0 of the table is 0 |
| Gf256.InverseCorrect | src/main.rs:103-118 | for nonzero `x`, `gmul(x, inv(x)) == 1` |
| Gf256.InverseUnique | src/main.rs:103-118 | whatever inverts `x` is `inv(x)`, and `x` is nonzero |
| Gf256.InversePair | src/main.rs:111-112 | if `x * y == 1` then each is the other's table entry, matching the two writes of the inner loop |
| Gf256.InverseInvolution | src/main.rs:103-118 | `inv(inv(x)) == x` for every byte, 0 included |
| Gf256.Ginv | src/main.rs:103-118 | the array `ginv` fills has entry 0 equal to 0 and `gmul(k, table[k]) == 1` for k in 1..255; the loop invariant shows that the skip at line 106 only passes resolved entries |
| Gf256.GinvTable | src/main.rs:120-122 | a table with those properties is `Inverse` at every index, so `GINV_TABLE` is determined |
| Gf256.GinvInvolution | src/main.rs:103-118 | a table with those properties is an involution: `table[table[k]] == k` |
| Gf256.GF256.BitXorAssign | src/main.rs:97-101 | `^=` leaves the same value as `+` |
| Gf256.BitXorIsAdd | src/main.rs:81-95 | `^` and `+` are the same operation |
| Gf256.AddCommutative | src/main.rs:81-87 | `x + y == y + x` |
| Gf256.AddAssociative | src/main.rs:81-87 | `(x + y) + z == x + (y + z)` |
| Gf256.AddIdentity | src/main.rs:81-87 | `x + 0 == x` and `0 + x == x` |
| Gf256.AddSelfCancels | src/main.rs:81-87 | `x + x == 0` |
| Gf256.MulCommutative | src/main.rs:73-79 | `x * y == y * x` |
| Gf256.MulAssociative | src/main.rs:73-79 | `(x * y) * z == x * (y * z)` |
| Gf256.MulIdentity | src/main.rs:73-79 | `x * 1 == 1 * x == x` and `x * 0 == 0 * x == 0` |
| Gf256.MulDistributes | src/main.rs:73-87 | `x * (y + z) == x * y + x * z` |
| Gf256.DivUndoesMul | src/main.rs:124-130 | for nonzero `a`, `(x * a) / a == x` and `(x / a) * a == x` |
| Gf256.DivByZero | src/main.rs:124-130 | `x / 0` is the zero element, not an error |
| Gf256.DivSelf | src/main.rs:124-130 | `a / a == 1` for nonzero `a` |
| Gf256.FromU8Array | src/main.rs:17-26 | `Err` exactly when the length is not 16; otherwise 16 elements with element i holding `array[i]` |
| Calculator.DigitsValue | src/main.rs:163-167 | the value of a digit string read most significant digit first, `None` if any character is not a digit (`DigitsValueSpec`) |
| Calculator.FromStrRadix | src/main.rs:163-167 | `parse::<u8>` and `u8::from_str_radix`: reject the empty string and a lone `+` or `-`, drop one leading `+`, read the digits, and reject values above 255 (`PlusSign`, `HexRoundTrip`, `DecimalRoundTrip`, `OtherLiterals`) |
| Calculator.DigitValue | src/main.rs:163-167 | a digit's value is below the radix |
| Calculator.DigitsValueSpec | src/main.rs:163-167 | a digit string has a value exactly when every character is a digit of the radix |
| Calculator.PlusSign | src/main.rs:163-167 | one leading `+` does not change what a literal parses to |
| Calculator.HexRoundTrip | src/main.rs:36 | the two-digit lowercase hex form of a byte parses back in radix 16 to the byte |
| Calculator.DecimalRoundTrip | src/main.rs:170-175 | the decimal form of a byte parses back in radix 10 to the byte |
| Calculator.Hex2 | src/main.rs:36 | the hex form of a byte has exactly two characters |
| Calculator.Decimal | src/main.rs:170-175 | the decimal form of a byte has one to three characters |
| Calculator.IsWhiteSpace | src/main.rs:144 | a character has the Unicode White_Space property, the set `trim` removes |
| Calculator.TrimStart | src/main.rs:144 | leading white space dropped (`TrimStartSpec`) |
| Calculator.TrimEnd | src/main.rs:144 | trailing white space dropped (`TrimEndSpec`) |
| Calculator.Trim | src/main.rs:144 | `trim`: white space dropped at both ends (`TrimSpec`) |
| Calculator.TrimStartSpec | src/main.rs:144 | trimming the start removes a whitespace prefix, leaving nothing or a non-whitespace first character |
| Calculator.TrimEndSpec | src/main.rs:144 | trimming the end removes a whitespace suffix, leaving nothing or a non-whitespace last character |
| Calculator.TrimSpec | src/main.rs:144 | the trimmed line is a slice `s[i..j]` of the line, everything outside the slice is white space, and the slice neither starts nor ends with white space |
| Calculator.TrimHexPrefix | src/main.rs:166-167 | `trim_start_matches("0x")`: strip `0x` for as long as the token starts with it |
| Calculator.TrimHexPrefixSpec | src/main.rs:166-167 | the token is some number of `0x` followed by the stripped rest, and the rest does not itself start with `0x` |
| Calculator.Split | src/main.rs:144 | splitting yields at least one piece |
| Calculator.Join | src/main.rs:136-139 | `join(" ")` as the prompt and `_d` use it: the pieces with one separator between neighbours (`JoinSplit`, `SplitJoin`) |
| Calculator.Tokens | src/main.rs:144 | the tokens of a line: the trimmed line split at every single space |
| Calculator.Classify | src/main.rs:147-183 | the arms in source order: `+`/`^`/`-`, then `*`, then `/`, a decimal `u8`, a hex `u8` after stripping `0x`, then `_d` and `_c`; anything else is `Quit` (`DecimalFirst`, `HexLiterals`, `RepeatedHexPrefix`, `OtherLiterals`) |
| Calculator.PopOr | src/main.rs:149-160 | `pop().unwrap_or(d)`: the top and the rest, or `d` and the empty stack |
| Calculator.Step | src/main.rs:148-180 | the stack after each arm (`BinaryOperators`, `LoneOperand`, `LoneDivisor`, `OtherTokens`) |
| Calculator.Decimals | src/main.rs:170-175 | the decimal forms of the stack elements, bottom first |
| Calculator.Printed | src/main.rs:169-177 | `_d` prints `DEC: `, the decimals joined by spaces, and a newline; the other arms print nothing |
| Calculator.Hexes | src/main.rs:135-139 | the two-digit hex forms of the stack elements, bottom first |
| Calculator.Prompt | src/main.rs:135-140 | the stack in hex joined by spaces, then a newline and `> ` |
| Calculator.Run | src/main.rs:146-185 | the tokens applied left to right until the first `Quit`, with what they print (`EvalLine`, `RunAppend`, `QuitDiscardsRest`) |
| Calculator.Session | src/main.rs:134-186 | prompt, read a line (an empty one once input is exhausted), run it, and repeat until a line quits (`Repl`, `SessionRound`) |
| Calculator.JoinSplit | src/main.rs:144 | no piece holds the separator, and joining the pieces gives back the line |
| Calculator.SplitJoin | src/main.rs:144 | splitting the join of separator-free pieces gives back those pieces |
| Calculator.Apply | src/main.rs:147-180 | one matched arm changes the stack and output as `Step` and `Printed` say |
| Calculator.EvalLine | src/main.rs:146-185 | the token loop over a line ends with the stack, output and stop flag that `Run` gives |
| Calculator.RunStep | src/main.rs:146-180 | a token that is not a stop moves its output ahead of the rest of the line |
| Calculator.BlankLineQuits | src/main.rs:143-144 | a line that trims to nothing stops the session, changing nothing |
| Calculator.SessionRound | src/main.rs:134-185 | one round of the main loop either ends the session or continues it with the remaining lines |
| Calculator.Repl | src/main.rs:132-187 | the read loop ends with the stack and transcript that `Session` gives for the input |
| Calculator.BinaryOperators | src/main.rs:148-162 | `+`, `^`, `-`, `*` and `/` pop `a`, then `b`, and push one result on the untouched rest: `a ^ b`, `a * b` or `b / a`, with missing operands 0 (1 for `*`) |
| Calculator.LoneOperand | src/main.rs:148-157 | with one operand, `+` and `*` leave it as it is |
| Calculator.LoneDivisor | src/main.rs:158-162 | with one operand `a`, `/` computes `0 / a`, which is 0 |
| Calculator.OtherTokens | src/main.rs:163-180 | a literal pushes one element; `_d` keeps the stack and prints; `_c` empties it |
| Calculator.RunAppend | src/main.rs:146-185 | running two token lists in turn is running their concatenation, unless the first one stops |
| Calculator.QuitDiscardsRest | src/main.rs:181-183 | a token matching no arm stops the session, and the later tokens on the line are not applied |
| Calculator.DecimalFirst | src/main.rs:163-168 | decimal is tried first: `"170"` pushes 170 and `"10"` pushes 10 |
| Calculator.HexLiterals | src/main.rs:166-168 | `"0xaa"` pushes 170 and `"ff"` pushes 255 |
| Calculator.RepeatedHexPrefix | src/main.rs:166-168 | every leading `0x` is stripped: `"0x0x1f"` pushes 31 |
| Calculator.OtherLiterals | src/main.rs:148-183 | `"+7"` pushes 7; `"-"` is an operator; `"256"`, `"0x"` and the empty token stop the session |
| Calculator.DecimalEcho | src/main.rs:163-175 | every number `_d` prints, typed back, pushes the same element |
| Calculator.HexEcho | src/main.rs:36 | the prompt's two-digit form, typed back with a `0x` prefix, pushes the same element |

## Left out

- Terminal I/O is not modelled as effects: `print!`, `stdout().flush()`, `stdin().read_line` and `println!` (src/main.rs:135-143, 176). Input is a sequence of lines, and output is the string the prompts and `_d` lines make up. A failed read or flush, which panics through `unwrap`, is not modelled.
- The end of input is modelled as reading an empty line, which is what `read_line` leaves in the buffer.
- The `Display` impl and the `Clone`/`Copy`/`Debug` derives (src/main.rs:7, 34-38) are covered only through the strings they produce: `Hex2` for `{:>02x}`, and `Decimal` for `u8::to_string`.
- The one-time, thread-safe initialisation of `lazy_static!` (src/main.rs:120-122) is not modelled. `Div` uses the function `Inverse`, and `GinvTable` shows that the array `Ginv` computes is `Inverse` at every index.
- `GF256::new` (src/main.rs:13-15) is the datatype constructor `GF256`.
- Gmul: the `usize` variables are unbounded integers. The invariant proves them below 256 at every round boundary, so no wrap-around can happen on any target.
- Calculator.FromStrRadix: modelled for radix 10 and 16 only, the two radixes the program uses. An overflow is rejected by a range check on the final value rather than during accumulation; the result is the same.
- Calculator.Classify: the arms that call `gmul` and the table do so through their function models, `Product` and `Inverse`. `Gmul` and `Ginv` are proved to compute them.
- Calculator.IsWhiteSpace: the Unicode White_Space set is listed as code points. No other Unicode processing takes place.
