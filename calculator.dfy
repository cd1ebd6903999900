/**
 * The reverse Polish calculator of src/main.rs: each input line is trimmed and split on
 * single spaces, and every token acts on a stack of field elements until a token that
 * matches nothing ends the session.
 */
module Calculator {
  import opened GaloisField
  import opened Gf256

  datatype Option<T> = None | Some(value: T)

  // ---------------------------------------------------------------------------------
  // Integer parsing as `u8::from_str_radix` does it (radix 10 and 16 only)
  // ---------------------------------------------------------------------------------

  /** `char::to_digit`: the value of one digit, letters in either case for radix 16. */
  function DigitValue(c: char, radix: nat): (d: Option<nat>)
    requires radix == 10 || radix == 16
    ensures d.Some? ==> d.value < radix
  {
    if '0' <= c <= '9' then Some(c as int - '0' as int)
    else if radix == 16 && 'a' <= c <= 'f' then Some(c as int - 'a' as int + 10)
    else if radix == 16 && 'A' <= c <= 'F' then Some(c as int - 'A' as int + 10)
    else None
  }

  /** The value of a digit string, most significant digit first; `None` on a non-digit. */
  function DigitsValue(ds: string, radix: nat): Option<nat>
    requires radix == 10 || radix == 16
  {
    if |ds| == 0 then Some(0)
    else match DigitsValue(ds[..|ds| - 1], radix)
      case None => None
      case Some(high) =>
        match DigitValue(ds[|ds| - 1], radix)
        case None => None
        case Some(low) => Some(high * radix + low)
  }

  /**
   * `u8::from_str_radix`: an empty string, a lone sign, a non-digit or a value above 255
   * is an error; one leading `+` is allowed. A leading `-` is kept as a digit and so
   * rejected, since `u8` is unsigned. `str::parse::<u8>` is radix 10.
   */
  function FromStrRadix(s: string, radix: nat): Option<Byte>
    requires radix == 10 || radix == 16
  {
    if |s| == 0 then None
    else if (s[0] == '+' || s[0] == '-') && |s| == 1 then None
    else
      var digits := if s[0] == '+' then s[1..] else s;
      match DigitsValue(digits, radix)
      case None => None
      case Some(v) => if v <= 255 then Some(v) else None
  }

  /** A valid digit string spells a value by its digits, and anything else is rejected. */
  lemma {:induction false} DigitsValueSpec(ds: string, radix: nat)
    requires radix == 10 || radix == 16
    ensures DigitsValue(ds, radix).Some? <==> forall k :: 0 <= k < |ds| ==> DigitValue(ds[k], radix).Some?
    decreases |ds|
  {
    if |ds| > 0 {
      var init := ds[..|ds| - 1];
      DigitsValueSpec(init, radix);
      assert forall k :: 0 <= k < |init| ==> init[k] == ds[k];
    }
  }

  /** A single leading `+` does not change the value. */
  lemma PlusSign(ds: string, radix: nat)
    requires radix == 10 || radix == 16
    requires |ds| > 0 && ds[0] != '+'
    ensures FromStrRadix(['+'] + ds, radix) == FromStrRadix(ds, radix)
  {
    assert (['+'] + ds)[1..] == ds;
    if ds[0] == '-' {
      DigitsValueSpec(ds, radix);
      assert !DigitValue(ds[0], radix).Some?;
    }
  }

  // ---------------------------------------------------------------------------------
  // Rendering: `{:>02x}` and `u8::to_string`
  // ---------------------------------------------------------------------------------

  function HexChar(d: nat): char
    requires d < 16
  {
    if d < 10 then ('0' as int + d) as char else ('a' as int + d - 10) as char
  }

  /** Two lower-case hexadecimal digits, zero-padded, as the prompt shows an element. */
  function Hex2(v: Byte): (s: string)
    ensures |s| == 2
  {
    [HexChar(v / 16), HexChar(v % 16)]
  }

  function DecimalChar(d: nat): char
    requires d < 10
  {
    ('0' as int + d) as char
  }

  /** The decimal form of a byte without leading zeros, as `_d` prints it. */
  function Decimal(v: Byte): (s: string)
    ensures 1 <= |s| <= 3
  {
    if v < 10 then [DecimalChar(v)]
    else if v < 100 then [DecimalChar(v / 10), DecimalChar(v % 10)]
    else [DecimalChar(v / 100), DecimalChar(v / 10 % 10), DecimalChar(v % 10)]
  }

  lemma HexCharValue(d: nat)
    requires d < 16
    ensures DigitValue(HexChar(d), 16) == Some(d)
  {}

  lemma DecimalCharValue(d: nat, radix: nat)
    requires d < 10 && (radix == 10 || radix == 16)
    ensures DigitValue(DecimalChar(d), radix) == Some(d)
  {}

  /** The prompt's two-digit form reads back as the same byte in radix 16. */
  lemma HexRoundTrip(v: Byte)
    ensures FromStrRadix(Hex2(v), 16) == Some(v)
  {
    var s := Hex2(v);
    HexCharValue(v / 16);
    HexCharValue(v % 16);
    assert s[..1][..0] == [];
    assert DigitsValue(s[..1], 16) == Some(v / 16);
    assert s[..|s| - 1] == s[..1];
    assert DigitsValue(s, 16) == Some(v / 16 * 16 + v % 16);
  }

  /** The `_d` form reads back as the same byte in radix 10. */
  lemma DecimalRoundTrip(v: Byte)
    ensures FromStrRadix(Decimal(v), 10) == Some(v)
  {
    var s := Decimal(v);
    if v < 10 {
      DecimalCharValue(v, 10);
      assert s[..0] == [];
      assert DigitsValue(s, 10) == Some(v);
    } else if v < 100 {
      DecimalCharValue(v / 10, 10);
      DecimalCharValue(v % 10, 10);
      assert s[..1][..0] == [];
      assert DigitsValue(s[..1], 10) == Some(v / 10);
      assert s[..|s| - 1] == s[..1];
      assert DigitsValue(s, 10) == Some(v / 10 * 10 + v % 10);
    } else {
      DecimalCharValue(v / 100, 10);
      DecimalCharValue(v / 10 % 10, 10);
      DecimalCharValue(v % 10, 10);
      assert s[..1][..0] == [];
      assert DigitsValue(s[..1], 10) == Some(v / 100);
      assert s[..2][..1] == s[..1];
      assert DigitsValue(s[..2], 10) == Some(v / 100 * 10 + v / 10 % 10);
      assert s[..|s| - 1] == s[..2];
      assert DigitsValue(s, 10) == Some((v / 100 * 10 + v / 10 % 10) * 10 + v % 10);
    }
  }

  // ---------------------------------------------------------------------------------
  // `trim`, `trim_start_matches("0x")`, `split(" ")` and `join(" ")`
  // ---------------------------------------------------------------------------------

  /** The Unicode White_Space property, which `str::trim` strips. */
  predicate IsWhiteSpace(c: char)
  {
    ('\t' <= c <= '\r') || c == ' ' || c == '\U{85}' || c == '\U{A0}' || c == '\U{1680}'
    || ('\U{2000}' <= c <= '\U{200A}') || c == '\U{2028}' || c == '\U{2029}'
    || c == '\U{202F}' || c == '\U{205F}' || c == '\U{3000}'
  }

  function TrimStart(s: string): string
  {
    if |s| > 0 && IsWhiteSpace(s[0]) then TrimStart(s[1..]) else s
  }

  function TrimEnd(s: string): string
  {
    if |s| > 0 && IsWhiteSpace(s[|s| - 1]) then TrimEnd(s[..|s| - 1]) else s
  }

  /** `str::trim`: white space removed from both ends. */
  function Trim(s: string): string
  {
    TrimEnd(TrimStart(s))
  }

  lemma {:induction false} TrimStartSpec(s: string)
    ensures var t := TrimStart(s);
      |t| <= |s| && t == s[|s| - |t|..]
      && (forall k :: 0 <= k < |s| - |t| ==> IsWhiteSpace(s[k]))
      && (|t| > 0 ==> !IsWhiteSpace(t[0]))
  {
    if |s| > 0 && IsWhiteSpace(s[0]) {
      TrimStartSpec(s[1..]);
    }
  }

  lemma {:induction false} TrimEndSpec(s: string)
    ensures var t := TrimEnd(s);
      |t| <= |s| && t == s[..|t|]
      && (forall k :: |t| <= k < |s| ==> IsWhiteSpace(s[k]))
      && (|t| > 0 ==> !IsWhiteSpace(t[|t| - 1]))
  {
    if |s| > 0 && IsWhiteSpace(s[|s| - 1]) {
      TrimEndSpec(s[..|s| - 1]);
    }
  }

  /**
   * `trim` keeps a middle slice `s[i..j]` and removes only white space around it; what
   * is left neither starts nor ends with white space.
   */
  lemma TrimSpec(s: string) returns (i: nat, j: nat)
    ensures i <= j <= |s| && Trim(s) == s[i..j]
    ensures forall k :: 0 <= k < i || j <= k < |s| ==> IsWhiteSpace(s[k])
    ensures |Trim(s)| > 0 ==> !IsWhiteSpace(Trim(s)[0]) && !IsWhiteSpace(Trim(s)[|Trim(s)| - 1])
  {
    var t := TrimStart(s);
    TrimStartSpec(s);
    TrimEndSpec(t);
    i := |s| - |t|;
    j := i + |TrimEnd(t)|;
  }

  /** `trim_start_matches("0x")`: every leading `0x`, repeated, removed. */
  function TrimHexPrefix(s: string): string
    decreases |s|
  {
    if |s| >= 2 && s[0] == '0' && s[1] == 'x' then TrimHexPrefix(s[2..]) else s
  }

  function RepeatHexPrefix(n: nat): string
  {
    if n == 0 then "" else "0x" + RepeatHexPrefix(n - 1)
  }

  lemma {:induction false} TrimHexPrefixSpec(s: string) returns (n: nat)
    ensures s == RepeatHexPrefix(n) + TrimHexPrefix(s)
    ensures var t := TrimHexPrefix(s); !(|t| >= 2 && t[0] == '0' && t[1] == 'x')
    decreases |s|
  {
    if |s| >= 2 && s[0] == '0' && s[1] == 'x' {
      var m := TrimHexPrefixSpec(s[2..]);
      n := m + 1;
      assert s == "0x" + s[2..];
    } else {
      n := 0;
    }
  }

  /** `str::split(c)`: the pieces between separators, empty ones included. */
  function Split(s: string, sep: char): (pieces: seq<string>)
    ensures |pieces| >= 1
  {
    if |s| == 0 then [""]
    else
      var rest := Split(s[1..], sep);
      if s[0] == sep then [""] + rest else [[s[0]] + rest[0]] + rest[1..]
  }

  /** `join(sep)`: the pieces with one separator between neighbours. */
  function Join(pieces: seq<string>, sep: char): string
  {
    if |pieces| == 0 then ""
    else if |pieces| == 1 then pieces[0]
    else pieces[0] + [sep] + Join(pieces[1..], sep)
  }

  predicate NoSeparator(pieces: seq<string>, sep: char)
  {
    forall i, k :: 0 <= i < |pieces| && 0 <= k < |pieces[i]| ==> pieces[i][k] != sep
  }

  /** Joining the pieces of a split gives back the string, and no piece holds `sep`. */
  lemma {:induction false} JoinSplit(s: string, sep: char)
    ensures Join(Split(s, sep), sep) == s
    ensures NoSeparator(Split(s, sep), sep)
    decreases |s|
  {
    if |s| > 0 {
      var rest := Split(s[1..], sep);
      JoinSplit(s[1..], sep);
      if s[0] == sep {
        assert Split(s, sep)[1..] == rest;
      } else {
        var p := Split(s, sep);
        assert p[1..] == rest[1..];
        if |rest| == 1 {
          assert Join(p, sep) == [s[0]] + rest[0];
        } else {
          assert Join(p, sep) == [s[0]] + rest[0] + [sep] + Join(rest[1..], sep);
          assert Join(rest, sep) == rest[0] + [sep] + Join(rest[1..], sep);
        }
        assert s == [s[0]] + s[1..];
        forall i, k | 0 <= i < |p| && 0 <= k < |p[i]|
          ensures p[i][k] != sep
        {
          if i > 0 {
            assert p[i] == rest[i];
          } else if k > 0 {
            assert p[0][k] == rest[0][k - 1];
          }
        }
      }
    }
  }

  /** Splitting a join of separator-free pieces gives back the pieces. */
  lemma {:induction false} SplitJoin(pieces: seq<string>, sep: char)
    requires |pieces| >= 1 && NoSeparator(pieces, sep)
    ensures Split(Join(pieces, sep), sep) == pieces
    decreases |pieces|, |pieces[0]|
  {
    var head := pieces[0];
    if |head| == 0 {
      if |pieces| > 1 {
        var tail := pieces[1..];
        assert NoSeparator(tail, sep) by {
          forall i, k | 0 <= i < |tail| && 0 <= k < |tail[i]|
            ensures tail[i][k] != sep
          {
            assert tail[i] == pieces[i + 1];
          }
        }
        SplitJoin(tail, sep);
        var s := Join(pieces, sep);
        assert s == [sep] + Join(tail, sep);
        assert s[1..] == Join(tail, sep);
        assert pieces == [""] + tail;
      }
    } else {
      var shorter := pieces[0 := head[1..]];
      assert NoSeparator(shorter, sep) by {
        forall i, k | 0 <= i < |shorter| && 0 <= k < |shorter[i]|
          ensures shorter[i][k] != sep
        {
          if i == 0 {
            assert shorter[0][k] == pieces[0][k + 1];
          }
        }
      }
      SplitJoin(shorter, sep);
      var s := Join(pieces, sep);
      assert head == [head[0]] + head[1..];
      if |pieces| == 1 {
        assert s == head;
      } else {
        assert shorter[1..] == pieces[1..];
        assert s == [head[0]] + Join(shorter, sep);
      }
      assert s[1..] == Join(shorter, sep);
      assert s[0] == head[0] && head[0] != sep;
      var rest := Split(s[1..], sep);
      assert [[s[0]] + rest[0]] + rest[1..] == pieces;
    }
  }

  // ---------------------------------------------------------------------------------
  // Tokens
  // ---------------------------------------------------------------------------------

  /** What one token does, after the arms of the `match` in src/main.rs. */
  datatype Token =
    | AddOp        // "+", "^" and "-": exclusive or of the two top elements
    | MulOp        // "*"
    | DivOp        // "/": the second element divided by the top one
    | Push(v: Byte) // a decimal literal, or failing that a hexadecimal one
    | ShowDecimal  // "_d": print the stack in decimal
    | Clear        // "_c": empty the stack
    | Quit         // anything else: end the session

  /** The arms are tried in order, so decimal wins over hexadecimal ("10" is ten). */
  function Classify(v: string): Token
  {
    if v == "+" || v == "^" || v == "-" then AddOp
    else if v == "*" then MulOp
    else if v == "/" then DivOp
    else if FromStrRadix(v, 10).Some? then Push(FromStrRadix(v, 10).value)
    else if FromStrRadix(TrimHexPrefix(v), 16).Some? then Push(FromStrRadix(TrimHexPrefix(v), 16).value)
    else if v == "_d" then ShowDecimal
    else if v == "_c" then Clear
    else Quit
  }

  /** `Vec::pop` followed by `unwrap_or(dflt)`. */
  function PopOr(stack: seq<GF256>, dflt: GF256): (GF256, seq<GF256>)
  {
    if |stack| == 0 then (dflt, stack) else (stack[|stack| - 1], stack[..|stack| - 1])
  }

  /** The stack after one token other than `Quit`. */
  function Step(stack: seq<GF256>, t: Token): seq<GF256>
    requires !t.Quit?
  {
    match t
    case AddOp =>
      var (a, s1) := PopOr(stack, GF256(0));
      var (b, s2) := PopOr(s1, GF256(0));
      s2 + [a.BitXor(b)]
    case MulOp =>
      var (a, s1) := PopOr(stack, GF256(1));
      var (b, s2) := PopOr(s1, GF256(1));
      s2 + [a.Mul(b)]
    case DivOp =>
      var (a, s1) := PopOr(stack, GF256(0));
      var (b, s2) := PopOr(s1, GF256(0));
      s2 + [b.Div(a)]
    case Push(v) => stack + [GF256(v)]
    case ShowDecimal => stack
    case Clear => []
  }

  function Decimals(stack: seq<GF256>): seq<string>
  {
    seq(|stack|, i requires 0 <= i < |stack| => Decimal(stack[i].val))
  }

  function Hexes(stack: seq<GF256>): seq<string>
  {
    seq(|stack|, i requires 0 <= i < |stack| => Hex2(stack[i].val))
  }

  /** What one token writes to standard output. */
  function Printed(stack: seq<GF256>, t: Token): string
  {
    if t.ShowDecimal? then "DEC: " + Join(Decimals(stack), ' ') + "\n" else ""
  }

  /** The prompt printed before each line is read. */
  function Prompt(stack: seq<GF256>): string
  {
    Join(Hexes(stack), ' ') + "\n> "
  }

  /** The state after a run of tokens: the stack, what was printed, and whether to stop. */
  datatype Outcome = Outcome(stack: seq<GF256>, out: string, quit: bool)

  /** The tokens of one line, applied in order until one of them is `Quit`. */
  function Run(stack: seq<GF256>, tokens: seq<string>): Outcome
    decreases |tokens|
  {
    if |tokens| == 0 then Outcome(stack, "", false)
    else
      var t := Classify(tokens[0]);
      if t.Quit? then Outcome(stack, "", true)
      else
        var o := Run(Step(stack, t), tokens[1..]);
        Outcome(o.stack, Printed(stack, t) + o.out, o.quit)
  }

  /** The tokens of an input line. */
  function Tokens(line: string): seq<string>
  {
    Split(Trim(line), ' ')
  }

  // ---------------------------------------------------------------------------------
  // The evaluator
  // ---------------------------------------------------------------------------------

  /**
   * One arm of the `match` in src/main.rs: pop the operands (with their defaults) and
   * push the result, push a literal, print the stack in decimal, or clear it. This is
   * the arm as the program runs it, updating its stack and output in place; `Step` and
   * `Printed` are the same arms as values, and the ensures ties the two together.
   */
  method Apply(stack0: seq<GF256>, out0: string, t: Token) returns (stack: seq<GF256>, out: string)
    requires !t.Quit?
    ensures stack == Step(stack0, t) && out == out0 + Printed(stack0, t)
  {
    stack, out := stack0, out0;
    match t {
      case AddOp =>
        var (a, s1) := PopOr(stack, GF256(0));
        var (b, s2) := PopOr(s1, GF256(0));
        stack := s2 + [a.BitXor(b)];
      case MulOp =>
        var (a, s1) := PopOr(stack, GF256(1));
        var (b, s2) := PopOr(s1, GF256(1));
        stack := s2 + [a.Mul(b)];
      case DivOp =>
        var (a, s1) := PopOr(stack, GF256(0));
        var (b, s2) := PopOr(s1, GF256(0));
        stack := s2 + [b.Div(a)];
      case Push(v) =>
        stack := stack + [GF256(v)];
      case ShowDecimal =>
        out := out + ("DEC: " + Join(Decimals(stack), ' ') + "\n");
      case Clear =>
        stack := [];
    }
  }

  /**
   * The `for v in vals` loop of src/main.rs over one line: apply the tokens in order,
   * collecting what `_d` prints, and stop at the first token that matches no arm; the
   * tokens after it are not looked at.
   */
  method EvalLine(stack0: seq<GF256>, tokens: seq<string>) returns (stack: seq<GF256>, out: string, quit: bool)
    ensures Outcome(stack, out, quit) == Run(stack0, tokens)
  {
    stack, out, quit := stack0, "", false;
    var i := 0;
    while i < |tokens|
      invariant 0 <= i <= |tokens|
      invariant Run(stack0, tokens) == After(out, Run(stack, tokens[i..]))
    {
      var t := Classify(tokens[i]);
      if t.Quit? {
        quit := true;
        break;
      }
      RunStep(stack, tokens[i..], out);
      assert tokens[i..][1..] == tokens[i + 1..];
      stack, out := Apply(stack, out, t);
      i := i + 1;
    }
    if !quit {
      assert tokens[i..] == [];
    }
  }

  /** Concatenation regrouped, kept apart so that the callers' proofs stay small. */
  lemma ConcatAssoc(a: string, b: string, c: string)
    ensures a + (b + c) == a + b + c
  {}

  /** The outcome `o` preceded by output `p`. */
  function After(p: string, o: Outcome): Outcome
  {
    Outcome(o.stack, p + o.out, o.quit)
  }

  /** One token that is not `Quit` moves its output from the run to the prefix. */
  lemma RunStep(stack: seq<GF256>, tokens: seq<string>, p: string)
    requires |tokens| > 0 && !Classify(tokens[0]).Quit?
    ensures var t := Classify(tokens[0]);
      After(p, Run(stack, tokens)) == After(p + Printed(stack, t), Run(Step(stack, t), tokens[1..]))
  {
    var t := Classify(tokens[0]);
    ConcatAssoc(p, Printed(stack, t), Run(Step(stack, t), tokens[1..]).out);
  }

  // ---------------------------------------------------------------------------------
  // The session
  // ---------------------------------------------------------------------------------

  /** The stack and everything printed when the session ends. */
  datatype SessionEnd = SessionEnd(stack: seq<GF256>, transcript: string)

  /**
   * The `'main` loop: print the prompt, read a line, run its tokens. `input` holds the
   * lines still to be read; once it is exhausted `read_line` leaves the buffer empty.
   */
  function Session(stack: seq<GF256>, input: seq<string>): SessionEnd
    decreases |input|
  {
    var o := Run(stack, Tokens(if |input| == 0 then "" else input[0]));
    if o.quit || |input| == 0 then SessionEnd(o.stack, Prompt(stack) + o.out)
    else
      var r := Session(o.stack, input[1..]);
      SessionEnd(r.stack, Prompt(stack) + o.out + r.transcript)
  }

  /** A line that is empty after trimming (the end of input among them) ends the session. */
  lemma BlankLineQuits(stack: seq<GF256>, line: string)
    requires Trim(line) == ""
    ensures Run(stack, Tokens(line)) == Outcome(stack, "", true)
  {
    assert Tokens(line) == [""];
    assert Classify("") == Quit;
  }

  /** The session end `e` preceded by output `p`. */
  function Behind(p: string, e: SessionEnd): SessionEnd
  {
    SessionEnd(e.stack, p + e.transcript)
  }

  /**
   * One round of the session loop: after the prompt and the outcome `o` of the line,
   * either the session is over or it goes on with the remaining lines.
   */
  lemma SessionRound(shown: string, stack: seq<GF256>, input: seq<string>, o: Outcome)
    requires o == Run(stack, Tokens(if |input| == 0 then "" else input[0]))
    ensures |input| == 0 ==> o.quit
    ensures o.quit ==> Behind(shown, Session(stack, input)) == SessionEnd(o.stack, shown + Prompt(stack) + o.out)
    ensures !o.quit ==> Behind(shown, Session(stack, input)) == Behind(shown + Prompt(stack) + o.out, Session(o.stack, input[1..]))
  {
    if |input| == 0 {
      BlankLineQuits(stack, "");
    }
    ConcatAssoc(shown, Prompt(stack), o.out);
    if !o.quit {
      var r := Session(o.stack, input[1..]);
      ConcatAssoc(shown, Prompt(stack) + o.out, r.transcript);
    }
  }

  /**
   * The whole program on a given input, starting from the empty stack: the model of
   * `main` with standard input as `input` and standard output as `transcript`.
   */
  method Repl(input: seq<string>) returns (stack: seq<GF256>, transcript: string)
    ensures SessionEnd(stack, transcript) == Session([], input)
  {
    stack, transcript := [], "";
    var n := 0;
    assert input[0..] == input;
    while true
      invariant n <= |input|
      invariant Session([], input) == Behind(transcript, Session(stack, input[n..]))
      decreases |input| - n
    {
      ghost var before, shown := stack, transcript;
      transcript := transcript + Prompt(stack);
      var line := if n < |input| then input[n] else "";
      var out, quit;
      stack, out, quit := EvalLine(stack, Tokens(line));
      transcript := transcript + out;
      SessionRound(shown, before, input[n..], Outcome(stack, out, quit));
      if quit {
        return;
      }
      assert input[n..][1..] == input[n + 1..];
      n := n + 1;
    }
  }

  // ---------------------------------------------------------------------------------
  // Properties of the evaluator
  // ---------------------------------------------------------------------------------

  /**
   * The binary operators pop the top `a`, then `b`, and push one result; the elements
   * below are untouched. A missing operand is 0 for `+`, `^`, `-` and `/`, and 1 for `*`.
   */
  lemma BinaryOperators(stack: seq<GF256>, t: Token)
    requires t.AddOp? || t.MulOp? || t.DivOp?
    ensures var dflt := if t.MulOp? then GF256(1) else GF256(0);
      var a := if |stack| >= 1 then stack[|stack| - 1] else dflt;
      var b := if |stack| >= 2 then stack[|stack| - 2] else dflt;
      var below := if |stack| >= 2 then stack[..|stack| - 2] else [];
      var r := if t.AddOp? then a.BitXor(b) else if t.MulOp? then a.Mul(b) else b.Div(a);
      Step(stack, t) == below + [r]
  {
    if |stack| >= 2 {
      assert stack[..|stack| - 1][..|stack| - 2] == stack[..|stack| - 2];
    }
  }

  /** With one operand, `+` and `*` leave it in place. */
  lemma LoneOperand(x: GF256)
    ensures Step([x], AddOp) == [x] && Step([x], MulOp) == [x]
  {
    AddZero(x.val);
    ProductOneLeft(x.val);
  }

  /** With one operand `a`, `/` computes 0 / a, which is 0. */
  lemma LoneDivisor(a: GF256)
    ensures Step([a], DivOp) == [GF256(0)]
  {
    ProductZeroLeft(Inverse(a.val));
  }

  /** Literals push one element; `_d` keeps the stack; `_c` empties it. */
  lemma OtherTokens(stack: seq<GF256>, v: Byte)
    ensures Step(stack, Push(v)) == stack + [GF256(v)]
    ensures Step(stack, ShowDecimal) == stack && Printed(stack, ShowDecimal) != ""
    ensures Step(stack, Clear) == []
    ensures Printed(stack, Push(v)) == "" && Printed(stack, Clear) == ""
  {}

  /** Running two token lists one after the other is running their concatenation. */
  lemma {:induction false} RunAppend(stack: seq<GF256>, t1: seq<string>, t2: seq<string>)
    ensures var o := Run(stack, t1);
      Run(stack, t1 + t2) == if o.quit then o else After(o.out, Run(o.stack, t2))
    decreases |t1|
  {
    if |t1| == 0 {
      assert t1 + t2 == t2;
    } else {
      assert (t1 + t2)[0] == t1[0] && (t1 + t2)[1..] == t1[1..] + t2;
      var t := Classify(t1[0]);
      if !t.Quit? {
        RunAppend(Step(stack, t), t1[1..], t2);
        var o := Run(Step(stack, t), t1[1..]);
        if !o.quit {
          var p := Run(o.stack, t2);
          assert Printed(stack, t) + (o.out + p.out) == (Printed(stack, t) + o.out) + p.out;
        }
      }
    }
  }

  /** A token that matches no arm ends the line: the tokens after it are not applied. */
  lemma QuitDiscardsRest(stack: seq<GF256>, t1: seq<string>, q: string, t2: seq<string>)
    requires Classify(q).Quit?
    ensures Run(stack, t1 + [q] + t2) == Run(stack, t1 + [q])
    ensures Run(stack, t1 + [q]).quit
  {
    RunAppend(stack, t1, [q]);
    RunAppend(stack, t1 + [q], t2);
  }

  /** The arms are tried in order, so a token of decimal digits is read in decimal. */
  lemma DecimalFirst()
    ensures Classify("170") == Push(170) && Classify("10") == Push(10)
  {
    assert "170"[..2] == "17" && "17"[..1] == "1" && "1"[..0] == "";
    assert "10"[..1] == "1";
  }

  /** Otherwise the token is read in hexadecimal, after any number of leading `0x`. */
  lemma HexLiterals()
    ensures Classify("0xaa") == Push(170) && Classify("ff") == Push(255)
  {
    assert "0xaa"[2..] == "aa" && "aa"[..1] == "a" && "a"[..0] == "";
    DigitsValueSpec("0xaa", 10);
    assert !DigitValue("0xaa"[1], 10).Some?;
    assert "ff"[..1] == "f" && "f"[..0] == "";
  }

  lemma RepeatedHexPrefix()
    ensures Classify("0x0x1f") == Push(31)
  {
    assert "0x0x1f"[2..] == "0x1f" && "0x1f"[2..] == "1f" && "1f"[..1] == "1" && "1"[..0] == "";
    DigitsValueSpec("0x0x1f", 10);
    assert !DigitValue("0x0x1f"[1], 10).Some?;
  }

  /** A lone sign is an operator, `+` may lead a literal, and what fits nothing ends it. */
  lemma OtherLiterals()
    ensures Classify("+7") == Push(7) && Classify("-") == AddOp
    ensures Classify("256") == Quit && Classify("0x") == Quit && Classify("") == Quit
  {
    assert "+7"[1..] == "7" && "7"[..0] == "";
    assert "256"[..2] == "25" && "25"[..1] == "2" && "2"[..0] == "";
    assert "0x"[2..] == "";
    assert "0x"[..1] == "0";
  }

  /** Every stack element typed back as shown in `_d` pushes the same element. */
  lemma DecimalEcho(v: Byte)
    ensures Classify(Decimal(v)) == Push(v)
  {
    var s := Decimal(v);
    assert '0' <= s[0] <= '9';
    DecimalRoundTrip(v);
  }

  /**
   * The prompt's two-digit form needs a `0x` in front to read back: "10" is ten, while
   * "0x10" is sixteen.
   */
  lemma HexEcho(v: Byte)
    ensures Classify("0x" + Hex2(v)) == Push(v)
  {
    var s := "0x" + Hex2(v);
    assert s[1] == 'x';
    DigitsValueSpec(s, 10);
    assert !DigitValue(s[1], 10).Some?;
    assert s[2..] == Hex2(v);
    assert Hex2(v)[1] != 'x';
    assert TrimHexPrefix(s) == Hex2(v);
    HexRoundTrip(v);
  }
}
