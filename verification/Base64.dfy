/** The base64 encoder behind OSC 52 clipboard writes (src/osc52.rs), against a
    decoder written from section 4 of RFC 4648. */
module Base64 {
  import opened Wrappers
  import Arithmetic

  type Byte = x: int | 0 <= x < 256
  type Sextet = x: int | 0 <= x < 64

  // ---------------------------------------------------------------- the encoder

  /** The alphabet constant, entry by entry. */
  function Symbol(n: Sextet): char {
    if n < 26 then 'A' + n as char
    else if n < 52 then 'a' + (n - 26) as char
    else if n < 62 then '0' + (n - 52) as char
    else if n == 62 then '+' else '/'
  }

  /** Six bits of a chunk, at a power of two. */
  function Six(bits: nat, unit: nat): Sextet
    requires unit > 0
  {
    bits / unit % 64
  }

  function Bits(a: Byte, b: Byte, c: Byte): nat {
    a * 0x1_0000 + b * 0x100 + c
  }

  /** The characters of three bytes: the four six-bit groups of their 24 bits. */
  function Quad(a: Byte, b: Byte, c: Byte): string {
    var n := Bits(a, b, c);
    [Symbol(Six(n, 0x4_0000)), Symbol(Six(n, 0x1000)), Symbol(Six(n, 64)), Symbol(Six(n, 1))]
  }

  function Encode(input: seq<Byte>): string {
    if input == [] then ""
    else if |input| == 1 then Quad(input[0], 0, 0)[..2] + "=="
    else if |input| == 2 then Quad(input[0], input[1], 0)[..3] + "="
    else Quad(input[0], input[1], input[2]) + Encode(input[3..])
  }

  /** The padded end: two characters for one byte, three for two. */
  method EncodeRemainder(rem: seq<Byte>) returns (tail: string)
    requires |rem| < 3
    ensures tail == Encode(rem)
  {
    match |rem| {
      case 1 =>
        var b := Bits(rem[0], 0, 0);
        tail := [Symbol(Six(b, 0x4_0000)), Symbol(Six(b, 0x1000))] + "==";
      case 2 =>
        var b := Bits(rem[0], rem[1], 0);
        tail := [Symbol(Six(b, 0x4_0000)), Symbol(Six(b, 0x1000)), Symbol(Six(b, 64))] + "=";
      case _ =>
        tail := "";
    }
  }

  method EncodeChunk(chunk: seq<Byte>) returns (out: string)
    requires |chunk| == 3
    ensures out == Quad(chunk[0], chunk[1], chunk[2])
  {
    var b := Bits(chunk[0], chunk[1], chunk[2]);
    out := [Symbol(Six(b, 0x4_0000))];
    out := out + [Symbol(Six(b, 0x1000))];
    out := out + [Symbol(Six(b, 64))];
    out := out + [Symbol(Six(b, 1))];
  }

  lemma EncodeStep(out: string, input: seq<Byte>, i: nat)
    requires i + 3 <= |input|
    ensures out + Encode(input[i..]) ==
        out + Quad(input[i..i + 3][0], input[i..i + 3][1], input[i..i + 3][2]) + Encode(input[i + 3..])
  {
  }

  /** The loop over whole chunks of three, then the remainder. */
  method Base64Encode(input: seq<Byte>) returns (out: string)
    ensures out == Encode(input)
  {
    out := "";
    var i := 0;
    while i + 3 <= |input|
      invariant i <= |input| && out + Encode(input[i..]) == Encode(input)
    {
      EncodeStep(out, input, i);
      var chunk := EncodeChunk(input[i..i + 3]);
      out := out + chunk;
      i := i + 3;
    }
    var tail := EncodeRemainder(input[i..]);
    out := out + tail;
  }

  // ---------------------------------------------------------------- RFC 4648, section 4

  /** Table 1, read backwards. */
  function Value(c: char): Option<Sextet> {
    if 'A' <= c <= 'Z' then Some(c as int - 'A' as int)
    else if 'a' <= c <= 'z' then Some(c as int - 'a' as int + 26)
    else if '0' <= c <= '9' then Some(c as int - '0' as int + 52)
    else if c == '+' then Some(62)
    else if c == '/' then Some(63)
    else None
  }

  /** The bytes of one quantum: three, or two or one when it is padded, and then
      the unused bits must be zero (section 3.5). */
  function Quantum(s: string): Option<seq<Byte>>
    requires |s| == 4
  {
    var v0, v1, v2, v3 := Value(s[0]), Value(s[1]), Value(s[2]), Value(s[3]);
    if v0.None? || v1.None? then None
    else
      var first := v0.value * 4 + v1.value / 16;
      if s[2] == '=' && s[3] == '=' then if v1.value % 16 == 0 then Some([first]) else None
      else if v2.None? then None
      else
        var second := v1.value % 16 * 16 + v2.value / 4;
        if s[3] == '=' then if v2.value % 4 == 0 then Some([first, second]) else None
        else if v3.None? then None
        else Some([first, second, v2.value % 4 * 64 + v3.value])
  }

  /** Quanta in a row; only the last may be padded. */
  function Decode(s: string): Option<seq<Byte>> {
    if s == "" then Some([])
    else if |s| < 4 || Quantum(s[..4]).None? then None
    else if |s| == 4 then Quantum(s)
    else if |Quantum(s[..4]).value| < 3 || Decode(s[4..]).None? then None
    else Some(Quantum(s[..4]).value + Decode(s[4..]).value)
  }

  // ---------------------------------------------------------------- the two agree

  const ALPHABET := A_M + N_Z + LOWER_A_M + LOWER_N_Z + DIGITS + "+/"
  const A_M := "ABCDEFGHIJKLM"
  const N_Z := "NOPQRSTUVWXYZ"
  const LOWER_A_M := "abcdefghijklm"
  const LOWER_N_Z := "nopqrstuvwxyz"
  const DIGITS := "0123456789"

  function Range(first: char, n: nat): string
    requires first as int + n <= 0x100
  {
    if n == 0 then "" else Range(first, n - 1) + [(first as int + n - 1) as char]
  }

  lemma {:induction false} RangeAt(first: char, n: nat, i: nat)
    requires first as int + n <= 0x100 && i < n
    ensures |Range(first, n)| == n && Range(first, n)[i] == (first as int + i) as char
  {
    if i < n - 1 {
      RangeAt(first, n - 1, i);
    } else if n > 1 {
      RangeAt(first, n - 1, 0);
    }
  }

  lemma UpperIsRange()
    ensures A_M == Range('A', 13)
  {
  }

  lemma UpperIsRangeToo()
    ensures N_Z == Range('N', 13)
  {
  }

  lemma LowerIsRange()
    ensures LOWER_A_M == Range('a', 13)
  {
  }

  lemma LowerIsRangeToo()
    ensures LOWER_N_Z == Range('n', 13)
  {
  }

  lemma DigitsAreRange()
    ensures DIGITS == Range('0', 10)
  {
  }

  lemma UpperPart(n: Sextet)
    requires n < 26
    ensures A_M + N_Z == Range('A', 13) + Range('N', 13) && |A_M + N_Z| == 26 && (A_M + N_Z)[n] == Symbol(n)
  {
    UpperIsRange();
    UpperIsRangeToo();
    if n < 13 {
      RangeAt('A', 13, n);
    } else {
      RangeAt('N', 13, n - 13);
    }
  }

  /** The source's alphabet string is Table 1. */
  lemma AlphabetIsTable(n: Sextet)
    ensures |ALPHABET| == 64 && ALPHABET[n] == Symbol(n)
  {
    LowerIsRange();
    LowerIsRangeToo();
    DigitsAreRange();
    if n < 26 {
      UpperPart(n);
    } else if n < 39 {
      RangeAt('a', 13, n - 26);
    } else if n < 52 {
      RangeAt('n', 13, n - 39);
    } else if n < 62 {
      RangeAt('0', 10, n - 52);
    }
  }

  lemma SymbolHasValue(n: Sextet)
    ensures Value(Symbol(n)) == Some(n)
  {
  }

  lemma ValueHasSymbol(c: char)
    requires Value(c).Some?
    ensures Symbol(Value(c).value) == c
  {
  }

  lemma SixOfBits(a: Byte, b: Byte, c: Byte)
    ensures Six(Bits(a, b, c), 0x4_0000) == a / 4
    ensures Six(Bits(a, b, c), 0x1000) == a % 4 * 16 + b / 16
    ensures Six(Bits(a, b, c), 64) == b % 16 * 4 + c / 64
    ensures Six(Bits(a, b, c), 1) == c % 64
  {
    HighSixes(a, b, c);
    LowSixes(a, b, c);
  }

  lemma HighSixes(a: Byte, b: Byte, c: Byte)
    ensures Six(Bits(a, b, c), 0x4_0000) == a / 4
    ensures Six(Bits(a, b, c), 0x1000) == a % 4 * 16 + b / 16
  {
    Arithmetic.Quotient(Bits(a, b, c), a / 4, 0x4_0000, a % 4 * 0x1_0000 + b * 0x100 + c);
    Arithmetic.Quotient(Bits(a, b, c), a * 16 + b / 16, 0x1000, b % 16 * 0x100 + c);
    Arithmetic.Quotient(a * 16 + b / 16, a / 4, 64, a % 4 * 16 + b / 16);
  }

  lemma LowSixes(a: Byte, b: Byte, c: Byte)
    ensures Six(Bits(a, b, c), 64) == b % 16 * 4 + c / 64
    ensures Six(Bits(a, b, c), 1) == c % 64
  {
    Arithmetic.Quotient(Bits(a, b, c), a * 1024 + b * 4 + c / 64, 64, c % 64);
    Arithmetic.Quotient(a * 1024 + b * 4 + c / 64, a * 16 + b / 16, 64, b % 16 * 4 + c / 64);
  }

  lemma Regrouped(a: Byte, b: Byte, c: Byte)
    ensures a / 4 * 4 + (a % 4 * 16 + b / 16) / 16 == a
    ensures (a % 4 * 16 + b / 16) % 16 * 16 + (b % 16 * 4 + c / 64) / 4 == b
    ensures (b % 16 * 4 + c / 64) % 4 * 64 + c % 64 == c
  {
  }

  /** Four symbols read as their four values do. */
  lemma QuantumOfSymbols(v0: Sextet, v1: Sextet, v2: Sextet, v3: Sextet)
    ensures Quantum([Symbol(v0), Symbol(v1), Symbol(v2), Symbol(v3)]) ==
            Some([v0 * 4 + v1 / 16, v1 % 16 * 16 + v2 / 4, v2 % 4 * 64 + v3])
    ensures v2 % 4 == 0 ==>
      Quantum([Symbol(v0), Symbol(v1), Symbol(v2), '=']) == Some([v0 * 4 + v1 / 16, v1 % 16 * 16 + v2 / 4])
    ensures v1 % 16 == 0 ==> Quantum([Symbol(v0), Symbol(v1), '=', '=']) == Some([v0 * 4 + v1 / 16])
  {
    SymbolHasValue(v0);
    SymbolHasValue(v1);
    SymbolHasValue(v2);
    SymbolHasValue(v3);
  }

  lemma QuadIsQuantum(a: Byte, b: Byte, c: Byte)
    ensures Quantum(Quad(a, b, c)) == Some([a, b, c])
  {
    SixOfBits(a, b, c);
    Regrouped(a, b, c);
    QuantumOfSymbols(a / 4, a % 4 * 16 + b / 16, b % 16 * 4 + c / 64, c % 64);
  }

  lemma TwoBytesPadded(a: Byte, b: Byte)
    ensures |Encode([a, b])| == 4 && Quantum(Encode([a, b])) == Some([a, b])
  {
    TwoBytesEncode(a, b);
    Regrouped(a, b, 0);
    QuantumOfSymbols(a / 4, a % 4 * 16 + b / 16, b % 16 * 4, 0);
  }

  lemma TwoBytesEncode(a: Byte, b: Byte)
    ensures Encode([a, b]) == [Symbol(a / 4), Symbol(a % 4 * 16 + b / 16), Symbol(b % 16 * 4), '=']
  {
    SixOfBits(a, b, 0);
  }

  lemma OneBytePadded(a: Byte)
    ensures |Encode([a])| == 4 && Quantum(Encode([a])) == Some([a])
  {
    SixOfBits(a, 0, 0);
    Regrouped(a, 0, 0);
    QuantumOfSymbols(a / 4, a % 4 * 16, 0, 0);
    assert Encode([a]) == [Symbol(a / 4), Symbol(a % 4 * 16), '=', '='];
  }

  lemma EncodeSplits(x: seq<Byte>)
    requires |x| > 2
    ensures Encode(x) == Quad(x[0], x[1], x[2]) + Encode(x[3..]) && |Quad(x[0], x[1], x[2])| == 4
    ensures |x| == 3 ==> Encode(x[3..]) == ""
  {
  }

  lemma DecodeJoins(quad: string, rest: string)
    requires |quad| == 4 && Quantum(quad).Some? && |Quantum(quad).value| == 3 && Decode(rest).Some?
    ensures Decode(quad + rest) == Some(Quantum(quad).value + Decode(rest).value)
  {
    var s := quad + rest;
    assert s[..4] == quad && s[4..] == rest;
    if rest == "" {
      assert s == quad && Quantum(quad).value + [] == Quantum(quad).value;
    }
  }

  /** Decoding what was encoded gives it back, for every byte sequence. */
  lemma {:induction false} DecodeOfEncode(x: seq<Byte>)
    ensures Decode(Encode(x)) == Some(x)
  {
    if |x| == 1 {
      assert x == [x[0]];
      OneBytePadded(x[0]);
    } else if |x| == 2 {
      assert x == [x[0], x[1]];
      TwoBytesPadded(x[0], x[1]);
    } else if |x| > 2 {
      QuadIsQuantum(x[0], x[1], x[2]);
      DecodeOfEncode(x[3..]);
      EncodeSplits(x);
      DecodeJoins(Quad(x[0], x[1], x[2]), Encode(x[3..]));
      assert x == [x[0], x[1], x[2]] + x[3..];
    }
  }

  /** The values of a quantum's symbols are those of the bytes it stands for. */
  lemma Ungrouped(v0: Sextet, v1: Sextet, v2: Sextet, v3: Sextet)
    ensures var a, b, c := v0 * 4 + v1 / 16, v1 % 16 * 16 + v2 / 4, v2 % 4 * 64 + v3;
            a / 4 == v0 && a % 4 * 16 + b / 16 == v1 && b % 16 * 4 + c / 64 == v2 && c % 64 == v3
  {
  }

  lemma QuadOfValues(x: seq<Byte>, v0: Sextet, v1: Sextet, v2: Sextet, v3: Sextet)
    requires |x| == 3 && x[0] == v0 * 4 + v1 / 16 && x[1] == v1 % 16 * 16 + v2 / 4 && x[2] == v2 % 4 * 64 + v3
    ensures Quad(x[0], x[1], x[2]) == [Symbol(v0), Symbol(v1), Symbol(v2), Symbol(v3)]
  {
    Ungrouped(v0, v1, v2, v3);
    SixOfBits(x[0], x[1], x[2]);
  }

  lemma FullQuantum(s: string)
    requires |s| == 4 && Quantum(s).Some? && |Quantum(s).value| == 3
    ensures var x := Quantum(s).value; s == Quad(x[0], x[1], x[2])
  {
    ValueHasSymbol(s[0]);
    ValueHasSymbol(s[1]);
    ValueHasSymbol(s[2]);
    ValueHasSymbol(s[3]);
    QuadOfValues(Quantum(s).value, Value(s[0]).value, Value(s[1]).value, Value(s[2]).value, Value(s[3]).value);
  }

  lemma TwoOfValues(a: Byte, b: Byte, v0: Sextet, v1: Sextet, v2: Sextet)
    requires a == v0 * 4 + v1 / 16 && b == v1 % 16 * 16 + v2 / 4 && v2 % 4 == 0
    ensures Quad(a, b, 0)[..3] == [Symbol(v0), Symbol(v1), Symbol(v2)]
  {
    Ungrouped(v0, v1, v2, 0);
    SixOfBits(a, b, 0);
  }

  lemma OneOfValues(a: Byte, v0: Sextet, v1: Sextet)
    requires a == v0 * 4 + v1 / 16 && v1 % 16 == 0
    ensures Quad(a, 0, 0)[..2] == [Symbol(v0), Symbol(v1)]
  {
    Ungrouped(v0, v1, 0, 0);
    SixOfBits(a, 0, 0);
  }

  lemma PaddedQuantum(s: string)
    requires |s| == 4 && Quantum(s).Some? && |Quantum(s).value| < 3
    ensures |Quantum(s).value| > 0 && s == Encode(Quantum(s).value)
  {
    var x := Quantum(s).value;
    ValueHasSymbol(s[0]);
    ValueHasSymbol(s[1]);
    if |x| == 1 {
      OneOfValues(x[0], Value(s[0]).value, Value(s[1]).value);
      assert s == [s[0], s[1]] + "==";
    } else {
      ValueHasSymbol(s[2]);
      TwoOfValues(x[0], x[1], Value(s[0]).value, Value(s[1]).value, Value(s[2]).value);
      assert s == [s[0], s[1], s[2]] + "=";
    }
  }

  /** And the decoder accepts nothing else: what it decodes is the encoding. */
  lemma {:induction false} EncodeOfDecode(s: string)
    requires Decode(s).Some?
    ensures Encode(Decode(s).value) == s
  {
    if s != "" {
      var head := Quantum(s[..4]).value;
      assert s == s[..4] + s[4..];
      if |head| < 3 {
        PaddedQuantum(s[..4]);
        assert s[..4] == s;
      } else {
        FullQuantum(s[..4]);
        EncodeOfDecode(s[4..]);
        var x := Decode(s).value;
        assert x == head + Decode(s[4..]).value && x[3..] == Decode(s[4..]).value;
        EncodeSplits(x);
      }
    }
  }

  // ---------------------------------------------------------------- shape of the text

  lemma QuadIsSymbols(a: Byte, b: Byte, c: Byte)
    ensures forall i :: 0 <= i < 4 ==> Value(Quad(a, b, c)[i]).Some?
  {
  }

  /** The length is four for every three bytes begun. The first ceil(4n/3) places
      hold alphabet characters and the rest, at most the last two, padding. */
  ghost predicate Shaped(s: string, n: nat) {
    |s| == 4 * ((n + 2) / 3) && |s| - 2 <= (4 * n + 2) / 3
    && forall i :: 0 <= i < |s| ==> if i < (4 * n + 2) / 3 then Value(s[i]).Some? else s[i] == '='
  }

  lemma ShapeGrows(quad: string, rest: string, n: nat)
    requires Shaped(rest, n) && |quad| == 4 && forall i :: 0 <= i < 4 ==> Value(quad[i]).Some?
    ensures Shaped(quad + rest, n + 3)
  {
  }

  lemma {:induction false} EncodeShape(x: seq<Byte>)
    ensures Shaped(Encode(x), |x|)
  {
    if |x| > 2 {
      QuadIsSymbols(x[0], x[1], x[2]);
      EncodeSplits(x);
      EncodeShape(x[3..]);
      ShapeGrows(Quad(x[0], x[1], x[2]), Encode(x[3..]), |x| - 3);
    } else if |x| == 2 {
      QuadIsSymbols(x[0], x[1], 0);
    } else if |x| == 1 {
      QuadIsSymbols(x[0], 0, 0);
    }
  }
}
