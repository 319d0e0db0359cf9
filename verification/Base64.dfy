/** pmacct-agent/src/identity.rs, decode_b64_hex: base64 text to lower-case hex, through a 32-bit
    accumulator that is shifted but never masked. The encoder is that of section 4 of RFC 4648. */
module Base64 {
  import opened Address

  type Byte = n: int | 0 <= n < 256
  type Sextet = n: int | 0 <= n < 64

  const ROW0 := "ABCDEFGHIJKLMNOP"
  const ROW1 := "QRSTUVWXYZabcdef"
  const ROW2 := "ghijklmnopqrstuv"
  const ROW3 := "wxyz0123456789+/"
  const ALPHABET: string := ROW0 + ROW1 + ROW2 + ROW3

  predicate IsLetter(c: char) {
    c in ALPHABET
  }

  // ---- big-endian numbers ----

  lemma DivMod(q: int, r: int, m: int)
    requires 0 <= r < m
    ensures (q * m + r) / m == q && (q * m + r) % m == r
  {
    var x := q * m + r;
    var d, e := x / m, x % m;
    assert x == d * m + e && 0 <= e < m;
    assert (q - d) * m == e - r;
    Scaled(q - d, m);
  }

  lemma Scaled(x: int, m: int)
    requires m > 0
    ensures x >= 1 ==> x * m >= m
    ensures x <= -1 ==> x * m <= -m
  {
    assert (x - 1) * m == x * m - m && (x + 1) * m == x * m + m;
  }

  function SextetNumber(s: seq<Sextet>): nat {
    if s == [] then 0 else SextetNumber(s[..|s| - 1]) * 64 + s[|s| - 1]
  }

  function ByteNumber(b: seq<Byte>): nat {
    if b == [] then 0 else ByteNumber(b[..|b| - 1]) * 256 + b[|b| - 1]
  }

  lemma {:induction false} ByteNumberInjective(a: seq<Byte>, b: seq<Byte>)
    requires |a| == |b| && ByteNumber(a) == ByteNumber(b)
    ensures a == b
  {
    if a != [] {
      var n := |a| - 1;
      assert a[n] == b[n] && ByteNumber(a[..n]) == ByteNumber(b[..n]);
      ByteNumberInjective(a[..n], b[..n]);
      assert a == a[..n] + [a[n]] && b == b[..n] + [b[n]];
    }
  }

  // ---- encoding, section 4 of RFC 4648 ----

  /** Three bytes become four sextets; a final one or two bytes become two or three, zero-filled. */
  function Sextets(b: seq<Byte>): (s: seq<Sextet>)
    ensures |s| == (4 * |b| + 2) / 3
  {
    if b == [] then []
    else if |b| == 1 then [b[0] / 4, b[0] % 4 * 16]
    else if |b| == 2 then [b[0] / 4, b[0] % 4 * 16 + b[1] / 16, b[1] % 16 * 4]
    else [b[0] / 4, b[0] % 4 * 16 + b[1] / 16, b[1] % 16 * 4 + b[2] / 64, b[2] % 64] + Sextets(b[3..])
  }

  function Letter(v: Sextet): char {
    ALPHABET[v]
  }

  function Text(s: seq<Sextet>): (t: string)
    ensures |t| == |s|
  {
    seq(|s|, i requires 0 <= i < |s| => Letter(s[i]))
  }

  function Encode(b: seq<Byte>, padded: bool): string {
    Text(Sextets(b)) + if padded then (if |b| % 3 == 1 then "==" else if |b| % 3 == 2 then "=" else "") else ""
  }

  /** Padding fills the text up to whole groups of four. */
  lemma EncodedLength(b: seq<Byte>)
    ensures |Encode(b, true)| == (|b| + 2) / 3 * 4 && Encode(b, false) <= Encode(b, true)
    ensures forall i | |Encode(b, false)| <= i < |Encode(b, true)| :: Encode(b, true)[i] == '='
  {
  }

  // ---- decoding ----

  function PositionFrom(c: char, i: nat): (p: int)
    requires i <= 64
    ensures p == -1 || (i <= p < 64 && ALPHABET[p] == c)
    ensures p == -1 <==> forall j | i <= j < 64 :: ALPHABET[j] != c
    decreases 64 - i
  {
    if i == 64 then -1 else if ALPHABET[i] == c then i else PositionFrom(c, i + 1)
  }

  /** The value of a base64 letter, or -1. */
  function Position(c: char): (p: int)
    ensures -1 <= p < 64
    ensures p >= 0 ==> Letter(p) == c
    ensures p == -1 <==> !IsLetter(c)
  {
    PositionFrom(c, 0)
  }

  function LetterCode(c: char): int {
    if 'A' <= c <= 'Z' then c as int - 'A' as int
    else if 'a' <= c <= 'z' then c as int - 'a' as int + 26
    else if '0' <= c <= '9' then c as int - '0' as int + 52
    else if c == '+' then 62
    else 63
  }

  lemma Row0(i: nat)
    requires i < 16
    ensures LetterCode(ROW0[i]) == i && ROW0[i] != '='
  {
  }

  lemma Row1(i: nat)
    requires i < 16
    ensures LetterCode(ROW1[i]) == 16 + i && ROW1[i] != '='
  {
  }

  lemma Row2(i: nat)
    requires i < 16
    ensures LetterCode(ROW2[i]) == 32 + i && ROW2[i] != '='
  {
  }

  lemma Row3(i: nat)
    requires i < 16
    ensures LetterCode(ROW3[i]) == 48 + i && ROW3[i] != '='
  {
  }

  lemma LetterCodes(v: Sextet)
    ensures LetterCode(ALPHABET[v]) == v && ALPHABET[v] != '='
  {
    if v < 16 {
      Row0(v);
    } else if v < 32 {
      Row1(v - 16);
    } else if v < 48 {
      Row2(v - 32);
    } else {
      Row3(v - 48);
    }
  }

  /** Table 1 of RFC 4648: capitals, small letters, digits, plus and slash. */
  lemma LetterIs(v: Sextet)
    ensures Letter(v) as int == if v < 26 then 65 + v else if v < 52 then 97 + v - 26 else if v < 62 then 48 + v - 52
                                else if v == 62 then 43 else 47
  {
    LetterCodes(v);
  }

  /** Every value has its own letter, and none is '='. */
  lemma PositionOfLetter(v: Sextet)
    ensures Position(Letter(v)) == v && Letter(v) != '=' && IsLetter(Letter(v))
  {
    var p := Position(Letter(v));
    assert IsLetter(Letter(v));
    LetterCodes(v);
    LetterCodes(p);
  }

  function HexDigit(n: nat): char
    requires n < 16
  {
    "0123456789abcdef"[n]
  }

  function Hex(b: seq<Byte>): string {
    if b == [] then "" else Hex(b[..|b| - 1]) + [HexDigit(b[|b| - 1] / 16), HexDigit(b[|b| - 1] % 16)]
  }

  /** The value of a lower-case hexadecimal digit, by its code; 16 for any other character. */
  function HexValue(c: char): nat {
    if 48 <= c as int <= 57 then c as int - 48 else if 97 <= c as int <= 102 then c as int - 87 else 16
  }

  lemma HexDigitIs(n: nat)
    requires n < 16
    ensures HexValue(HexDigit(n)) == n
  {
  }

  /** Two lower-case digits for each byte, the high one first. */
  lemma {:induction false} HexIs(b: seq<Byte>)
    ensures |Hex(b)| == 2 * |b|
    ensures forall i | 0 <= i < |b| :: HexValue(Hex(b)[2 * i]) < 16 && HexValue(Hex(b)[2 * i + 1]) < 16
                                       && 16 * HexValue(Hex(b)[2 * i]) + HexValue(Hex(b)[2 * i + 1]) == b[i]
  {
    hide HexDigit, HexValue;
    if b != [] {
      var n := |b| - 1;
      HexIs(b[..n]);
      HexDigitIs(b[n] / 16);
      HexDigitIs(b[n] % 16);
      assert forall i | 0 <= i < n :: Hex(b)[2 * i] == Hex(b[..n])[2 * i] && Hex(b)[2 * i + 1] == Hex(b[..n])[2 * i + 1];
    }
  }

  /** The letters before the first '=', which is where decoding stops. */
  function Body(t: string): (r: string)
    ensures r <= t && '=' !in r
    ensures |r| < |t| ==> t[|r|] == '='
  {
    if t == [] || t[0] == '=' then [] else [t[0]] + Body(t[1..])
  }

  predicate AllLetters(t: string) {
    forall i | 0 <= i < |t| :: IsLetter(t[i])
  }

  function Values(t: string): (s: seq<Sextet>)
    requires AllLetters(t)
    ensures |s| == |t|
  {
    seq(|t|, i requires 0 <= i < |t| => Position(t[i]))
  }

  /** 2^n for the few bits that can be left over. */
  function Scale(n: nat): (p: nat)
    requires n < 8
    ensures p >= 1
  {
    [1, 2, 4, 8, 16, 32, 64, 128][n]
  }

  /** What decoding a run of sextets means, without any accumulator: the first whole bytes of the number
      they spell, the leftover low bits dropped. */
  ghost predicate Decodes(s: seq<Sextet>, out: seq<Byte>) {
    && |out| == 6 * |s| / 8
    && ByteNumber(out) == SextetNumber(s) / Scale(6 * |s| % 8)
  }

  /** So there is one right answer for every run of sextets. */
  lemma DecodesUnique(s: seq<Sextet>, a: seq<Byte>, b: seq<Byte>)
    requires Decodes(s, a) && Decodes(s, b)
    ensures a == b
  {
    ByteNumberInjective(a, b);
  }

  /** The decoder's state after some sextets: a 32-bit accumulator with arbitrary high bits, of which only
      the lowest `nbits` matter. */
  ghost predicate Tracks(s: seq<Sextet>, bits: U32, nbits: nat, out: seq<Byte>) {
    && nbits < 8 && 8 * |out| + nbits == 6 * |s|
    && SextetNumber(s) == ByteNumber(out) * Scale(nbits) + bits % Scale(nbits)
  }

  /** (bits << 6) | v in 32 bits: the top six bits fall off. */
  function Shifted(bits: U32, v: Sextet): (r: U32) {
    bits % 0x400_0000 * 64 + v
  }

  lemma ShiftedLow4(bits: U32, v: Sextet)
    ensures Shifted(bits, v) % 256 == bits % 4 * 64 + v
  {
    var q, y := bits / 0x400_0000, bits % 0x400_0000;
    var z, w := y / 4, y % 4;
    DivMod(q * 0x100_0000 + z, w, 4);
    DivMod(z, w * 64 + v, 256);
  }

  lemma ShiftedLow16(bits: U32, v: Sextet)
    ensures Shifted(bits, v) % 1024 == bits % 16 * 64 + v
  {
    var q, y := bits / 0x400_0000, bits % 0x400_0000;
    var z, w := y / 16, y % 16;
    DivMod(q * 0x40_0000 + z, w, 16);
    DivMod(z, w * 64 + v, 1024);
  }

  lemma ShiftedLow64(bits: U32, v: Sextet)
    ensures Shifted(bits, v) % 4096 == bits % 64 * 64 + v
  {
    var q, y := bits / 0x400_0000, bits % 0x400_0000;
    var z, w := y / 64, y % 64;
    DivMod(q * 0x10_0000 + z, w, 64);
    DivMod(z, w * 64 + v, 4096);
  }

  /** Whatever fell off, the low bits of the accumulator are the old low bits followed by the new six. */
  lemma ShiftedLow(bits: U32, v: Sextet, m: nat)
    requires m in {1, 4, 16, 64}
    ensures Shifted(bits, v) % (m * 64) == bits % m * 64 + v
  {
    if m == 1 {
      DivMod(bits % 0x400_0000, v, 64);
    } else if m == 4 {
      ShiftedLow4(bits, v);
    } else if m == 16 {
      ShiftedLow16(bits, v);
    } else {
      ShiftedLow64(bits, v);
    }
  }

  /** A byte taken above k low bits, and what stays below it. */
  lemma TakeByte(b: int, low: int, k: int)
    requires b >= 0 && k in {1, 4, 16} && b % (256 * k) == low
    ensures b / k % 256 == low / k && b % k == low % k
  {
    var q, x, y := b / (256 * k), low / k, low % k;
    assert b == (q * 256 + x) * k + y;
    DivMod(q * 256 + x, y, k);
    DivMod(q, x, 256);
  }

  lemma SextetNumberAppend(s: seq<Sextet>, v: Sextet)
    ensures SextetNumber(s + [v]) == SextetNumber(s) * 64 + v
  {
    assert (s + [v])[..|s|] == s;
  }

  lemma ByteNumberAppend(s: seq<Byte>, v: Byte)
    ensures ByteNumber(s + [v]) == ByteNumber(s) * 256 + v
  {
    assert (s + [v])[..|s|] == s;
  }

  lemma ByteAbove0(n: nat, low: nat, v: Sextet, b: nat)
    requires b % 256 == low * 64 + v
    ensures (n * 4 + low) * 64 + v == n * 256 + b % 256
  {
  }

  lemma ByteAbove2(n: nat, low: nat, v: Sextet, b: nat)
    requires b % 1024 == low * 64 + v
    ensures (n * 16 + low) * 64 + v == (n * 256 + b / 4 % 256) * 4 + b % 4
  {
    TakeByte(b, low * 64 + v, 4);
  }

  lemma ByteAbove4(n: nat, low: nat, v: Sextet, b: nat)
    requires b % 4096 == low * 64 + v
    ensures (n * 64 + low) * 64 + v == (n * 256 + b / 16 % 256) * 16 + b % 16
  {
    TakeByte(b, low * 64 + v, 16);
  }

  lemma Track0(s: seq<Sextet>, bits: U32, out: seq<Byte>, v: Sextet)
    requires Tracks(s, bits, 0, out)
    ensures Tracks(s + [v], Shifted(bits, v), 6, out)
  {
    SextetNumberAppend(s, v);
    ShiftedLow(bits, v, 1);
    hide Shifted, SextetNumber, ByteNumber;
    assert Scale(0) == 1 && Scale(6) == 64;
    hide Scale;
  }

  lemma Track2(s: seq<Sextet>, bits: U32, out: seq<Byte>, v: Sextet)
    requires Tracks(s, bits, 2, out)
    ensures Tracks(s + [v], Shifted(bits, v), 0, out + [Shifted(bits, v) % 256])
  {
    SextetNumberAppend(s, v);
    ShiftedLow(bits, v, 4);
    ByteNumberAppend(out, Shifted(bits, v) % 256);
    ByteAbove0(ByteNumber(out), bits % 4, v, Shifted(bits, v));
    hide Shifted, SextetNumber, ByteNumber;
    assert Scale(2) == 4 && Scale(0) == 1;
    hide Scale;
  }

  lemma Track4(s: seq<Sextet>, bits: U32, out: seq<Byte>, v: Sextet)
    requires Tracks(s, bits, 4, out)
    ensures Tracks(s + [v], Shifted(bits, v), 2, out + [Shifted(bits, v) / 4 % 256])
  {
    SextetNumberAppend(s, v);
    ShiftedLow(bits, v, 16);
    ByteNumberAppend(out, Shifted(bits, v) / 4 % 256);
    ByteAbove2(ByteNumber(out), bits % 16, v, Shifted(bits, v));
    hide Shifted, SextetNumber, ByteNumber;
    assert Scale(4) == 16 && Scale(2) == 4;
    hide Scale;
  }

  lemma Track6(s: seq<Sextet>, bits: U32, out: seq<Byte>, v: Sextet)
    requires Tracks(s, bits, 6, out)
    ensures Tracks(s + [v], Shifted(bits, v), 4, out + [Shifted(bits, v) / 16 % 256])
  {
    SextetNumberAppend(s, v);
    ShiftedLow(bits, v, 64);
    ByteNumberAppend(out, Shifted(bits, v) / 16 % 256);
    ByteAbove4(ByteNumber(out), bits % 64, v, Shifted(bits, v));
    hide Shifted, SextetNumber, ByteNumber;
    assert Scale(6) == 64 && Scale(4) == 16;
    hide Scale;
  }

  lemma EvenBits(s: seq<Sextet>, bits: U32, nbits: nat, out: seq<Byte>)
    requires Tracks(s, bits, nbits, out)
    ensures nbits in {0, 2, 4, 6}
  {
  }

  /** One letter: six bits in, and a byte out as soon as eight are there. */
  lemma TracksStep(s: seq<Sextet>, bits: U32, nbits: nat, out: seq<Byte>, v: Sextet)
    requires Tracks(s, bits, nbits, out)
    ensures nbits in {0, 2, 4, 6}
    ensures var b := Shifted(bits, v);
            if nbits == 0 then Tracks(s + [v], b, 6, out)
            else Tracks(s + [v], b, nbits - 2, out + [b / Scale(nbits - 2) % 256])
  {
    EvenBits(s, bits, nbits, out);
    hide Tracks, Shifted;
    if nbits == 0 {
      Track0(s, bits, out, v);
    } else if nbits == 2 {
      Track2(s, bits, out, v);
    } else if nbits == 4 {
      Track4(s, bits, out, v);
    } else {
      Track6(s, bits, out, v);
    }
  }

  lemma ValuesStep(body: string, i: nat)
    requires i < |body| && AllLetters(body[..i]) && IsLetter(body[i])
    ensures AllLetters(body[..i + 1]) && Values(body[..i + 1]) == Values(body[..i]) + [Position(body[i])]
  {
    hide Position;
    hide IsLetter;
  }

  lemma NotAllLetters(body: string, i: nat)
    requires i < |body| && !IsLetter(body[i])
    ensures !AllLetters(body)
  {
  }

  /** One turn of the loop: shift six bits in and, once eight are there, emit a byte. */
  method TakeSextet(ghost s: seq<Sextet>, bits: U32, nbits: nat, out: seq<Byte>, v: Sextet)
    returns (bits': U32, nbits': nat, out': seq<Byte>)
    requires Tracks(s, bits, nbits, out)
    ensures Tracks(s + [v], bits', nbits', out')
  {
    TracksStep(s, bits, nbits, out, v);
    bits', nbits', out' := Shifted(bits, v), nbits + 6, out;
    if nbits' >= 8 {
      nbits' := nbits' - 8;
      out' := out + [bits' / Scale(nbits') % 256];
    }
  }

  /** decode_b64_hex: "" when a letter before the first '=' is not in the alphabet, else the hex of the
      decoded bytes. */
  method DecodeB64Hex(t: string) returns (r: string, ghost decoded: seq<Byte>)
    ensures !AllLetters(Body(t)) ==> r == ""
    ensures AllLetters(Body(t)) ==> Decodes(Values(Body(t)), decoded) && r == Hex(decoded)
  {
    TracksNothing(Body(t));
    hide Tracks;
    hide Decodes;
    hide Position;
    hide Values;
    hide IsLetter;
    hide Body;
    hide Letter;
    hide Hex;
    hide AllLetters;
    var bits: U32, nbits: nat := 0, 0;
    var out: seq<Byte> := [];
    ghost var body := Body(t);
    for i := 0 to |t|
      invariant i <= |body| && AllLetters(body[..i])
      invariant Tracks(Values(body[..i]), bits, nbits, out)
    {
      if t[i] == '=' {
        assert i == |body|;
        break;
      }
      assert i < |body| && body[i] == t[i];
      var v := Position(t[i]);
      if v < 0 {
        NotAllLetters(body, i);
        return "", [];
      }
      ValuesStep(body, i);
      bits, nbits, out := TakeSextet(Values(body[..i]), bits, nbits, out, v);
    }
    assert body[..|body|] == body;
    TracksDecodes(Values(body), bits, nbits, out);
    return Hex(out), out;
  }

  lemma TracksNothing(body: string)
    ensures AllLetters(body[..0]) && Tracks(Values(body[..0]), 0, 0, [])
  {
    hide Position;
    assert |Values(body[..0])| == 0;
  }

  lemma TracksDecodes(s: seq<Sextet>, bits: U32, nbits: nat, out: seq<Byte>)
    requires Tracks(s, bits, nbits, out)
    ensures Decodes(s, out)
  {
    assert nbits in {0, 2, 4, 6};
  }

  // ---- decoding what was encoded ----

  lemma {:induction false} SextetsAppend(a: seq<Byte>, b: seq<Byte>)
    requires |a| % 3 == 0
    ensures Sextets(a + b) == Sextets(a) + Sextets(b)
  {
    if a == [] {
      assert a + b == b;
    } else {
      assert (a + b)[3..] == a[3..] + b;
      SextetsAppend(a[3..], b);
    }
  }

  lemma SextetsOne(a: Byte)
    ensures Sextets([a]) == [a / 4] + [a % 4 * 16]
  {
  }

  lemma SextetsTwo(a: Byte, b: Byte)
    ensures Sextets([a, b]) == [a / 4] + [a % 4 * 16 + b / 16] + [b % 16 * 4]
  {
  }

  lemma SextetsThree(a: Byte, b: Byte, c: Byte)
    ensures Sextets([a, b, c]) == [a / 4] + [a % 4 * 16 + b / 16] + [b % 16 * 4 + c / 64] + [c % 64]
  {
    assert [a, b, c][3..] == [];
    assert Sextets([]) == [];
  }

  lemma ThreeMore(x: seq<Sextet>, front: seq<Byte>, a: Byte, b: Byte, c: Byte)
    requires SextetNumber(x) == ByteNumber(front)
    ensures SextetNumber(x + [a / 4] + [a % 4 * 16 + b / 16] + [b % 16 * 4 + c / 64] + [c % 64]) == ByteNumber(front + [a] + [b] + [c])
  {
    SextetNumberAppend(x, a / 4);
    SextetNumberAppend(x + [a / 4], a % 4 * 16 + b / 16);
    SextetNumberAppend(x + [a / 4] + [a % 4 * 16 + b / 16], b % 16 * 4 + c / 64);
    SextetNumberAppend(x + [a / 4] + [a % 4 * 16 + b / 16] + [b % 16 * 4 + c / 64], c % 64);
    ByteNumberAppend(front, a);
    ByteNumberAppend(front + [a], b);
    ByteNumberAppend(front + [a] + [b], c);
    Three(a, b, c);
  }

  lemma Three(a: Byte, b: Byte, c: Byte)
    ensures (((a / 4) * 64 + (a % 4 * 16 + b / 16)) * 64 + (b % 16 * 4 + c / 64)) * 64 + c % 64 == (a * 256 + b) * 256 + c
  {
  }

  /** Whole groups of three bytes spell the same number in base 64 as in base 256. */
  lemma {:induction false} AlignedNumber(b: seq<Byte>)
    requires |b| % 3 == 0
    ensures SextetNumber(Sextets(b)) == ByteNumber(b)
    decreases |b|
  {
    hide Sextets;
    hide SextetNumber;
    hide ByteNumber;
    if b != [] {
      var front, t := b[..|b| - 3], b[|b| - 3..];
      assert b == front + t;
      AlignedNumber(front);
      SextetsAppend(front, t);
      assert t == [t[0], t[1], t[2]];
      SextetsThree(t[0], t[1], t[2]);
      assert Sextets(b) == Sextets(front) + [t[0] / 4] + [t[0] % 4 * 16 + t[1] / 16] + [t[1] % 16 * 4 + t[2] / 64] + [t[2] % 64];
      assert b == front + [t[0]] + [t[1]] + [t[2]];
      ThreeMore(Sextets(front), front, t[0], t[1], t[2]);
    } else {
      EmptyNumbers();
    }
  }

  lemma EmptyNumbers()
    ensures SextetNumber(Sextets([])) == ByteNumber([]) == 0
  {
  }

  /** A number that ends in zero bits decodes to what stands above them. */
  lemma ExactDecodes(s: seq<Sextet>, b: seq<Byte>, pad: nat)
    requires pad in {0, 2, 4} && 6 * |s| == 8 * |b| + pad && SextetNumber(s) == ByteNumber(b) * Scale(pad)
    ensures Decodes(s, b)
  {
    DivMod(|b|, pad, 8);
    DivMod(ByteNumber(b), 0, Scale(pad));
  }

  lemma LastOne(x: seq<Sextet>, front: seq<Byte>, a: Byte)
    requires SextetNumber(x) == ByteNumber(front)
    ensures SextetNumber(x + [a / 4] + [a % 4 * 16]) == ByteNumber(front + [a]) * 16
  {
    SextetNumberAppend(x, a / 4);
    SextetNumberAppend(x + [a / 4], a % 4 * 16);
    ByteNumberAppend(front, a);
  }

  lemma LastTwo(x: seq<Sextet>, front: seq<Byte>, a: Byte, b: Byte)
    requires SextetNumber(x) == ByteNumber(front)
    ensures SextetNumber(x + [a / 4] + [a % 4 * 16 + b / 16] + [b % 16 * 4]) == ByteNumber(front + [a] + [b]) * 4
  {
    SextetNumberAppend(x, a / 4);
    SextetNumberAppend(x + [a / 4], a % 4 * 16 + b / 16);
    SextetNumberAppend(x + [a / 4] + [a % 4 * 16 + b / 16], b % 16 * 4);
    ByteNumberAppend(front, a);
    ByteNumberAppend(front + [a], b);
  }

  /** Encoding any bytes and decoding the letters gives the bytes back. */
  lemma SextetsDecode(b: seq<Byte>)
    ensures Decodes(Sextets(b), b)
  {
    hide SextetNumber;
    hide ByteNumber;
    hide Decodes;
    hide Sextets;
    var n := |b| - |b| % 3;
    var front, t := b[..n], b[n..];
    assert b == front + t;
    AlignedNumber(front);
    SextetsAppend(front, t);
    var x := Sextets(front);
    if |t| == 0 {
      assert front == b;
      ExactDecodes(x, b, 0);
    } else if |t| == 1 {
      assert t == [t[0]];
      SextetsOne(t[0]);
      assert Sextets(b) == x + [t[0] / 4] + [t[0] % 4 * 16] && b == front + [t[0]];
      LastOne(x, front, t[0]);
      ExactDecodes(Sextets(b), b, 4);
    } else {
      assert t == [t[0], t[1]];
      SextetsTwo(t[0], t[1]);
      assert Sextets(b) == x + [t[0] / 4] + [t[0] % 4 * 16 + t[1] / 16] + [t[1] % 16 * 4] && b == front + [t[0]] + [t[1]];
      LastTwo(x, front, t[0], t[1]);
      ExactDecodes(Sextets(b), b, 2);
    }
  }

  lemma LetterNotPad(v: Sextet)
    ensures Letter(v) != '='
  {
    LetterCodes(v);
  }

  lemma {:induction false} BodyOfText(s: seq<Sextet>, pad: string)
    requires pad == "" || pad[0] == '='
    ensures Body(Text(s) + pad) == Text(s)
  {
    hide Letter;
    if s == [] {
      assert Text(s) + pad == pad;
    } else {
      LetterNotPad(s[0]);
      assert (Text(s) + pad)[1..] == Text(s[1..]) + pad;
      BodyOfText(s[1..], pad);
    }
  }

  /** The round trip: of an encoding, padded or not, the decoder sees nothing but letters, and they decode to
      the original bytes and to no others. */
  lemma RoundTrip(b: seq<Byte>, padded: bool)
    ensures AllLetters(Body(Encode(b, padded)))
    ensures forall d: seq<Byte> :: Decodes(Values(Body(Encode(b, padded))), d) <==> d == b
  {
    var s := Sextets(b);
    BodyOfText(s, if padded then (if |b| % 3 == 1 then "==" else if |b| % 3 == 2 then "=" else "") else "");
    var body := Body(Encode(b, padded));
    forall i | 0 <= i < |s| ensures IsLetter(body[i]) && Position(body[i]) == s[i] {
      PositionOfLetter(s[i]);
    }
    assert Values(body) == s;
    SextetsDecode(b);
    forall d: seq<Byte> | Decodes(s, d) ensures d == b {
      DecodesUnique(s, d, b);
    }
  }
}
