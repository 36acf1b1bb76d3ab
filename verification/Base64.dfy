/** The base64 codec of src/util/base64.ts, against section 4 of RFC 4648. */
module Base64 {
  import opened Bytes

  type Digit = d: int | 0 <= d < 64

  /** Table 1 of that section. The functions below compute it; the statements about whole texts are in its terms. */
  const ALPHABET: string := "ABCDEFGHIJKLMNOPQRSTUVWXYZ" + "abcdefghijklmnopqrstuvwxyz" + "0123456789+/"

  // ------------------------------------------------------------ the encoding

  /** The character of a digit: A-Z, a-z, 0-9, '+' and '/'. */
  function CharOf(d: Digit): char {
    if d < 26 then 'A' + d as char
    else if d < 52 then 'a' + (d - 26) as char
    else if d < 62 then '0' + (d - 52) as char
    else if d == 62 then '+' else '/'
  }

  /** The digit a character stands for, or -1. */
  function CodeOf(c: char): (code: int)
    ensures -1 <= code < 64
    ensures code >= 0 ==> CharOf(code) == c
  {
    if 'A' <= c <= 'Z' then (c - 'A') as int
    else if 'a' <= c <= 'z' then (c - 'a') as int + 26
    else if '0' <= c <= '9' then (c - '0') as int + 52
    else if c == '+' then 62
    else if c == '/' then 63
    else -1
  }

  predicate IsSpace(c: char) { c == ' ' || c == '\n' || c == '\r' || c == '\t' }

  lemma CodeOfChar(d: Digit)
    ensures CodeOf(CharOf(d)) == d && CharOf(d) != '=' && !IsSpace(CharOf(d))
  {
  }

  /** Byte `i`, with zero bits to the right of the last one. */
  function Padded(bytes: seq<Byte>, i: nat): Byte {
    if i < |bytes| then bytes[i] else 0
  }

  /** The `r`-th of the four groups of six bits that bytes 3q, 3q + 1 and 3q + 2 make. */
  function DigitIn(bytes: seq<Byte>, q: nat, r: nat): Digit
    requires r < 4
  {
    var a: int, b: int, c: int := Padded(bytes, 3 * q), Padded(bytes, 3 * q + 1), Padded(bytes, 3 * q + 2);
    match r
    case 0 => a / 4
    case 1 => a % 4 * 16 + b / 16
    case 2 => b % 16 * 4 + c / 64
    case _ => c % 64
  }

  function DigitAt(bytes: seq<Byte>, k: nat): Digit { DigitIn(bytes, k / 4, k % 4) }

  function DigitCount(n: nat): nat { (4 * n + 2) / 3 }

  function PadCount(n: nat): nat { if n % 3 == 0 then 0 else 3 - n % 3 }

  function Pad(n: nat): string { seq(n, _ => '=') }

  /** As many digits as the bits need, filled up with '=' to a multiple of four. */
  function Encode(bytes: seq<Byte>): string {
    seq(DigitCount(|bytes|), k requires 0 <= k < DigitCount(|bytes|) => CharOf(DigitAt(bytes, k))) + Pad(PadCount(|bytes|))
  }

  function Base64Length(n: nat): nat { (n + 2) / 3 * 4 }

  /** The length of an encoding, as budgets compute it without encoding. */
  lemma EncodedLength(bytes: seq<Byte>)
    ensures |Encode(bytes)| == Base64Length(|bytes|)
  {
    Thirds(|bytes|);
    hide DigitCount, PadCount, Base64Length, DigitAt;
  }

  /** Three bytes to four characters, and what a rest of one or two comes to. */
  lemma Thirds(n: nat)
    ensures DigitCount(n) + PadCount(n) == Base64Length(n)
    ensures DigitCount(n) == 4 * (n / 3) + (if n % 3 == 0 then 0 else n % 3 + 1)
    ensures DigitCount(n) % 4 != 1 && 3 * DigitCount(n) / 4 == n
  {
    var q, r := n / 3, n % 3;
    assert n == 3 * q + r;
    var d := if r == 0 then 0 else r + 1;
    assert 4 * n + 2 == 3 * (4 * q + d) + (4 * r + 2 - 3 * d);
    assert DigitCount(n) == 4 * q + d;
  }

  // ------------------------------------------------------------ the decoding

  function Strip(text: string): string {
    if text == [] then []
    else
      var c := text[|text| - 1];
      Strip(text[..|text| - 1]) + (if IsSpace(c) then [] else [c])
  }

  /** How many characters are left of at most two trailing '='. */
  function Unpadded(clean: string): (end: nat)
    ensures end <= |clean|
  {
    var n := |clean|;
    if n > 0 && clean[n - 1] == '=' then (if n > 1 && clean[n - 2] == '=' then n - 2 else n - 1) else n
  }

  datatype Decoding = Decoded(bytes: seq<Byte>) | BadLength | BadCharacter(index: nat)

  /** The `r`-th of the three groups of eight bits that digits 4q to 4q + 3 make. */
  function ByteIn(digits: seq<Digit>, q: nat, r: nat): Byte
    requires r < 3 && 4 * q + r + 1 < |digits|
  {
    var a: int, b: int := digits[4 * q + r], digits[4 * q + r + 1];
    match r
    case 0 => a * 4 + b / 16
    case 1 => a % 16 * 16 + b / 4
    case _ => a % 4 * 64 + b
  }

  function ByteAt(digits: seq<Digit>, j: nat): Byte
    requires j < 3 * |digits| / 4
  {
    ByteIn(digits, j / 3, j % 3)
  }

  function Joined(digits: seq<Digit>): seq<Byte> {
    seq(3 * |digits| / 4, j requires 0 <= j < 3 * |digits| / 4 => ByteAt(digits, j))
  }

  /** The digits of a text, or the first character that is none. */
  function Digits(text: string): (r: (seq<Digit>, bool))
    ensures |r.0| <= |text| && (r.1 ==> |r.0| == |text|)
    ensures forall k :: 0 <= k < |r.0| ==> r.0[k] == CodeOf(text[k])
    ensures !r.1 ==> |r.0| < |text| && CodeOf(text[|r.0|]) == -1
    ensures (forall k :: 0 <= k < |text| ==> CodeOf(text[k]) >= 0) ==> r.1
  {
    if text == [] then ([], true)
    else if CodeOf(text[0]) < 0 then ([], false)
    else
      var (rest, ok) := Digits(text[1..]);
      ([CodeOf(text[0])] + rest, ok)
  }

  function Decode(text: string): Decoding {
    var clean := Strip(text);
    var end := Unpadded(clean);
    var (digits, ok) := Digits(clean[..end]);
    if end % 4 == 1 then BadLength
    else if !ok then BadCharacter(|digits|)
    else Decoded(Joined(digits))
  }

  // ------------------------------------------------------------ round trip

  lemma Regrouped(a: int, b: int, c: int)
    requires 0 <= a < 256 && 0 <= b < 256 && 0 <= c < 256
    ensures a / 4 * 4 + (a % 4 * 16 + b / 16) / 16 == a
    ensures (a % 4 * 16 + b / 16) % 16 * 16 + (b % 16 * 4 + c / 64) / 4 == b
    ensures (b % 16 * 4 + c / 64) % 4 * 64 + c % 64 == c
  {
  }

  /** One byte, from the digits it was split over. */
  lemma ByteRejoined(bytes: seq<Byte>, digits: seq<Digit>, q: nat, r: nat)
    requires |digits| == DigitCount(|bytes|) && forall k :: 0 <= k < |digits| ==> digits[k] == DigitAt(bytes, k)
    requires r < 3 && 3 * q + r < |bytes|
    ensures 4 * q + r + 1 < |digits| && ByteIn(digits, q, r) == bytes[3 * q + r]
  {
    Thirds(|bytes|);
    assert 3 * q + r <= 3 * (|bytes| / 3) + |bytes| % 3 - 1;
    Quarter(q, r);
    Quarter(q, r + 1);
    assert digits[4 * q + r] == DigitIn(bytes, q, r) && digits[4 * q + r + 1] == DigitIn(bytes, q, r + 1);
    Regrouped(Padded(bytes, 3 * q), Padded(bytes, 3 * q + 1), Padded(bytes, 3 * q + 2));
  }

  lemma JoinInvertsSplit(bytes: seq<Byte>, digits: seq<Digit>)
    requires |digits| == DigitCount(|bytes|) && forall k :: 0 <= k < |digits| ==> digits[k] == DigitAt(bytes, k)
    ensures Joined(digits) == bytes
  {
    hide DigitAt, DigitIn, ByteIn, DigitCount;
    Thirds(|bytes|);
    forall j | 0 <= j < |bytes| ensures ByteAt(digits, j) == bytes[j] {
      ByteRejoined(bytes, digits, j / 3, j % 3);
    }
  }

  lemma Quarter(q: nat, r: nat)
    requires r < 4
    ensures (4 * q + r) / 4 == q && (4 * q + r) % 4 == r
  {
  }

  lemma DigitsOf(text: string, bytes: seq<Byte>, n: nat)
    requires n <= |text| && forall k :: 0 <= k < n ==> text[k] == CharOf(DigitAt(bytes, k))
    ensures var (digits, ok) := Digits(text[..n]);
            ok && |digits| == n && forall k :: 0 <= k < n ==> digits[k] == DigitAt(bytes, k)
  {
    forall k | 0 <= k < n ensures CodeOf(text[k]) == DigitAt(bytes, k) { CodeOfChar(DigitAt(bytes, k)); }
  }

  /** Whatever whitespace is mixed in anywhere, decoding an encoding returns the bytes. */
  lemma DecodeInvertsEncode(bytes: seq<Byte>, text: string)
    requires Strip(text) == Encode(bytes)
    ensures Decode(text) == Decoded(bytes)
  {
    var clean, end := Encode(bytes), DigitCount(|bytes|);
    EncodedEnds(bytes);
    DigitsOf(clean, bytes, end);
    JoinInvertsSplit(bytes, Digits(clean[..end]).0);
    hide Strip, Encode, Digits, Joined, DigitCount, Unpadded;
  }

  /** The padding of an encoding is just what the decoder takes off. */
  lemma EncodedEnds(bytes: seq<Byte>)
    ensures var clean, end := Encode(bytes), DigitCount(|bytes|);
            && end <= |clean| && Unpadded(clean) == end && end % 4 != 1
            && forall k :: 0 <= k < end ==> clean[k] == CharOf(DigitAt(bytes, k))
  {
    Thirds(|bytes|);
    hide DigitCount, DigitAt, CharOf, Unpadded;
    var end := DigitCount(|bytes|);
    var digits := seq(end, k requires 0 <= k < end => CharOf(DigitAt(bytes, k)));
    if end > 0 { CodeOfChar(DigitAt(bytes, end - 1)); }
    assert Encode(bytes) == digits + Pad(PadCount(|bytes|));
    PaddedEnds(digits, PadCount(|bytes|));
  }

  lemma PaddedEnds(digits: string, p: nat)
    requires p <= 2 && (digits == "" ==> p == 0) && (digits != "" ==> digits[|digits| - 1] != '=')
    ensures Unpadded(digits + Pad(p)) == |digits|
  {
  }

  lemma {:induction false} StripConcat(a: string, b: string)
    ensures Strip(a + b) == Strip(a) + Strip(b)
  {
    if b == [] {
      assert a + b == a;
    } else {
      assert (a + b)[..|a + b| - 1] == a + b[..|b| - 1];
      StripConcat(a, b[..|b| - 1]);
    }
  }

  lemma {:induction false} StripKeeps(a: string)
    requires forall i :: 0 <= i < |a| ==> !IsSpace(a[i])
    ensures Strip(a) == a
  {
    if a != [] { StripKeeps(a[..|a| - 1]); }
  }

  lemma {:induction false} StripDrops(w: string)
    requires forall i :: 0 <= i < |w| ==> IsSpace(w[i])
    ensures Strip(w) == []
  {
    if w != [] { StripDrops(w[..|w| - 1]); }
  }

  /** Whitespace spliced in anywhere changes nothing. */
  lemma WhitespaceIsFree(before: string, space: string, after: string)
    requires forall i :: 0 <= i < |space| ==> space[i] in " \n\r\t"
    ensures Decode(before + space + after) == Decode(before + after)
  {
    StripDrops(space);
    StripConcat(before + space, after);
    StripConcat(before, space);
    StripConcat(before, after);
    assert Strip(before + space + after) == Strip(before + after);
  }

  lemma RoundTrip(bytes: seq<Byte>)
    ensures Decode(Encode(bytes)) == Decoded(bytes)
  {
    forall k | 0 <= k < DigitCount(|bytes|) ensures !IsSpace(CharOf(DigitAt(bytes, k))) { CodeOfChar(DigitAt(bytes, k)); }
    StripKeeps(Encode(bytes));
    DecodeInvertsEncode(bytes, Encode(bytes));
  }

  // ------------------------------------------------------------ what the characters say, bit by bit

  /** Bit `i` of the bytes, the highest of each byte first; zero beyond them. */
  function Bit(bytes: seq<Byte>, i: nat): int {
    if i / 8 < |bytes| then bytes[i / 8] as int / [128, 64, 32, 16, 8, 4, 2, 1][i % 8] % 2 else 0
  }

  /** Six bits from bit `i` on, as a number. */
  function SixFrom(bytes: seq<Byte>, i: nat): int {
    32 * Bit(bytes, i) + 16 * Bit(bytes, i + 1) + 8 * Bit(bytes, i + 2)
    + 4 * Bit(bytes, i + 3) + 2 * Bit(bytes, i + 4) + Bit(bytes, i + 5)
  }

  lemma BitOf(bytes: seq<Byte>, m: nat, j: nat)
    requires j < 8
    ensures Bit(bytes, 8 * m + j) == Padded(bytes, m) as int / [128, 64, 32, 16, 8, 4, 2, 1][j] % 2
  {
    assert (8 * m + j) / 8 == m && (8 * m + j) % 8 == j;
  }

  lemma BitsOf(bytes: seq<Byte>, m: nat)
    ensures var a: int := Padded(bytes, m);
            && Bit(bytes, 8 * m) == a / 128 % 2 && Bit(bytes, 8 * m + 1) == a / 64 % 2
            && Bit(bytes, 8 * m + 2) == a / 32 % 2 && Bit(bytes, 8 * m + 3) == a / 16 % 2
            && Bit(bytes, 8 * m + 4) == a / 8 % 2 && Bit(bytes, 8 * m + 5) == a / 4 % 2
            && Bit(bytes, 8 * m + 6) == a / 2 % 2 && Bit(bytes, 8 * m + 7) == a % 2
  {
    hide Bit, Padded;
    BitOf(bytes, m, 0); BitOf(bytes, m, 1); BitOf(bytes, m, 2); BitOf(bytes, m, 3);
    BitOf(bytes, m, 4); BitOf(bytes, m, 5); BitOf(bytes, m, 6); BitOf(bytes, m, 7);
  }

  /** The parts of a byte, from its bits. */
  lemma ByteBits(a: int)
    requires 0 <= a < 256
    ensures 32 * (a / 128 % 2) + 16 * (a / 64 % 2) + 8 * (a / 32 % 2) + 4 * (a / 16 % 2) + 2 * (a / 8 % 2) + a / 4 % 2 == a / 4
    ensures 2 * (a / 2 % 2) + a % 2 == a % 4
    ensures 8 * (a / 128 % 2) + 4 * (a / 64 % 2) + 2 * (a / 32 % 2) + a / 16 % 2 == a / 16
    ensures 8 * (a / 8 % 2) + 4 * (a / 4 % 2) + 2 * (a / 2 % 2) + a % 2 == a % 16
    ensures 2 * (a / 128 % 2) + a / 64 % 2 == a / 64
    ensures 32 * (a / 32 % 2) + 16 * (a / 16 % 2) + 8 * (a / 8 % 2) + 4 * (a / 4 % 2) + 2 * (a / 2 % 2) + a % 2 == a % 64
  {
    Halves(a);
    Remainders(a);
    Halved(a); Halved(a / 2); Halved(a / 4); Halved(a / 8); Halved(a / 16); Halved(a / 32); Halved(a / 64);
    FromBits(a, a / 2, a / 4, a / 8, a / 16, a / 32, a / 64, a / 128,
             a % 2, a / 2 % 2, a / 4 % 2, a / 8 % 2, a / 16 % 2, a / 32 % 2, a / 64 % 2);
  }

  lemma Halved(x: int)
    ensures x == 2 * (x / 2) + x % 2
  {
  }

  lemma Remainders(a: int)
    ensures a % 4 == a - 4 * (a / 4) && a % 16 == a - 16 * (a / 16) && a % 64 == a - 64 * (a / 64)
    ensures 0 <= a < 256 ==> a / 128 % 2 == a / 128
  {
  }

  lemma FromBits(a: int, a1: int, a2: int, a3: int, a4: int, a5: int, a6: int, a7: int,
                 b0: int, b1: int, b2: int, b3: int, b4: int, b5: int, b6: int)
    requires a == 2 * a1 + b0 && a1 == 2 * a2 + b1 && a2 == 2 * a3 + b2 && a3 == 2 * a4 + b3
    requires a4 == 2 * a5 + b4 && a5 == 2 * a6 + b5 && a6 == 2 * a7 + b6
    ensures 32 * a7 + 16 * b6 + 8 * b5 + 4 * b4 + 2 * b3 + b2 == a2 && 8 * a7 + 4 * b6 + 2 * b5 + b4 == a4 && 2 * a7 + b6 == a6
    ensures 2 * b1 + b0 == a - 4 * a2 && 8 * b3 + 4 * b2 + 2 * b1 + b0 == a - 16 * a4
    ensures 32 * b5 + 16 * b4 + 8 * b3 + 4 * b2 + 2 * b1 + b0 == a - 64 * a6
  {
  }

  lemma Halves(a: int)
    requires 0 <= a < 256
    ensures a / 4 == a / 2 / 2 && a / 8 == a / 4 / 2 && a / 16 == a / 8 / 2 && a / 32 == a / 16 / 2
    ensures a / 64 == a / 32 / 2 && a / 128 == a / 64 / 2
  {
  }

  // the parts of byte m, from its bits

  lemma High6(bytes: seq<Byte>, m: nat)
    ensures 32 * Bit(bytes, 8 * m) + 16 * Bit(bytes, 8 * m + 1) + 8 * Bit(bytes, 8 * m + 2) + 4 * Bit(bytes, 8 * m + 3) + 2 * Bit(bytes, 8 * m + 4) + Bit(bytes, 8 * m + 5) == Padded(bytes, m) as int / 4
  {
    hide Bit, Padded;
    BitsOf(bytes, m);
    ByteBits(Padded(bytes, m));
  }

  lemma Low2(bytes: seq<Byte>, m: nat)
    ensures 2 * Bit(bytes, 8 * m + 6) + Bit(bytes, 8 * m + 7) == Padded(bytes, m) as int % 4
  {
    hide Bit, Padded;
    BitsOf(bytes, m);
    ByteBits(Padded(bytes, m));
  }

  lemma High4(bytes: seq<Byte>, m: nat)
    ensures 8 * Bit(bytes, 8 * m) + 4 * Bit(bytes, 8 * m + 1) + 2 * Bit(bytes, 8 * m + 2) + Bit(bytes, 8 * m + 3) == Padded(bytes, m) as int / 16
  {
    hide Bit, Padded;
    BitsOf(bytes, m);
    ByteBits(Padded(bytes, m));
  }

  lemma Low4(bytes: seq<Byte>, m: nat)
    ensures 8 * Bit(bytes, 8 * m + 4) + 4 * Bit(bytes, 8 * m + 5) + 2 * Bit(bytes, 8 * m + 6) + Bit(bytes, 8 * m + 7) == Padded(bytes, m) as int % 16
  {
    hide Bit, Padded;
    BitsOf(bytes, m);
    ByteBits(Padded(bytes, m));
  }

  lemma High2(bytes: seq<Byte>, m: nat)
    ensures 2 * Bit(bytes, 8 * m) + Bit(bytes, 8 * m + 1) == Padded(bytes, m) as int / 64
  {
    hide Bit, Padded;
    BitsOf(bytes, m);
    ByteBits(Padded(bytes, m));
  }

  lemma Low6(bytes: seq<Byte>, m: nat)
    ensures 32 * Bit(bytes, 8 * m + 2) + 16 * Bit(bytes, 8 * m + 3) + 8 * Bit(bytes, 8 * m + 4) + 4 * Bit(bytes, 8 * m + 5) + 2 * Bit(bytes, 8 * m + 6) + Bit(bytes, 8 * m + 7) == Padded(bytes, m) as int % 64
  {
    hide Bit, Padded;
    BitsOf(bytes, m);
    ByteBits(Padded(bytes, m));
  }

  lemma Digit0(bytes: seq<Byte>, q: nat)
    ensures DigitIn(bytes, q, 0) as int == SixFrom(bytes, 24 * q)
  {
    hide Bit, Padded, SixFrom;
    SixFromAt(bytes, 3 * q, 0);
    High6(bytes, 3 * q);
  }

  lemma Digit1(bytes: seq<Byte>, q: nat)
    ensures DigitIn(bytes, q, 1) as int == SixFrom(bytes, 24 * q + 6)
  {
    hide Bit, Padded, SixFrom;
    SixFromAt(bytes, 3 * q, 1);
    Low2(bytes, 3 * q);
    High4(bytes, 3 * q + 1);
  }

  lemma Digit2(bytes: seq<Byte>, q: nat)
    ensures DigitIn(bytes, q, 2) as int == SixFrom(bytes, 24 * q + 12)
  {
    hide Bit, Padded, SixFrom;
    SixFromAt(bytes, 3 * q, 2);
    Low4(bytes, 3 * q + 1);
    High2(bytes, 3 * q + 2);
  }

  lemma Digit3(bytes: seq<Byte>, q: nat)
    ensures DigitIn(bytes, q, 3) as int == SixFrom(bytes, 24 * q + 18)
  {
    hide Bit, Padded, SixFrom;
    SixFromAt(bytes, 3 * q, 3);
    Low6(bytes, 3 * q + 2);
  }

  /** The six bits, as bits of the three bytes they are in. */
  lemma SixFromAt(bytes: seq<Byte>, m: nat, r: nat)
    requires r < 4
    ensures SixFrom(bytes, 8 * m + 6 * r) ==
              match r
              case 0 => 32 * Bit(bytes, 8 * m) + 16 * Bit(bytes, 8 * m + 1) + 8 * Bit(bytes, 8 * m + 2)
                        + 4 * Bit(bytes, 8 * m + 3) + 2 * Bit(bytes, 8 * m + 4) + Bit(bytes, 8 * m + 5)
              case 1 => 32 * Bit(bytes, 8 * m + 6) + 16 * Bit(bytes, 8 * m + 7) + 8 * Bit(bytes, 8 * (m + 1))
                        + 4 * Bit(bytes, 8 * (m + 1) + 1) + 2 * Bit(bytes, 8 * (m + 1) + 2) + Bit(bytes, 8 * (m + 1) + 3)
              case 2 => 32 * Bit(bytes, 8 * (m + 1) + 4) + 16 * Bit(bytes, 8 * (m + 1) + 5) + 8 * Bit(bytes, 8 * (m + 1) + 6)
                        + 4 * Bit(bytes, 8 * (m + 1) + 7) + 2 * Bit(bytes, 8 * (m + 2)) + Bit(bytes, 8 * (m + 2) + 1)
              case _ => 32 * Bit(bytes, 8 * (m + 2) + 2) + 16 * Bit(bytes, 8 * (m + 2) + 3) + 8 * Bit(bytes, 8 * (m + 2) + 4)
                        + 4 * Bit(bytes, 8 * (m + 2) + 5) + 2 * Bit(bytes, 8 * (m + 2) + 6) + Bit(bytes, 8 * (m + 2) + 7)
  {
    hide Bit;
  }

  lemma DigitIsSixBits(bytes: seq<Byte>, k: nat)
    ensures DigitAt(bytes, k) as int == SixFrom(bytes, 6 * k)
  {
    hide SixFrom, DigitIn;
    var q := k / 4;
    Digit0(bytes, q);
    Digit1(bytes, q);
    Digit2(bytes, q);
    Digit3(bytes, q);
    assert k == 4 * q || k == 4 * q + 1 || k == 4 * q + 2 || k == 4 * q + 3;
  }

  lemma UpperIs(d: int)
    requires 0 <= d < 26
    ensures CharOf(d) == "ABCDEFGHIJKLMNOPQRSTUVWXYZ"[d]
  {
  }

  lemma LowerIs(d: int)
    requires 0 <= d < 26
    ensures CharOf(26 + d) == "abcdefghijklmnopqrstuvwxyz"[d]
  {
  }

  lemma OthersAre(d: int)
    requires 0 <= d < 12
    ensures CharOf(52 + d) == "0123456789+/"[d]
  {
  }

  lemma AlphabetIs(d: Digit)
    ensures CharOf(d) == ALPHABET[d]
  {
    hide CharOf;
    if d < 26 { UpperIs(d); } else if d < 52 { LowerIs(d - 26); } else { OthersAre(d - 52); }
  }

  /** A character decodes exactly if it is in the alphabet, to its place there. */
  lemma CodesAre(c: char)
    ensures if CodeOf(c) >= 0 then ALPHABET[CodeOf(c)] == c else c !in ALPHABET
  {
    if CodeOf(c) >= 0 {
      AlphabetIs(CodeOf(c));
    } else if c in ALPHABET {
      var i :| 0 <= i < |ALPHABET| && ALPHABET[i] == c;
      AlphabetIs(i);
      CodeOfChar(i);
    }
  }

  /** The encoding: six bits a character of the alphabet, then '=' up to a multiple of four. */
  lemma EncodingIs(bytes: seq<Byte>)
    ensures |Encode(bytes)| == (|bytes| + 2) / 3 * 4
    ensures forall k :: 0 <= k < |Encode(bytes)| ==>
              0 <= SixFrom(bytes, 6 * k) < 64
              && Encode(bytes)[k] == if 6 * k < 8 * |bytes| then ALPHABET[SixFrom(bytes, 6 * k)] else '='
  {
    EncodedLength(bytes);
    forall k | 0 <= k < |Encode(bytes)|
      ensures 0 <= SixFrom(bytes, 6 * k) < 64
      ensures Encode(bytes)[k] == if 6 * k < 8 * |bytes| then ALPHABET[SixFrom(bytes, 6 * k)] else '='
    {
      DigitIsSixBits(bytes, k);
      AlphabetIs(DigitAt(bytes, k));
      hide DigitAt, SixFrom, CharOf;
    }
  }

  /** What of a digit makes bytes: all of it, but for the last one's bits that fill no byte. */
  function Carried(digits: seq<Digit>, k: nat): int
    requires k < |digits|
  {
    var d: int := digits[k];
    if k + 1 < |digits| || |digits| % 4 == 0 then d else if |digits| % 4 == 2 then d / 16 * 16 else d / 4 * 4
  }

  lemma WholeCarried(digits: seq<Digit>, k: nat)
    requires k + 1 < |digits| || (k < |digits| && |digits| % 4 == 0)
    ensures Carried(digits, k) == digits[k] as int
  {
  }

  lemma LastCarried(digits: seq<Digit>, k: nat)
    requires k + 1 == |digits|
    ensures |digits| % 4 == 2 ==> Carried(digits, k) == digits[k] as int / 16 * 16
    ensures |digits| % 4 == 3 ==> Carried(digits, k) == digits[k] as int / 4 * 4
  {
  }

  lemma DigitInIs(bytes: seq<Byte>, q: nat)
    ensures DigitIn(bytes, q, 0) as int == Padded(bytes, 3 * q) as int / 4
    ensures DigitIn(bytes, q, 1) as int == Padded(bytes, 3 * q) as int % 4 * 16 + Padded(bytes, 3 * q + 1) as int / 16
    ensures DigitIn(bytes, q, 2) as int == Padded(bytes, 3 * q + 1) as int % 16 * 4 + Padded(bytes, 3 * q + 2) as int / 64
    ensures DigitIn(bytes, q, 3) as int == Padded(bytes, 3 * q + 2) as int % 64
  {
    hide Padded;
  }

  lemma Group0(digits: seq<Digit>, q: nat)
    requires 4 * q + 1 < |digits|
    ensures DigitIn(Joined(digits), q, 0) as int == Carried(digits, 4 * q)
  {
    hide Joined, Padded, DigitIn, Carried;
    DigitInIs(Joined(digits), q);
    FirstByte(digits, q);
    WholeCarried(digits, 4 * q);
  }

  lemma Group1(digits: seq<Digit>, q: nat)
    requires 4 * q + 1 < |digits|
    ensures DigitIn(Joined(digits), q, 1) as int == Carried(digits, 4 * q + 1)
  {
    hide Joined, Padded, DigitIn, Carried;
    DigitInIs(Joined(digits), q);
    FirstByte(digits, q);
    if 4 * q + 2 < |digits| {
      SecondByte(digits, q);
      WholeCarried(digits, 4 * q + 1);
      SplitAt16(digits[4 * q + 1]);
    } else {
      NoByte(digits, q, 1);
      LastCarried(digits, 4 * q + 1);
    }
  }

  lemma Group2(digits: seq<Digit>, q: nat)
    requires 4 * q + 2 < |digits|
    ensures DigitIn(Joined(digits), q, 2) as int == Carried(digits, 4 * q + 2)
  {
    hide Joined, Padded, DigitIn, Carried;
    DigitInIs(Joined(digits), q);
    SecondByte(digits, q);
    if 4 * q + 3 < |digits| {
      ThirdByte(digits, q);
      WholeCarried(digits, 4 * q + 2);
      SplitAt16(digits[4 * q + 2]);
    } else {
      NoByte(digits, q, 2);
      LastCarried(digits, 4 * q + 2);
    }
  }

  lemma Group3(digits: seq<Digit>, q: nat)
    requires 4 * q + 3 < |digits|
    ensures DigitIn(Joined(digits), q, 3) as int == Carried(digits, 4 * q + 3)
  {
    hide Joined, Padded, DigitIn, Carried;
    DigitInIs(Joined(digits), q);
    ThirdByte(digits, q);
    WholeCarried(digits, 4 * q + 3);
  }

  lemma SplitAt16(d: int)
    ensures d / 16 * 16 + d % 16 == d && d / 4 * 4 + d % 4 == d
  {
  }

  // the parts of the bytes of the result, and nothing beyond the last

  lemma FirstByte(digits: seq<Digit>, q: nat)
    requires 4 * q + 1 < |digits|
    ensures var a: int := Padded(Joined(digits), 3 * q);
            a / 4 == digits[4 * q] as int && a % 4 * 16 == digits[4 * q + 1] as int / 16 * 16
  {
    JoinedAt(digits, q, 0);
    Ungroup(digits[4 * q], digits[4 * q + 1]);
    hide Joined;
  }

  lemma SecondByte(digits: seq<Digit>, q: nat)
    requires 4 * q + 2 < |digits|
    ensures var b: int := Padded(Joined(digits), 3 * q + 1);
            b / 16 == digits[4 * q + 1] as int % 16 && b % 16 * 4 == digits[4 * q + 2] as int / 4 * 4
  {
    JoinedAt(digits, q, 1);
    Ungroup(digits[4 * q + 1], digits[4 * q + 2]);
    hide Joined;
  }

  lemma ThirdByte(digits: seq<Digit>, q: nat)
    requires 4 * q + 3 < |digits|
    ensures var c: int := Padded(Joined(digits), 3 * q + 2);
            c / 64 == digits[4 * q + 2] as int % 4 && c % 64 == digits[4 * q + 3] as int
  {
    JoinedAt(digits, q, 2);
    Ungroup(digits[4 * q + 2], digits[4 * q + 3]);
    hide Joined;
  }

  lemma NoByte(digits: seq<Digit>, q: nat, r: nat)
    requires 1 <= r < 3 && |digits| == 4 * q + r + 1
    ensures Padded(Joined(digits), 3 * q + r) as int == 0
  {
    JoinedLength(digits);
    hide Joined;
  }

  /** The digits are the six-bit groups of what they decode to. */
  lemma JoinedGroups(digits: seq<Digit>, k: nat)
    requires k < |digits| && |digits| % 4 != 1
    ensures DigitAt(Joined(digits), k) as int == Carried(digits, k)
  {
    hide Joined, DigitIn, Carried;
    var q := k / 4;
    assert k == 4 * q || k == 4 * q + 1 || k == 4 * q + 2 || k == 4 * q + 3;
    if k == 4 * q { Group0(digits, q); } else if k == 4 * q + 1 { Group1(digits, q); }
    else if k == 4 * q + 2 { Group2(digits, q); } else { Group3(digits, q); }
  }

  /** Two digits next to each other, and the bytes they are split over, for each of the three alignments. */
  lemma Ungroup(d: int, e: int)
    requires 0 <= d < 64 && 0 <= e < 64
    ensures (d * 4 + e / 16) / 4 == d && (d * 4 + e / 16) % 4 * 16 == e / 16 * 16
    ensures (d % 16 * 16 + e / 4) / 16 == d % 16 && (d % 16 * 16 + e / 4) % 16 * 4 == e / 4 * 4
    ensures (d % 4 * 64 + e) / 64 == d % 4 && (d % 4 * 64 + e) % 64 == e
    ensures d / 16 * 16 + d % 16 == d && d / 4 * 4 + d % 4 == d
  {
  }

  predicate Spaceless(text: string) { forall i :: 0 <= i < |text| ==> text[i] !in " \n\r\t" }

  /** Without at most two '=' at the end. */
  function Trimmed(text: string): string {
    if |text| >= 2 && text[|text| - 2..] == "==" then text[..|text| - 2]
    else if |text| >= 1 && text[|text| - 1..] == "=" then text[..|text| - 1]
    else text
  }

  /** The first character of `body` that is not in the alphabet stands at `k`. */
  predicate FirstStranger(body: string, k: nat) {
    k < |body| && body[k] !in ALPHABET && forall j :: 0 <= j < k ==> body[j] in ALPHABET
  }

  /** `v` is the place of the character in the alphabet. */
  predicate PlaceOf(c: char, v: int) { 0 <= v < 64 && ALPHABET[v] == c }

  /**
   * The six-bit groups of the bytes are the places of the characters in the alphabet, but for the bits of the last one that
   * fill no byte.
   */
  ghost predicate Spells(body: string, bytes: seq<Byte>) {
    && |bytes| == 6 * |body| / 8
    && forall k :: 0 <= k < |body| ==> GroupIs(body[k], SixFrom(bytes, 6 * k),
         if 6 * k + 6 <= 8 * |bytes| then 1 else if |body| % 4 == 2 then 16 else 4)
  }

  /** The group is the place of the character, rounded down to a multiple. */
  ghost predicate GroupIs(c: char, group: int, multiple: int)
    requires multiple > 0
  {
    exists v :: PlaceOf(c, v) && group == v - v % multiple
  }

  /**
   * The decoding of a text without white space: an error for a length no encoding has, or for the first character
   * outside the alphabet; else the bytes that the characters spell.
   */
  lemma DecodingIs(text: string)
    requires Spaceless(text)
    ensures var body, d := Trimmed(text), Decode(text);
            if |body| % 4 == 1 then d == BadLength
            else if exists k :: 0 <= k < |body| && body[k] !in ALPHABET then d.BadCharacter? && FirstStranger(body, d.index)
            else d.Decoded? && Spells(body, d.bytes)
  {
    hide ALPHABET, Strip, Unpadded, Digits, Joined, CodeOf, Trimmed, Spells;
    assert Strip(text) == text by { StripKeeps(text); }
    var body := Trimmed(text);
    assert text[..Unpadded(text)] == body && Unpadded(text) == |body| by { TrimmedIs(text); }
    DigitsAre(body);
    var (digits, ok) := Digits(body);
    if |body| % 4 != 1 && ok { JoinedSpells(body, digits); }
  }

  lemma DigitsAre(body: string)
    ensures var (digits, ok) := Digits(body);
            if exists k :: 0 <= k < |body| && body[k] !in ALPHABET then !ok && FirstStranger(body, |digits|)
            else ok && |digits| == |body| && forall k :: 0 <= k < |body| ==> PlaceOf(body[k], digits[k])
  {
    assert |ALPHABET| == 64;
    hide ALPHABET, Digits, CodeOf;
    var (digits, ok) := Digits(body);
    forall k | 0 <= k < |digits| ensures PlaceOf(body[k], digits[k]) && body[k] in ALPHABET { CodesAre(body[k]); }
    hide PlaceOf;
    if !ok {
      CodesAre(body[|digits|]);
      assert body[|digits|] !in ALPHABET;
    }
  }

  lemma JoinedSpells(body: string, digits: seq<Digit>)
    requires |digits| == |body| && |body| % 4 != 1 && forall k :: 0 <= k < |body| ==> PlaceOf(body[k], digits[k])
    ensures Spells(body, Joined(digits))
  {
    var bytes := Joined(digits);
    JoinedLength(digits);
    hide Joined, SixFrom, DigitAt, PlaceOf;
    assert |bytes| == 6 * |body| / 8 by { if body != "" { LastFits(|body|, 0); } }
    forall k | 0 <= k < |body|
      ensures GroupIs(body[k], SixFrom(bytes, 6 * k), if 6 * k + 6 <= 8 * |bytes| then 1 else if |body| % 4 == 2 then 16 else 4)
    {
      DigitIsSixBits(bytes, k);
      JoinedGroups(digits, k);
      LastFits(|body|, k);
      Rounded(digits[k]);
      assert PlaceOf(body[k], digits[k]);
    }
  }

  lemma Rounded(d: int)
    ensures d / 16 * 16 == d - d % 16 && d / 4 * 4 == d - d % 4 && d - d % 1 == d
  {
  }

  lemma LastFits(n: nat, k: nat)
    requires k < n && n % 4 != 1
    ensures 6 * k + 6 <= 8 * (6 * n / 8) <==> k + 1 < n || n % 4 == 0
    ensures 6 * n / 8 == 3 * n / 4
  {
    var q, r := n / 4, n % 4;
    assert n == 4 * q + r && 6 * n / 8 == 3 * q + 6 * r / 8;
  }

  lemma TrimmedIs(text: string)
    ensures Unpadded(text) == |Trimmed(text)| && text[..Unpadded(text)] == Trimmed(text)
  {
  }

  lemma JoinedLength(digits: seq<Digit>)
    ensures |Joined(digits)| == 3 * |digits| / 4
  {
  }

  lemma JoinedAt(digits: seq<Digit>, q: nat, r: nat)
    requires r < 3 && 4 * q + r + 1 < |digits|
    ensures 3 * q + r < |Joined(digits)|
    ensures var d: int, e: int := digits[4 * q + r], digits[4 * q + r + 1];
            Joined(digits)[3 * q + r] as int == if r == 0 then d * 4 + e / 16 else if r == 1 then d % 16 * 16 + e / 4 else d % 4 * 64 + e
  {
    assert (3 * q + r) / 3 == q && (3 * q + r) % 3 == r;
  }

  // ------------------------------------------------------------ as the source writes it

  /** Four characters from the 24 bits of three bytes; the source's shifts and masks, on operands with disjoint bits. */
  function Quad(n: nat): (s: string)
    requires n < 0x1000000
    ensures |s| == 4
  {
    [CharOf(n / 0x40000 % 64), CharOf(n / 0x1000 % 64), CharOf(n / 64 % 64), CharOf(n % 64)]
  }

  lemma QuadDigits(a: int, b: int, c: int)
    requires 0 <= a < 256 && 0 <= b < 256 && 0 <= c < 256
    ensures var n := a * 0x10000 + b * 0x100 + c;
            && 0 <= n < 0x1000000
            && n / 0x40000 % 64 == a / 4 && n / 0x1000 % 64 == a % 4 * 16 + b / 16
            && n / 64 % 64 == b % 16 * 4 + c / 64 && n % 64 == c % 64
  {
    var n := a * 0x10000 + b * 0x100 + c;
    SixBits(n, 0x40000, 0, a / 4, 0x10000 * (a % 4) + b * 0x100 + c);
    SixBits(n, 0x1000, a / 4, a % 4 * 16 + b / 16, 0x100 * (b % 16) + c);
    SixBits(n, 64, a * 16 + b / 16, b % 16 * 4 + c / 64, c % 64);
    SixBits(n, 1, a * 1024 + b * 4 + c / 64, c % 64, 0);
  }

  lemma SixBits(n: int, m: int, high: int, six: int, low: int)
    requires m in {1, 64, 0x1000, 0x40000} && n == m * (64 * high + six) + low && 0 <= low < m && 0 <= six < 64
    ensures n / m % 64 == six
  {
    assert n / m == 64 * high + six;
  }

  /** Three bytes as one number. */
  function Packed(bytes: seq<Byte>, m: nat): (n: nat)
    ensures n < 0x1000000
  {
    var a: int, b: int, c: int := Padded(bytes, m), Padded(bytes, m + 1), Padded(bytes, m + 2);
    a * 0x10000 + b * 0x100 + c
  }

  /** The digits of the first `m` of `bytes`, three bytes to four characters. */
  ghost predicate EncodedUpTo(bytes: seq<Byte>, m: nat, text: string) {
    && m <= |bytes| && m % 3 == 0 && |text| == m / 3 * 4
    && forall k :: 0 <= k < |text| ==> text[k] == CharOf(DigitAt(bytes, k))
  }

  lemma QuadIs(bytes: seq<Byte>, q: nat, r: nat)
    requires r < 4
    ensures Quad(Packed(bytes, 3 * q))[r] == CharOf(DigitAt(bytes, 4 * q + r))
  {
    QuadDigits(Padded(bytes, 3 * q), Padded(bytes, 3 * q + 1), Padded(bytes, 3 * q + 2));
    Quarter(q, r);
    hide CharOf;
  }

  lemma QuadStep(bytes: seq<Byte>, m: nat, text: string, take: nat)
    requires EncodedUpTo(bytes, m, text) && 0 <= take <= 4
    ensures forall k :: 0 <= k < |text| + take ==> (text + Quad(Packed(bytes, m))[..take])[k] == CharOf(DigitAt(bytes, k))
  {
    hide Quad, Packed, CharOf, DigitAt;
    var q := m / 3;
    assert m == 3 * q && |text| == 4 * q;
    forall r | 0 <= r < 4 ensures Quad(Packed(bytes, m))[r] == CharOf(DigitAt(bytes, |text| + r)) { QuadIs(bytes, q, r); }
  }

  lemma WholeGroup(bytes: seq<Byte>, m: nat, text: string)
    requires EncodedUpTo(bytes, m, text) && m + 2 < |bytes|
    ensures EncodedUpTo(bytes, m + 3, text + Quad(Packed(bytes, m)))
  {
    QuadStep(bytes, m, text, 4);
    hide Packed, DigitAt, CharOf;
    var quad := Quad(Packed(bytes, m));
    assert |quad| == 4 && quad[..4] == quad;
    hide Quad;
  }

  /** The last, shorter group and its padding. */
  lemma LastGroup(bytes: seq<Byte>, m: nat, text: string)
    requires EncodedUpTo(bytes, m, text) && m <= |bytes| < m + 3
    ensures var rest := |bytes| - m;
            Encode(bytes) == if rest == 0 then text
                             else text + Quad(Packed(bytes, m))[..rest + 1] + Pad(3 - rest)
  {
    var rest := |bytes| - m;
    Thirds(|bytes|);
    assert |bytes| / 3 == m / 3 && |bytes| % 3 == rest;
    QuadStep(bytes, m, text, if rest == 0 then 0 else rest + 1);
    hide Quad, Packed, CharOf, DigitAt, DigitCount;
  }

  method EncodeBase64(bytes: seq<Byte>) returns (text: string)
    ensures text == Encode(bytes)
  {
    hide Encode, Quad, Packed, DigitAt, CharOf;
    text := "";
    var i := 0;
    while i + 2 < |bytes|
      invariant EncodedUpTo(bytes, i, text)
    {
      WholeGroup(bytes, i, text);
      text := text + Quad(Packed(bytes, i));
      i := i + 3;
    }
    var rest := |bytes| - i;
    LastGroup(bytes, i, text);
    assert Pad(2) == "==" && Pad(1) == "=";
    if rest == 1 {
      text := text + Quad(Packed(bytes, i))[..2] + "==";
    } else if rest == 2 {
      text := text + Quad(Packed(bytes, i))[..3] + "=";
    }
  }

  /** A number as the language's bitwise operators keep it: 32 bits, signed, wrapping. */
  function ToInt32(x: int): int {
    (x + 0x8000_0000) % 0x1_0000_0000 - 0x8000_0000
  }

  /** However often the unmasked accumulator has wrapped, its low twelve bits are the last two digits. */
  lemma AccumulatorKeepsLastDigits(acc: int, last: int, value: int)
    requires acc % 64 == last && 0 <= value < 64
    ensures (ToInt32(acc * 64) + value) % 4096 == last * 64 + value
  {
    var q := acc / 64;
    assert acc == 64 * q + last;
    var w := ToInt32(acc * 64);
    var t := (acc * 64 + 0x8000_0000) / 0x1_0000_0000;
    assert w == acc * 64 - t * 0x1_0000_0000;
    assert w + value == 4096 * (q - t * 0x10_0000) + (last * 64 + value);
  }

  /** The byte under the accumulator's top, for each of the three alignments. */
  lemma ByteFromAccumulator(acc: int, last: int, value: int)
    requires acc % 4096 == last * 64 + value && 0 <= last < 64 && 0 <= value < 64
    ensures acc / 16 % 256 == last * 4 + value / 16
    ensures acc / 4 % 256 == last % 16 * 16 + value / 4
    ensures acc % 256 == last % 4 * 64 + value
    ensures acc % 64 == value
  {
    Top6(acc, last, value);
    Top4(acc, last, value);
    Top2(acc, last, value);
  }

  lemma Top6(acc: int, last: int, value: int)
    requires acc % 4096 == last * 64 + value && 0 <= last < 64 && 0 <= value < 64
    ensures acc / 16 % 256 == last * 4 + value / 16
  {
    assert acc == 16 * (256 * (acc / 4096) + last * 4 + value / 16) + value % 16;
    ByteOf(acc / 16, acc / 4096, last * 4 + value / 16);
  }

  lemma Top4(acc: int, last: int, value: int)
    requires acc % 4096 == last * 64 + value && 0 <= last < 64 && 0 <= value < 64
    ensures acc / 4 % 256 == last % 16 * 16 + value / 4
  {
    var q := 4 * (acc / 4096) + last / 16;
    assert acc == 4 * (256 * q + last % 16 * 16 + value / 4) + value % 4;
    ByteOf(acc / 4, q, last % 16 * 16 + value / 4);
  }

  lemma Top2(acc: int, last: int, value: int)
    requires acc % 4096 == last * 64 + value && 0 <= last < 64 && 0 <= value < 64
    ensures acc % 256 == last % 4 * 64 + value && acc % 64 == value
  {
    ByteOf(acc, 16 * (acc / 4096) + last / 4, last % 4 * 64 + value);
    LowOf(acc, 64 * (acc / 4096) + last, value);
  }

  lemma ByteOf(x: int, q: int, byte: int)
    requires x == 256 * q + byte && 0 <= byte < 256
    ensures x % 256 == byte
  {
  }

  lemma LowOf(x: int, q: int, low: int)
    requires x == 64 * q + low && 0 <= low < 64
    ensures x % 64 == low
  {
  }

  method StripSpace(text: string) returns (clean: string)
    ensures clean == Strip(text)
  {
    clean := "";
    for i := 0 to |text|
      invariant clean == Strip(text[..i])
    {
      var c := text[i];
      assert text[..i + 1][..i] == text[..i];
      if IsSpace(c) { continue; }
      clean := clean + [c];
    }
    assert text[..|text|] == text;
  }

  method TrimPadding(clean: string) returns (end: nat)
    ensures end == Unpadded(clean)
  {
    end := |clean|;
    var padding := 0;
    while padding < 2 && end > 0 && clean[end - 1] == '='
      invariant end <= |clean| && 0 <= padding <= 2 && end == |clean| - padding
      invariant forall k :: end <= k < |clean| ==> clean[k] == '='
    {
      end, padding := end - 1, padding + 1;
    }
  }

  /** What the loop knows after `i` digits: the bytes so far, and the bits waiting in the accumulator. */
  ghost predicate Accumulated(digits: seq<Digit>, i: nat, accBits: int, acc: int, out: seq<Byte>) {
    && i <= |digits| && |out| == 3 * i / 4 && accBits == 6 * i - 8 * |out|
    && (i > 0 ==> acc % 64 == digits[i - 1])
    && forall j :: 0 <= j < |out| ==> out[j] == ByteAt(digits, j)
  }

  lemma NextDigit(digits: seq<Digit>, i: nat, accBits: int, acc: int, out: seq<Byte>)
    requires Accumulated(digits, i, accBits, acc, out) && i < |digits|
    ensures var acc', bits := ToInt32(acc * 64) + digits[i], accBits + 6;
            if bits >= 8
            then |out| < 3 * |digits| / 4 && Accumulated(digits, i + 1, bits - 8, acc', out + [TopByte(acc', bits - 8)])
            else Accumulated(digits, i + 1, bits, acc', out)
  {
    var value: int := digits[i];
    var acc' := ToInt32(acc * 64) + value;
    if i > 0 {
      AccumulatorKeepsLastDigits(acc, digits[i - 1], value);
      ByteFromAccumulator(acc', digits[i - 1], value);
      if accBits >= 2 { ShiftByte(digits, i, |out|, accBits - 2, acc', digits[i - 1], value); }
    } else {
      FirstDigit(acc, value);
    }
  }

  lemma FirstDigit(acc: int, value: int)
    requires 0 <= value < 64
    ensures (ToInt32(acc * 64) + value) % 64 == value
  {
    AccumulatorKeepsLastDigits(acc, acc % 64, value);
    ByteFromAccumulator(ToInt32(acc * 64) + value, acc % 64, value);
  }

  lemma DigitOrError(text: string, i: nat)
    requires i < |text| && i <= |Digits(text).0|
    ensures var (digits, ok) := Digits(text);
            if CodeOf(text[i]) >= 0 then i < |digits| && digits[i] == CodeOf(text[i]) else !ok && |digits| == i
  {
  }

  lemma NothingAccumulated(digits: seq<Digit>)
    ensures Accumulated(digits, 0, 0, 0, [])
  {
  }

  lemma AllAccumulated(digits: seq<Digit>, accBits: int, acc: int, out: seq<Byte>)
    requires Accumulated(digits, |digits|, accBits, acc, out)
    ensures out == Joined(digits)
  {
  }

  /** The decoding loop over the first `end` characters. */
  method DecodeDigits(clean: string, end: nat) returns (r: Decoding)
    requires end <= |clean|
    ensures var (digits, ok) := Digits(clean[..end]); r == if ok then Decoded(Joined(digits)) else BadCharacter(|digits|)
  {
    hide *;
    var outLength := 3 * end / 4;
    var out := new Byte[outLength](_ => 0);
    var outPos, acc, accBits := 0, 0, 0;
    ghost var text := clean[..end];
    ghost var digits := Digits(text).0;
    NothingAccumulated(digits);
    assert out[..0] == [];
    for i := 0 to end
      invariant 0 <= outPos <= outLength && i <= |digits|
      invariant Accumulated(digits, i, accBits, acc, out[..outPos])
    {
      var value := CodeOf(clean[i]);
      assert text[i] == clean[i];
      DigitOrError(text, i);
      if value < 0 { return BadCharacter(i); }
      ghost var done := out[..outPos];
      NextDigit(digits, i, accBits, acc, done);
      acc := ToInt32(acc * 64) + value;
      accBits := accBits + 6;
      if accBits >= 8 {
        accBits := accBits - 8;
        out[outPos] := TopByte(acc, accBits);
        outPos := outPos + 1;
        assert out[..outPos] == done + [TopByte(acc, accBits)];
      }
    }
    AllAccumulated(digits, accBits, acc, out[..outPos]);
    assert |Joined(digits)| == outPos == outLength by { JoinedLength(digits); }
    r := Decoded(out[..]);
  }

  method DecodeBase64(text: string) returns (r: Decoding)
    ensures r == Decode(text)
  {
    var clean := StripSpace(text);
    var end := TrimPadding(clean);
    if end % 4 == 1 { return BadLength; }
    r := DecodeDigits(clean, end);
  }

  function Power(n: nat): (p: nat)
    ensures p > 0
  {
    if n == 0 then 1 else 2 * Power(n - 1)
  }

  /** The byte above the lowest `bits` bits: an arithmetic shift right, masked. */
  function TopByte(acc: int, bits: nat): Byte { acc / Power(bits) % 256 }

  /** The byte the decoder stores is the byte at its position in the digits. */
  lemma ShiftByte(digits: seq<Digit>, i: nat, outPos: nat, bits: nat, acc: int, last: int, value: int)
    requires 0 < i < |digits| && outPos == 3 * i / 4 && bits == 6 * i + 6 - 8 * outPos - 8
    requires last == digits[i - 1] && value == digits[i]
    requires acc / 16 % 256 == last * 4 + value / 16
    requires acc / 4 % 256 == last % 16 * 16 + value / 4
    requires acc % 256 == last % 4 * 64 + value
    ensures outPos < 3 * |digits| / 4 && TopByte(acc, bits) == ByteAt(digits, outPos)
  {
    assert Power(0) == 1 && Power(2) == 4 && Power(4) == 16;
    var q, r := i / 4, i % 4;
    assert i == 4 * q + r && outPos == 3 * q + r - 1;
    assert outPos / 3 == q && outPos % 3 == r - 1;
  }
}
