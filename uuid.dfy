/** `uuid-helper`: the base64-to-hex decoder behind `toCSUUID`, and the
    legacy GUID byte reordering between the text form of section 3 of
    RFC 4122 and BSON binary subtype 3, in both directions. */
module Uuid {

  // ---------------------------------------------------------------------------
  // JavaScript number operations on 32-bit integers

  function Pow2(k: nat): (r: nat)
    ensures r >= 1
  {
    if k == 0 then 1 else 2 * Pow2(k - 1)
  }

  /** `ToInt32`: the integer modulo 2^32, read as a signed value. */
  function ToInt32(x: int): (r: int)
    ensures -0x8000_0000 <= r < 0x8000_0000
    ensures -0x8000_0000 <= x < 0x8000_0000 ==> r == x
  {
    (x + 0x8000_0000) % 0x1_0000_0000 - 0x8000_0000
  }

  /** How far a two's complement integer is from `0` or `-1`. */
  function Mag(x: int): nat {
    if x >= 0 then x else -x - 1
  }

  /** Bitwise or of two's complement integers, bit by bit from the lowest. */
  function BitsOr(a: int, b: int): int
    decreases Mag(a) + Mag(b)
  {
    if (a == 0 || a == -1) && (b == 0 || b == -1) then (if a == -1 || b == -1 then -1 else 0)
    else 2 * BitsOr(a / 2, b / 2) + (if a % 2 == 1 || b % 2 == 1 then 1 else 0)
  }

  /** Bitwise and of two's complement integers, bit by bit from the lowest. */
  function BitsAnd(a: int, b: int): int
    decreases Mag(a) + Mag(b)
  {
    if (a == 0 || a == -1) && (b == 0 || b == -1) then (if a == -1 && b == -1 then -1 else 0)
    else 2 * BitsAnd(a / 2, b / 2) + (if a % 2 == 1 && b % 2 == 1 then 1 else 0)
  }

  /** `a | b`. */
  function Or(a: int, b: int): int {
    BitsOr(ToInt32(a), ToInt32(b))
  }

  /** `a & b`. */
  function And(a: int, b: int): int {
    BitsAnd(ToInt32(a), ToInt32(b))
  }

  /** `a << k`. */
  function Shl(a: int, k: nat): int {
    ToInt32(ToInt32(a) * Pow2(k))
  }

  /** `a >> k`: an arithmetic shift, rounding towards minus infinity. */
  function Sar(a: int, k: nat): int {
    ToInt32(a) / Pow2(k)
  }

  lemma {:induction false} OrZero(a: nat)
    ensures BitsOr(a, 0) == a
    decreases a
  {
    if a != 0 {
      OrZero(a / 2);
    }
  }

  lemma {:induction false} AndZero(x: nat)
    ensures BitsAnd(x, 0) == 0
    decreases x
  {
    if x != 0 {
      AndZero(x / 2);
    }
  }

  /** Or-ing a value below `2^k` into a multiple of `2^k` adds it. */
  lemma {:induction false} OrLow(a: nat, b: nat, k: nat)
    requires b < Pow2(k)
    ensures BitsOr(a * Pow2(k), b) == a * Pow2(k) + b
    decreases k
  {
    if k == 0 {
      OrZero(a);
    } else {
      var p := Pow2(k - 1);
      var h := a * p;
      assert a * Pow2(k) == 2 * h;
      OrLow(a, b / 2, k - 1);
      assert (2 * h) / 2 == h && (2 * h) % 2 == 0;
    }
  }

  /** And-ing with `2^k - 1` keeps the low `k` bits. */
  lemma {:induction false} AndLow(x: nat, k: nat)
    ensures BitsAnd(x, Pow2(k) - 1) == x % Pow2(k)
    decreases k
  {
    if k == 0 {
      AndZero(x);
    } else {
      var p := Pow2(k - 1);
      AndLow(x / 2, k - 1);
      AndOdd(x, p);
      DivMod2(x, p);
    }
  }

  /** And-ing with an odd mask keeps the lowest bit and and-s the rest. */
  lemma AndOdd(x: nat, p: nat)
    requires p >= 1
    ensures BitsAnd(x, 2 * p - 1) == 2 * BitsAnd(x / 2, p - 1) + x % 2
  {
    assert (2 * p - 1) / 2 == p - 1 && (2 * p - 1) % 2 == 1;
  }

  lemma DivMod2(x: nat, p: nat)
    requires p >= 1
    ensures x % (2 * p) == 2 * ((x / 2) % p) + x % 2
  {
    var q := (x / 2) / p;
    var r := (x / 2) % p;
    assert x / 2 == q * p + r;
    assert x == q * (2 * p) + (2 * r + x % 2);
    ModUnique(x, 2 * p, q, 2 * r + x % 2);
  }

  lemma ModUnique(x: int, d: int, q: int, r: int)
    requires d > 0 && 0 <= r < d && x == q * d + r
    ensures x % d == r
  {
    var q0, r0 := x / d, x % d;
    assert (q - q0) * d == r0 - r;
    if q - q0 >= 1 {
      MulAtLeast(q - q0, d);
    } else if q0 - q >= 1 {
      MulAtLeast(q0 - q, d);
    }
  }

  lemma {:induction false} MulAtLeast(a: int, d: int)
    requires a >= 1 && d > 0
    ensures a * d >= d
    decreases a
  {
    if a > 1 {
      MulAtLeast(a - 1, d);
      assert a * d == (a - 1) * d + d;
    }
  }

  // ---------------------------------------------------------------------------
  // base64ToHex

  /** `base64Digits[i]`: the alphabet `A`-`Z`, `a`-`z`, `0`-`9`, `+`, `/`,
      then `=` at 64. */
  function DigitChar(i: nat): char
    requires i < 65
  {
    if i < 26 then ('A' as int + i) as char
    else if i < 52 then ('a' as int + (i - 26)) as char
    else if i < 62 then ('0' as int + (i - 52)) as char
    else if i == 62 then '+'
    else if i == 63 then '/'
    else '='
  }

  /** `hexDigits[n]`: `0`-`9`, then `a`-`f`. */
  function HexDigit(n: nat): char
    requires n < 16
  {
    if n < 10 then ('0' as int + n) as char else ('a' as int + (n - 10)) as char
  }

  /** `base64Digits.indexOf(c)`: the position of `c` in the alphabet, or -1. */
  function DigitValue(c: char): (r: int)
    ensures -1 <= r < 65
  {
    if 'A' <= c <= 'Z' then c as int - 'A' as int
    else if 'a' <= c <= 'z' then c as int - 'a' as int + 26
    else if '0' <= c <= '9' then c as int - '0' as int + 52
    else if c == '+' then 62
    else if c == '/' then 63
    else if c == '=' then 64
    else -1
  }

  /** `DigitValue` is `indexOf` on the alphabet: the position of `c`, or
      -1 when no position holds it. */
  lemma DigitValueIsIndexOf(c: char)
    ensures DigitValue(c) >= 0 ==> DigitChar(DigitValue(c)) == c
    ensures DigitValue(c) == -1 ==> forall i :: 0 <= i < 65 ==> DigitChar(i) != c
  {
  }

  /** `base64Digits.indexOf(base64[i])`: past the end the character is
      `undefined`, which is not found either. */
  function DigitAt(s: string, i: nat): int {
    if i < |s| then DigitValue(s[i]) else -1
  }

  /** `hexDigits[n]` appended to a string: outside the table it is
      `undefined`, which appends the word. */
  function HexChar(n: int): string {
    if 0 <= n < 16 then [HexDigit(n)] else "undefined"
  }

  /** The text appended for the group of four characters at `p`. */
  function GroupAt(s: string, p: nat): string {
    GroupText(DigitAt(s, p), DigitAt(s, p + 1), DigitAt(s, p + 2), DigitAt(s, p + 3))
  }

  /** The text appended for the digit values `e1`..`e4`: three bytes, two
      hex digits each, the second and third left out when `e3` or `e4` is
      the padding `=`. */
  function GroupText(e1: int, e2: int, e3: int, e4: int): string {
    var c1 := Or(Shl(e1, 2), Sar(e2, 4));
    var c2 := Or(Shl(And(e2, 15), 4), Sar(e3, 2));
    var c3 := Or(Shl(And(e3, 3), 6), e4);
    var first := ByteHex(c1);
    var two := if e3 != 64 then first + ByteHex(c2) else first;
    if e4 != 64 then two + ByteHex(c3) else two
  }

  /** `hexDigits[c >> 4] + hexDigits[c & 15]`. */
  function ByteHex(c: int): string {
    HexChar(Sar(c, 4)) + HexChar(And(c, 15))
  }

  /** The concatenation of `g(s, p)`, `g(s, p + 4)`, ... over the group
      positions before `end`. */
  function Groups(g: (string, nat) -> string, s: string, p: nat, end: nat): string
    decreases end - p
  {
    if p >= end then "" else g(s, p) + Groups(g, s, p + 4, end)
  }

  /** The text for the groups of `s` that start at `p`, `p + 4`, ... and
      before `end`. */
  function Decode(s: string, p: nat, end: nat): string {
    Groups(GroupAt, s, p, end)
  }

  lemma AppendAssoc(a: string, b: string, c: string)
    ensures (a + b) + c == a + (b + c)
    ensures "" + c == c
  {
  }

  /** `base64ToHex(base64)`: exactly the first 24 characters, four at a
      time. */
  method Base64ToHex(base64: string) returns (hex: string)
    ensures hex == Decode(base64, 0, 24)
  {
    hex := "";
    var i := 0;
    ghost var done := 0;
    AppendAssoc("", "", Decode(base64, 0, 24));
    while i < 24
      invariant 0 <= done <= 6 && i == 4 * done
      invariant hex + Decode(base64, i, 24) == Decode(base64, 0, 24)
    {
      var e1 := DigitAt(base64, i);
      var e2 := DigitAt(base64, i + 1);
      var e3 := DigitAt(base64, i + 2);
      var e4 := DigitAt(base64, i + 3);
      var c1 := Or(Shl(e1, 2), Sar(e2, 4));
      var c2 := Or(Shl(And(e2, 15), 4), Sar(e3, 2));
      var c3 := Or(Shl(And(e3, 3), 6), e4);
      var group := ByteHex(c1);
      if e3 != 64 {
        group := group + ByteHex(c2);
      }
      if e4 != 64 {
        group := group + ByteHex(c3);
      }
      assert group == GroupAt(base64, i);
      AppendAssoc(hex, group, Decode(base64, i + 4, 24));
      hex := hex + group;
      i := i + 4;
      done := done + 1;
    }
  }

  /** A group reads only its own four characters: behind a prefix `a`,
      the group at `q = |a| + p` is the group of `b` at `p`. */
  lemma GroupAtShift(a: string, b: string, p: nat, q: nat)
    requires q == |a| + p
    ensures GroupAt(a + b, q) == GroupAt(b, p)
  {
    assert DigitAt(a + b, q) == DigitAt(b, p) && DigitAt(a + b, q + 1) == DigitAt(b, p + 1);
    assert DigitAt(a + b, q + 2) == DigitAt(b, p + 2) && DigitAt(a + b, q + 3) == DigitAt(b, p + 3);
  }

  /** `g` reads only the characters of its own group: behind a prefix,
      a group is read as it is without the prefix. */
  ghost predicate Local(g: (string, nat) -> string) {
    forall a: string, b: string, r: nat, t: nat {:trigger g(a + b, t), g(b, r)} ::
      t == |a| + r ==> g(a + b, t) == g(b, r)
  }

  lemma GroupAtLocal()
    ensures Local(GroupAt)
  {
    forall a: string, b: string, r: nat, t: nat | t == |a| + r
      ensures GroupAt(a + b, t) == GroupAt(b, r)
    {
      GroupAtShift(a, b, r, t);
    }
  }

  /** Decoding with a local group function looks only at the characters
      from its start on. */
  lemma {:induction false} GroupsShift(g: (string, nat) -> string, a: string, b: string, p: nat, end: nat, q: nat, e: nat)
    requires Local(g)
    requires q == |a| + p && e == |a| + end
    ensures Groups(g, a + b, q, e) == Groups(g, b, p, end)
    decreases end - p
  {
    if p < end {
      assert g(a + b, q) == g(b, p);
      GroupsShift(g, a, b, p + 4, end, q + 4, e);
    }
  }

  // ---------------------------------------------------------------------------
  // Bytes, their base64 text and their hex text

  type Byte = b: int | 0 <= b < 256

  /** Two lowercase hex digits per byte, in order. */
  function Hex(bytes: seq<Byte>): (r: string)
    ensures |r| == 2 * |bytes|
    decreases |bytes|
  {
    if bytes == [] then "" else [HexDigit(bytes[0] / 16), HexDigit(bytes[0] % 16)] + Hex(bytes[1..])
  }

  lemma {:induction false} HexAppend(a: seq<Byte>, b: seq<Byte>)
    ensures Hex(a + b) == Hex(a) + Hex(b)
    decreases |a|
  {
    if a != [] {
      assert (a + b)[1..] == a[1..] + b;
      HexAppend(a[1..], b);
    } else {
      assert a + b == b;
    }
  }

  /** The base64 encoding of section 4 of RFC 4648, with `=` padding, which
      is what `Buffer.toString('base64')` produces. */
  function Encode(bytes: seq<Byte>): (r: string)
    ensures |r| == 4 * ((|bytes| + 2) / 3)
    decreases |bytes|
  {
    if |bytes| == 0 then ""
    else if |bytes| == 1 then
      [DigitChar(bytes[0] / 4), DigitChar((bytes[0] % 4) * 16), '=', '=']
    else if |bytes| == 2 then
      [DigitChar(bytes[0] / 4), DigitChar((bytes[0] % 4) * 16 + bytes[1] / 16),
       DigitChar((bytes[1] % 16) * 4), '=']
    else
      [DigitChar(bytes[0] / 4), DigitChar((bytes[0] % 4) * 16 + bytes[1] / 16),
       DigitChar((bytes[1] % 16) * 4 + bytes[2] / 64), DigitChar(bytes[2] % 64)]
      + Encode(bytes[3..])
  }

  lemma DigitValueOfDigit(i: nat)
    requires i < 65
    ensures DigitValue(DigitChar(i)) == i
  {
  }

  lemma Pow2Values()
    ensures Pow2(2) == 4 && Pow2(4) == 16 && Pow2(6) == 64
  {
  }

  /** The first byte of a group: `(e1 << 2) | (e2 >> 4)`. */
  lemma FirstByte(x: Byte, low: nat)
    requires low < 16
    ensures Or(Shl(x / 4, 2), Sar((x % 4) * 16 + low, 4)) == x
  {
    Pow2Values();
    assert Shl(x / 4, 2) == (x / 4) * 4;
    assert Sar((x % 4) * 16 + low, 4) == x % 4;
    OrLow(x / 4, x % 4, 2);
  }

  /** The second byte: `((e2 & 15) << 4) | (e3 >> 2)`. */
  lemma SecondByte(high: nat, y: Byte, low: nat)
    requires high < 4 && low < 4
    ensures Or(Shl(And(high * 16 + y / 16, 15), 4), Sar((y % 16) * 4 + low, 2)) == y
  {
    Pow2Values();
    var e2 := high * 16 + y / 16;
    AndLow(e2, 4);
    ModUnique(e2, 16, high, y / 16);
    assert And(e2, 15) == y / 16;
    assert Shl(y / 16, 4) == (y / 16) * 16;
    assert Sar((y % 16) * 4 + low, 2) == y % 16;
    OrLow(y / 16, y % 16, 4);
  }

  /** The third byte: `((e3 & 3) << 6) | e4`. */
  lemma ThirdByte(high: nat, z: Byte)
    requires high < 16
    ensures Or(Shl(And(high * 4 + z / 64, 3), 6), z % 64) == z
  {
    Pow2Values();
    var e3 := high * 4 + z / 64;
    AndLow(e3, 2);
    ModUnique(e3, 4, high, z / 64);
    assert And(e3, 3) == z / 64;
    assert Shl(z / 64, 6) == (z / 64) * 64;
    OrLow(z / 64, z % 64, 6);
  }

  /** A byte's two hex digits: `hexDigits[c >> 4]`, `hexDigits[c & 15]`. */
  lemma HexPair(x: Byte)
    ensures ByteHex(x) == [HexDigit(x / 16), HexDigit(x % 16)]
  {
    Pow2Values();
    AndLow(x, 4);
  }

  lemma HexCons(b: Byte, rest: seq<Byte>)
    ensures Hex([b] + rest) == [HexDigit(b / 16), HexDigit(b % 16)] + Hex(rest)
  {
    assert ([b] + rest)[1..] == rest;
  }

  /** A group without padding is the hex of its three bytes. */
  lemma GroupTextFull(e1: int, e2: int, e3: int, e4: int, x: int, y: int, z: int)
    requires e3 != 64 && e4 != 64
    requires Or(Shl(e1, 2), Sar(e2, 4)) == x && Or(Shl(And(e2, 15), 4), Sar(e3, 2)) == y
    requires Or(Shl(And(e3, 3), 6), e4) == z
    ensures GroupText(e1, e2, e3, e4) == ByteHex(x) + ByteHex(y) + ByteHex(z)
  {
  }

  lemma HexThree(x: Byte, y: Byte, z: Byte)
    ensures ByteHex(x) + ByteHex(y) + ByteHex(z) == Hex([x, y, z])
  {
    HexPair(x);
    HexPair(y);
    HexPair(z);
    HexCons(z, []);
    HexCons(y, [z]);
    HexCons(x, [y, z]);
    assert [x] + [y, z] == [x, y, z] && [y] + [z] == [y, z] && [z] + [] == [z];
  }

  /** Decoding the four digits of three bytes gives back their hex. */
  lemma FullGroup(x: Byte, y: Byte, z: Byte)
    ensures GroupText(x / 4, (x % 4) * 16 + y / 16, (y % 16) * 4 + z / 64, z % 64) == Hex([x, y, z])
  {
    var e1, e2, e3, e4 := x / 4, (x % 4) * 16 + y / 16, (y % 16) * 4 + z / 64, z % 64;
    FirstByte(x, y / 16);
    SecondByte(x % 4, y, z / 64);
    ThirdByte(y % 16, z);
    GroupTextFull(e1, e2, e3, e4, x, y, z);
    HexThree(x, y, z);
  }

  /** The last group of a 16-byte buffer: one byte and `==`. */
  lemma LastGroup(x: Byte)
    ensures GroupText(x / 4, (x % 4) * 16, 64, 64) == Hex([x])
  {
    FirstByte(x, 0);
    HexPair(x);
  }

  /** The digits at the start of `s` are those of the single byte `x`,
      padded with `==`. */
  predicate LastDigits(s: string, x: Byte) {
    DigitAt(s, 0) == x / 4 && DigitAt(s, 1) == (x % 4) * 16 && DigitAt(s, 2) == 64 && DigitAt(s, 3) == 64
  }

  /** The digits at the start of `s` are those of the bytes `x`, `y`, `z`. */
  predicate FullDigits(s: string, x: Byte, y: Byte, z: Byte) {
    DigitAt(s, 0) == x / 4 && DigitAt(s, 1) == (x % 4) * 16 + y / 16 &&
    DigitAt(s, 2) == (y % 16) * 4 + z / 64 && DigitAt(s, 3) == z % 64
  }

  /** The characters at the start of `s` encode the bytes `x`, `y`, `z`. */
  predicate FullChars(s: string, x: Byte, y: Byte, z: Byte) {
    |s| >= 4 &&
    s[0] == DigitChar(x / 4) && s[1] == DigitChar((x % 4) * 16 + y / 16) &&
    s[2] == DigitChar((y % 16) * 4 + z / 64) && s[3] == DigitChar(z % 64)
  }

  /** The digit values of the encoding of a single byte. */
  lemma EncodedLast(x: Byte)
    ensures LastDigits(Encode([x]), x)
  {
    var s := Encode([x]);
    assert s == [DigitChar(x / 4), DigitChar((x % 4) * 16), '=', '='];
    DigitValueOfDigit(x / 4);
    DigitValueOfDigit((x % 4) * 16);
  }

  /** The first four characters of the encoding of three bytes or more. */
  lemma EncodedGroup(bytes: seq<Byte>)
    requires |bytes| >= 3
    ensures FullChars(Encode(bytes), bytes[0], bytes[1], bytes[2])
  {
  }

  lemma DigitAtOf(s: string, i: nat, d: nat)
    requires i < |s| && d < 65 && s[i] == DigitChar(d)
    ensures DigitAt(s, i) == d
  {
    DigitValueOfDigit(d);
  }

  /** The digit values of characters that encode three bytes. */
  lemma DigitsOfChars(s: string, x: Byte, y: Byte, z: Byte)
    requires FullChars(s, x, y, z)
    ensures FullDigits(s, x, y, z)
  {
    DigitAtOf(s, 0, x / 4);
    DigitAtOf(s, 1, (x % 4) * 16 + y / 16);
    DigitAtOf(s, 2, (y % 16) * 4 + z / 64);
    DigitAtOf(s, 3, z % 64);
  }

  /** The encoding of three bytes or more is the group of the first
      three, then the encoding of the rest. */
  lemma EncodeSplit(bytes: seq<Byte>)
    requires |bytes| >= 3
    ensures var s := Encode(bytes); |s| >= 4 && s == s[..4] + Encode(bytes[3..])
  {
    var s := Encode(bytes);
    assert s[4..] == Encode(bytes[3..]);
  }

  lemma GroupAtDigits(s: string, p: nat, e1: int, e2: int, e3: int, e4: int)
    requires DigitAt(s, p) == e1 && DigitAt(s, p + 1) == e2 && DigitAt(s, p + 2) == e3 && DigitAt(s, p + 3) == e4
    ensures GroupAt(s, p) == GroupText(e1, e2, e3, e4)
  {
  }

  /** A group whose digits encode three bytes decodes to their hex. */
  lemma GroupOfDigits(s: string, x: Byte, y: Byte, z: Byte)
    requires FullChars(s, x, y, z)
    ensures GroupAt(s, 0) == Hex([x, y, z])
  {
    DigitsOfChars(s, x, y, z);
    GroupAtDigits(s, 0, x / 4, (x % 4) * 16 + y / 16, (y % 16) * 4 + z / 64, z % 64);
    FullGroup(x, y, z);
  }

  /** A group whose digits encode one byte and `==` decodes to its hex. */
  lemma LastGroupOfDigits(s: string, x: Byte)
    requires LastDigits(s, x)
    ensures GroupAt(s, 0) == Hex([x])
  {
    GroupAtDigits(s, 0, x / 4, (x % 4) * 16, 64, 64);
    LastGroup(x);
  }

  /** Decoding the encoding of `3n + 1` bytes, one group per three bytes
      and one for the last, gives their hex, for any local group function
      that decodes each group. */
  lemma {:induction false} GroupsOfEncode(g: (string, nat) -> string, bytes: seq<Byte>, n: nat, end: nat)
    requires Local(g)
    requires forall s: string, x: Byte {:trigger LastDigits(s, x)} :: LastDigits(s, x) ==> g(s, 0) == Hex([x])
    requires forall s: string, x: Byte, y: Byte, z: Byte {:trigger FullChars(s, x, y, z)} :: FullChars(s, x, y, z) ==> g(s, 0) == Hex([x, y, z])
    requires |bytes| == 3 * n + 1 && end == 4 * n + 4
    ensures Groups(g, Encode(bytes), 0, end) == Hex(bytes)
    decreases n
  {
    if n == 0 {
      var x := bytes[0];
      assert bytes == [x];
      LastGroupBy(g, x);
    } else {
      var s := Encode(bytes);
      EncodeSplit(bytes);
      GroupsOfEncode(g, bytes[3..], n - 1, end - 4);
      FirstGroupBy(g, bytes);
      GroupsStep(g, s, s[..4], Encode(bytes[3..]), end);
      HexSplit(bytes);
    }
  }

  lemma LastGroupBy(g: (string, nat) -> string, x: Byte)
    requires forall s: string, x: Byte {:trigger LastDigits(s, x)} :: LastDigits(s, x) ==> g(s, 0) == Hex([x])
    ensures Groups(g, Encode([x]), 0, 4) == Hex([x])
  {
    var s := Encode([x]);
    EncodedLast(x);
    assert Groups(g, s, 4, 4) == "";
    assert g(s, 0) + "" == g(s, 0);
  }

  lemma FirstGroupBy(g: (string, nat) -> string, bytes: seq<Byte>)
    requires |bytes| >= 3
    requires forall s: string, x: Byte, y: Byte, z: Byte {:trigger FullChars(s, x, y, z)} :: FullChars(s, x, y, z) ==> g(s, 0) == Hex([x, y, z])
    ensures g(Encode(bytes), 0) == Hex([bytes[0], bytes[1], bytes[2]])
  {
    EncodedGroup(bytes);
  }

  /** One step of decoding: the first group, then the groups of the rest. */
  lemma GroupsStep(g: (string, nat) -> string, s: string, first: string, rest: string, end: nat)
    requires Local(g)
    requires s == first + rest && |first| == 4 && end >= 4
    ensures Groups(g, s, 0, end) == g(s, 0) + Groups(g, rest, 0, end - 4)
  {
    GroupsShift(g, first, rest, 0, end - 4, 4, end);
  }

  lemma HexSplit(bytes: seq<Byte>)
    requires |bytes| >= 3
    ensures Hex(bytes) == Hex([bytes[0], bytes[1], bytes[2]]) + Hex(bytes[3..])
  {
    assert bytes[..3] == [bytes[0], bytes[1], bytes[2]];
    assert bytes == bytes[..3] + bytes[3..];
    HexAppend(bytes[..3], bytes[3..]);
  }

  /** A 16-byte buffer: `base64ToHex` of its base64 text is its 32 hex
      digits. */
  lemma Base64ToHexOfUuid(bytes: seq<Byte>)
    requires |bytes| == 16
    ensures Decode(Encode(bytes), 0, 24) == Hex(bytes)
  {
    GroupAtLocal();
    forall s: string, x: Byte | LastDigits(s, x)
      ensures GroupAt(s, 0) == Hex([x])
    {
      LastGroupOfDigits(s, x);
    }
    forall s: string, x: Byte, y: Byte, z: Byte | FullChars(s, x, y, z)
      ensures GroupAt(s, 0) == Hex([x, y, z])
    {
      GroupOfDigits(s, x, y, z);
    }
    GroupsOfEncode(GroupAt, bytes, 5, 24);
  }

  // ---------------------------------------------------------------------------
  // The GUID byte order

  /** `s.substr(start, n)`. */
  function Substr(s: string, start: nat, n: nat): string {
    var b := if start <= |s| then start else |s|;
    var e := if start + n <= |s| then start + n else |s|;
    s[b..e]
  }

  /** Bytes 0-3 reversed, 4-5 swapped, 6-7 swapped, 8-15 kept, on hex
      text. */
  function Reorder(hex: string): string {
    Substr(hex, 6, 2) + Substr(hex, 4, 2) + Substr(hex, 2, 2) + Substr(hex, 0, 2)
    + Substr(hex, 10, 2) + Substr(hex, 8, 2)
    + Substr(hex, 14, 2) + Substr(hex, 12, 2)
    + Substr(hex, 16, 16)
  }

  /** The same reordering on bytes. */
  function SwapBytes(b: seq<Byte>): seq<Byte>
    requires |b| == 16
  {
    [b[3], b[2], b[1], b[0], b[5], b[4], b[7], b[6]] + b[8..]
  }

  /** The 8-4-4-4-12 text form. */
  function Dashed(hex: string): string {
    Substr(hex, 0, 8) + "-" + Substr(hex, 8, 4) + "-" + Substr(hex, 12, 4) + "-"
    + Substr(hex, 16, 4) + "-" + Substr(hex, 20, 12)
  }

  /** `toCSUUID(bin)`, with `base64ToHex` of the buffer's base64 text. */
  function ToCSUUID(bin: seq<Byte>): string {
    Dashed(Reorder(Decode(Encode(bin), 0, 24)))
  }

  /** A character of `hexDigits`. */
  predicate IsHexDigit(c: char) {
    '0' <= c <= '9' || 'a' <= c <= 'f'
  }

  /** A UUID in canonical lowercase text form. */
  predicate CanonicalUuid(s: string) {
    |s| == 36 &&
    forall i :: 0 <= i < 36 ==> if i == 8 || i == 13 || i == 18 || i == 23 then s[i] == '-' else IsHexDigit(s[i])
  }

  lemma HexIsHex(bytes: seq<Byte>)
    ensures forall i :: 0 <= i < |Hex(bytes)| ==> IsHexDigit(Hex(bytes)[i])
    decreases |bytes|
  {
    if bytes != [] {
      HexIsHex(bytes[1..]);
    }
  }

  /** Where byte `i` of the GUID order comes from. */
  function ByteSource(i: nat): nat {
    if i < 4 then 3 - i else if i < 6 then 9 - i else if i < 8 then 13 - i else i
  }

  lemma SwapBytesAt(b: seq<Byte>, i: nat)
    requires |b| == 16 && i < 16
    ensures ByteSource(i) < 16 && SwapBytes(b)[i] == b[ByteSource(i)]
  {
  }

  /** The two hex digits of byte `i` of the reordered text are those of
      byte `ByteSource(i)` of the original. */
  lemma ReorderAt(h: string, i: nat)
    requires |h| == 32 && i < 16
    ensures |Reorder(h)| == 32
    ensures Reorder(h)[2 * i] == h[2 * ByteSource(i)] && Reorder(h)[2 * i + 1] == h[2 * ByteSource(i) + 1]
  {
    ReorderSlices(h);
  }

  lemma ReorderHex(b: seq<Byte>)
    requires |b| == 16
    ensures Reorder(Hex(b)) == Hex(SwapBytes(b))
  {
    var h := Hex(b);
    var w := SwapBytes(b);
    var r := Reorder(h);
    forall i | 0 <= i < 16
      ensures r[2 * i] == Hex(w)[2 * i] && r[2 * i + 1] == Hex(w)[2 * i + 1]
    {
      ReorderAt(h, i);
      SwapBytesAt(b, i);
      HexIndex(b, ByteSource(i));
      HexIndex(w, i);
    }
    assert |r| == 32;
    forall k | 0 <= k < 32
      ensures r[k] == Hex(w)[k]
    {
      var i := k / 2;
      assert k == 2 * i || k == 2 * i + 1;
    }
  }

  lemma {:induction false} HexIndex(b: seq<Byte>, i: nat)
    requires i < |b|
    ensures Hex(b)[2 * i] == HexDigit(b[i] / 16) && Hex(b)[2 * i + 1] == HexDigit(b[i] % 16)
    decreases i
  {
    if i > 0 {
      HexIndex(b[1..], i - 1);
    }
  }

  lemma DashedSlices(h: string)
    requires |h| == 32
    ensures Dashed(h) == h[..8] + "-" + h[8..12] + "-" + h[12..16] + "-" + h[16..20] + "-" + h[20..]
  {
  }

  /** Dashes at 8, 13, 18 and 23 around 32 hex digits make a canonical
      UUID. */
  lemma DashedForm(h: string)
    requires |h| == 32 && forall i :: 0 <= i < 32 ==> IsHexDigit(h[i])
    ensures CanonicalUuid(Dashed(h))
  {
    var d := Dashed(h);
    DashedSlices(h);
    forall i | 0 <= i < 36
      ensures if i == 8 || i == 13 || i == 18 || i == 23 then d[i] == '-' else IsHexDigit(d[i])
    {
      if i < 8 {
        assert d[i] == h[i];
      } else if 8 < i < 13 {
        assert d[i] == h[i - 1];
      } else if 13 < i < 18 {
        assert d[i] == h[i - 2];
      } else if 18 < i < 23 {
        assert d[i] == h[i - 3];
      } else if 23 < i {
        assert d[i] == h[i - 4];
      }
    }
  }

  /** `toCSUUID` of a 16-byte buffer: the text form of its bytes in GUID
      order, 36 characters with dashes at 8, 13, 18 and 23 and lowercase
      hex digits elsewhere. */
  lemma CSUUIDForm(bin: seq<Byte>)
    requires |bin| == 16
    ensures ToCSUUID(bin) == Dashed(Hex(SwapBytes(bin)))
    ensures CanonicalUuid(ToCSUUID(bin))
  {
    Base64ToHexOfUuid(bin);
    ReorderHex(bin);
    HexIsHex(SwapBytes(bin));
    DashedForm(Hex(SwapBytes(bin)));
  }

  // ---------------------------------------------------------------------------
  // toMongoNuuid

  /** `replace(/-/g, '')`. */
  function RemoveDashes(s: string): string
    decreases |s|
  {
    if s == [] then "" else (if s[0] == '-' then "" else [s[0]]) + RemoveDashes(s[1..])
  }

  /** `toLowerCase()` on ASCII letters. */
  function Lower(s: string): string
    decreases |s|
  {
    if s == [] then ""
    else [if 'A' <= s[0] <= 'Z' then (s[0] as int + 32) as char else s[0]] + Lower(s[1..])
  }

  /** `toMongoNuuid(uuidString)` up to the hex text the buffer is built
      from. */
  function ToMongoNuuidHex(uuidString: string): string {
    Reorder(Lower(RemoveDashes(uuidString)))
  }

  /** `Buffer.from(hex, 'hex')` on lowercase hex text of even length. */
  function ParseHex(hex: string): (r: seq<Byte>)
    requires |hex| % 2 == 0 && forall i :: 0 <= i < |hex| ==> IsHexDigit(hex[i])
    ensures |r| == |hex| / 2
    ensures Hex(r) == hex
    decreases |hex|
  {
    if hex == [] then []
    else
      var hi, lo := HexValue(hex[0]), HexValue(hex[1]);
      var b: Byte := hi * 16 + lo;
      var rest := ParseHex(hex[2..]);
      HexCons(b, rest);
      assert b / 16 == hi && b % 16 == lo;
      assert hex == [hex[0], hex[1]] + hex[2..];
      [b] + rest
  }

  function HexValue(c: char): (r: nat)
    requires IsHexDigit(c)
    ensures r < 16 && HexDigit(r) == c
  {
    if '0' <= c <= '9' then c as int - '0' as int else c as int - 'a' as int + 10
  }

  lemma ReorderSlices(h: string)
    requires |h| == 32
    ensures Reorder(h) == h[6..8] + h[4..6] + h[2..4] + h[0..2] + h[10..12] + h[8..10] + h[14..16] + h[12..14] + h[16..]
  {
  }

  /** The reordering is its own inverse. */
  lemma ReorderInvolution(hex: string)
    requires |hex| == 32
    ensures Reorder(Reorder(hex)) == hex
  {
    var r := Reorder(hex);
    ReorderSlices(hex);
    ReorderSlices(r);
    assert r[0..2] == hex[6..8] && r[2..4] == hex[4..6] && r[4..6] == hex[2..4] && r[6..8] == hex[0..2];
    assert r[8..10] == hex[10..12] && r[10..12] == hex[8..10] && r[12..14] == hex[14..16] && r[14..16] == hex[12..14];
    assert r[16..] == hex[16..];
    assert hex == hex[0..2] + hex[2..4] + hex[4..6] + hex[6..8] + hex[8..10] + hex[10..12] + hex[12..14] + hex[14..16] + hex[16..];
  }

  lemma {:induction false} RemoveDashesAppend(a: string, b: string)
    ensures RemoveDashes(a + b) == RemoveDashes(a) + RemoveDashes(b)
    decreases |a|
  {
    if a != [] {
      assert (a + b)[1..] == a[1..] + b;
      RemoveDashesAppend(a[1..], b);
    } else {
      assert a + b == b;
    }
  }

  lemma {:induction false} NoDashesKept(s: string)
    requires forall i :: 0 <= i < |s| ==> s[i] != '-'
    ensures RemoveDashes(s) == s
    decreases |s|
  {
    if s != [] {
      NoDashesKept(s[1..]);
    }
  }

  lemma {:induction false} LowerHex(s: string)
    requires forall i :: 0 <= i < |s| ==> IsHexDigit(s[i])
    ensures Lower(s) == s
    decreases |s|
  {
    if s != [] {
      LowerHex(s[1..]);
    }
  }

  /** Removing the dashes from the text form of 32 hex digits gives the
      digits back. */
  lemma UndashDashed(h: string)
    requires |h| == 32 && forall i :: 0 <= i < 32 ==> IsHexDigit(h[i])
    ensures RemoveDashes(Dashed(h)) == h
  {
    var p1, p2, p3, p4, p5 := h[..8], h[8..12], h[12..16], h[16..20], h[20..];
    DashedSlices(h);
    NoDashesKept(p1);
    var q2 := p1 + "-" + p2;
    UndashJoin(p1, p2);
    var q3 := q2 + "-" + p3;
    UndashJoin(q2, p3);
    var q4 := q3 + "-" + p4;
    UndashJoin(q3, p4);
    UndashJoin(q4, p5);
    assert h == p1 + p2 + p3 + p4 + p5;
  }

  /** Joining with a dash, then removing the dashes. */
  lemma UndashJoin(a: string, b: string)
    requires forall i :: 0 <= i < |b| ==> IsHexDigit(b[i])
    ensures RemoveDashes(a + "-" + b) == RemoveDashes(a) + b
  {
    var d := RemoveDashes(a);
    RemoveDashesAppend(a, "-");
    assert RemoveDashes("-") == "";
    assert RemoveDashes(a + "-") == d by {
      assert d + "" == d;
    }
    RemoveDashesAppend(a + "-", b);
    NoDashesKept(b);
  }

  /** A canonical UUID is the text form of its 32 hex digits. */
  lemma CanonicalIsDashed(s: string)
    requires CanonicalUuid(s)
    ensures var h := s[..8] + s[9..13] + s[14..18] + s[19..23] + s[24..];
      |h| == 32 && (forall i :: 0 <= i < 32 ==> IsHexDigit(h[i])) && Dashed(h) == s
  {
    var h := s[..8] + s[9..13] + s[14..18] + s[19..23] + s[24..];
    forall i | 0 <= i < 32
      ensures IsHexDigit(h[i])
    {
      if i < 8 {
        assert h[i] == s[i];
      } else if i < 12 {
        assert h[i] == s[i + 1];
      } else if i < 16 {
        assert h[i] == s[i + 2];
      } else if i < 20 {
        assert h[i] == s[i + 3];
      } else {
        assert h[i] == s[i + 4];
      }
    }
    DashedSlices(h);
    assert h[..8] == s[..8] && h[8..12] == s[9..13] && h[12..16] == s[14..18];
    assert h[16..20] == s[19..23] && h[20..] == s[24..];
    assert s == s[..8] + "-" + s[9..13] + "-" + s[14..18] + "-" + s[19..23] + "-" + s[24..];
  }

  /** The hex digits of a canonical UUID, without dashes. */
  lemma UndashCanonical(s: string)
    requires CanonicalUuid(s)
    ensures var h := RemoveDashes(s);
      |h| == 32 && (forall i :: 0 <= i < 32 ==> IsHexDigit(h[i])) && Dashed(h) == s
  {
    CanonicalIsDashed(s);
    UndashDashed(s[..8] + s[9..13] + s[14..18] + s[19..23] + s[24..]);
  }

  /** For a canonical lowercase UUID, `toCSUUID` of the buffer
      `toMongoNuuid` builds gives the UUID back. */
  lemma MongoNuuidRoundTrip(s: string)
    requires CanonicalUuid(s)
    ensures var m := ToMongoNuuidHex(s);
      |m| == 32 && (forall i :: 0 <= i < 32 ==> IsHexDigit(m[i])) &&
      ToCSUUID(ParseHex(m)) == s
  {
    UndashCanonical(s);
    var h := RemoveDashes(s);
    LowerHex(h);
    var m := Reorder(h);
    assert |m| == 32;
    var bytes := ParseHex(m);
    CSUUIDForm(bytes);
    ReorderHex(bytes);
    ReorderInvolution(h);
  }
}
