/** Lower-case hex and decimal, the two encodings that feed the hashes and the signed payload. */
module Encoding {
  import opened Basics

  const NEWLINE: byte := 10

  function Ascii(s: string): (t: Text)
    ensures |t| == |s| && forall i :: 0 <= i < |s| && s[i] as int < 256 ==> t[i] as int == s[i] as int
  {
    seq(|s|, i requires 0 <= i < |s| => (s[i] as int % 256) as byte)
  }

  // ----- hex -----

  function HexDigit(n: byte): (c: byte)
    requires n < 16
    ensures HexValue(c) == Some(n)
  {
    if n < 10 then 48 + n else 87 + n
  }

  /** The decoder takes both cases, as encoding/hex does. */
  function HexValue(c: byte): Option<byte> {
    if 48 <= c <= 57 then Some(c - 48)
    else if 97 <= c <= 102 then Some(c - 87)
    else if 65 <= c <= 70 then Some(c - 55)
    else None
  }

  function HexByte(b: byte): (t: Text)
    ensures |t| == 2 && HexValue(t[0]) == Some(b / 16) && HexValue(t[1]) == Some(b % 16)
  {
    [HexDigit(b / 16), HexDigit(b % 16)]
  }

  function HexEncode(s: seq<byte>): (t: Text)
    ensures |t| == 2 * |s|
  {
    if s == [] then []
    else HexByte(s[0]) + HexEncode(s[1..])
  }

  function HexDecode(t: Text): Option<seq<byte>> {
    if t == [] then Some([])
    else if |t| == 1 then None
    else
      match (HexValue(t[0]), HexValue(t[1]), HexDecode(t[2..]))
      case (Some(hi), Some(lo), Some(rest)) => Some([Nibbles(hi, lo)] + rest)
      case _ => None
  }

  function Nibbles(hi: byte, lo: byte): byte {
    (hi as int % 16 * 16 + lo as int % 16) as byte
  }

  lemma NibblesOf(b: byte)
    ensures Nibbles(b / 16, b % 16) == b
  {
  }

  /** One step of the decoder. */
  lemma HexDecodeStep(t: Text)
    requires |t| >= 2
    ensures HexDecode(t).Some? <==> HexValue(t[0]).Some? && HexValue(t[1]).Some? && HexDecode(t[2..]).Some?
    ensures HexDecode(t).Some? ==>
              HexDecode(t).value == [Nibbles(HexValue(t[0]).value, HexValue(t[1]).value)] + HexDecode(t[2..]).value
  {
  }

  lemma HexDecodesByte(b: byte, t: Text, rest: seq<byte>)
    requires HexDecode(t) == Some(rest)
    ensures HexDecode(HexByte(b) + t) == Some([b] + rest)
  {
    var u := HexByte(b) + t;
    assert u[0] == HexByte(b)[0] && u[1] == HexByte(b)[1] && u[2..] == t;
    HexDecodeStep(u);
    NibblesOf(b);
  }

  lemma {:induction false} HexRoundTrip(s: seq<byte>)
    ensures HexDecode(HexEncode(s)) == Some(s)
  {
    if s != [] {
      HexRoundTrip(s[1..]);
      HexDecodesByte(s[0], HexEncode(s[1..]), s[1..]);
      assert s == [s[0]] + s[1..];
    }
  }

  lemma {:induction false} HexHasNoNewline(s: seq<byte>)
    ensures NEWLINE !in HexEncode(s)
  {
    if s != [] {
      HexHasNoNewline(s[1..]);
      assert HexValue(NEWLINE).None?;
    }
  }

  /** A digit as the encoder writes it: 0-9 or a-f. */
  predicate LowerHexDigit(c: byte) {
    48 <= c <= 57 || 97 <= c <= 102
  }

  predicate LowerHex(t: Text) {
    forall i :: 0 <= i < |t| ==> LowerHexDigit(t[i])
  }

  lemma {:induction false} HexIsLower(s: seq<byte>)
    ensures LowerHex(HexEncode(s))
  {
    if s != [] {
      HexIsLower(s[1..]);
      HexDigitIsLower(s[0] / 16);
      HexDigitIsLower(s[0] % 16);
    }
  }

  lemma HexDigitIsLower(n: byte)
    requires n < 16
    ensures LowerHexDigit(HexDigit(n))
  {
  }

  /** The value of a digit, written out: decimal digits, and letters of either case. */
  lemma HexValueIs(c: byte)
    ensures HexValue(c).Some? <==> 48 <= c <= 57 || 97 <= c <= 102 || 65 <= c <= 70
    ensures 48 <= c <= 57 ==> HexValue(c) == Some(c - 48)
    ensures 97 <= c <= 102 ==> HexValue(c) == Some(10 + (c - 97))
    ensures 65 <= c <= 70 ==> HexValue(c) == HexValue(c + 32)
  {
  }

  predicate AllHexDigits(t: Text) {
    forall i :: 0 <= i < |t| ==> HexValue(t[i]).Some?
  }

  /** Text decodes exactly if it has an even number of hex digits, to one byte for each two. */
  lemma {:induction false} HexDecodes(t: Text)
    ensures HexDecode(t).Some? <==> |t| % 2 == 0 && AllHexDigits(t)
    ensures HexDecode(t).Some? ==> 2 * |HexDecode(t).value| == |t|
  {
    if |t| >= 2 {
      var rest := t[2..];
      HexDecodes(rest);
      HexDecodeStep(t);
      DigitsOfTail(t, rest);
      assert |t| % 2 == |rest| % 2;
    }
  }

  lemma DigitsOfTail(t: Text, rest: Text)
    requires |t| >= 2 && rest == t[2..]
    ensures AllHexDigits(t) <==> HexValue(t[0]).Some? && HexValue(t[1]).Some? && AllHexDigits(rest)
  {
    assert forall i :: 2 <= i < |t| ==> t[i] == rest[i - 2];
  }

  lemma NibblesSplit(hi: byte, lo: byte)
    requires hi < 16 && lo < 16
    ensures Nibbles(hi, lo) / 16 == hi && Nibbles(hi, lo) % 16 == lo
  {
  }

  /** There is one lower-case text for given bytes, the encoder's. */
  lemma {:induction false} LowerHexIsEncoding(t: Text, s: seq<byte>)
    requires LowerHex(t) && HexDecode(t) == Some(s)
    ensures t == HexEncode(s)
  {
    if t != [] {
      var rest := t[2..];
      HexDecodeStep(t);
      LowerHexIsEncoding(rest, HexDecode(rest).value);
      LowerHexByte(t[0], t[1], s[0]);
      assert s == [s[0]] + HexDecode(rest).value;
      HexCons(s[0], HexDecode(rest).value);
      assert t == [t[0], t[1]] + rest;
    }
  }

  lemma LowerHexByte(c: byte, d: byte, b: byte)
    requires LowerHexDigit(c) && LowerHexDigit(d) && HexValue(c).Some? && HexValue(d).Some?
    requires b == Nibbles(HexValue(c).value, HexValue(d).value)
    ensures HexByte(b) == [c, d]
  {
    DigitOfValue(c, HexValue(c).value);
    DigitOfValue(d, HexValue(d).value);
    NibblesSplit(HexValue(c).value, HexValue(d).value);
  }

  lemma DigitOfValue(c: byte, n: byte)
    requires LowerHexDigit(c) && HexValue(c) == Some(n)
    ensures n < 16 && HexDigit(n) == c
  {
  }

  lemma HexInjective(a: seq<byte>, b: seq<byte>)
    requires HexEncode(a) == HexEncode(b)
    ensures a == b
  {
    HexRoundTrip(a);
    HexRoundTrip(b);
  }

  lemma HexCons(b: byte, s: seq<byte>)
    ensures HexEncode([b] + s) == HexByte(b) + HexEncode(s)
  {
    assert ([b] + s)[1..] == s;
  }

  lemma {:induction false} HexConcat(a: seq<byte>, b: seq<byte>)
    ensures HexEncode(a + b) == HexEncode(a) + HexEncode(b)
  {
    if a == [] {
      assert a + b == b;
    } else {
      HexConcat(a[1..], b);
      assert a == [a[0]] + a[1..] && a + b == [a[0]] + (a[1..] + b);
      HexCons(a[0], a[1..]);
      HexCons(a[0], a[1..] + b);
      ConcatAssociates(HexByte(a[0]), HexEncode(a[1..]), HexEncode(b));
    }
  }

  // ----- decimal -----

  function Digits(n: nat): (t: Text)
    ensures t != []
    ensures forall i :: 0 <= i < |t| ==> 48 <= t[i] <= 57
  {
    if n < 10 then [48 + n as byte] else Digits(n / 10) + [48 + (n % 10) as byte]
  }

  function DigitsValue(t: Text): int {
    if t == [] then 0 else 10 * DigitsValue(t[..|t| - 1]) + (t[|t| - 1] as int - 48)
  }

  lemma {:induction false} DigitsRoundTrip(n: nat)
    ensures DigitsValue(Digits(n)) == n
  {
    if n >= 10 {
      DigitsRoundTrip(n / 10);
      var t := Digits(n);
      assert t[..|t| - 1] == Digits(n / 10);
    } else {
      assert Digits(n)[..0] == [];
    }
  }

  /** No zero in front, zero itself excepted. */
  lemma {:induction false} DigitsHaveNoLeadingZero(n: nat)
    ensures n > 0 ==> Digits(n)[0] != 48
    ensures Digits(0) == [48]
  {
    if n >= 10 {
      DigitsHaveNoLeadingZero(n / 10);
    }
  }

  /** There is one text of digits without a leading zero for a given number. */
  lemma {:induction false} DigitsUnique(t: Text, n: nat)
    requires t != [] && (forall i :: 0 <= i < |t| ==> 48 <= t[i] <= 57) && (|t| > 1 ==> t[0] != 48)
    requires DigitsValue(t) == n
    ensures t == Digits(n)
  {
    var init, last := t[..|t| - 1], t[|t| - 1];
    assert t == init + [last];
    if init == [] {
      assert DigitsValue(t) == last as int - 48;
    } else {
      DigitsPositive(init);
      DigitsUnique(init, DigitsValue(init));
      assert n / 10 == DigitsValue(init) && n % 10 == last as int - 48;
    }
  }

  lemma {:induction false} DigitsPositive(t: Text)
    requires t != [] && (forall i :: 0 <= i < |t| ==> 48 <= t[i] <= 57) && t[0] != 48
    ensures DigitsValue(t) > 0
  {
    if |t| > 1 {
      DigitsPositive(t[..|t| - 1]);
    }
  }

  /** What Itoa writes: a minus sign for negative numbers, then the digits of the absolute value. */
  lemma ItoaIs(n: int)
    ensures n < 0 ==> Itoa(n)[0] == 45 && DigitsValue(Itoa(n)[1..]) == -n && Itoa(n)[1] != 48
    ensures n >= 0 ==> DigitsValue(Itoa(n)) == n && (n > 0 ==> Itoa(n)[0] != 48)
    ensures forall i :: (if n < 0 then 1 else 0) <= i < |Itoa(n)| ==> 48 <= Itoa(n)[i] <= 57
  {
    var m: nat := if n < 0 then -n else n;
    DigitsRoundTrip(m);
    DigitsHaveNoLeadingZero(m);
    if n < 0 {
      assert Itoa(n)[1..] == Digits(m);
    }
  }

  /** strconv.Itoa */
  function Itoa(n: int): (t: Text) {
    if n < 0 then [45] + Digits(-n) else Digits(n)
  }

  lemma ItoaHasNoNewline(n: int)
    ensures NEWLINE !in Itoa(n)
  {
    if n < 0 {
      assert Itoa(n) == [45] + Digits(-n);
    }
  }

  lemma ItoaInjective(m: int, n: int)
    requires Itoa(m) == Itoa(n)
    ensures m == n
  {
    assert (m < 0) == (Itoa(m)[0] == 45);
    assert (n < 0) == (Itoa(n)[0] == 45);
    var p, q := if m < 0 then -m else m, if n < 0 then -n else n;
    assert Digits(p) == Digits(q) by {
      if m < 0 {
        assert Digits(p) == Itoa(m)[1..];
        assert Digits(q) == Itoa(n)[1..];
      }
    }
    DigitsRoundTrip(p);
    DigitsRoundTrip(q);
  }
}
