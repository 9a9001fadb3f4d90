/** UTF-8 as Python's strict codec writes and reads it, section 3 of RFC 3629. */
module Utf8 {
  import opened Basics

  function EncodeChar(c: char): (bs: Bytes)
    ensures |bs| > 0
  {
    var n := c as int;
    var n1 := n / 64;
    var n2 := n1 / 64;
    var n3 := n2 / 64;
    if n < 0x80 then [n]
    else if n < 0x800 then [0xC0 + n1, 0x80 + n % 64]
    else if n < 0x1_0000 then [0xE0 + n2, 0x80 + n1 % 64, 0x80 + n % 64]
    else [0xF0 + n3, 0x80 + n2 % 64, 0x80 + n1 % 64, 0x80 + n % 64]
  }

  function Encode(s: string): Bytes {
    if s == "" then [] else EncodeChar(s[0]) + Encode(s[1..])
  }

  predicate IsTail(b: byte) { 0x80 <= b < 0xC0 }

  /** The scalar value n as a character, unless n is a surrogate or out of range. */
  function ScalarChar(n: int): Option<char> {
    if 0 <= n < 0xD800 || 0xE000 <= n < 0x11_0000 then Some(n as char) else None
  }

  /** Appends the six payload bits of continuation byte b to the bits read so far. */
  function Shift(n: int, b: byte): int { n * 64 + b - 0x80 }

  /** The scalar value n as read from k bytes, unless a shorter form exists or n is no character. */
  function Scalar(n: int, least: int, k: nat): (r: Option<(char, nat)>)
    ensures r.Some? ==> r.value.1 == k
  {
    if n < least then None
    else match ScalarChar(n)
      case Some(c) => Some((c, k))
      case None => None
  }

  /** Reads one character and says how many bytes it took; overlong forms and surrogates are errors. */
  function DecodeChar(bs: Bytes): (r: Option<(char, nat)>)
    ensures r.Some? ==> 0 < r.value.1 <= |bs|
  {
    if bs == [] then None
    else if bs[0] < 0x80 then Scalar(bs[0], 0, 1)
    else if 0xC0 <= bs[0] < 0xE0 && |bs| >= 2 && IsTail(bs[1]) then
      Scalar(Shift(bs[0] as int - 0xC0, bs[1]), 0x80, 2)
    else if 0xE0 <= bs[0] < 0xF0 && |bs| >= 3 && IsTail(bs[1]) && IsTail(bs[2]) then
      Scalar(Shift(Shift(bs[0] as int - 0xE0, bs[1]), bs[2]), 0x800, 3)
    else if 0xF0 <= bs[0] < 0xF8 && |bs| >= 4 && IsTail(bs[1]) && IsTail(bs[2]) && IsTail(bs[3]) then
      Scalar(Shift(Shift(Shift(bs[0] as int - 0xF0, bs[1]), bs[2]), bs[3]), 0x1_0000, 4)
    else None
  }

  function Decode(bs: Bytes): Option<string> {
    if bs == [] then Some("")
    else match DecodeChar(bs)
      case None => None
      case Some((c, n)) =>
        var rest :- Decode(bs[n..]);
        Some([c] + rest)
  }

  lemma DecodeEncodeChar(c: char, rest: Bytes)
    ensures DecodeChar(EncodeChar(c) + rest) == Some((c, |EncodeChar(c)|))
  {
    var n := c as int;
    var e := EncodeChar(c);
    var bs := e + rest;
    assert ScalarChar(n) == Some(c);
    assert bs[0] == e[0];
    if n < 0x80 {
    } else if n < 0x800 {
      assert bs[1] == e[1];
      assert Shift(e[0] as int - 0xC0, e[1]) == n;
    } else if n < 0x1_0000 {
      assert bs[1] == e[1] && bs[2] == e[2];
      assert Shift(e[0] as int - 0xE0, e[1]) == n / 64;
      assert Shift(n / 64, e[2]) == n;
    } else {
      assert bs[1] == e[1] && bs[2] == e[2] && bs[3] == e[3];
      assert Shift(e[0] as int - 0xF0, e[1]) == n / 64 / 64;
      assert Shift(n / 64 / 64, e[2]) == n / 64;
      assert Shift(n / 64, e[3]) == n;
    }
  }

  /** Decoding inverts encoding for every text. */
  lemma {:induction false} DecodeEncode(s: string)
    ensures Decode(Encode(s)) == Some(s)
  {
    if s != "" {
      var head, tail := EncodeChar(s[0]), Encode(s[1..]);
      DecodeEncodeChar(s[0], tail);
      assert (head + tail)[|head|..] == tail;
      DecodeEncode(s[1..]);
      assert [s[0]] + s[1..] == s;
    }
  }

  /** So no two texts share their bytes. */
  lemma EncodeInjective(s: string, t: string)
    requires Encode(s) == Encode(t)
    ensures s == t
  {
    DecodeEncode(s);
    DecodeEncode(t);
  }

  /** The table of section 3 of RFC 3629: how many bytes, which top bits, and the code in the bits that are left. */
  lemma CharBits(c: char)
    ensures var (n, bs) := (c as int, EncodeChar(c));
            if n < 0x80 then |bs| == 1 && bs[0] == n
            else if n < 0x800 then
              |bs| == 2 && bs[0] as int / 32 == 6 && bs[1] as int / 64 == 2
              && n == bs[0] as int % 32 * 64 + bs[1] as int % 64
            else if n < 0x1_0000 then
              |bs| == 3 && bs[0] as int / 16 == 14 && bs[1] as int / 64 == 2 && bs[2] as int / 64 == 2
              && n == (bs[0] as int % 16 * 64 + bs[1] as int % 64) * 64 + bs[2] as int % 64
            else
              |bs| == 4 && bs[0] as int / 8 == 30 && bs[1] as int / 64 == 2 && bs[2] as int / 64 == 2 && bs[3] as int / 64 == 2
              && n == ((bs[0] as int % 8 * 64 + bs[1] as int % 64) * 64 + bs[2] as int % 64) * 64 + bs[3] as int % 64
  {
  }

  lemma TwoBack(c: char, a: byte, b: byte)
    requires 0xC0 <= a < 0xE0 && IsTail(b) && Scalar(Shift(a as int - 0xC0, b), 0x80, 2) == Some((c, 2))
    ensures EncodeChar(c) == [a, b]
  {
    assert c as int == (a as int - 0xC0) * 64 + (b as int - 0x80);
  }

  lemma ThreeBack(c: char, a: byte, b: byte, d: byte)
    requires 0xE0 <= a < 0xF0 && IsTail(b) && IsTail(d)
    requires Scalar(Shift(Shift(a as int - 0xE0, b), d), 0x800, 3) == Some((c, 3))
    ensures EncodeChar(c) == [a, b, d]
  {
    var n1 := (a as int - 0xE0) * 64 + (b as int - 0x80);
    assert c as int == n1 * 64 + (d as int - 0x80);
    assert c as int / 64 == n1 && n1 / 64 == a as int - 0xE0;
  }

  lemma FourBack(c: char, a: byte, b: byte, d: byte, e: byte)
    requires 0xF0 <= a < 0xF8 && IsTail(b) && IsTail(d) && IsTail(e)
    requires Scalar(Shift(Shift(Shift(a as int - 0xF0, b), d), e), 0x1_0000, 4) == Some((c, 4))
    ensures EncodeChar(c) == [a, b, d, e]
  {
    var n2 := (a as int - 0xF0) * 64 + (b as int - 0x80);
    var n1 := n2 * 64 + (d as int - 0x80);
    assert c as int == n1 * 64 + (e as int - 0x80);
    assert c as int / 64 == n1 && n1 / 64 == n2 && n2 / 64 == a as int - 0xF0;
  }

  lemma EncodeDecodeChar(bs: Bytes)
    requires DecodeChar(bs).Some?
    ensures bs[..DecodeChar(bs).value.1] == EncodeChar(DecodeChar(bs).value.0)
  {
    var (c, n) := DecodeChar(bs).value;
    if n == 2 {
      TwoBack(c, bs[0], bs[1]);
    } else if n == 3 {
      ThreeBack(c, bs[0], bs[1], bs[2]);
    } else if n == 4 {
      FourBack(c, bs[0], bs[1], bs[2], bs[3]);
    }
  }

  lemma DecodeFirst(bs: Bytes)
    requires bs != [] && Decode(bs).Some?
    ensures DecodeChar(bs).Some?
    ensures var (c, n) := DecodeChar(bs).value;
            Decode(bs[n..]).Some? && Decode(bs).value == [c] + Decode(bs[n..]).value
  {
  }

  lemma EncodeFirst(bs: Bytes, s: string)
    requires DecodeChar(bs).Some? && Encode(s) == bs[DecodeChar(bs).value.1..]
    ensures Encode([DecodeChar(bs).value.0] + s) == bs
  {
    var (c, n) := DecodeChar(bs).value;
    EncodeDecodeChar(bs);
    assert ([c] + s)[1..] == s && bs == bs[..n] + bs[n..];
  }

  lemma {:induction false} EncodeDecode(bs: Bytes)
    requires Decode(bs).Some?
    ensures Encode(Decode(bs).value) == bs
  {
    if bs != [] {
      DecodeFirst(bs);
      EncodeDecode(bs[DecodeChar(bs).value.1..]);
      EncodeFirst(bs, Decode(bs[DecodeChar(bs).value.1..]).value);
    }
  }

  /** The strict decoder takes the encoding of each text and no other bytes. */
  lemma DecodeExact(bs: Bytes, s: string)
    ensures Decode(bs) == Some(s) <==> bs == Encode(s)
  {
    DecodeEncode(s);
    if Decode(bs).Some? { EncodeDecode(bs); }
  }
}
