/** What Base64 text looks like: section 4 of RFC 4648. */
module Base64Text {
  import opened Basics
  import opened Base64

  /** Table 1 of RFC 4648. */
  const ALPHABET: string := "ABCDEFGHIJKLMNOPQRSTUVWXYZ" + "abcdefghijklmnopqrstuvwxyz" + "0123456789+/"

  /** The number whose digits to base 64 are start and then ds. */
  function Number64(start: int, ds: seq<sextet>): int
    decreases ds
  {
    if ds == [] then start else Number64(start * 64 + ds[0], ds[1..])
  }

  /** The number whose digits to base 256 are start and then bs. */
  function Number256(start: int, bs: Bytes): int
    decreases bs
  {
    if bs == [] then start else Number256(start * 256 + bs[0], bs[1..])
  }

  /** x is y with the zero bits behind it that n bytes lack: none, four or two. */
  predicate Filled(x: int, y: int, n: nat) {
    if n % 3 == 0 then x == y else if n % 3 == 1 then x == y * 16 else x == y * 4
  }

  lemma First64(start: int, d: sextet, ds: seq<sextet>)
    ensures Number64(start, [d] + ds) == Number64(start * 64 + d, ds)
  {
    assert ([d] + ds)[1..] == ds;
  }

  lemma First256(start: int, b: byte, bs: Bytes)
    ensures Number256(start, [b] + bs) == Number256(start * 256 + b, bs)
  {
    assert ([b] + bs)[1..] == bs;
  }

  lemma Two64(start: int, a: sextet, b: sextet, ds: seq<sextet>)
    ensures Number64(start, [a, b] + ds) == Number64((start * 64 + a) * 64 + b, ds)
  {
    assert [a, b] + ds == [a] + ([b] + ds);
    First64(start, a, [b] + ds);
    First64(start * 64 + a, b, ds);
  }

  lemma Four64(start: int, a: sextet, b: sextet, c: sextet, d: sextet, ds: seq<sextet>)
    ensures Number64(start, [a, b, c, d] + ds) == Number64((((start * 64 + a) * 64 + b) * 64 + c) * 64 + d, ds)
  {
    assert [a, b, c, d] + ds == [a, b] + ([c, d] + ds);
    Two64(start, a, b, [c, d] + ds);
    Two64((start * 64 + a) * 64 + b, c, d, ds);
  }

  lemma Three256(start: int, x: byte, y: byte, z: byte, bs: Bytes)
    ensures Number256(start, [x, y, z] + bs) == Number256(((start * 256 + x) * 256 + y) * 256 + z, bs)
  {
    assert [x, y, z] + bs == [x] + ([y] + ([z] + bs));
    First256(start, x, [y] + ([z] + bs));
    First256(start * 256 + x, y, [z] + bs);
    First256((start * 256 + x) * 256 + y, z, bs);
  }

  lemma OneByte(start: int, x: byte)
    ensures Number256(start, [x]) == start * 256 + x
    ensures Number64(start, [Six1(x), Six2(x, 0)]) == (start * 256 + x) * 16
  {
    First256(start, x, []);
    assert [x] + [] == [x] && [Six1(x), Six2(x, 0)] + [] == [Six1(x), Six2(x, 0)];
    Two64(start, Six1(x), Six2(x, 0), []);
    GroupNumbers(start, x, 0, 0);
  }

  lemma TwoBytes(start: int, x: byte, y: byte)
    ensures Number256(start, [x, y]) == (start * 256 + x) * 256 + y
    ensures Number64(start, [Six1(x), Six2(x, y), Six3(y, 0)]) == ((start * 256 + x) * 256 + y) * 4
  {
    assert [x, y] == [x] + ([y] + []) && [Six1(x), Six2(x, y), Six3(y, 0)] == [Six1(x), Six2(x, y)] + ([Six3(y, 0)] + []);
    First256(start, x, [y] + []);
    First256(start * 256 + x, y, []);
    Two64(start, Six1(x), Six2(x, y), [Six3(y, 0)] + []);
    First64((start * 64 + Six1(x)) * 64 + Six2(x, y), Six3(y, 0), []);
    GroupNumbers(start, x, y, 0);
  }

  lemma GroupNumbers(start: int, x: byte, y: byte, z: byte)
    ensures (start * 64 + Six1(x)) * 64 + Six2(x, 0) == (start * 256 + x) * 16
    ensures ((start * 64 + Six1(x)) * 64 + Six2(x, y)) * 64 + Six3(y, 0) == ((start * 256 + x) * 256 + y) * 4
    ensures (((start * 64 + Six1(x)) * 64 + Six2(x, y)) * 64 + Six3(y, z)) * 64 + Six4(z)
         == ((start * 256 + x) * 256 + y) * 256 + z
  {
    assert x as int == Six1(x) as int * 4 + x as int % 4;
    assert y as int == y as int / 16 * 16 + y as int % 16;
    assert z as int == z as int / 64 * 64 + z as int % 64;
  }

  /** How many letters n bytes take: four for three bytes, two for one more and three for two more. */
  function Letters(n: nat): (k: nat)
    ensures k % 4 != 1
  { if n < 3 then (if n == 0 then 0 else n + 1) else 4 + Letters(n - 3) }

  lemma {:induction false} RegroupSize(bs: Bytes)
    ensures |Regroup(bs)| == Letters(|bs|)
    decreases |bs|
  {
    if |bs| >= 3 { RegroupSize(bs[3..]); }
  }

  lemma GroupStep(start: int, x: byte, y: byte, z: byte, rest: Bytes)
    ensures var next := ((start * 256 + x) * 256 + y) * 256 + z;
            && Number64(start, [Six1(x), Six2(x, y), Six3(y, z), Six4(z)] + Regroup(rest)) == Number64(next, Regroup(rest))
            && Number256(start, [x, y, z] + rest) == Number256(next, rest)
  {
    GroupNumbers(start, x, y, z);
    Four64(start, Six1(x), Six2(x, y), Six3(y, z), Six4(z), Regroup(rest));
    Three256(start, x, y, z, rest);
  }

  lemma ThreeOff(n: nat, x: int, y: int)
    requires n >= 3
    ensures Filled(x, y, n - 3) <==> Filled(x, y, n)
  {
    assert (n - 3) % 3 == n % 3;
  }

  lemma {:induction false} RegroupNumber(start: int, bs: Bytes)
    ensures Filled(Number64(start, Regroup(bs)), Number256(start, bs), |bs|)
    decreases bs
  {
    TakeThree(bs);
    if |bs| == 1 {
      OneByte(start, bs[0]);
    } else if |bs| == 2 {
      TwoBytes(start, bs[0], bs[1]);
    } else if |bs| >= 3 {
      var next := ((start * 256 + bs[0]) * 256 + bs[1]) * 256 + bs[2];
      RegroupNumber(next, bs[3..]);
      GroupStep(start, bs[0], bs[1], bs[2], bs[3..]);
      ThreeOff(|bs|, Number64(next, Regroup(bs[3..])), Number256(next, bs[3..]));
    }
  }

  lemma LettersListed(d: nat)
    requires d < 26
    ensures "ABCDEFGHIJKLMNOPQRSTUVWXYZ"[d] == ('A' as int + d) as char && "abcdefghijklmnopqrstuvwxyz"[d] == ('a' as int + d) as char
  {
  }

  lemma SymbolListed(d: sextet)
    ensures |ALPHABET| == 64 && Symbol(d) == ALPHABET[d]
  {
    if d < 26 { LettersListed(d); } else if d < 52 { LettersListed(d - 26); }
  }

  lemma TextListed(ds: seq<sextet>, text: string)
    requires text == Symbols(ds) + PadFor(|ds|)
    ensures |text| == |ds| + Missing(|ds|)
    ensures forall i :: 0 <= i < |ds| ==> text[i] == ALPHABET[ds[i]]
    ensures forall i :: |ds| <= i < |text| ==> text[i] == '='
  {
    forall i | 0 <= i < |ds| ensures Symbols(ds)[i] == ALPHABET[ds[i]] { SymbolListed(ds[i]); }
    forall i | |ds| <= i < |text| ensures text[i] == '=' { assert text[i] == PadFor(|ds|)[i - |ds|]; }
  }

  /** Section 4 of RFC 4648: the characters are letters of the alphabet that spell the bytes as one number, filled up
      with zero bits, and '=' complete the last group of four. */
  lemma EncodeSpells(bs: Bytes) returns (ds: seq<sextet>)
    ensures |ds| == Letters(|bs|) <= |Encode(bs)| < |ds| + 3 && |Encode(bs)| % 4 == 0
    ensures Filled(Number64(0, ds), Number256(0, bs), |bs|)
    ensures forall i :: 0 <= i < |ds| ==> Encode(bs)[i] == ALPHABET[ds[i]]
    ensures forall i :: |ds| <= i < |Encode(bs)| ==> Encode(bs)[i] == '='
  {
    ds := Regroup(bs);
    RegroupSize(bs);
    RegroupNumber(0, bs);
    MissingCompletes(|ds|, Missing(|ds|));
    TextListed(ds, Encode(bs));
  }
}
