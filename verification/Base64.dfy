/** Base64 with the standard alphabet, sections 3.5 and 4 of RFC 4648, as b64encode and
    b64decode(validate=True) compute it, and the acceptance test for signature texts. */
module Base64 {
  import opened Basics

  type sextet = d: int | 0 <= d < 64

  // ---------------------------------------------------------------- bytes and six-bit groups

  function Six1(x: byte): sextet { x as int / 4 }
  function Six2(x: byte, y: byte): sextet { x as int % 4 * 16 + y as int / 16 }
  function Six3(y: byte, z: byte): sextet { y as int % 16 * 4 + z as int / 64 }
  function Six4(z: byte): sextet { z as int % 64 }

  function Byte1(a: sextet, b: sextet): byte { a as int * 4 + b as int / 16 }
  function Byte2(b: sextet, c: sextet): byte { b as int % 16 * 16 + c as int / 4 }
  function Byte3(c: sextet, d: sextet): byte { c as int % 4 * 64 + d as int }

  lemma BytesBack(x: byte, y: byte, z: byte)
    ensures Byte1(Six1(x), Six2(x, y)) == x
    ensures Byte2(Six2(x, y), Six3(y, z)) == y
    ensures Byte3(Six3(y, z), Six4(z)) == z
  {
  }

  lemma SextetsBack(a: sextet, b: sextet, c: sextet, d: sextet)
    ensures Six1(Byte1(a, b)) == a
    ensures Six2(Byte1(a, b), Byte2(b, c)) == b
    ensures Six3(Byte2(b, c), Byte3(c, d)) == c
    ensures Six4(Byte3(c, d)) == d
    ensures Six2(Byte1(a, b), 0) == b - b % 16
    ensures Six3(Byte2(b, c), 0) == c - c % 4
  {
  }

  /** Regroups bytes into six-bit values; the last one is filled up with zero bits. */
  function Regroup(bs: Bytes): seq<sextet> {
    if bs == [] then []
    else if |bs| == 1 then [Six1(bs[0]), Six2(bs[0], 0)]
    else if |bs| == 2 then [Six1(bs[0]), Six2(bs[0], bs[1]), Six3(bs[1], 0)]
    else [Six1(bs[0]), Six2(bs[0], bs[1]), Six3(bs[1], bs[2]), Six4(bs[2])] + Regroup(bs[3..])
  }

  /** The whole bytes in a sequence of six-bit values. */
  function Ungroup(ds: seq<sextet>): Bytes {
    if |ds| < 2 then []
    else if |ds| == 2 then [Byte1(ds[0], ds[1])]
    else if |ds| == 3 then [Byte1(ds[0], ds[1]), Byte2(ds[1], ds[2])]
    else [Byte1(ds[0], ds[1]), Byte2(ds[1], ds[2]), Byte3(ds[2], ds[3])] + Ungroup(ds[4..])
  }

  lemma {:induction false} RegroupLength(bs: Bytes)
    ensures |Regroup(bs)| % 4 != 1
    ensures bs != [] ==> Regroup(bs) != []
  {
    if |bs| >= 3 { RegroupLength(bs[3..]); }
  }

  lemma TakeThree<T>(s: seq<T>)
    ensures |s| == 1 ==> s == [s[0]]
    ensures |s| == 2 ==> s == [s[0], s[1]]
    ensures |s| == 3 ==> s == [s[0], s[1], s[2]]
    ensures |s| >= 3 ==> s == [s[0], s[1], s[2]] + s[3..]
    ensures |s| >= 4 ==> s == [s[0], s[1], s[2], s[3]] + s[4..]
  {
  }

  lemma DropFour<T>(a: T, b: T, c: T, d: T, rest: seq<T>)
    ensures var s := [a, b, c, d] + rest;
            |s| == |rest| + 4 && s[0] == a && s[1] == b && s[2] == c && s[3] == d && s[4..] == rest
  {
  }

  lemma DropThree<T>(a: T, b: T, c: T, rest: seq<T>)
    ensures var s := [a, b, c] + rest;
            |s| == |rest| + 3 && s[0] == a && s[1] == b && s[2] == c && s[3..] == rest
  {
  }

  lemma {:induction false} UngroupRegroup(bs: Bytes)
    ensures Ungroup(Regroup(bs)) == bs
  {
    TakeThree(bs);
    if |bs| >= 3 {
      UngroupRegroup(bs[3..]);
      DropFour(Six1(bs[0]), Six2(bs[0], bs[1]), Six3(bs[1], bs[2]), Six4(bs[2]), Regroup(bs[3..]));
      BytesBack(bs[0], bs[1], bs[2]);
    } else if |bs| == 2 {
      BytesBack(bs[0], bs[1], 0);
    } else if |bs| == 1 {
      BytesBack(bs[0], 0, 0);
    }
  }

  /** The bits of the last six-bit value that belong to no whole byte. */
  function SpareBits(ds: seq<sextet>): int {
    if |ds| % 4 == 2 then ds[|ds| - 1] % 16
    else if |ds| % 4 == 3 then ds[|ds| - 1] % 4
    else 0
  }

  lemma RegroupOne(a: sextet, b: sextet)
    ensures Regroup([Byte1(a, b)]) == [a, b - b % 16]
  {
    SextetsBack(a, b, 0, 0);
  }

  lemma RegroupTwo(a: sextet, b: sextet, c: sextet)
    ensures Regroup([Byte1(a, b), Byte2(b, c)]) == [a, b, c - c % 4]
  {
    SextetsBack(a, b, c, 0);
  }

  /** Replacing the last value by itself less its spare bits changes nothing when there are none. */
  lemma LastCleared(ds: seq<int>, m: int)
    requires ds != [] && m > 0
    ensures ds[|ds| - 1 := ds[|ds| - 1] - ds[|ds| - 1] % m] == ds <==> ds[|ds| - 1] % m == 0
  {
    var es := ds[|ds| - 1 := ds[|ds| - 1] - ds[|ds| - 1] % m];
    assert es[|ds| - 1] == ds[|ds| - 1] - ds[|ds| - 1] % m;
  }

  lemma RegroupUngroupTail(ds: seq<sextet>)
    requires |ds| == 2 || |ds| == 3
    ensures Regroup(Ungroup(ds)) == ds <==> SpareBits(ds) == 0
    ensures |Regroup(Ungroup(ds))| == |ds|
  {
    if |ds| == 3 {
      assert [ds[0], ds[1], ds[2] - ds[2] % 4] == ds[2 := ds[2] - ds[2] % 4];
      LastCleared(ds, 4);
      RegroupTwo(ds[0], ds[1], ds[2]);
    } else {
      assert [ds[0], ds[1] - ds[1] % 16] == ds[1 := ds[1] - ds[1] % 16];
      LastCleared(ds, 16);
      RegroupOne(ds[0], ds[1]);
    }
  }

  lemma RegroupUngroupHead(ds: seq<sextet>)
    requires |ds| >= 4
    ensures var es := Regroup(Ungroup(ds[4..]));
            Regroup(Ungroup(ds)) == [ds[0], ds[1], ds[2], ds[3]] + es
  {
    DropThree(Byte1(ds[0], ds[1]), Byte2(ds[1], ds[2]), Byte3(ds[2], ds[3]), Ungroup(ds[4..]));
    SextetsBack(ds[0], ds[1], ds[2], ds[3]);
  }

  lemma SpareBitsTail(ds: seq<sextet>)
    requires |ds| >= 4
    ensures SpareBits(ds) == SpareBits(ds[4..])
  {
    if |ds| > 4 { assert ds[4..][|ds| - 5] == ds[|ds| - 1]; }
  }

  lemma SamePrefix<T>(p: seq<T>, s: seq<T>, t: seq<T>)
    ensures p + s == p + t <==> s == t
  {
    if p + s == p + t {
      assert (p + s)[|p|..] == s && (p + t)[|p|..] == t;
    }
  }

  lemma {:induction false} RegroupUngroup(ds: seq<sextet>)
    requires |ds| % 4 != 1
    ensures Regroup(Ungroup(ds)) == ds <==> SpareBits(ds) == 0
    ensures |Regroup(Ungroup(ds))| == |ds|
  {
    if |ds| >= 4 {
      var head, rest := ds[..4], ds[4..];
      assert |ds| == |rest| + 4;
      assert head + rest == ds;
      RegroupUngroup(rest);
      var es := Regroup(Ungroup(rest));
      assert Regroup(Ungroup(ds)) == head + es by {
        RegroupUngroupHead(ds);
        TakeThree(head);
      }
      SpareBitsTail(ds);
      SamePrefix(head, es, rest);
    } else if ds != [] {
      RegroupUngroupTail(ds);
    }
  }

  // ---------------------------------------------------------------- characters and padding

  function Symbol(d: sextet): char {
    if d < 26 then ('A' as int + d) as char
    else if d < 52 then ('a' as int + d - 26) as char
    else if d < 62 then ('0' as int + d - 52) as char
    else if d == 62 then '+'
    else '/'
  }

  predicate InAlphabet(c: char) {
    'A' <= c <= 'Z' || 'a' <= c <= 'z' || '0' <= c <= '9' || c == '+' || c == '/'
  }

  function Bits(c: char): sextet
    requires InAlphabet(c)
  {
    if 'A' <= c <= 'Z' then c as int - 'A' as int
    else if 'a' <= c <= 'z' then c as int - 'a' as int + 26
    else if '0' <= c <= '9' then c as int - '0' as int + 52
    else if c == '+' then 62
    else 63
  }

  function Symbols(ds: seq<sextet>): (s: string)
    ensures |s| == |ds|
    ensures forall i :: 0 <= i < |s| ==> InAlphabet(s[i]) && Bits(s[i]) == ds[i]
  {
    seq(|ds|, i requires 0 <= i < |ds| => Symbol(ds[i]))
  }

  lemma SymbolOfBits(c: char)
    requires InAlphabet(c)
    ensures Symbol(Bits(c)) == c
  {
  }

  function Values(s: string): (ds: seq<sextet>)
    requires forall i :: 0 <= i < |s| ==> InAlphabet(s[i])
    ensures |ds| == |s|
    ensures forall i :: 0 <= i < |ds| ==> ds[i] == Bits(s[i])
  {
    seq(|s|, i requires 0 <= i < |s| => Bits(s[i]))
  }

  function Pad(n: nat): string { seq(n, _ => '=') }

  /** How many characters the last group of n six-bit values lacks. */
  function Missing(n: nat): (k: nat)
    ensures k < 4
  {
    match n % 4
    case 0 => 0
    case 1 => 3
    case 2 => 2
    case _ => 1
  }

  lemma MissingCompletes(n: nat, k: nat)
    requires n % 4 != 1
    ensures k == Missing(n) <==> (n + k) % 4 == 0 && k <= 2
  {
  }

  /** Padding that fills a text of n six-bit values up to whole groups of four. */
  function PadFor(n: nat): string { Pad(Missing(n)) }

  function Encode(bs: Bytes): string {
    Symbols(Regroup(bs)) + PadFor(|Regroup(bs)|)
  }

  /** How many '=' a text ends with. */
  function PaddingOf(s: string): (n: nat)
    ensures n <= |s|
    ensures forall i :: |s| - n <= i < |s| ==> s[i] == '='
    ensures n < |s| ==> s[|s| - n - 1] != '='
  {
    if s == "" || s[|s| - 1] != '=' then 0 else 1 + PaddingOf(s[..|s| - 1])
  }

  function Body(s: string): string { s[..|s| - PaddingOf(s)] }

  /** Alphabet characters up to the padding. */
  predicate Core(s: string) { forall i :: 0 <= i < |Body(s)| ==> InAlphabet(Body(s)[i]) }

  /** The two behaviours of the standard library the package may run on. */
  datatype Library = Python310 | Python311

  /** The one at hand; every result holds for both. */
  const LIBRARY: Library

  /** Which padding b64decode(validate=True) takes after n characters: what fills the last group of four,
      but after whole groups also '=' that fill nothing, and in 3.10 a second '=' after three characters. */
  predicate TakesPadding(n: nat, padding: nat) {
    match n % 4
    case 0 => padding == 0 || (if LIBRARY.Python310? then padding <= 2 else n > 0)
    case 1 => false
    case 2 => padding == 2
    case _ => padding == 1 || (LIBRARY.Python310? && padding == 2)
  }

  /** b64decode(validate=True); the unused bits are not looked at. */
  function Decode(s: string): Option<Bytes> {
    if Core(s) && TakesPadding(|Body(s)|, PaddingOf(s)) then Some(Ungroup(Values(Body(s)))) else None
  }

  lemma PaddingEnds(t: string, n: nat)
    requires t == "" || t[|t| - 1] != '='
    ensures PaddingOf(t + Pad(n)) == n && Body(t + Pad(n)) == t
  {
    var s := t + Pad(n);
    assert forall i :: |t| <= i < |s| ==> s[i] == Pad(n)[i - |t|];
    assert t != "" ==> s[|t| - 1] == t[|t| - 1];
    assert s[..|t|] == t;
  }

  lemma PaddingShape(t: string)
    requires |t| % 4 != 1 && forall i :: 0 <= i < |t| ==> InAlphabet(t[i])
    ensures var s := t + PadFor(|t|);
            |s| % 4 == 0 && PaddingOf(s) <= 2 && Body(s) == t && Core(s) && TakesPadding(|t|, PaddingOf(s))
  {
    if t != "" { assert t[|t| - 1] != '='; }
    PaddingEnds(t, Missing(|t|));
    MissingCompletes(|t|, Missing(|t|));
  }

  lemma EncodeShape(bs: Bytes)
    ensures var s := Encode(bs);
            && |s| % 4 == 0 && Core(s) && PaddingOf(s) <= 2
            && Body(s) == Symbols(Regroup(bs)) && TakesPadding(|Body(s)|, PaddingOf(s))
            && (bs != [] ==> s != "")
  {
    RegroupLength(bs);
    PaddingShape(Symbols(Regroup(bs)));
  }

  /** Decoding inverts encoding for every byte string. */
  lemma DecodeEncode(bs: Bytes)
    ensures Decode(Encode(bs)) == Some(bs)
  {
    EncodeShape(bs);
    UngroupRegroup(bs);
    assert Values(Symbols(Regroup(bs))) == Regroup(bs);
  }

  /** _canonical_base64 */
  function Canonical(s: string): Result<string> {
    match Decode(s)
    case None => Err(ValueError)
    case Some(bs) => Ok(Encode(bs))
  }

  /** Normalising a normalised text changes nothing. */
  lemma CanonicalIdempotent(s: string)
    requires Canonical(s).Ok?
    ensures Canonical(Canonical(s).value) == Canonical(s)
  {
    DecodeEncode(Decode(s).value);
  }

  lemma SymbolsValues(s: string)
    requires forall i :: 0 <= i < |s| ==> InAlphabet(s[i])
    ensures Symbols(Values(s)) == s
  {
    forall i | 0 <= i < |s| ensures Symbols(Values(s))[i] == s[i] { SymbolOfBits(s[i]); }
  }

  lemma BodyAndPadding(s: string)
    ensures s == Body(s) + Pad(PaddingOf(s))
  {
    assert s == Body(s) + s[|Body(s)|..];
    assert s[|Body(s)|..] == Pad(PaddingOf(s));
  }

  lemma SamePadding(t: string, m: nat, n: nat)
    ensures t + Pad(m) == t + Pad(n) <==> m == n
  {
    assert |t + Pad(m)| == |t| + m && |t + Pad(n)| == |t| + n;
  }

  lemma PaddedShape(t: string, n: nat)
    requires TakesPadding(|t|, n)
    ensures |t| % 4 != 1
    ensures |t + Pad(n)| % 4 == 0 && n <= 2 <==> t + Pad(n) == t + PadFor(|t|)
  {
    SamePadding(t, n, Missing(|t|));
    DecodableLength(|t|, n);
  }

  lemma DecodableShape(s: string)
    requires Decode(s).Some?
    ensures |Body(s)| % 4 != 1
    ensures |s| % 4 == 0 && PaddingOf(s) <= 2 <==> s == Body(s) + PadFor(|Body(s)|)
  {
    BodyAndPadding(s);
    PaddedShape(Body(s), PaddingOf(s));
  }

  lemma DecodableLength(n: nat, padding: nat)
    requires TakesPadding(n, padding)
    ensures n % 4 != 1
    ensures (n + padding) % 4 == 0 && padding <= 2 <==> padding == Missing(n)
  {
    MissingCompletes(n, padding);
  }

  /** A decodable text is in normal form exactly when its unused bits are zero and its padding completes
      the last group and no more. */
  lemma CanonicalExact(s: string)
    requires Decode(s).Some?
    ensures Canonical(s) == Ok(s) <==> SpareBits(Values(Body(s))) == 0 && |s| % 4 == 0 && PaddingOf(s) <= 2
  {
    var ds := Values(Body(s));
    DecodableShape(s);
    RegroupUngroup(ds);
    SymbolsValues(Body(s));
    EncodeShape(Ungroup(ds));
    SameText(Body(s), Regroup(Ungroup(ds)), s);
  }

  lemma SameText(body: string, es: seq<sextet>, s: string)
    requires (forall i :: 0 <= i < |body| ==> InAlphabet(body[i])) && Symbols(Values(body)) == body
    requires Body(Symbols(es) + PadFor(|es|)) == Symbols(es) && body == Body(s)
    ensures s == Symbols(es) + PadFor(|es|) <==> es == Values(body) && s == body + PadFor(|body|)
  {
    if s == Symbols(es) + PadFor(|es|) { assert Values(Symbols(es)) == es; }
  }

  /** The decoder takes this text, which has no unused bits and is not its own canonical form. */
  lemma PaddingThatFillsNothing()
    ensures Decode("YWJj=") == Decode("YWJj") && Decode("YWJj=").Some?
    ensures Canonical("YWJj=") == Ok("YWJj")
  {
    PaddingEnds("YWJj", 1);
    PaddingEnds("YWJj", 0);
    assert "YWJj" + Pad(1) == "YWJj=" && "YWJj" + Pad(0) == "YWJj";
    assert |Values("YWJj")| == 4;
    CanonicalExact("YWJj");
  }

  // ---------------------------------------------------------------- signature texts

  /** Alphabet characters and at most two '='. */
  predicate Pattern(s: string) { Core(s) && PaddingOf(s) <= 2 }

  /** The pattern test; its final anchor also matches just before a closing line break. */
  predicate PatternMatches(s: string) {
    Pattern(s) || (s != "" && s[|s| - 1] == '\n' && Pattern(s[..|s| - 1]))
  }

  /** The checks verify_signature makes on the signature text, and the bytes they yield. */
  function SignatureBytes(s: string): Option<Bytes> {
    if s == "" || !PatternMatches(s) || |s| % 4 != 0 then None
    else match Decode(s)
      case None => None
      case Some(bs) => if Encode(bs) == s then Some(bs) else None
  }

  /** Every nonempty byte string has exactly one accepted signature text: its encoding. */
  lemma SignatureTextExact(s: string, bs: Bytes)
    ensures SignatureBytes(s) == Some(bs) <==> bs != [] && s == Encode(bs)
  {
    DecodeEncode(bs);
    EncodeShape(bs);
    EncodeEmpty();
  }

  lemma EncodeEmpty()
    ensures Encode([]) == ""
  {
  }
}
