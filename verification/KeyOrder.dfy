/** The two orders in which JSON writers sort object keys: UTF-16 code units and code points. */
module KeyOrder {
  import opened Basics

  datatype Style = Jcs | Dumps

  function CodePoints(s: string): seq<int> {
    seq(|s|, i requires 0 <= i < |s| => s[i] as int)
  }

  function CharUnits(c: char): (u: seq<int>)
    ensures 1 <= |u| <= 2
  {
    var n := c as int;
    if n < 0x1_0000 then [n]
    else [0xD800 + (n - 0x1_0000) / 1024, 0xDC00 + (n - 0x1_0000) % 1024]
  }

  function CodeUnits(s: string): seq<int> {
    if s == "" then [] else CharUnits(s[0]) + CodeUnits(s[1..])
  }

  predicate LexLess(a: seq<int>, b: seq<int>) {
    b != [] && (a == [] || a[0] < b[0] || (a[0] == b[0] && LexLess(a[1..], b[1..])))
  }

  function Units(style: Style, s: string): seq<int> {
    match style
    case Jcs => CodeUnits(s)
    case Dumps => CodePoints(s)
  }

  predicate Less(style: Style, a: string, b: string) {
    LexLess(Units(style, a), Units(style, b))
  }

  lemma {:induction false} LexTransitive(a: seq<int>, b: seq<int>, c: seq<int>)
    requires LexLess(a, b) && LexLess(b, c)
    ensures LexLess(a, c)
  {
    if a != [] && a[0] == b[0] && b[0] == c[0] {
      LexTransitive(a[1..], b[1..], c[1..]);
    }
  }

  lemma {:induction false} LexIrreflexive(a: seq<int>)
    ensures !LexLess(a, a)
  {
    if a != [] { LexIrreflexive(a[1..]); }
  }

  lemma {:induction false} LexTotal(a: seq<int>, b: seq<int>)
    ensures a == b || LexLess(a, b) || LexLess(b, a)
  {
    if a != [] && b != [] && a[0] == b[0] {
      LexTotal(a[1..], b[1..]);
      assert a == [a[0]] + a[1..] && b == [b[0]] + b[1..];
    }
  }

  lemma {:induction false} CodeUnitsInjective(s: string, t: string)
    requires CodeUnits(s) == CodeUnits(t)
    ensures s == t
  {
    if s == "" || t == "" {
      assert s == t;
    } else {
      var u, v := CharUnits(s[0]), CharUnits(t[0]);
      assert CodeUnits(s)[0] == u[0] == v[0];
      assert |u| == |v|;
      if |u| == 2 {
        assert CodeUnits(s)[1] == u[1] && CodeUnits(t)[1] == v[1];
      }
      assert s[0] == t[0];
      assert CodeUnits(s)[|u|..] == CodeUnits(s[1..]) && CodeUnits(t)[|v|..] == CodeUnits(t[1..]);
      CodeUnitsInjective(s[1..], t[1..]);
      assert s == [s[0]] + s[1..] && t == [t[0]] + t[1..];
    }
  }

  lemma UnitsInjective(style: Style, s: string, t: string)
    requires Units(style, s) == Units(style, t)
    ensures s == t
  {
    match style
    case Jcs => CodeUnitsInjective(s, t);
    case Dumps =>
      forall i | 0 <= i < |s| ensures s[i] == t[i] {
        assert CodePoints(s)[i] == CodePoints(t)[i];
      }
  }

  /** Both orders are strict total orders on texts. */
  lemma StrictTotalOrder(style: Style, a: string, b: string, c: string)
    ensures !Less(style, a, a)
    ensures Less(style, a, b) && Less(style, b, c) ==> Less(style, a, c)
    ensures Less(style, a, b) ==> !Less(style, b, a)
    ensures a == b || Less(style, a, b) || Less(style, b, a)
  {
    var x, y, z := Units(style, a), Units(style, b), Units(style, c);
    LexIrreflexive(x);
    if LexLess(x, y) && LexLess(y, z) { LexTransitive(x, y, z); }
    if LexLess(x, y) && LexLess(y, x) { LexTransitive(x, y, x); }
    LexTotal(x, y);
    if x == y { UnitsInjective(style, a, b); }
  }

  lemma {:induction false} LexCommonPrefix(p: seq<int>, a: seq<int>, b: seq<int>)
    ensures LexLess(p + a, p + b) <==> LexLess(a, b)
  {
    if p == [] {
      assert p + a == a && p + b == b;
    } else {
      assert (p + a)[1..] == p[1..] + a && (p + b)[1..] == p[1..] + b;
      LexCommonPrefix(p[1..], a, b);
    }
  }

  lemma {:induction false} CodeUnitsConcat(s: string, t: string)
    ensures CodeUnits(s + t) == CodeUnits(s) + CodeUnits(t)
  {
    if s == "" {
      assert s + t == t;
    } else {
      assert (s + t)[1..] == s[1..] + t;
      CodeUnitsConcat(s[1..], t);
    }
  }

  predicate Supplementary(c: char) { c as int >= 0x1_0000 }

  predicate HighBmp(c: char) { 0xE000 <= c as int < 0x1_0000 }

  predicate FirstUnitsLess(x: char, y: char) {
    var u, v := CharUnits(x), CharUnits(y);
    u[0] < v[0] || (u[0] == v[0] && |u| == 2 && |v| == 2 && u[1] < v[1])
  }

  lemma CodeUnitsAround(p: string, x: char, s: string)
    ensures CodeUnits(p + [x] + s) == CodeUnits(p) + (CharUnits(x) + CodeUnits(s))
  {
    CodeUnitsConcat(p + [x], s);
    CodeUnitsConcat(p, [x]);
    assert CodeUnits([x]) == CharUnits(x) + CodeUnits([]);
  }

  lemma FirstCharDecides(x: char, y: char, a: seq<int>, b: seq<int>)
    requires x != y
    ensures LexLess(CharUnits(x) + a, CharUnits(y) + b) <==> FirstUnitsLess(x, y)
  {
    var cx, cy := CharUnits(x), CharUnits(y);
    var u, v := cx + a, cy + b;
    assert u[0] == cx[0] && v[0] == cy[0];
    if cx[0] == cy[0] {
      assert |cx| == |cy| == 2;
      assert u[1..][0] == cx[1] && v[1..][0] == cy[1];
      assert cx[1] != cy[1];
    }
  }

  lemma CodeUnitsDecide(p: string, x: char, y: char, s: string, t: string)
    requires x != y
    ensures Less(Jcs, p + [x] + s, p + [y] + t) <==> FirstUnitsLess(x, y)
  {
    CodeUnitsAround(p, x, s);
    CodeUnitsAround(p, y, t);
    var u, v := CharUnits(x) + CodeUnits(s), CharUnits(y) + CodeUnits(t);
    LexCommonPrefix(CodeUnits(p), u, v);
    FirstCharDecides(x, y, CodeUnits(s), CodeUnits(t));
  }

  lemma CodePointsDecide(p: string, x: char, y: char, s: string, t: string)
    requires x != y
    ensures Less(Dumps, p + [x] + s, p + [y] + t) <==> x < y
  {
    var u, v := [x as int] + CodePoints(s), [y as int] + CodePoints(t);
    assert CodePoints(p + [x] + s) == CodePoints(p) + u;
    assert CodePoints(p + [y] + t) == CodePoints(p) + v;
    LexCommonPrefix(CodePoints(p), u, v);
  }

  /** A text comes before every longer text it begins. */
  lemma PrefixFirst(style: Style, s: string, t: string)
    requires t != ""
    ensures Less(style, s, s + t) && !Less(style, s + t, s)
  {
    var p, a := Units(style, s), Units(style, t);
    assert Units(style, s + t) == p + a by {
      if style.Jcs? { CodeUnitsConcat(s, t); }
    }
    assert a != [];
    LexCommonPrefix(p, [], a);
    LexCommonPrefix(p, a, []);
    assert p + [] == p;
  }

  /** The orders disagree on two texts exactly when, at their first difference, one has a character
      beyond the basic plane and the other one at or above U+E000 inside it. */
  lemma OrdersDisagree(p: string, x: char, y: char, s: string, t: string)
    requires x != y
    ensures (Less(Jcs, p + [x] + s, p + [y] + t) != Less(Dumps, p + [x] + s, p + [y] + t)) <==>
            (Supplementary(x) && HighBmp(y)) || (Supplementary(y) && HighBmp(x))
  {
    CodeUnitsDecide(p, x, y, s, t);
    CodePointsDecide(p, x, y, s, t);
  }
}
