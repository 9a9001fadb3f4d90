/** What the JSON reader takes: the grammar of RFC 8259 with any space between tokens and any escapes in strings, and
    nothing else. */
module JsonReading {
  import opened Basics
  import opened JsonText
  import KeyOrder
  import opened Texts

  // ---------------------------------------------------------------- strings

  predicate IsHexChar(c: char) { '0' <= c <= '9' || 'a' <= c <= 'f' || 'A' <= c <= 'F' }

  function Nibble(c: char): int {
    if c <= '9' then c as int - '0' as int else if c <= 'F' then c as int - 'A' as int + 10 else c as int - 'a' as int + 10
  }

  /** Four hexadecimal digits, capital or small, for n. */
  predicate Hex4(h: string, n: int) {
    && |h| == 4 && IsHexChar(h[0]) && IsHexChar(h[1]) && IsHexChar(h[2]) && IsHexChar(h[3])
    && n == ((Nibble(h[0]) * 16 + Nibble(h[1])) * 16 + Nibble(h[2])) * 16 + Nibble(h[3])
  }

  /** The character an escape of two characters stands for. */
  predicate IsShort(x: char, c: char) {
    || (c == x && (x == '"' || x == '\\' || x == '/'))
    || (x == 'b' && c == '\U{0008}') || (x == 'f' && c == '\U{000C}')
    || (x == 'n' && c == '\n') || (x == 'r' && c == '\r') || (x == 't' && c == '\t')
  }

  /** Two escapes for the two surrogates of c. */
  ghost predicate SpellsPair(c: char, e: string) {
    exists h, l, hi, lo :: e == "\\u" + (h + ("\\u" + l)) && Hex4(h, hi) && Hex4(l, lo)
      && 0xD800 <= hi < 0xDC00 && 0xDC00 <= lo < 0xE000 && c as int == 0x1_0000 + (hi - 0xD800) * 1024 + (lo - 0xDC00)
  }

  /** Every way to write a character inside a string, section 7 of RFC 8259. */
  ghost predicate SpellsChar(c: char, e: string) {
    || (e == [c] && c >= ' ' && c != '"' && c != '\\')
    || (exists x :: e == ['\\', x] && IsShort(x, c))
    || (exists h :: e == "\\u" + h && Hex4(h, c as int))
    || SpellsPair(c, e)
  }

  function Together(es: seq<string>): string {
    if es == [] then "" else es[0] + Together(es[1..])
  }

  /** es are the spellings of the characters of t, one by one. */
  ghost predicate SpellsEach(t: string, es: seq<string>) {
    |es| == |t| && forall i :: 0 <= i < |t| ==> SpellsChar(t[i], es[i])
  }

  ghost predicate SpellsText(t: string, s: string) {
    exists es :: SpellsEach(t, es) && s == Together(es)
  }

  lemma NibbleRead(c: char)
    ensures IsHexChar(c) <==> HexValue(c) >= 0
    ensures IsHexChar(c) ==> HexValue(c) == Nibble(c)
  {
  }

  lemma UnitRead(s: string, n: int)
    ensures ReadUnit(s) == Some(n) <==> |s| >= 4 && Hex4(s[..4], n)
  {
    if |s| >= 4 {
      NibbleRead(s[0]);
      NibbleRead(s[1]);
      NibbleRead(s[2]);
      NibbleRead(s[3]);
    }
  }

  lemma UnitSpelled(h: string, n: int, rest: string)
    requires Hex4(h, n)
    ensures ReadUnit(h + rest) == Some(n) && (h + rest)[4..] == rest
  {
    assert (h + rest)[..4] == h;
    UnitRead(h + rest, n);
  }

  lemma HexSpelled(c: char, h: string, rest: string)
    requires Hex4(h, c as int)
    ensures ReadChar("\\u" + h + rest) == Some((c, rest))
  {
    UnitSpelled(h, c as int, rest);
    assert "\\u" + h + rest == "\\u" + (h + rest);
    ReadUnicodeEscape(h + rest);
  }

  lemma PairSpelled(c: char, h: string, l: string, hi: int, lo: int, rest: string)
    requires Hex4(h, hi) && Hex4(l, lo) && 0xD800 <= hi < 0xDC00 && 0xDC00 <= lo < 0xE000
    requires c as int == 0x1_0000 + (hi - 0xD800) * 1024 + (lo - 0xDC00)
    ensures ReadUnitEscape(h + ("\\u" + (l + rest))) == Some((c, rest))
  {
    var s := h + ("\\u" + (l + rest));
    UnitSpelled(h, hi, "\\u" + (l + rest));
    UnitSpelled(l, lo, rest);
    assert s[4] == '\\' && s[5] == 'u' && s[6..] == l + rest && s[10..] == rest;
  }

  lemma PairRead(c: char, e: string, rest: string)
    requires SpellsPair(c, e)
    ensures e != "" && e[0] != '"' && ReadChar(e + rest) == Some((c, rest))
  {
    var h, l, hi, lo :| e == "\\u" + (h + ("\\u" + l)) && Hex4(h, hi) && Hex4(l, lo)
      && 0xD800 <= hi < 0xDC00 && 0xDC00 <= lo < 0xE000 && c as int == 0x1_0000 + (hi - 0xD800) * 1024 + (lo - 0xDC00);
    PairSpelled(c, h, l, hi, lo, rest);
    ReadUnicodeEscape(h + ("\\u" + (l + rest)));
    TwoEscapes(h, l, rest);
  }

  lemma TwoEscapes(h: string, l: string, rest: string)
    ensures "\\u" + (h + ("\\u" + l)) + rest == "\\u" + (h + ("\\u" + (l + rest)))
  {
    assert "\\u" + l + rest == "\\u" + (l + rest);
    var m := "\\u" + l;
    assert "\\u" + (h + m) + rest == "\\u" + (h + (m + rest));
  }

  lemma ShortRead(x: char, c: char, rest: string)
    requires IsShort(x, c)
    ensures ReadChar(['\\', x] + rest) == Some((c, rest))
  {
    var s := ['\\', x] + rest;
    assert s[1..] == [x] + rest && ([x] + rest)[1..] == rest;
  }

  /** Whatever follows, e is read as c. */
  ghost predicate Stands(c: char, e: string) {
    e != "" && e[0] != '"' && forall rest: string :: ReadChar(e + rest) == Some((c, rest))
  }

  lemma CharSpelled(c: char, e: string)
    requires SpellsChar(c, e)
    ensures Stands(c, e)
  {
    forall rest: string ensures e != "" && e[0] != '"' && ReadChar(e + rest) == Some((c, rest)) {
      if e == [c] && c >= ' ' && c != '"' && c != '\\' {
        assert (e + rest)[1..] == rest;
      } else if exists x :: e == ['\\', x] && IsShort(x, c) {
        var x :| e == ['\\', x] && IsShort(x, c);
        ShortRead(x, c, rest);
      } else if exists h :: e == "\\u" + h && Hex4(h, c as int) {
        var h :| e == "\\u" + h && Hex4(h, c as int);
        HexSpelled(c, h, rest);
      } else {
        PairRead(c, e, rest);
      }
    }
  }

  lemma StringStep(c: char, e: string, s: string, cs: string, rest: string)
    requires Stands(c, e) && ReadString(s) == Some((cs, rest))
    ensures ReadString(e + s) == Some(([c] + cs, rest))
  {
    assert (e + s)[0] == e[0];
  }

  lemma {:induction false} PiecesRead(t: string, es: seq<string>, rest: string)
    requires |es| == |t| && forall i :: 0 <= i < |t| ==> Stands(t[i], es[i])
    ensures ReadString(Together(es) + ("\"" + rest)) == Some((t, rest))
    decreases t
  {
    if t == "" {
      assert Together(es) + ("\"" + rest) == "\"" + rest && ("\"" + rest)[1..] == rest;
    } else {
      PiecesRead(t[1..], es[1..], rest);
      StringStep(t[0], es[0], Together(es[1..]) + ("\"" + rest), t[1..], rest);
      assert Together(es) + ("\"" + rest) == es[0] + (Together(es[1..]) + ("\"" + rest));
      assert [t[0]] + t[1..] == t;
    }
  }

  lemma TextSpelled(t: string, s: string, rest: string)
    requires SpellsText(t, s)
    ensures ReadString(s + ("\"" + rest)) == Some((t, rest))
  {
    var es :| SpellsEach(t, es) && s == Together(es);
    forall i | 0 <= i < |t| ensures Stands(t[i], es[i]) { CharSpelled(t[i], es[i]); }
    PiecesRead(t, es, rest);
  }

  lemma UnitEscapeSpells(s: string) returns (e: string)
    requires ReadUnitEscape(s).Some?
    ensures "\\u" + s == e + ReadUnitEscape(s).value.1 && SpellsChar(ReadUnitEscape(s).value.0, e)
  {
    var (c, rest) := ReadUnitEscape(s).value;
    var u := ReadUnit(s).value;
    UnitRead(s, u);
    if 0xD800 <= u < 0xDC00 {
      var w := ReadUnit(s[6..]).value;
      UnitRead(s[6..], w);
      var h, l := s[..4], s[6..][..4];
      e := "\\u" + (h + ("\\u" + l));
      assert s == h + ("\\u" + (l + rest));
      assert SpellsPair(c, e);
    } else {
      e := "\\u" + s[..4];
      assert s == s[..4] + rest;
      assert e == "\\u" + s[..4] && Hex4(s[..4], c as int);
    }
  }

  lemma CharSpells(s: string) returns (e: string)
    requires ReadChar(s).Some?
    ensures s == e + ReadChar(s).value.1 && SpellsChar(ReadChar(s).value.0, e)
  {
    var (c, rest) := ReadChar(s).value;
    if s[0] != '\\' {
      e := [c];
      assert s == [c] + rest;
    } else if s[1] == 'u' {
      assert s == "\\u" + s[1..][1..];
      e := UnitEscapeSpells(s[1..][1..]);
    } else {
      e := ['\\', s[1]];
      assert s == e + rest;
      assert e == ['\\', s[1]] && IsShort(s[1], c);
    }
  }

  lemma OneMore(c: char, e: string, t: string, b: string)
    requires SpellsChar(c, e) && SpellsText(t, b)
    ensures SpellsText([c] + t, e + b)
  {
    var es :| SpellsEach(t, es) && b == Together(es);
    assert ([e] + es)[1..] == es;
    assert SpellsEach([c] + t, [e] + es);
  }

  lemma StringUnrolled(s: string)
    requires ReadString(s).Some? && s[0] != '"'
    ensures ReadChar(s).Some? && ReadString(ReadChar(s).value.1).Some?
    ensures var (c, more) := ReadChar(s).value;
            ReadString(s).value == ([c] + ReadString(more).value.0, ReadString(more).value.1)
  {
  }

  lemma {:induction false} TextSpells(s: string) returns (b: string)
    requires ReadString(s).Some?
    ensures s == b + ("\"" + ReadString(s).value.1) && SpellsText(ReadString(s).value.0, b)
    decreases |s|
  {
    if s[0] == '"' {
      b := "";
      assert s == b + ("\"" + s[1..]);
      assert SpellsEach("", []) && b == Together([]);
    } else {
      StringUnrolled(s);
      var e := CharSpells(s);
      var rest := TextSpells(ReadChar(s).value.1);
      OneMore(ReadChar(s).value.0, e, ReadString(ReadChar(s).value.1).value.0, rest);
      b := e + rest;
      TextsJoined(e, rest, "\"" + ReadString(s).value.1);
    }
  }

  // ---------------------------------------------------------------- documents

  predicate Blank(w: string) { forall i :: 0 <= i < |w| ==> w[i] == ' ' || w[i] == '\t' || w[i] == '\n' || w[i] == '\r' }

  /** s is a text of the document t, without space around it; there may be any space between its tokens. */
  ghost predicate Spells(t: Tree, s: string)
    decreases t, 0
  {
    match t
    case TNull => s == "null"
    case TBool(b) => s == if b then "true" else "false"
    case TNum(tok) => s == tok && IsToken(tok)
    case TStr(x) => exists b :: s == "\"" + (b + "\"") && SpellsText(x, b)
    case TArr(items) => exists u :: s == "[" + (u + "]") && SpellsItems(items, u)
    case TObj(members) => exists u :: s == "{" + (u + "}") && SpellsMembers(members, u)
  }

  /** The items with commas between them, or space if there are none. */
  ghost predicate SpellsItems(items: seq<Tree>, u: string)
    decreases items, 1
  {
    if items == [] then Blank(u)
    else exists parts :: |parts| == |items| && u == Join(parts, ',') && forall i :: 0 <= i < |items| ==> Padded(items[i], parts[i])
  }

  ghost predicate SpellsMembers(members: seq<Entry<Tree>>, u: string)
    decreases members, 1
  {
    if members == [] then Blank(u)
    else exists parts :: |parts| == |members| && u == Join(parts, ',')
           && forall i :: 0 <= i < |members| ==> PaddedMember(members[i].key, members[i].value, parts[i])
  }

  /** A text of the document with space around it. */
  ghost predicate Padded(t: Tree, part: string)
    decreases t, 1
  {
    exists w, x, z :: Blank(w) && Blank(z) && part == w + (x + z) && Spells(t, x)
  }

  /** A string, a colon and a document, with any space around each. */
  ghost predicate PaddedMember(k: string, t: Tree, part: string)
    decreases t, 2
  {
    exists w, b, y, v :: MemberText(k, w, b, y, v, part) && Padded(t, v)
  }

  ghost predicate MemberText(k: string, w: string, b: string, y: string, v: string, part: string) {
    Blank(w) && Blank(y) && SpellsText(k, b) && part == w + ("\"" + (b + ("\"" + (y + (":" + v)))))
  }

  // ---------------------------------------------------------------- every such text is read

  lemma {:induction false} SkipBlank(w: string, s: string)
    requires Blank(w)
    ensures SkipSpace(w + s) == SkipSpace(s)
  {
    if w == "" {
      assert w + s == s;
    } else {
      assert (w + s)[0] == w[0] && (w + s)[1..] == w[1..] + s;
      SkipBlank(w[1..], s);
    }
  }

  lemma {:induction false} SkipTwice(s: string)
    ensures SkipSpace(SkipSpace(s)) == SkipSpace(s)
    ensures ReadTree(SkipSpace(s)) == ReadTree(s)
  {
    if s != "" && IsSpace(s[0]) { SkipTwice(s[1..]); }
  }

  /** What may follow a document: the end, or what does not continue a number. */
  predicate Ends(rest: string) { rest == "" || !IsTokenChar(rest[0]) }

  /** Whatever follows, s is read as t. */
  ghost predicate Reads(t: Tree, s: string) {
    && s != "" && !IsSpace(s[0]) && s[0] != ']' && s[0] != '}'
    && forall rest: string :: Ends(rest) ==> ReadTree(s + rest) == Some((t, rest))
  }

  /** A document is read off the front of text, and u is the rest without its leading space. */
  predicate ItemAt(t: Tree, text: string, u: string) {
    ReadTree(text).Some? && ReadTree(text).value.0 == t && SkipSpace(ReadTree(text).value.1) == u
  }

  ghost predicate MemberAt(k: string, t: Tree, text: string, u: string) {
    exists w, v, x :: SkipSpace(text) == "\"" + w && ReadString(w) == Some((k, v)) && SkipSpace(v) == ":" + x && ItemAt(t, x, u)
  }

  ghost predicate ReadsPadded(t: Tree, s: string) {
    && SkipSpace(s) != "" && SkipSpace(s)[0] != ']'
    && forall rest: string :: Ends(rest) ==> ItemAt(t, s + rest, SkipSpace(rest))
  }

  ghost predicate ReadsMember(k: string, t: Tree, s: string) {
    && SkipSpace(s) != "" && SkipSpace(s)[0] == '"'
    && forall rest: string :: Ends(rest) ==> MemberAt(k, t, s + rest, SkipSpace(rest))
  }

  lemma BlankEnds(z: string, rest: string)
    requires Blank(z) && Ends(rest)
    ensures Ends(z + rest)
  {
    if z != "" { assert (z + rest)[0] == z[0]; }
  }

  lemma NotSkipped(s: string)
    requires s != "" && !IsSpace(s[0])
    ensures SkipSpace(s) == s
  {
  }

  lemma {:induction false} SkipFront(a: string, b: string)
    requires SkipSpace(a) != ""
    ensures SkipSpace(a + b) == SkipSpace(a) + b
  {
    assert (a + b)[0] == a[0] && (a + b)[1..] == a[1..] + b;
    if IsSpace(a[0]) { SkipFront(a[1..], b); }
  }

  lemma BlankRead(w: string, s: string)
    requires Blank(w)
    ensures ReadTree(w + s) == ReadTree(s)
  {
    SkipBlank(w, s);
    SkipTwice(w + s);
    SkipTwice(s);
  }

  lemma ThreeAndRest(w: string, x: string, z: string, rest: string)
    ensures w + (x + z) + rest == w + (x + (z + rest))
  {
  }

  lemma PaddedAt(t: Tree, w: string, x: string, z: string, rest: string)
    requires Blank(w) && Blank(z) && ReadTree(x + (z + rest)) == Some((t, z + rest))
    ensures ItemAt(t, w + (x + z) + rest, SkipSpace(rest))
  {
    ThreeAndRest(w, x, z, rest);
    BlankRead(w, x + (z + rest));
    SkipBlank(z, rest);
  }

  lemma PaddedReads(t: Tree, w: string, x: string, z: string)
    requires Blank(w) && Blank(z) && Reads(t, x)
    ensures ReadsPadded(t, w + (x + z))
  {
    SkipBlank(w, x + z);
    assert (x + z)[0] == x[0];
    NotSkipped(x + z);
    forall rest: string | Ends(rest) ensures ItemAt(t, w + (x + z) + rest, SkipSpace(rest)) {
      BlankEnds(z, rest);
      PaddedAt(t, w, x, z, rest);
    }
  }

  lemma ColonAndRest(y: string, v: string, rest: string)
    ensures "\"" + (y + (":" + v)) + rest == "\"" + (y + (":" + (v + rest)))
  {
  }

  lemma MemberInner(w: string, b: string, y: string, v: string, rest: string)
    ensures w + ("\"" + (b + ("\"" + (y + (":" + v))))) + rest == w + ("\"" + (b + ("\"" + (y + (":" + (v + rest))))))
  {
    ColonAndRest(y, v, rest);
    var tail := "\"" + (y + (":" + v));
    assert w + ("\"" + (b + tail)) + rest == w + ("\"" + (b + (tail + rest)));
  }

  lemma MemberFound(k: string, t: Tree, w: string, b: string, y: string, x: string, u: string)
    requires Blank(w) && Blank(y) && SpellsText(k, b) && ItemAt(t, x, u)
    ensures MemberAt(k, t, w + ("\"" + (b + ("\"" + (y + (":" + x))))), u)
  {
    var inner := b + ("\"" + (y + (":" + x)));
    SkipBlank(w, "\"" + inner);
    NotSkipped("\"" + inner);
    TextSpelled(k, b, y + (":" + x));
    SkipBlank(y, ":" + x);
    NotSkipped(":" + x);
  }

  lemma MemberReads(k: string, t: Tree, w: string, b: string, y: string, v: string)
    requires Blank(w) && Blank(y) && SpellsText(k, b) && ReadsPadded(t, v)
    ensures ReadsMember(k, t, w + ("\"" + (b + ("\"" + (y + (":" + v))))))
  {
    var inner := b + ("\"" + (y + (":" + v)));
    SkipBlank(w, "\"" + inner);
    NotSkipped("\"" + inner);
    forall rest: string | Ends(rest) ensures MemberAt(k, t, w + ("\"" + inner) + rest, SkipSpace(rest)) {
      MemberInner(w, b, y, v, rest);
      MemberFound(k, t, w, b, y, v + rest, SkipSpace(rest));
    }
  }

  lemma ItemRead(t: Tree, text: string, u: string)
    requires ItemAt(t, text, u)
    ensures u != "" && u[0] == ']' ==> ReadItems(text) == Some(([t], u[1..]))
    ensures u != "" && u[0] == ',' && ReadItems(u[1..]).Some? ==>
              ReadItems(text) == Some(([t] + ReadItems(u[1..]).value.0, ReadItems(u[1..]).value.1))
  {
  }

  lemma MemberRead(k: string, t: Tree, text: string, u: string)
    requires MemberAt(k, t, text, u)
    ensures u != "" && u[0] == '}' ==> ReadMembers(text) == Some(([Entry(k, t)], u[1..]))
    ensures u != "" && u[0] == ',' && ReadMembers(u[1..]).Some? ==>
              ReadMembers(text) == Some(([Entry(k, t)] + ReadMembers(u[1..]).value.0, ReadMembers(u[1..]).value.1))
  {
    var w, v, x :| SkipSpace(text) == "\"" + w && ReadString(w) == Some((k, v)) && SkipSpace(v) == ":" + x && ItemAt(t, x, u);
    assert SkipSpace(text)[1..] == w && SkipSpace(v)[1..] == x;
  }

  lemma CommaOn(p: string, j: string, tail: string)
    ensures p + [','] + j + tail == p + ("," + (j + tail))
  {
  }

  lemma JoinedOn(parts: seq<string>, tail: string)
    requires |parts| > 1
    ensures Join(parts, ',') + tail == parts[0] + ("," + (Join(parts[1..], ',') + tail))
  {
    CommaOn(parts[0], Join(parts[1..], ','), tail);
  }

  lemma Mark(c: char, more: string)
    requires c == ',' || c == ']' || c == '}'
    ensures var u := [c] + more;
            Ends(u) && SkipSpace(u) == u && u[0] == c && u[1..] == more
  {
  }

  lemma LastItem(t: Tree, part: string, rest: string)
    requires ReadsPadded(t, part)
    ensures ReadItems(part + ("]" + rest)) == Some(([t], rest))
  {
    Mark(']', rest);
    assert ItemAt(t, part + ("]" + rest), SkipSpace("]" + rest));
    ItemRead(t, part + ("]" + rest), "]" + rest);
  }

  lemma NextItem(t: Tree, part: string, more: string, items: seq<Tree>, rest: string)
    requires ReadsPadded(t, part) && ReadItems(more) == Some((items, rest))
    ensures ReadItems(part + ("," + more)) == Some(([t] + items, rest))
  {
    Mark(',', more);
    assert ItemAt(t, part + ("," + more), SkipSpace("," + more));
    ItemRead(t, part + ("," + more), "," + more);
  }

  /** The parts of a list, each of which is read wherever it may end. */
  ghost predicate ItemParts(items: seq<Tree>, parts: seq<string>) {
    |parts| == |items| && forall i :: 0 <= i < |items| ==> ReadsPadded(items[i], parts[i])
  }

  lemma FirstItem(items: seq<Tree>, parts: seq<string>)
    requires items != [] && ItemParts(items, parts)
    ensures ReadsPadded(items[0], parts[0]) && ItemParts(items[1..], parts[1..])
    ensures items == [items[0]] + items[1..] && (|items| == 1 ==> items == [items[0]])
  {
  }

  lemma {:induction false} ItemsRead(items: seq<Tree>, parts: seq<string>, rest: string)
    requires items != [] && ItemParts(items, parts)
    ensures ReadItems(Join(parts, ',') + ("]" + rest)) == Some((items, rest))
  {
    FirstItem(items, parts);
    if |items| > 1 {
      ItemsRead(items[1..], parts[1..], rest);
      JoinedOn(parts, "]" + rest);
      NextItem(items[0], parts[0], Join(parts[1..], ',') + ("]" + rest), items[1..], rest);
    } else {
      LastItem(items[0], parts[0], rest);
    }
  }

  lemma LastMember(k: string, t: Tree, part: string, rest: string)
    requires ReadsMember(k, t, part)
    ensures ReadMembers(part + ("}" + rest)) == Some(([Entry(k, t)], rest))
  {
    Mark('}', rest);
    assert MemberAt(k, t, part + ("}" + rest), SkipSpace("}" + rest));
    MemberRead(k, t, part + ("}" + rest), "}" + rest);
  }

  lemma NextMember(k: string, t: Tree, part: string, more: string, members: seq<Entry<Tree>>, rest: string)
    requires ReadsMember(k, t, part) && ReadMembers(more) == Some((members, rest))
    ensures ReadMembers(part + ("," + more)) == Some(([Entry(k, t)] + members, rest))
  {
    Mark(',', more);
    assert MemberAt(k, t, part + ("," + more), SkipSpace("," + more));
    MemberRead(k, t, part + ("," + more), "," + more);
  }

  ghost predicate MemberParts(members: seq<Entry<Tree>>, parts: seq<string>) {
    |parts| == |members| && forall i :: 0 <= i < |members| ==> ReadsMember(members[i].key, members[i].value, parts[i])
  }

  lemma FirstMember(members: seq<Entry<Tree>>, parts: seq<string>)
    requires members != [] && MemberParts(members, parts)
    ensures ReadsMember(members[0].key, members[0].value, parts[0]) && MemberParts(members[1..], parts[1..])
    ensures var e := Entry(members[0].key, members[0].value);
            members == [e] + members[1..] && (|members| == 1 ==> members == [e])
  {
  }

  lemma {:induction false} MembersRead(members: seq<Entry<Tree>>, parts: seq<string>, rest: string)
    requires members != [] && MemberParts(members, parts)
    ensures ReadMembers(Join(parts, ',') + ("}" + rest)) == Some((members, rest))
  {
    FirstMember(members, parts);
    if |members| > 1 {
      MembersRead(members[1..], parts[1..], rest);
      JoinedOn(parts, "}" + rest);
      NextMember(members[0].key, members[0].value, parts[0], Join(parts[1..], ',') + ("}" + rest), members[1..], rest);
    } else {
      LastMember(members[0].key, members[0].value, parts[0], rest);
    }
  }

  lemma {:induction false} TokenEnds(tok: string, rest: string)
    requires (forall c :: c in tok ==> IsTokenChar(c)) && Ends(rest)
    ensures TokenLength(tok + rest) == |tok|
  {
    if tok == "" {
      assert tok + rest == rest;
    } else {
      assert (tok + rest)[0] == tok[0] && (tok + rest)[1..] == tok[1..] + rest;
      TokenEnds(tok[1..], rest);
    }
  }

  lemma NumberAt(tok: string, rest: string)
    requires IsToken(tok) && Ends(rest)
    ensures ReadTree(tok + rest) == Some((TNum(tok), rest))
  {
    var s := tok + rest;
    TokenEnds(tok, rest);
    assert s[0] == tok[0];
    NotSkipped(s);
    assert s[..|tok|] == tok && s[|tok|..] == rest;
    NoKeyword(s);
  }

  lemma NumberReads(tok: string)
    requires IsToken(tok)
    ensures Reads(TNum(tok), tok)
  {
    forall rest: string | Ends(rest) ensures ReadTree(tok + rest) == Some((TNum(tok), rest)) { NumberAt(tok, rest); }
  }

  lemma KeywordReads(t: Tree)
    requires t.TNull? || t.TBool?
    ensures Reads(t, Text(KeyOrder.Dumps, t))
  {
    forall rest: string | Ends(rest) ensures ReadTree(Text(KeyOrder.Dumps, t) + rest) == Some((t, rest)) {
      KeywordWritten(KeyOrder.Dumps, t, rest);
    }
  }

  lemma StringReads(x: string, b: string)
    requires SpellsText(x, b)
    ensures Reads(TStr(x), "\"" + (b + "\""))
  {
    forall rest: string | Ends(rest) ensures ReadTree("\"" + (b + "\"") + rest) == Some((TStr(x), rest)) {
      TextSpelled(x, b, rest);
      assert "\"" + (b + "\"") + rest == "\"" + (b + ("\"" + rest));
      NotSkipped("\"" + (b + ("\"" + rest)));
      assert ("\"" + (b + ("\"" + rest)))[1..] == b + ("\"" + rest);
    }
  }

  lemma Bracketed(c: char, u: string, d: char, rest: string)
    ensures [c] + (u + [d]) + rest == [c] + (u + ([d] + rest))
  {
  }

  /** Space between the brackets and nothing else. */
  lemma EmptyReads(c: char, u: string, d: char, t: Tree)
    requires Blank(u) && ((c == '[' && d == ']' && t == TArr([])) || (c == '{' && d == '}' && t == TObj([])))
    ensures Reads(t, [c] + (u + [d]))
  {
    forall rest: string | Ends(rest) ensures ReadTree([c] + (u + [d]) + rest) == Some((t, rest)) {
      Bracketed(c, u, d, rest);
      SkipBlank(u, [d] + rest);
      Mark(d, rest);
      Opened(c, u + ([d] + rest));
    }
  }

  /** What an opening bracket or brace starts. */
  lemma Opened(c: char, v: string)
    requires c == '[' || c == '{'
    ensures var u := SkipSpace(v);
            ReadTree([c] + v) ==
            if c == '[' then
              (if u != "" && u[0] == ']' then Some((TArr([]), u[1..]))
               else match ReadItems(u) case None => None case Some((items, rest)) => Some((TArr(items), rest)))
            else
              (if u != "" && u[0] == '}' then Some((TObj([]), u[1..]))
               else match ReadMembers(u) case None => None case Some((members, rest)) => Some((TObj(members), rest)))
  {
    NotSkipped([c] + v);
    assert ([c] + v)[1..] == v;
  }

  lemma SkippedAlike(s: string)
    ensures ReadItems(SkipSpace(s)) == ReadItems(s)
    ensures ReadMembers(SkipSpace(s)) == ReadMembers(s)
  {
    SkipTwice(s);
  }

  lemma ArrayAt(items: seq<Tree>, parts: seq<string>, rest: string)
    requires items != [] && ItemParts(items, parts)
    ensures ReadTree("[" + (Join(parts, ',') + ("]" + rest))) == Some((TArr(items), rest))
  {
    var u := Join(parts, ',') + ("]" + rest);
    ItemsRead(items, parts, rest);
    FirstPart(parts, "]" + rest);
    FirstItem(items, parts);
    SkippedAlike(u);
    Opened('[', u);
  }

  /** Joined parts begin with the first one. */
  lemma FirstPart(parts: seq<string>, tail: string)
    requires parts != [] && SkipSpace(parts[0]) != ""
    ensures SkipSpace(Join(parts, ',') + tail) != "" && SkipSpace(Join(parts, ',') + tail)[0] == SkipSpace(parts[0])[0]
  {
    if |parts| > 1 {
      JoinedOn(parts, tail);
      SkipFront(parts[0], "," + (Join(parts[1..], ',') + tail));
    } else {
      SkipFront(parts[0], tail);
    }
  }

  lemma ObjectAt(members: seq<Entry<Tree>>, parts: seq<string>, rest: string)
    requires members != [] && MemberParts(members, parts)
    ensures ReadTree("{" + (Join(parts, ',') + ("}" + rest))) == Some((TObj(members), rest))
  {
    var u := Join(parts, ',') + ("}" + rest);
    MembersRead(members, parts, rest);
    FirstMember(members, parts);
    FirstPart(parts, "}" + rest);
    SkippedAlike(u);
    Opened('{', u);
  }

  lemma ArrayReads(items: seq<Tree>, parts: seq<string>)
    requires items != [] && ItemParts(items, parts)
    ensures Reads(TArr(items), "[" + (Join(parts, ',') + "]"))
  {
    forall rest: string | Ends(rest) ensures ReadTree("[" + (Join(parts, ',') + "]") + rest) == Some((TArr(items), rest)) {
      ArrayAt(items, parts, rest);
      Bracketed('[', Join(parts, ','), ']', rest);
    }
  }

  lemma ObjectReads(members: seq<Entry<Tree>>, parts: seq<string>)
    requires members != [] && MemberParts(members, parts)
    ensures Reads(TObj(members), "{" + (Join(parts, ',') + "}"))
  {
    forall rest: string | Ends(rest) ensures ReadTree("{" + (Join(parts, ',') + "}") + rest) == Some((TObj(members), rest)) {
      ObjectAt(members, parts, rest);
      Bracketed('{', Join(parts, ','), '}', rest);
    }
  }

  lemma {:induction false} SpelledReads(t: Tree, s: string)
    requires Spells(t, s)
    ensures Reads(t, s)
    decreases t, 0
  {
    match t
    case TNull => KeywordReads(t);
    case TBool(_) => KeywordReads(t);
    case TNum(tok) => NumberReads(tok);
    case TStr(x) =>
      var b :| s == "\"" + (b + "\"") && SpellsText(x, b);
      StringReads(x, b);
    case TArr(items) =>
      var u :| s == "[" + (u + "]") && SpellsItems(items, u);
      if items == [] {
        EmptyReads('[', u, ']', t);
      } else {
        var parts :| |parts| == |items| && u == Join(parts, ',') && forall i :: 0 <= i < |items| ==> Padded(items[i], parts[i]);
        forall i | 0 <= i < |items| ensures ReadsPadded(items[i], parts[i]) { PaddedSpelled(items[i], parts[i]); }
        ArrayReads(items, parts);
      }
    case TObj(members) =>
      var u :| s == "{" + (u + "}") && SpellsMembers(members, u);
      if members == [] {
        EmptyReads('{', u, '}', t);
      } else {
        var parts :| |parts| == |members| && u == Join(parts, ',')
          && forall i :: 0 <= i < |members| ==> PaddedMember(members[i].key, members[i].value, parts[i]);
        forall i | 0 <= i < |members| ensures ReadsMember(members[i].key, members[i].value, parts[i]) {
          MemberSpelled(members[i].key, members[i].value, parts[i]);
        }
        ObjectReads(members, parts);
      }
  }

  lemma {:induction false} PaddedSpelled(t: Tree, part: string)
    requires Padded(t, part)
    ensures ReadsPadded(t, part)
    decreases t, 1
  {
    var w, x, z :| Blank(w) && Blank(z) && part == w + (x + z) && Spells(t, x);
    SpelledReads(t, x);
    PaddedReads(t, w, x, z);
  }

  lemma {:induction false} MemberSpelled(k: string, t: Tree, part: string)
    requires PaddedMember(k, t, part)
    ensures ReadsMember(k, t, part)
    decreases t, 2
  {
    var w, b, y, v :| MemberText(k, w, b, y, v, part) && Padded(t, v);
    PaddedSpelled(t, v);
    MemberReads(k, t, w, b, y, v);
  }

  // ---------------------------------------------------------------- nothing else is read

  lemma {:induction false} Skipped(s: string) returns (w: string)
    ensures Blank(w) && s == w + SkipSpace(s)
  {
    w := "";
    if s != "" && IsSpace(s[0]) {
      var v := Skipped(s[1..]);
      w := [s[0]] + v;
      assert s == [s[0]] + s[1..];
    }
  }

  lemma {:induction false} TokenTaken(s: string)
    ensures forall c :: c in s[..TokenLength(s)] ==> IsTokenChar(c)
  {
    if s != "" && IsTokenChar(s[0]) {
      TokenTaken(s[1..]);
      assert s[..TokenLength(s)] == [s[0]] + s[1..][..TokenLength(s[1..])];
    }
  }

  /** A document that starts at once, and is no array and no object. */
  lemma ScalarSpells(s: string) returns (x: string)
    requires s != "" && !IsSpace(s[0]) && s[0] != '[' && s[0] != '{' && ReadTree(s).Some?
    ensures s == x + ReadTree(s).value.1 && Spells(ReadTree(s).value.0, x)
  {
    NotSkipped(s);
    if s[0] == '"' {
      var b := TextSpells(s[1..]);
      x := "\"" + (b + "\"");
      QuotedFront(s, b, ReadTree(s).value.1);
    } else if |s| >= 4 && (s[..4] == "null" || s[..4] == "true") {
      x := s[..4];
    } else if |s| >= 5 && s[..5] == "false" {
      x := s[..5];
    } else {
      TokenTaken(s);
      x := s[..TokenLength(s)];
    }
  }

  lemma QuotedFront(s: string, b: string, rest: string)
    requires s != "" && s[0] == '"' && s[1..] == b + ("\"" + rest)
    ensures s == "\"" + (b + "\"") + rest
  {
    assert s == "\"" + s[1..];
  }

  lemma {:induction false} TreeSpells(text: string) returns (w: string, x: string)
    requires ReadTree(text).Some?
    ensures Blank(w) && text == w + (x + ReadTree(text).value.1) && Spells(ReadTree(text).value.0, x)
    decreases |text|, 2
  {
    var (t, rest) := ReadTree(text).value;
    var s := SkipSpace(text);
    w := Skipped(text);
    SkipTwice(text);
    if s[0] == '[' || s[0] == '{' {
      x := BracketSpells(s);
    } else {
      SkipStops(text);
      x := ScalarSpells(s);
    }
  }

  lemma {:induction false} SkipStops(s: string)
    ensures SkipSpace(s) != "" ==> !IsSpace(SkipSpace(s)[0])
  {
    if s != "" && IsSpace(s[0]) { SkipStops(s[1..]); }
  }

  lemma EmptySpells(c: char, v: string, d: char) returns (inner: string)
    requires SkipSpace(v) != "" && SkipSpace(v)[0] == d
    ensures Blank(inner) && [c] + v == [c] + (inner + [d]) + SkipSpace(v)[1..]
  {
    inner := Skipped(v);
    var rest := SkipSpace(v)[1..];
    assert v == inner + ([d] + rest);
    Bracketed(c, inner, d, rest);
  }

  lemma {:induction false} ArraySpells(v: string) returns (inner: string)
    requires ReadItems(v).Some?
    ensures "[" + v == "[" + (inner + "]") + ReadItems(v).value.1 && SpellsItems(ReadItems(v).value.0, inner)
    decreases |v|, 6
  {
    var parts := ItemsSpell(v);
    inner := Join(parts, ',');
    Bracketed('[', inner, ']', ReadItems(v).value.1);
  }

  lemma {:induction false} ObjectSpells(v: string) returns (inner: string)
    requires ReadMembers(v).Some?
    ensures "{" + v == "{" + (inner + "}") + ReadMembers(v).value.1 && SpellsMembers(ReadMembers(v).value.0, inner)
    decreases |v|, 6
  {
    var parts := MembersSpell(v);
    inner := Join(parts, ',');
    Bracketed('{', inner, '}', ReadMembers(v).value.1);
  }

  lemma {:induction false} BracketSpells(s: string) returns (x: string)
    requires s != "" && (s[0] == '[' || s[0] == '{') && ReadTree(s).Some?
    ensures s == x + ReadTree(s).value.1 && Spells(ReadTree(s).value.0, x)
    decreases |s|, 1
  {
    var c, v := s[0], s[1..];
    var d := if c == '[' then ']' else '}';
    var u := SkipSpace(v);
    assert s == [c] + v;
    Opened(c, v);
    SkippedAlike(v);
    var inner: string;
    if u != "" && u[0] == d {
      inner := EmptySpells(c, v, d);
    } else if c == '[' {
      inner := ArraySpells(v);
    } else {
      inner := ObjectSpells(v);
    }
    x := [c] + (inner + [d]);
  }

  lemma ItemsUnrolled(s: string)
    requires ReadItems(s).Some?
    ensures ReadTree(s).Some?
    ensures var (t, rest) := ReadTree(s).value;
            var u := SkipSpace(rest);
            && u != "" && (u[0] == ']' || u[0] == ',')
            && (u[0] == ']' ==> ReadItems(s).value == ([t], u[1..]))
            && (u[0] == ',' ==> ReadItems(u[1..]).Some? &&
                                ReadItems(s).value == ([t] + ReadItems(u[1..]).value.0, ReadItems(u[1..]).value.1))
  {
  }

  lemma {:induction false} FirstItemSpells(s: string) returns (part: string, t: Tree, u: string)
    requires ReadItems(s).Some?
    ensures Padded(t, part) && s == part + u && u != "" && (u[0] == ']' || u[0] == ',')
    ensures u[0] == ']' ==> ReadItems(s) == Some(([t], u[1..]))
    ensures u[0] == ',' ==>
              ReadItems(u[1..]).Some?
              && ReadItems(s) == Some(([t] + ReadItems(u[1..]).value.0, ReadItems(u[1..]).value.1))
    decreases |s|, 3
  {
    ItemsUnrolled(s);
    var rest := ReadTree(s).value.1;
    t, u := ReadTree(s).value.0, SkipSpace(rest);
    var w, x := TreeSpells(s);
    var z := Skipped(rest);
    part := w + (x + z);
    ThreeAndRest(w, x, z, u);
  }

  lemma {:induction false} ItemsSpell(s: string) returns (parts: seq<string>)
    requires ReadItems(s).Some?
    ensures var (items, rest) := ReadItems(s).value;
            && items != [] && |parts| == |items| && s == Join(parts, ',') + ("]" + rest)
            && forall i :: 0 <= i < |items| ==> Padded(items[i], parts[i])
    decreases |s|, 4
  {
    var part, t, u := FirstItemSpells(s);
    if u[0] == ']' {
      parts := [part];
      assert u == "]" + u[1..];
    } else {
      var more := ItemsSpell(u[1..]);
      parts := [part] + more;
      assert u == "," + u[1..] && parts[1..] == more;
      JoinedOn(parts, "]" + ReadItems(s).value.1);
    }
  }

  lemma MembersUnrolled(s: string)
    requires ReadMembers(s).Some?
    ensures SkipSpace(s) != "" && SkipSpace(s)[0] == '"' && ReadString(SkipSpace(s)[1..]).Some?
    ensures var (k, after) := ReadString(SkipSpace(s)[1..]).value;
            var v := SkipSpace(after);
            && v != "" && v[0] == ':' && ReadTree(v[1..]).Some?
            && var (t, rest) := ReadTree(v[1..]).value;
               var u := SkipSpace(rest);
               && u != "" && (u[0] == '}' || u[0] == ',')
               && (u[0] == '}' ==> ReadMembers(s).value == ([Entry(k, t)], u[1..]))
               && (u[0] == ',' ==> ReadMembers(u[1..]).Some? &&
                                   ReadMembers(s).value == ([Entry(k, t)] + ReadMembers(u[1..]).value.0, ReadMembers(u[1..]).value.1))
  {
  }

  /** The pieces of a member, put together again. */
  lemma MemberTogether(s: string, w: string, b: string, after: string, y: string, v: string, w2: string, x: string, rest: string,
                       z: string, u: string)
    requires s == w + ("\"" + (b + ("\"" + after))) && after == y + (":" + v) && v == w2 + (x + rest) && rest == z + u
    ensures s == w + ("\"" + (b + ("\"" + (y + (":" + (w2 + (x + z))))))) + u
  {
    ThreeAndRest(w2, x, z, u);
    MemberInner(w, b, y, w2 + (x + z), u);
  }

  lemma {:induction false} MemberSpells(s: string, q: string, k: string, after: string, v: string, t: Tree, rest: string)
    returns (part: string)
    requires SkipSpace(s) == "\"" + q && ReadString(q) == Some((k, after)) && SkipSpace(after) == ":" + v
    requires ReadTree(v) == Some((t, rest)) && |v| < |s|
    ensures PaddedMember(k, t, part) && s == part + SkipSpace(rest)
    decreases |s|, 3
  {
    var w := Skipped(s);
    var b := TextSpells(q);
    var y := Skipped(after);
    var w2, x := TreeSpells(v);
    var z := Skipped(rest);
    MemberTogether(s, w, b, after, y, v, w2, x, rest, z, SkipSpace(rest));
    part := w + ("\"" + (b + ("\"" + (y + (":" + (w2 + (x + z)))))));
    assert Padded(t, w2 + (x + z));
    assert MemberText(k, w, b, y, w2 + (x + z), part);
  }

  lemma {:induction false} FirstSpells(s: string) returns (part: string, k: string, t: Tree, u: string)
    requires ReadMembers(s).Some?
    ensures PaddedMember(k, t, part) && s == part + u && u != "" && (u[0] == '}' || u[0] == ',')
    ensures u[0] == '}' ==> ReadMembers(s) == Some(([Entry(k, t)], u[1..]))
    ensures u[0] == ',' ==>
              ReadMembers(u[1..]).Some?
              && ReadMembers(s) == Some(([Entry(k, t)] + ReadMembers(u[1..]).value.0, ReadMembers(u[1..]).value.1))
    decreases |s|, 4
  {
    MembersUnrolled(s);
    var q := SkipSpace(s)[1..];
    var after := ReadString(q).value.1;
    var v := SkipSpace(after)[1..];
    k, t, u := ReadString(q).value.0, ReadTree(v).value.0, SkipSpace(ReadTree(v).value.1);
    assert SkipSpace(s) == "\"" + q && SkipSpace(after) == ":" + v;
    part := MemberSpells(s, q, k, after, v, t, ReadTree(v).value.1);
  }

  ghost predicate MemberTexts(members: seq<Entry<Tree>>, parts: seq<string>) {
    |parts| == |members| && forall i :: 0 <= i < |members| ==> PaddedMember(members[i].key, members[i].value, parts[i])
  }

  lemma OneMember(k: string, t: Tree, part: string, members: seq<Entry<Tree>>, parts: seq<string>)
    requires PaddedMember(k, t, part) && MemberTexts(members, parts)
    ensures MemberTexts([Entry(k, t)] + members, [part] + parts) && ([part] + parts)[1..] == parts
  {
  }

  lemma {:induction false} MembersSpell(s: string) returns (parts: seq<string>)
    requires ReadMembers(s).Some?
    ensures var (members, rest) := ReadMembers(s).value;
            members != [] && s == Join(parts, ',') + ("}" + rest) && MemberTexts(members, parts)
    decreases |s|, 5
  {
    var part, k, t, u := FirstSpells(s);
    if u[0] == '}' {
      parts := [part];
      assert u == "}" + u[1..];
      OneMember(k, t, part, [], []);
      assert [Entry(k, t)] + [] == [Entry(k, t)] && [part] + [] == [part];
    } else {
      var more := MembersSpell(u[1..]);
      var (members, rest) := ReadMembers(u[1..]).value;
      OneMember(k, t, part, members, more);
      parts := [part] + more;
      assert u == "," + u[1..];
      JoinedOn(parts, "}" + rest);
    }
  }

  // ---------------------------------------------------------------- texts

  lemma {:induction false} SkipsAll(s: string)
    ensures SkipSpace(s) == "" <==> Blank(s)
  {
    if s != "" && IsSpace(s[0]) { SkipsAll(s[1..]); }
  }

  /** The reader takes exactly the texts of a document with space around them: section 2 of RFC 8259, with the three
      names of non-finite numbers. */
  lemma ReadExact(text: string, t: Tree)
    ensures Read(text) == Some(t) <==> Padded(t, text)
  {
    if Padded(t, text) {
      PaddedSpelled(t, text);
      assert text + "" == text;
      assert ItemAt(t, text + "", SkipSpace(""));
    }
    if Read(text) == Some(t) {
      var w, x := TreeSpells(text);
      SkipsAll(ReadTree(text).value.1);
    }
  }
}