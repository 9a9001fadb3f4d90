/** What JSON looks like as the two writers leave it: sections 3.2.1 to 3.2.3 of RFC 8785 for canonical JSON,
    and json.dumps with sorted keys, compact separators and plain ASCII output. */
module WrittenForm {
  import opened Basics
  import opened KeyOrder
  import opened KeySort
  import opened PyValues
  import opened Canonical
  import opened Texts
  import Decimal
  import JsonText
  import Utf8

  /** text is what the writer of a style makes of v: bytes for signing, or the text of json.dumps. */
  ghost predicate Writes(f: Floats, style: Style, v: PyValue, text: string) {
    match style
    case Jcs => CanonicalJson(f, v) == Ok(Utf8.Encode(text))
    case Dumps => DumpsText(f, v) == Ok(text)
  }

  lemma TreeText(f: Floats, style: Style, v: PyValue, text: string)
    ensures Writes(f, style, v, text) <==>
              && (style.Jcs? ==> Validate(v))
              && ToTree(f, style, v).Some? && JsonText.Text(style, ToTree(f, style, v).value) == text
  {
    if style.Jcs? && CanonicalJson(f, v) == Ok(Utf8.Encode(text)) {
      Utf8.EncodeInjective(JsonText.Text(Jcs, ToTree(f, Jcs, v).value), text);
    }
  }

  // ---------------------------------------------------------------- numbers and names

  lemma KeywordsWritten(f: Floats, style: Style)
    ensures Writes(f, style, PyNone, "null") && Writes(f, style, PyBool(true), "true") && Writes(f, style, PyBool(false), "false")
  {
  }

  /** Integers are written in decimal; canonical JSON takes only safe ones. */
  lemma IntegerWritten(f: Floats, style: Style, n: int)
    ensures style.Dumps? || IsSafe(n) ==> Writes(f, style, PyInt(n), Decimal.Text(n))
    ensures !IsSafe(n) ==> CanonicalJson(f, PyInt(n)) == Err(ValueError)
  {
  }

  /** A float that is a safe integer is written like the integer in canonical JSON; any other as ECMAScript
      writes it. json.dumps writes what repr does. */
  lemma FloatWritten(f: Floats, x: real)
    ensures Writes(f, Jcs, PyFloat(x), if x == x.Floor as real && IsSafe(x.Floor) then Decimal.Text(x.Floor) else f.es6(x))
    ensures Writes(f, Dumps, PyFloat(x), f.repr(x))
  {
  }

  /** json.dumps writes what is no JSON number by name; canonical JSON refuses it. */
  lemma NonFiniteWritten(f: Floats, k: NonFinite)
    ensures CanonicalJson(f, PyNonFinite(k)) == Err(ValueError)
    ensures Writes(f, Dumps, PyNonFinite(NaN), "NaN") && Writes(f, Dumps, PyNonFinite(Infinity), "Infinity")
    ensures Writes(f, Dumps, PyNonFinite(NegInfinity), "-Infinity")
  {
  }

  // ---------------------------------------------------------------- strings

  /** The characters a style writes as they are: canonical JSON escapes nothing from U+0020 on but the quote and
      the backslash. */
  predicate IsRaw(style: Style, c: char) {
    c >= ' ' && c != '"' && c != '\\' && (style.Dumps? ==> c <= '~')
  }

  function Quoted(s: string): string { "\"" + s + "\"" }

  /** What stands between the quotes. */
  function Inside(style: Style, s: string): string {
    if s == "" then "" else JsonText.EscapeChar(style, s[0]) + Inside(style, s[1..])
  }

  lemma {:induction false} BodyInside(style: Style, s: string)
    ensures JsonText.StringBody(style, s) == Inside(style, s) + "\""
  {
    if s != "" {
      BodyInside(style, s[1..]);
      Associate(JsonText.EscapeChar(style, s[0]), Inside(style, s[1..]), "\"");
    }
  }

  lemma Associate(a: string, b: string, c: string)
    ensures a + b + c == a + (b + c)
  {
  }

  lemma SameInside(z: string, x: string)
    ensures "\"" + (z + "\"") == Quoted(x) <==> z == x
  {
    assert ("\"" + (z + "\""))[1..|z| + 1] == z && Quoted(x)[1..|x| + 1] == x;
    assert "\"" + (x + "\"") == Quoted(x);
  }

  lemma InsideWritten(f: Floats, style: Style, s: string, x: string)
    ensures Writes(f, style, PyStr(s), Quoted(x)) <==> Inside(style, s) == x
  {
    TreeText(f, style, PyStr(s), Quoted(x));
    BodyInside(style, s);
    SameInside(Inside(style, s), x);
  }

  lemma {:induction false} RawInside(style: Style, t: string)
    requires forall i :: 0 <= i < |t| ==> IsRaw(style, t[i])
    ensures Inside(style, t) == t
  {
    if t != "" {
      RawInside(style, t[1..]);
      assert JsonText.EscapeChar(style, t[0]) == [t[0]];
    }
  }

  /** Text without characters to escape stands between quotes as it is; in canonical JSON as raw UTF-8. */
  lemma RawText(f: Floats, style: Style, t: string)
    requires forall i :: 0 <= i < |t| ==> IsRaw(style, t[i])
    ensures Writes(f, style, PyStr(t), "\"" + t + "\"")
    ensures style.Jcs? ==> CanonicalJson(f, PyStr(t)) == Ok(Utf8.Encode("\"" + t + "\""))
  {
    RawInside(style, t);
    InsideWritten(f, style, t, t);
  }

  lemma {:induction false} InsideOn(style: Style, s: string, t: string)
    ensures Inside(style, s + t) == Inside(style, s) + Inside(style, t)
  {
    if s == "" {
      assert s + t == t;
    } else {
      InsideOn(style, s[1..], t);
      assert (s + t)[0] == s[0] && (s + t)[1..] == s[1..] + t;
      Associate(JsonText.EscapeChar(style, s[0]), Inside(style, s[1..]), Inside(style, t));
    }
  }

  /** A text is written piece by piece. */
  lemma PiecesWritten(f: Floats, style: Style, s: string, t: string, x: string, y: string)
    requires Writes(f, style, PyStr(s), Quoted(x)) && Writes(f, style, PyStr(t), Quoted(y))
    ensures Writes(f, style, PyStr(s + t), Quoted(x + y))
  {
    InsideWritten(f, style, s, x);
    InsideWritten(f, style, t, y);
    InsideOn(style, s, t);
    InsideWritten(f, style, s + t, x + y);
  }

  /** The text of one character is e between quotes. */
  ghost predicate Escapes(f: Floats, style: Style, c: char, e: string) { Writes(f, style, PyStr([c]), Quoted(e)) }

  lemma OneEscape(f: Floats, style: Style, c: char, e: string)
    requires JsonText.EscapeChar(style, c) == e
    ensures Escapes(f, style, c, e)
  {
    assert [c][1..] == "" && e + "" == e;
    InsideWritten(f, style, [c], e);
  }

  /** The seven characters with an escape of their own. */
  lemma NamedEscapes(f: Floats, style: Style)
    ensures Escapes(f, style, '"', "\\\"") && Escapes(f, style, '\\', "\\\\")
    ensures Escapes(f, style, '\U{0008}', "\\b") && Escapes(f, style, '\t', "\\t") && Escapes(f, style, '\n', "\\n")
    ensures Escapes(f, style, '\U{000C}', "\\f") && Escapes(f, style, '\r', "\\r")
  {
    OneEscape(f, style, '"', "\\\"");
    OneEscape(f, style, '\\', "\\\\");
    OneEscape(f, style, '\U{0008}', "\\b");
    OneEscape(f, style, '\t', "\\t");
    OneEscape(f, style, '\n', "\\n");
    OneEscape(f, style, '\U{000C}', "\\f");
    OneEscape(f, style, '\r', "\\r");
  }

  predicate HasName(c: char) {
    c == '"' || c == '\\' || c == '\U{0008}' || c == '\t' || c == '\n' || c == '\U{000C}' || c == '\r'
  }

  /** A digit or a small letter. */
  predicate IsHexDigit(c: char) { '0' <= c <= '9' || 'a' <= c <= 'f' }

  function Digit(c: char): int { if c <= '9' then c as int - '0' as int else 10 + c as int - 'a' as int }

  /** Four hexadecimal digits for n, the letters among them small. */
  predicate IsHex(h: string, n: int) {
    && |h| == 4 && IsHexDigit(h[0]) && IsHexDigit(h[1]) && IsHexDigit(h[2]) && IsHexDigit(h[3])
    && n == ((Digit(h[0]) * 16 + Digit(h[1])) * 16 + Digit(h[2])) * 16 + Digit(h[3])
  }

  lemma DigitWritten(d: int)
    requires 0 <= d < 16
    ensures IsHexDigit(JsonText.HexDigit(d)) && Digit(JsonText.HexDigit(d)) == d
  {
  }

  lemma UnitHex(n: int)
    requires 0 <= n < 0x1_0000
    ensures exists h :: IsHex(h, n) && JsonText.UnitEscape(n) == "\\u" + h
  {
    var n1 := n / 16;
    var n2 := n1 / 16;
    DigitWritten(n2 / 16);
    DigitWritten(n2 % 16);
    DigitWritten(n1 % 16);
    DigitWritten(n % 16);
    var h := [JsonText.HexDigit(n2 / 16), JsonText.HexDigit(n2 % 16), JsonText.HexDigit(n1 % 16), JsonText.HexDigit(n % 16)];
    assert IsHex(h, n);
    assert JsonText.UnitEscape(n) == "\\u" + h;
  }

  /** Every other character of the Basic Multilingual Plane that is not written as it is, is its code in four
      hexadecimal digits. */
  lemma HexEscape(f: Floats, style: Style, c: char)
    requires !IsRaw(style, c) && !HasName(c) && c as int < 0x1_0000
    ensures exists h :: IsHex(h, c as int) && Escapes(f, style, c, "\\u" + h)
  {
    UnitHex(c as int);
    OneEscape(f, style, c, JsonText.UnitEscape(c as int));
  }

  /** e is two escapes of four hexadecimal digits each, for hi and lo. */
  ghost predicate IsPair(e: string, hi: int, lo: int) {
    exists h, l :: IsHex(h, hi) && IsHex(l, lo) && e == "\\u" + h + ("\\u" + l)
  }

  lemma UnitPair(hi: int, lo: int)
    requires 0 <= hi < 0x1_0000 && 0 <= lo < 0x1_0000
    ensures IsPair(JsonText.UnitEscape(hi) + JsonText.UnitEscape(lo), hi, lo)
  {
    UnitHex(hi);
    UnitHex(lo);
  }

  /** json.dumps writes a character above that plane as the two surrogates of UTF-16. */
  lemma PairEscape(f: Floats, c: char)
    requires c as int >= 0x1_0000
    ensures var n := c as int - 0x1_0000;
            exists e :: IsPair(e, 0xD800 + n / 1024, 0xDC00 + n % 1024) && Escapes(f, Dumps, c, e)
  {
    var hi, lo := PairUnits(c);
    UnitPair(hi, lo);
    OneEscape(f, Dumps, c, JsonText.UnitEscape(hi) + JsonText.UnitEscape(lo));
  }

  lemma PairUnits(c: char) returns (hi: int, lo: int)
    requires c as int >= 0x1_0000
    ensures hi == 0xD800 + (c as int - 0x1_0000) / 1024 && lo == 0xDC00 + (c as int - 0x1_0000) % 1024
    ensures 0 <= hi < 0x1_0000 && 0 <= lo < 0x1_0000
    ensures JsonText.EscapeChar(Dumps, c) == JsonText.UnitEscape(hi) + JsonText.UnitEscape(lo)
  {
    hi, lo := 0xD800 + (c as int - 0x1_0000) / 1024, 0xDC00 + (c as int - 0x1_0000) % 1024;
  }

  // ---------------------------------------------------------------- arrays

  lemma {:induction false} ItemsJoined(style: Style, items: seq<Tree>, parts: seq<string>)
    requires items != [] && |parts| == |items| && forall i :: 0 <= i < |items| ==> JsonText.Text(style, items[i]) == parts[i]
    ensures JsonText.ItemsText(style, items) == Join(parts, ',') + "]"
  {
    if |items| > 1 {
      ItemsJoined(style, items[1..], parts[1..]);
      JoinStep(parts[0], Join(parts[1..], ','), "]");
    }
  }

  lemma JoinStep(a: string, b: string, c: string)
    ensures a + ("," + (b + c)) == a + [','] + b + c
  {
  }

  predicate ItemIs(f: Floats, style: Style, v: PyValue, part: string) {
    ToTree(f, style, v).Some? && JsonText.Text(style, ToTree(f, style, v).value) == part && (style.Jcs? ==> Validate(v))
  }

  lemma ArrayText(style: Style, items: seq<Tree>, parts: seq<string>)
    requires |parts| == |items| && forall i :: 0 <= i < |items| ==> JsonText.Text(style, items[i]) == parts[i]
    ensures JsonText.Text(style, JsonText.TArr(items)) == "[" + (Join(parts, ',') + "]")
  {
    if items != [] { ItemsJoined(style, items, parts); }
  }

  lemma SequenceText(f: Floats, style: Style, v: PyValue, parts: seq<string>)
    requires IsSequence(v) && |parts| == |v.items| && forall i :: 0 <= i < |v.items| ==> ItemIs(f, style, v.items[i], parts[i])
    ensures Writes(f, style, v, "[" + (Join(parts, ',') + "]"))
  {
    assert Writable(f, style, v.items);
    ArrayText(style, Trees(f, style, v.items), parts);
    assert style.Jcs? ==> Validate(v);
    TreeText(f, style, v, "[" + (Join(parts, ',') + "]"));
  }

  /** A list or a tuple is its items in their order, between brackets and with commas. */
  lemma ArrayWritten(f: Floats, style: Style, v: PyValue, parts: seq<string>)
    requires IsSequence(v) && |parts| == |v.items| && forall i :: 0 <= i < |v.items| ==> Writes(f, style, v.items[i], parts[i])
    ensures Writes(f, style, v, "[" + (Join(parts, ',') + "]"))
  {
    forall i | 0 <= i < |v.items| ensures ItemIs(f, style, v.items[i], parts[i]) {
      TreeText(f, style, v.items[i], parts[i]);
    }
    SequenceText(f, style, v, parts);
  }

  // ---------------------------------------------------------------- objects

  /** A name, a colon and a value, without space. */
  ghost predicate WritesMember(f: Floats, style: Style, e: PyEntry, part: string) {
    exists k, v :: Writes(f, style, e.key, k) && Writes(f, style, e.value, v) && part == k + (":" + v)
  }

  /** The entries of a dict with text keys, in the order of the style: UTF-16 code units for canonical JSON. */
  ghost predicate InOrder(style: Style, entries: seq<PyEntry>, ordered: seq<PyEntry>) {
    (forall e :: e in entries <==> e in ordered) && Ascending(style, ordered)
  }

  ghost predicate Ascending(style: Style, es: seq<PyEntry>) {
    && (forall i :: 0 <= i < |es| ==> es[i].key.PyStr?)
    && (forall i, j :: 0 <= i < j < |es| ==> Less(style, es[i].key.s, es[j].key.s))
  }

  lemma {:induction false} MembersJoined(style: Style, members: seq<Entry<Tree>>, parts: seq<string>)
    requires members != [] && |parts| == |members|
    requires forall i :: 0 <= i < |members| ==>
               parts[i] == "\"" + JsonText.StringBody(style, members[i].key) + (":" + JsonText.Text(style, members[i].value))
    ensures JsonText.MembersText(style, members) == Join(parts, ',') + "}"
  {
    MemberText("\"" + JsonText.StringBody(style, members[0].key), JsonText.Text(style, members[0].value),
               JsonText.MembersTail(style, members));
    if |members| > 1 {
      MembersJoined(style, members[1..], parts[1..]);
      JoinStep(parts[0], Join(parts[1..], ','), "}");
    }
  }

  lemma MemberText(k: string, v: string, tail: string)
    ensures k + ":" + v + tail == k + (":" + v) + tail
  {
  }

  /** A member that can be written, and its text. */
  ghost predicate MemberIs(f: Floats, style: Style, e: PyEntry, part: string) {
    && Takes(f, style, e)
    && part == "\"" + JsonText.StringBody(style, e.key.s) + (":" + JsonText.Text(style, ToTree(f, style, e.value).value))
  }

  predicate Takes(f: Floats, style: Style, e: PyEntry) {
    e.key.PyStr? && ToTree(f, style, e.value).Some? && (style.Jcs? ==> Validate(e.key) && Validate(e.value))
  }

  lemma MemberTree(f: Floats, style: Style, e: PyEntry, part: string)
    requires WritesMember(f, style, e, part) && e.key.PyStr?
    ensures MemberIs(f, style, e, part)
  {
    var k, v :| Writes(f, style, e.key, k) && Writes(f, style, e.value, v) && part == k + (":" + v);
    TreeText(f, style, e.key, k);
    TreeText(f, style, e.value, v);
  }

  ghost predicate DistinctNames(entries: seq<PyEntry>) { forall i, j :: 0 <= i < j < |entries| ==> entries[i].key != entries[j].key }

  lemma MembersWithin(f: Floats, style: Style, a: seq<PyEntry>, b: seq<PyEntry>)
    requires WritableDict(f, style, PyDict(a)) && WritableDict(f, style, PyDict(b)) && forall e :: e in a ==> e in b
    ensures forall x :: x in Members(f, style, PyDict(a)) ==> x in Members(f, style, PyDict(b))
  {
    var xs, ys := Members(f, style, PyDict(a)), Members(f, style, PyDict(b));
    forall x | x in xs ensures x in ys {
      var i :| 0 <= i < |xs| && xs[i] == x;
      assert a[i] in b;
      var j :| 0 <= j < |b| && b[j] == a[i];
      assert ys[j] == x;
    }
  }

  /** Sorting the members of a dict arrives at the given order. */
  lemma SortedAs(f: Floats, style: Style, entries: seq<PyEntry>, ordered: seq<PyEntry>)
    requires DistinctNames(entries) && InOrder(style, entries, ordered)
    requires WritableDict(f, style, PyDict(entries)) && WritableDict(f, style, PyDict(ordered))
    ensures Sort(style, Members(f, style, PyDict(entries))) == Members(f, style, PyDict(ordered))
  {
    var ms, os := Members(f, style, PyDict(entries)), Members(f, style, PyDict(ordered));
    forall i, j | 0 <= i < j < |ms| ensures ms[i].key != ms[j].key {
      assert entries[i].key != entries[j].key;
    }
    SortSorted(style, ms);
    SortMembers(style, ms);
    MembersWithin(f, style, entries, ordered);
    MembersWithin(f, style, ordered, entries);
    forall x ensures x in Sort(style, ms) <==> x in os {
      assert x in Sort(style, ms) <==> x in multiset(Sort(style, ms));
      assert x in ms <==> x in multiset(ms);
    }
    SortedUnique(style, Sort(style, ms), os);
  }

  lemma DictTaken(f: Floats, style: Style, entries: seq<PyEntry>)
    requires forall i :: 0 <= i < |entries| ==> Takes(f, style, entries[i])
    ensures WritableDict(f, style, PyDict(entries)) && (style.Jcs? ==> Validate(PyDict(entries)))
  {
  }

  lemma DictText(f: Floats, style: Style, entries: seq<PyEntry>, members: seq<Entry<Tree>>, text: string)
    requires forall i :: 0 <= i < |entries| ==> Takes(f, style, entries[i])
    requires WritableDict(f, style, PyDict(entries)) && Sort(style, Members(f, style, PyDict(entries))) == members
    requires JsonText.Text(style, JsonText.TObj(members)) == text
    ensures Writes(f, style, PyDict(entries), text)
  {
    DictTaken(f, style, entries);
    TreeText(f, style, PyDict(entries), text);
  }

  lemma OrderedText(f: Floats, style: Style, ordered: seq<PyEntry>, parts: seq<string>)
    requires |parts| == |ordered| && forall i :: 0 <= i < |ordered| ==> MemberIs(f, style, ordered[i], parts[i])
    requires WritableDict(f, style, PyDict(ordered))
    ensures JsonText.Text(style, JsonText.TObj(Members(f, style, PyDict(ordered)))) == "{" + (Join(parts, ',') + "}")
  {
    var members := Members(f, style, PyDict(ordered));
    if ordered != [] {
      forall i | 0 <= i < |members|
        ensures parts[i] == "\"" + JsonText.StringBody(style, members[i].key) + (":" + JsonText.Text(style, members[i].value))
      {
        assert MemberIs(f, style, ordered[i], parts[i]);
      }
      MembersJoined(style, members, parts);
    }
  }

  /** A dict is its members in the order of the style, between braces and with commas. */
  lemma ObjectWritten(f: Floats, style: Style, entries: seq<PyEntry>, ordered: seq<PyEntry>, parts: seq<string>)
    requires DistinctNames(entries) && InOrder(style, entries, ordered)
    requires |parts| == |ordered| && forall i :: 0 <= i < |ordered| ==> WritesMember(f, style, ordered[i], parts[i])
    ensures Writes(f, style, PyDict(entries), "{" + (Join(parts, ',') + "}"))
  {
    forall i | 0 <= i < |ordered| ensures MemberIs(f, style, ordered[i], parts[i]) {
      MemberTree(f, style, ordered[i], parts[i]);
    }
    forall i | 0 <= i < |ordered| ensures Takes(f, style, ordered[i]) {
      assert MemberIs(f, style, ordered[i], parts[i]);
    }
    forall i | 0 <= i < |entries| ensures Takes(f, style, entries[i]) {
      assert entries[i] in ordered;
    }
    DictTaken(f, style, entries);
    DictTaken(f, style, ordered);
    SortedAs(f, style, entries, ordered);
    OrderedText(f, style, ordered, parts);
    DictText(f, style, entries, Members(f, style, PyDict(ordered)), "{" + (Join(parts, ',') + "}"));
  }

  function Named(entries: seq<PyEntry>): (es: seq<Entry<PyValue>>)
    requires forall i :: 0 <= i < |entries| ==> entries[i].key.PyStr?
    ensures |es| == |entries| && forall i :: 0 <= i < |entries| ==> es[i] == Entry(entries[i].key.s, entries[i].value)
  { seq(|entries|, i requires 0 <= i < |entries| => Entry(entries[i].key.s, entries[i].value)) }

  function Entries(es: seq<Entry<PyValue>>): (entries: seq<PyEntry>)
    ensures |entries| == |es| && forall i :: 0 <= i < |es| ==> entries[i] == PyEntry(PyStr(es[i].key), es[i].value)
  { seq(|es|, i requires 0 <= i < |es| => PyEntry(PyStr(es[i].key), es[i].value)) }

  lemma SameEntries(entries: seq<PyEntry>, es: seq<Entry<PyValue>>)
    requires forall i :: 0 <= i < |entries| ==> entries[i].key.PyStr?
    requires forall x :: x in es <==> x in Named(entries)
    ensures forall e :: e in Entries(es) <==> e in entries
  {
    var names, ordered := Named(entries), Entries(es);
    forall e | e in ordered ensures e in entries {
      var i :| 0 <= i < |ordered| && ordered[i] == e;
      assert es[i] in names;
      var j :| 0 <= j < |names| && names[j] == es[i];
      assert entries[j] == e;
    }
    forall e | e in entries ensures e in ordered {
      var i :| 0 <= i < |entries| && entries[i] == e;
      assert names[i] in es;
      var j :| 0 <= j < |es| && es[j] == names[i];
      assert ordered[j] == e;
    }
  }

  /** Such an order exists for every dict with text keys. */
  lemma OrderExists(style: Style, entries: seq<PyEntry>) returns (ordered: seq<PyEntry>)
    requires DistinctNames(entries) && forall i :: 0 <= i < |entries| ==> entries[i].key.PyStr?
    ensures InOrder(style, entries, ordered)
  {
    var es := Named(entries);
    forall i, j | 0 <= i < j < |es| ensures es[i].key != es[j].key {
      assert entries[i].key != entries[j].key;
    }
    SortSorted(style, es);
    SortMembers(style, es);
    forall x ensures x in Sort(style, es) <==> x in es {
      assert x in Sort(style, es) <==> x in multiset(Sort(style, es));
      assert x in es <==> x in multiset(es);
    }
    ordered := Entries(Sort(style, es));
    SameEntries(entries, Sort(style, es));
  }
}
