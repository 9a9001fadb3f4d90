/** JSON documents as text: one reader, and the two writers the verifier uses.

    A Tree is a document whose numbers are still tokens. Style Jcs writes strings as section 3.2.2.2
    of RFC 8785 asks, style Dumps as Python's json.dumps does with ensure_ascii. */
module JsonText {
  import opened Basics
  import opened KeyOrder

  datatype Tree =
    | TNull
    | TBool(b: bool)
    | TNum(tok: string)
    | TStr(s: string)
    | TArr(items: seq<Tree>)
    | TObj(members: seq<Entry<Tree>>)

  // ---------------------------------------------------------------- strings

  const BACKSPACE: char := '\U{0008}'
  const FORM_FEED: char := '\U{000C}'

  function HexDigit(d: int): char
    requires 0 <= d < 16
  { if d < 10 then ('0' as int + d) as char else ('a' as int + d - 10) as char }

  function HexValue(c: char): int {
    if '0' <= c <= '9' then c as int - '0' as int
    else if 'a' <= c <= 'f' then c as int - 'a' as int + 10
    else if 'A' <= c <= 'F' then c as int - 'A' as int + 10
    else -1
  }

  function UnitEscape(n: int): (e: string)
    requires 0 <= n < 0x1_0000
    ensures |e| == 6
  {
    var n1 := n / 16;
    var n2 := n1 / 16;
    ['\\', 'u', HexDigit(n2 / 16), HexDigit(n2 % 16), HexDigit(n1 % 16), HexDigit(n % 16)]
  }

  function EscapeChar(style: Style, c: char): (e: string)
    ensures e != ""
  {
    if c == '"' then "\\\""
    else if c == '\\' then "\\\\"
    else if c == BACKSPACE then "\\b"
    else if c == FORM_FEED then "\\f"
    else if c == '\n' then "\\n"
    else if c == '\r' then "\\r"
    else if c == '\t' then "\\t"
    else if c < ' ' || (style.Dumps? && '~' < c && c as int < 0x1_0000) then UnitEscape(c as int)
    else if style.Dumps? && c as int >= 0x1_0000 then
      UnitEscape(CharUnits(c)[0]) + UnitEscape(CharUnits(c)[1])
    else [c]
  }

  function StringBody(style: Style, s: string): string {
    if s == "" then "\"" else EscapeChar(style, s[0]) + StringBody(style, s[1..])
  }

  /** The code unit written as four hexadecimal digits at the front of s. */
  function ReadUnit(s: string): Option<int> {
    if |s| < 4 || HexValue(s[0]) < 0 || HexValue(s[1]) < 0 || HexValue(s[2]) < 0 || HexValue(s[3]) < 0 then None
    else Some(((HexValue(s[0]) * 16 + HexValue(s[1])) * 16 + HexValue(s[2])) * 16 + HexValue(s[3]))
  }

  /** Reads what follows "\u": one unit, or a surrogate pair spread over two escapes. */
  function ReadUnitEscape(s: string): (r: Option<(char, string)>)
    ensures r.Some? ==> |r.value.1| < |s|
  {
    match ReadUnit(s)
    case None => None
    case Some(u) =>
      if 0 <= u < 0xD800 || 0xE000 <= u < 0x1_0000 then Some((u as char, s[4..]))
      else if 0xD800 <= u < 0xDC00 && |s| >= 6 && s[4] == '\\' && s[5] == 'u' then
        match ReadUnit(s[6..])
        case None => None
        case Some(w) =>
          if 0xDC00 <= w < 0xE000 then
            Some(((0x1_0000 + (u - 0xD800) * 1024 + (w - 0xDC00)) as char, s[10..]))
          else None
      else None
  }

  /** Reads what follows a backslash. */
  function ReadEscape(s: string): (r: Option<(char, string)>)
    ensures r.Some? ==> |r.value.1| < |s|
  {
    if s == "" then None
    else if s[0] == '"' || s[0] == '\\' || s[0] == '/' then Some((s[0], s[1..]))
    else if s[0] == 'b' then Some((BACKSPACE, s[1..]))
    else if s[0] == 'f' then Some((FORM_FEED, s[1..]))
    else if s[0] == 'n' then Some(('\n', s[1..]))
    else if s[0] == 'r' then Some(('\r', s[1..]))
    else if s[0] == 't' then Some(('\t', s[1..]))
    else if s[0] == 'u' then ReadUnitEscape(s[1..])
    else None
  }

  /** Reads one character of a string literal, or nothing at the closing quote or an error. */
  function ReadChar(s: string): (r: Option<(char, string)>)
    ensures r.Some? ==> |r.value.1| < |s|
  {
    if s == "" || s[0] == '"' || s[0] < ' ' then None
    else if s[0] == '\\' then ReadEscape(s[1..])
    else Some((s[0], s[1..]))
  }

  /** Reads the rest of a string literal after its opening quote. */
  function ReadString(s: string): (r: Option<(string, string)>)
    ensures r.Some? ==> |r.value.1| < |s|
  {
    if s != "" && s[0] == '"' then Some(("", s[1..]))
    else match ReadChar(s)
      case None => None
      case Some((c, rest)) =>
        match ReadString(rest)
        case None => None
        case Some((cs, after)) => Some(([c] + cs, after))
  }

  lemma ReadUnitWritten(n: int, rest: string)
    requires 0 <= n < 0x1_0000
    ensures ReadUnit(UnitEscape(n)[2..] + rest) == Some(n)
  {
    var n1 := n / 16;
    var n2 := n1 / 16;
    var e := UnitEscape(n)[2..];
    var s := e + rest;
    assert s[0] == e[0] && s[1] == e[1] && s[2] == e[2] && s[3] == e[3];
    HexRead(n2 / 16); HexRead(n2 % 16); HexRead(n1 % 16); HexRead(n % 16);
    assert HexValue(s[0]) * 16 + HexValue(s[1]) == n2;
    assert n2 * 16 + HexValue(s[2]) == n1;
    assert n1 * 16 + HexValue(s[3]) == n;
  }

  lemma HexRead(d: int)
    requires 0 <= d < 16
    ensures HexValue(HexDigit(d)) == d
  {
  }

  lemma ReadUnitEscapeWritten(c: char, rest: string)
    ensures c as int < 0x1_0000 ==> ReadUnitEscape(UnitEscape(c as int)[2..] + rest) == Some((c, rest))
    ensures c as int >= 0x1_0000 ==>
              ReadUnitEscape(UnitEscape(CharUnits(c)[0])[2..] + (UnitEscape(CharUnits(c)[1]) + rest)) == Some((c, rest))
  {
    if c as int < 0x1_0000 {
      ReadUnitWritten(c as int, rest);
      assert (UnitEscape(c as int)[2..] + rest)[4..] == rest;
    } else {
      ReadPairWritten(c, CharUnits(c)[0], CharUnits(c)[1], rest);
    }
  }

  /** The two halves of a surrogate pair. */
  lemma ReadPairWritten(c: char, hi: int, lo: int, rest: string)
    requires 0xD800 <= hi < 0xDC00 && 0xDC00 <= lo < 0xE000 && c as int == 0x1_0000 + (hi - 0xD800) * 1024 + (lo - 0xDC00)
    ensures ReadUnitEscape(UnitEscape(hi)[2..] + (UnitEscape(lo) + rest)) == Some((c, rest))
  {
    var tail := UnitEscape(lo) + rest;
    var s := UnitEscape(hi)[2..] + tail;
    ReadUnitWritten(hi, tail);
    ReadUnitWritten(lo, rest);
    assert s[4] == tail[0] == '\\' && s[5] == tail[1] == 'u';
    assert s[6..] == UnitEscape(lo)[2..] + rest;
    assert s[10..] == rest;
  }

  lemma ReadShortEscape(style: Style, c: char, rest: string)
    requires |EscapeChar(style, c)| == 2
    ensures ReadChar(EscapeChar(style, c) + rest) == Some((c, rest))
  {
    var e := EscapeChar(style, c);
    var s := e + rest;
    var tail := s[1..];
    assert s[0] == e[0] == '\\';
    assert tail[0] == e[1] && tail[1..] == rest;
  }

  lemma ReadLongEscape(style: Style, c: char, rest: string)
    requires |EscapeChar(style, c)| > 2
    ensures ReadChar(EscapeChar(style, c) + rest) == Some((c, rest))
  {
    if c as int < 0x1_0000 {
      ReadOneUnit(c, rest);
    } else {
      ReadTwoUnits(c, rest);
    }
  }

  lemma ReadOneUnit(c: char, rest: string)
    requires c as int < 0x1_0000
    ensures ReadChar(UnitEscape(c as int) + rest) == Some((c, rest))
  {
    ReadUnitEscapeWritten(c, rest);
    UnitEscapeShape(c as int, rest);
    ReadUnicodeEscape(UnitEscape(c as int)[2..] + rest);
  }

  lemma ReadTwoUnits(c: char, rest: string)
    requires c as int >= 0x1_0000
    ensures ReadChar(UnitEscape(CharUnits(c)[0]) + UnitEscape(CharUnits(c)[1]) + rest) == Some((c, rest))
  {
    ReadUnitEscapeWritten(c, rest);
    var hi, lo := UnitEscape(CharUnits(c)[0]), UnitEscape(CharUnits(c)[1]);
    assert hi + lo + rest == hi + (lo + rest);
    UnitEscapeShape(CharUnits(c)[0], lo + rest);
    ReadUnicodeEscape(hi[2..] + (lo + rest));
  }

  lemma UnitEscapeShape(n: int, rest: string)
    requires 0 <= n < 0x1_0000
    ensures UnitEscape(n) + rest == "\\u" + (UnitEscape(n)[2..] + rest)
  {
  }

  lemma ReadUnicodeEscape(tail: string)
    ensures ReadChar("\\u" + tail) == ReadUnitEscape(tail)
  {
    var s := "\\u" + tail;
    assert s[0] == '\\' && s[1..][0] == 'u' && s[1..][1..] == tail;
  }

  lemma ReadCharWritten(style: Style, c: char, rest: string)
    ensures (EscapeChar(style, c) + rest)[0] != '"'
    ensures ReadChar(EscapeChar(style, c) + rest) == Some((c, rest))
  {
    var e := EscapeChar(style, c);
    var s := e + rest;
    assert s[0] == e[0];
    if |e| == 1 {
      assert s[1..] == rest;
    } else if |e| == 2 {
      ReadShortEscape(style, c, rest);
    } else {
      ReadLongEscape(style, c, rest);
    }
  }

  lemma {:induction false} ReadStringWritten(style: Style, t: string, rest: string)
    ensures ReadString(StringBody(style, t) + rest) == Some((t, rest))
  {
    if t == "" {
      assert (StringBody(style, t) + rest)[1..] == rest;
    } else {
      var tail := StringBody(style, t[1..]) + rest;
      assert StringBody(style, t) + rest == EscapeChar(style, t[0]) + tail;
      ReadCharWritten(style, t[0], tail);
      ReadStringWritten(style, t[1..], rest);
      assert [t[0]] + t[1..] == t;
    }
  }

  // ---------------------------------------------------------------- documents

  predicate IsTokenChar(c: char) {
    '0' <= c <= '9' || c in "+-.eENaInfity"
  }

  predicate IsTokenStart(c: char) {
    '0' <= c <= '9' || c == '-' || c == 'N' || c == 'I'
  }

  predicate IsToken(tok: string) {
    tok != "" && IsTokenStart(tok[0]) && forall c :: c in tok ==> IsTokenChar(c)
  }

  predicate WellFormed(t: Tree) {
    match t
    case TNum(tok) => IsToken(tok)
    case TArr(items) => forall i :: 0 <= i < |items| ==> WellFormed(items[i])
    case TObj(members) => forall i :: 0 <= i < |members| ==> WellFormed(members[i].value)
    case _ => true
  }

  function Text(style: Style, t: Tree): string
    decreases t
  {
    match t
    case TNull => "null"
    case TBool(b) => if b then "true" else "false"
    case TNum(tok) => tok
    case TStr(s) => "\"" + StringBody(style, s)
    case TArr(items) => "[" + (if items == [] then "]" else ItemsText(style, items))
    case TObj(members) => "{" + (if members == [] then "}" else MembersText(style, members))
  }

  function ItemsText(style: Style, items: seq<Tree>): string
    requires items != []
    decreases items, 1
  {
    Text(style, items[0]) + ItemsTail(style, items)
  }

  function ItemsTail(style: Style, items: seq<Tree>): string
    requires items != []
    decreases items, 0
  {
    if |items| == 1 then "]" else "," + ItemsText(style, items[1..])
  }

  function MembersText(style: Style, members: seq<Entry<Tree>>): string
    requires members != []
    decreases members, 1
  {
    "\"" + StringBody(style, members[0].key) + ":" + Text(style, members[0].value) + MembersTail(style, members)
  }

  function MembersTail(style: Style, members: seq<Entry<Tree>>): string
    requires members != []
    decreases members, 0
  {
    if |members| == 1 then "}" else "," + MembersText(style, members[1..])
  }

  predicate IsSpace(c: char) { c == ' ' || c == '\t' || c == '\n' || c == '\r' }

  function SkipSpace(s: string): (r: string)
    ensures |r| <= |s|
  {
    if s != "" && IsSpace(s[0]) then SkipSpace(s[1..]) else s
  }

  /** The longest prefix of s made of number characters. */
  function TokenLength(s: string): (n: nat)
    ensures n <= |s|
  {
    if s == "" || !IsTokenChar(s[0]) then 0 else 1 + TokenLength(s[1..])
  }

  /** Reads one document off the front of a text and returns what follows it. */
  function ReadTree(text: string): (r: Option<(Tree, string)>)
    ensures r.Some? ==> |r.value.1| < |text|
    decreases |text|, 0
  {
    var s := SkipSpace(text);
    if s == "" then None
    else if s[0] == '"' then
      match ReadString(s[1..])
      case None => None
      case Some((t, rest)) => Some((TStr(t), rest))
    else if s[0] == '[' then
      var u := SkipSpace(s[1..]);
      if u != "" && u[0] == ']' then Some((TArr([]), u[1..]))
      else match ReadItems(u)
        case None => None
        case Some((items, rest)) => Some((TArr(items), rest))
    else if s[0] == '{' then
      var u := SkipSpace(s[1..]);
      if u != "" && u[0] == '}' then Some((TObj([]), u[1..]))
      else match ReadMembers(u)
        case None => None
        case Some((members, rest)) => Some((TObj(members), rest))
    else if |s| >= 4 && s[..4] == "null" then Some((TNull, s[4..]))
    else if |s| >= 4 && s[..4] == "true" then Some((TBool(true), s[4..]))
    else if |s| >= 5 && s[..5] == "false" then Some((TBool(false), s[5..]))
    else if IsTokenStart(s[0]) then Some((TNum(s[..TokenLength(s)]), s[TokenLength(s)..]))
    else None
  }

  function ReadItems(s: string): (r: Option<(seq<Tree>, string)>)
    ensures r.Some? ==> |r.value.1| < |s|
    decreases |s|, 1
  {
    match ReadTree(s)
    case None => None
    case Some((t, rest)) =>
      var u := SkipSpace(rest);
      if u == "" then None
      else if u[0] == ']' then Some(([t], u[1..]))
      else if u[0] == ',' then
        match ReadItems(u[1..])
        case None => None
        case Some((ts, after)) => Some(([t] + ts, after))
      else None
  }

  function ReadMembers(text: string): (r: Option<(seq<Entry<Tree>>, string)>)
    ensures r.Some? ==> |r.value.1| < |text|
    decreases |text|, 1
  {
    var s := SkipSpace(text);
    if s == "" || s[0] != '"' then None
    else match ReadString(s[1..])
      case None => None
      case Some((k, rest0)) =>
        var v := SkipSpace(rest0);
        if v == "" || v[0] != ':' then None
        else match ReadTree(v[1..])
          case None => None
          case Some((t, rest)) =>
            var u := SkipSpace(rest);
            if u == "" then None
            else if u[0] == '}' then Some(([Entry(k, t)], u[1..]))
            else if u[0] == ',' then
              match ReadMembers(u[1..])
              case None => None
              case Some((ms, after)) => Some(([Entry(k, t)] + ms, after))
            else None
  }

  /** A whole text is one document with nothing but space after it. */
  function Read(text: string): Option<Tree> {
    match ReadTree(text)
    case None => None
    case Some((t, rest)) => if SkipSpace(rest) == "" then Some(t) else None
  }

  /** What may follow a document inside a larger one. */
  predicate Delimited(rest: string) {
    rest == "" || rest[0] == ',' || rest[0] == ']' || rest[0] == '}'
  }

  lemma {:induction false} TokenWritten(tok: string, rest: string)
    requires forall c :: c in tok ==> IsTokenChar(c)
    requires Delimited(rest)
    ensures TokenLength(tok + rest) == |tok|
  {
    if tok == "" {
      assert tok + rest == rest;
    } else {
      assert (tok + rest)[1..] == tok[1..] + rest;
      TokenWritten(tok[1..], rest);
    }
  }

  lemma TextStart(style: Style, t: Tree)
    requires WellFormed(t)
    ensures var s := Text(style, t);
            s != "" && !IsSpace(s[0]) && s[0] != ']' && s[0] != '}'
  {
  }

  lemma KeywordWritten(style: Style, t: Tree, rest: string)
    requires t.TNull? || t.TBool?
    ensures ReadTree(Text(style, t) + rest) == Some((t, rest))
  {
    var w := Text(style, t);
    var s := w + rest;
    assert s[0] == w[0] && SkipSpace(s) == s;
    assert s[..|w|] == w && s[|w|..] == rest;
    if |w| == 5 { assert s[..4] == w[..4]; }
  }

  lemma NoKeyword(s: string)
    requires s != "" && IsTokenStart(s[0])
    ensures |s| >= 4 ==> s[..4] != "null" && s[..4] != "true"
    ensures |s| >= 5 ==> s[..5] != "false"
  {
    if |s| >= 4 { assert s[..4][0] == s[0]; }
    if |s| >= 5 { assert s[..5][0] == s[0]; }
  }

  lemma NumberWritten(tok: string, rest: string)
    requires IsToken(tok) && Delimited(rest)
    ensures ReadTree(tok + rest) == Some((TNum(tok), rest))
  {
    var s := tok + rest;
    TokenWritten(tok, rest);
    assert s[0] == tok[0] && SkipSpace(s) == s;
    assert s[..|tok|] == tok && s[|tok|..] == rest;
    NoKeyword(s);
  }

  lemma LiteralWritten(style: Style, t: string, rest: string)
    ensures ReadTree("\"" + StringBody(style, t) + rest) == Some((TStr(t), rest))
  {
    var s := "\"" + StringBody(style, t) + rest;
    assert s[0] == '"' && SkipSpace(s) == s;
    assert s[1..] == StringBody(style, t) + rest;
    ReadStringWritten(style, t, rest);
  }

  /** Reading undoes writing, in either style and whatever follows. */
  lemma {:induction false} ReadWritten(style: Style, t: Tree, rest: string)
    requires WellFormed(t) && Delimited(rest)
    ensures ReadTree(Text(style, t) + rest) == Some((t, rest))
    decreases t
  {
    match t
    case TNull => KeywordWritten(style, t, rest);
    case TBool(_) => KeywordWritten(style, t, rest);
    case TNum(tok) => NumberWritten(tok, rest);
    case TStr(str) => LiteralWritten(style, str, rest);
    case TArr(items) =>
      if items != [] { ItemsWritten(style, items, rest); }
      ArrayWritten(style, items, rest);
    case TObj(members) =>
      if members != [] { MembersWritten(style, members, rest); }
      ObjectWritten(style, members, rest);
  }

  /** The document an opening bracket or brace starts, given what stands behind it. */
  lemma AfterOpening(c: char, u: string, t: Tree, after: string)
    requires c == '[' || c == '{'
    requires u != "" && !IsSpace(u[0])
    requires c == '[' ==> if u[0] == ']' then t == TArr([]) && after == u[1..]
                          else t.TArr? && ReadItems(u) == Some((t.items, after))
    requires c == '{' ==> if u[0] == '}' then t == TObj([]) && after == u[1..]
                          else t.TObj? && ReadMembers(u) == Some((t.members, after))
    ensures ReadTree([c] + u) == Some((t, after))
  {
    var s := [c] + u;
    assert s[0] == c && s[1..] == u;
    assert SkipSpace(s) == s && SkipSpace(u) == u;
  }

  lemma Opening(c: char, inner: string, rest: string)
    ensures [c] + inner + rest == [c] + (inner + rest)
    ensures inner != "" ==> inner + rest != "" && (inner + rest)[0] == inner[0]
    ensures |inner| == 1 ==> (inner + rest)[1..] == rest
  {
  }

  lemma ArrayWritten(style: Style, items: seq<Tree>, rest: string)
    requires WellFormed(TArr(items))
    requires items != [] ==> ReadItems(ItemsText(style, items) + rest) == Some((items, rest))
    ensures ReadTree(Text(style, TArr(items)) + rest) == Some((TArr(items), rest))
  {
    var inner := if items == [] then "]" else ItemsText(style, items);
    Opening('[', inner, rest);
    if items != [] {
      TextStart(style, items[0]);
      assert inner[0] == Text(style, items[0])[0];
    }
    AfterOpening('[', inner + rest, TArr(items), rest);
  }

  lemma ObjectWritten(style: Style, members: seq<Entry<Tree>>, rest: string)
    requires members != [] ==> ReadMembers(MembersText(style, members) + rest) == Some((members, rest))
    ensures ReadTree(Text(style, TObj(members)) + rest) == Some((TObj(members), rest))
  {
    var inner := if members == [] then "}" else MembersText(style, members);
    Opening('{', inner, rest);
    if members != [] { MembersTextShape(style, members, ""); assert inner + "" == inner; }
    AfterOpening('{', inner + rest, TObj(members), rest);
  }

  /** One item of an array, read in front of the last bracket or of a comma and more items. */
  lemma ItemStep(s: string, t: Tree, u: string, more: seq<Tree>, rest: string)
    requires ReadTree(s) == Some((t, u))
    requires if more == [] then u == "]" + rest
             else u != "" && u[0] == ',' && ReadItems(u[1..]) == Some((more, rest))
    ensures ReadItems(s) == Some(([t] + more, rest))
  {
    assert SkipSpace(u) == u;
    if more == [] {
      assert u[1..] == rest;
      assert [t] + more == [t];
    }
  }

  lemma ItemsTextShape(style: Style, items: seq<Tree>, rest: string)
    requires items != []
    ensures items == [items[0]] + items[1..]
    ensures ItemsText(style, items) + rest == Text(style, items[0]) + (ItemsTail(style, items) + rest)
    ensures var u := ItemsTail(style, items) + rest;
            if |items| == 1 then u == "]" + rest
            else u != "" && u[0] == ',' && u[1..] == ItemsText(style, items[1..]) + rest
  {
    TextsJoined(Text(style, items[0]), ItemsTail(style, items), rest);
    if |items| > 1 { AfterComma(ItemsText(style, items[1..]), rest); }
  }

  lemma TextsJoined(a: string, b: string, c: string)
    ensures a + b + c == a + (b + c)
  {
  }

  lemma AfterComma(t: string, rest: string)
    ensures var u := "," + t + rest;
            u != "" && u[0] == ',' && u[1..] == t + rest
  {
  }

  lemma ItemsHeadWritten(style: Style, items: seq<Tree>, rest: string)
    requires items != []
    requires var u := ItemsTail(style, items) + rest;
             ReadTree(Text(style, items[0]) + u) == Some((items[0], u))
    requires |items| > 1 ==> ReadItems(ItemsText(style, items[1..]) + rest) == Some((items[1..], rest))
    ensures ReadItems(ItemsText(style, items) + rest) == Some((items, rest))
  {
    ItemsTextShape(style, items, rest);
    ItemStep(ItemsText(style, items) + rest, items[0], ItemsTail(style, items) + rest, items[1..], rest);
  }

  lemma {:induction false} ItemsWritten(style: Style, items: seq<Tree>, rest: string)
    requires items != [] && forall i :: 0 <= i < |items| ==> WellFormed(items[i])
    ensures ReadItems(ItemsText(style, items) + rest) == Some((items, rest))
    decreases items
  {
    ReadWritten(style, items[0], ItemsTail(style, items) + rest);
    if |items| > 1 { ItemsWritten(style, items[1..], rest); }
    ItemsHeadWritten(style, items, rest);
  }

  /** One "key":value of an object, read in front of the last brace or of a comma and more members. */
  lemma MemberStep(s: string, k: string, t: Tree, u: string, more: seq<Entry<Tree>>, rest: string)
    requires s != "" && s[0] == '"'
    requires exists v :: ReadString(s[1..]) == Some((k, ":" + v)) && ReadTree(v) == Some((t, u))
    requires if more == [] then u == "}" + rest
             else u != "" && u[0] == ',' && ReadMembers(u[1..]) == Some((more, rest))
    ensures ReadMembers(s) == Some(([Entry(k, t)] + more, rest))
  {
    var v :| ReadString(s[1..]) == Some((k, ":" + v)) && ReadTree(v) == Some((t, u));
    var w := ":" + v;
    assert SkipSpace(s) == s && SkipSpace(w) == w && w[1..] == v && SkipSpace(u) == u;
    if more == [] {
      assert u[1..] == rest;
      assert [Entry(k, t)] + more == [Entry(k, t)];
    }
  }

  lemma MemberShape(body: string, text: string, tail: string, rest: string)
    ensures var s := "\"" + body + ":" + text + tail + rest;
            s[0] == '"' && s[1..] == body + (":" + (text + (tail + rest)))
  {
  }

  /** A nonempty list of members starts with a quoted key, a colon and a document. */
  lemma MembersTextShape(style: Style, members: seq<Entry<Tree>>, rest: string)
    requires members != []
    ensures var s := MembersText(style, members) + rest;
            s != "" && s[0] == '"' &&
            s[1..] == StringBody(style, members[0].key) +
                      (":" + (Text(style, members[0].value) + (MembersTail(style, members) + rest)))
  {
    MemberShape(StringBody(style, members[0].key), Text(style, members[0].value), MembersTail(style, members), rest);
  }

  lemma MembersTailShape(style: Style, members: seq<Entry<Tree>>, rest: string)
    requires members != []
    ensures members == [Entry(members[0].key, members[0].value)] + members[1..]
    ensures var u := MembersTail(style, members) + rest;
            if |members| == 1 then u == "}" + rest
            else u != "" && u[0] == ',' && u[1..] == MembersText(style, members[1..]) + rest
  {
    if |members| > 1 {
      assert "," + MembersText(style, members[1..]) + rest == "," + (MembersText(style, members[1..]) + rest);
    }
  }

  lemma MembersHeadWritten(style: Style, members: seq<Entry<Tree>>, rest: string)
    requires members != []
    requires var u := MembersTail(style, members) + rest;
             ReadTree(Text(style, members[0].value) + u) == Some((members[0].value, u))
    requires |members| > 1 ==> ReadMembers(MembersText(style, members[1..]) + rest) == Some((members[1..], rest))
    ensures ReadMembers(MembersText(style, members) + rest) == Some((members, rest))
  {
    var k, t, more := members[0].key, members[0].value, members[1..];
    var u := MembersTail(style, members) + rest;
    MembersTextShape(style, members, rest);
    MembersTailShape(style, members, rest);
    ReadStringWritten(style, k, ":" + (Text(style, t) + u));
    MemberStep(MembersText(style, members) + rest, k, t, u, more, rest);
  }

  lemma {:induction false} MembersWritten(style: Style, members: seq<Entry<Tree>>, rest: string)
    requires members != [] && forall i :: 0 <= i < |members| ==> WellFormed(members[i].value)
    ensures ReadMembers(MembersText(style, members) + rest) == Some((members, rest))
    decreases members
  {
    ReadWritten(style, members[0].value, MembersTail(style, members) + rest);
    if |members| > 1 { MembersWritten(style, members[1..], rest); }
    MembersHeadWritten(style, members, rest);
  }

  /** A written document reads back as itself, so writing is unambiguous. */
  lemma ReadText(style: Style, t: Tree)
    requires WellFormed(t)
    ensures Read(Text(style, t)) == Some(t)
  {
    ReadWritten(style, t, "");
    assert Text(style, t) + "" == Text(style, t);
  }
}
