/** JSON text never holds the character NUL, neither where it is written nor where it can be read. */
module NulFree {
  import opened Basics
  import opened KeyOrder
  import opened JsonText
  import Utf8

  const NUL: char := '\0'

  // ---------------------------------------------------------------- written text

  lemma EscapeHasNone(style: Style, c: char)
    ensures NUL !in EscapeChar(style, c)
  {
  }

  lemma {:induction false} BodyHasNone(style: Style, s: string)
    ensures NUL !in StringBody(style, s)
  {
    if s != "" {
      EscapeHasNone(style, s[0]);
      BodyHasNone(style, s[1..]);
    }
  }

  lemma TokenHasNone(tok: string)
    requires IsToken(tok)
    ensures NUL !in tok
  {
    assert !IsTokenChar(NUL);
  }

  /** No document is written with a NUL. */
  lemma {:induction false} TextHasNone(style: Style, t: Tree)
    requires WellFormed(t)
    ensures NUL !in Text(style, t)
    decreases t
  {
    match t
    case TNum(tok) => TokenHasNone(tok);
    case TStr(s) => BodyHasNone(style, s);
    case TArr(items) => if items != [] { ItemsHaveNone(style, items); }
    case TObj(members) => if members != [] { MembersHaveNone(style, members); }
    case _ =>
  }

  lemma {:induction false} ItemsHaveNone(style: Style, items: seq<Tree>)
    requires items != [] && forall i :: 0 <= i < |items| ==> WellFormed(items[i])
    ensures NUL !in ItemsText(style, items)
    decreases items
  {
    TextHasNone(style, items[0]);
    if |items| > 1 { ItemsHaveNone(style, items[1..]); }
  }

  lemma {:induction false} MembersHaveNone(style: Style, members: seq<Entry<Tree>>)
    requires members != [] && forall i :: 0 <= i < |members| ==> WellFormed(members[i].value)
    ensures NUL !in MembersText(style, members)
    decreases members
  {
    BodyHasNone(style, members[0].key);
    TextHasNone(style, members[0].value);
    if |members| > 1 { MembersHaveNone(style, members[1..]); }
  }

  // ---------------------------------------------------------------- readable text

  /** A NUL that was not among the first k characters is still to come. */
  lemma StillAhead(s: string, k: nat)
    requires k <= |s| && NUL in s && forall i :: 0 <= i < k ==> s[i] != NUL
    ensures NUL in s[k..]
  {
    var i :| 0 <= i < |s| && s[i] == NUL;
    assert s[k..][i - k] == NUL;
  }

  lemma {:induction false} SpaceSkipsNone(s: string)
    requires NUL in s
    ensures NUL in SkipSpace(s)
  {
    if IsSpace(s[0]) {
      StillAhead(s, 1);
      SpaceSkipsNone(s[1..]);
    }
  }

  lemma UnitReadsNone(s: string)
    requires NUL in s && ReadUnitEscape(s).Some?
    ensures NUL in ReadUnitEscape(s).value.1
  {
    var u := ReadUnit(s).value;
    if 0 <= u < 0xD800 || 0xE000 <= u < 0x1_0000 {
      StillAhead(s, 4);
    } else {
      assert forall i :: 6 <= i < 10 ==> s[i] == s[6..][i - 6];
      StillAhead(s, 10);
    }
  }

  lemma CharReadsNone(s: string)
    requires NUL in s && ReadChar(s).Some?
    ensures NUL in ReadChar(s).value.1
  {
    StillAhead(s, 1);
    if s[0] == '\\' {
      var t := s[1..];
      StillAhead(t, 1);
      if t[0] == 'u' { UnitReadsNone(t[1..]); }
    }
  }

  lemma {:induction false} StringReadsNone(s: string)
    requires NUL in s && ReadString(s).Some?
    ensures NUL in ReadString(s).value.1
    decreases |s|
  {
    if s[0] == '"' {
      StillAhead(s, 1);
    } else {
      CharReadsNone(s);
      StringReadsNone(ReadChar(s).value.1);
    }
  }

  lemma {:induction false} TokenReadsNone(s: string)
    requires NUL in s
    ensures NUL in s[TokenLength(s)..]
  {
    if IsTokenChar(s[0]) {
      StillAhead(s, 1);
      TokenReadsNone(s[1..]);
      assert s[TokenLength(s)..] == s[1..][TokenLength(s[1..])..];
    }
  }

  /** No reader passes a NUL. */
  lemma {:induction false} TreeReadsNone(text: string)
    requires NUL in text && ReadTree(text).Some?
    ensures NUL in ReadTree(text).value.1
    decreases |text|, 0
  {
    SpaceSkipsNone(text);
    var s := SkipSpace(text);
    if s[0] == '"' || s[0] == '[' || s[0] == '{' {
      StillAhead(s, 1);
      if s[0] == '"' {
        StringReadsNone(s[1..]);
      } else {
        SpaceSkipsNone(s[1..]);
        var u := SkipSpace(s[1..]);
        if u[0] == (if s[0] == '[' then ']' else '}') {
          StillAhead(u, 1);
        } else if s[0] == '[' {
          ItemsReadNone(u);
        } else {
          MembersReadNone(u);
        }
      }
    } else {
      SpaceSkipped(text);
      PlainReadsNone(s);
    }
  }

  /** A word without a NUL at the front of s is passed. */
  lemma WordReadsNone(s: string, word: string)
    requires NUL in s && NUL !in word && |s| >= |word| && s[..|word|] == word
    ensures NUL in s[|word|..]
  {
    forall i | 0 <= i < |word| ensures s[i] != NUL { assert s[i] == s[..|word|][i] == word[i]; }
    StillAhead(s, |word|);
  }

  /** Reading a keyword or a number. */
  lemma PlainReadsNone(s: string)
    requires NUL in s && s != "" && s[0] != '"' && s[0] != '[' && s[0] != '{' && SkipSpace(s) == s && ReadTree(s).Some?
    ensures NUL in ReadTree(s).value.1
  {
    if |s| >= 4 && s[..4] == "null" {
      WordReadsNone(s, "null");
    } else if |s| >= 4 && s[..4] == "true" {
      WordReadsNone(s, "true");
    } else if |s| >= 5 && s[..5] == "false" {
      WordReadsNone(s, "false");
    } else {
      TokenReadsNone(s);
    }
  }

  lemma {:induction false} SpaceSkipped(s: string)
    ensures SkipSpace(SkipSpace(s)) == SkipSpace(s)
  {
    if s != "" && IsSpace(s[0]) { SpaceSkipped(s[1..]); }
  }

  lemma {:induction false} ItemsReadNone(s: string)
    requires NUL in s && ReadItems(s).Some?
    ensures NUL in ReadItems(s).value.1
    decreases |s|, 1
  {
    TreeReadsNone(s);
    var rest := ReadTree(s).value.1;
    SpaceSkipsNone(rest);
    var u := SkipSpace(rest);
    StillAhead(u, 1);
    if u[0] == ',' { ItemsReadNone(u[1..]); }
  }

  lemma {:induction false} MembersReadNone(text: string)
    requires NUL in text && ReadMembers(text).Some?
    ensures NUL in ReadMembers(text).value.1
    decreases |text|, 1
  {
    SpaceSkipsNone(text);
    var s := SkipSpace(text);
    StillAhead(s, 1);
    StringReadsNone(s[1..]);
    var rest0 := ReadString(s[1..]).value.1;
    SpaceSkipsNone(rest0);
    var v := SkipSpace(rest0);
    StillAhead(v, 1);
    TreeReadsNone(v[1..]);
    var rest := ReadTree(v[1..]).value.1;
    SpaceSkipsNone(rest);
    var u := SkipSpace(rest);
    StillAhead(u, 1);
    if u[0] == ',' { MembersReadNone(u[1..]); }
  }

  /** A text with a NUL is no document. */
  lemma NulIsNoDocument(text: string)
    requires NUL in text
    ensures Read(text).None?
  {
    if ReadTree(text).Some? {
      TreeReadsNone(text);
      SpaceSkipsNone(ReadTree(text).value.1);
    }
  }

  /** A document that begins with a letter is no object. */
  lemma LetterIsNoObject(text: string)
    requires text != "" && 'a' <= text[0] <= 'z'
    ensures Read(text).Some? ==> !Read(text).value.TObj?
  {
    assert SkipSpace(text) == text;
  }

  // ---------------------------------------------------------------- bytes

  lemma {:induction false} EncodeHasNoZero(s: string)
    requires NUL !in s
    ensures forall i :: 0 <= i < |Utf8.Encode(s)| ==> Utf8.Encode(s)[i] != 0
  {
    if s != "" {
      EncodeHasNoZero(s[1..]);
      CharHasNoZero(s[0]);
    }
  }

  lemma CharHasNoZero(c: char)
    requires c != NUL
    ensures forall i :: 0 <= i < |Utf8.EncodeChar(c)| ==> Utf8.EncodeChar(c)[i] != 0
  {
  }

  lemma EncodeAscii(c: char, s: string)
    requires c as int < 0x80
    ensures Utf8.Encode([c] + s) == [c as int] + Utf8.Encode(s)
  {
    assert ([c] + s)[1..] == s;
  }

  /** A zero byte decodes to a NUL. */
  lemma {:induction false} ZeroDecodesToNul(bs: Bytes, i: nat)
    requires i < |bs| && bs[i] == 0 && Utf8.Decode(bs).Some?
    ensures NUL in Utf8.Decode(bs).value
    decreases |bs|
  {
    var (c, n) := Utf8.DecodeChar(bs).value;
    var rest := Utf8.Decode(bs[n..]).value;
    if i >= n {
      ZeroDecodesToNul(bs[n..], i - n);
    } else {
      FirstIsZero(bs, i);
    }
  }

  lemma FirstIsZero(bs: Bytes, i: nat)
    requires Utf8.DecodeChar(bs).Some? && i < Utf8.DecodeChar(bs).value.1 && bs[i] == 0
    ensures Utf8.DecodeChar(bs).value.0 == NUL
  {
  }

  lemma AsciiDecodes(bs: Bytes)
    requires bs != [] && bs[0] < 0x80 && Utf8.Decode(bs).Some?
    ensures Utf8.Decode(bs).value != "" && Utf8.Decode(bs).value[0] as int == bs[0]
  {
  }
}
