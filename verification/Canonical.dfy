/** From Python values to JSON text: canonical_json for signing and json.dumps for hashing and the wire. */
module Canonical {
  import opened Basics
  import opened KeyOrder
  import opened KeySort
  import opened PyValues
  import Decimal
  import JsonText
  import Utf8

  type Tree = JsonText.Tree

  /** The document written for v, names already in the order of the style; None where the writer
      raises a TypeError (a key that is no text, an enum member, a foreign object). */
  function ToTree(f: Floats, style: Style, v: PyValue): Option<Tree>
    decreases v, 2
  {
    match v
    case PyNone => Some(JsonText.TNull)
    case PyBool(b) => Some(JsonText.TBool(b))
    case PyInt(_) => Some(JsonText.TNum(NumberText(f, style, v)))
    case PyFloat(_) => Some(JsonText.TNum(NumberText(f, style, v)))
    case PyNonFinite(_) => Some(JsonText.TNum(NumberText(f, style, v)))
    case PyStr(s) => Some(JsonText.TStr(s))
    case PyList(items) => if Writable(f, style, items) then Some(JsonText.TArr(Trees(f, style, items))) else None
    case PyTuple(items) => if Writable(f, style, items) then Some(JsonText.TArr(Trees(f, style, items))) else None
    case PyDict(_) => if WritableDict(f, style, v) then Some(JsonText.TObj(Sort(style, Members(f, style, v)))) else None
    case PyEnum(_) => None
    case PyOther => None
  }

  predicate Writable(f: Floats, style: Style, items: seq<PyValue>)
    decreases items, 0
  {
    forall i :: 0 <= i < |items| ==> ToTree(f, style, items[i]).Some?
  }

  function Trees(f: Floats, style: Style, items: seq<PyValue>): seq<Tree>
    requires Writable(f, style, items)
    decreases items, 1
  {
    seq(|items|, i requires 0 <= i < |items| => ToTree(f, style, items[i]).value)
  }

  predicate WritableDict(f: Floats, style: Style, v: PyValue)
    requires v.PyDict?
    decreases v, 0
  {
    forall i :: 0 <= i < |v.entries| ==> v.entries[i].key.PyStr? && ToTree(f, style, v.entries[i].value).Some?
  }

  function Members(f: Floats, style: Style, v: PyValue): seq<Entry<Tree>>
    requires v.PyDict? && WritableDict(f, style, v)
    decreases v, 1
  {
    seq(|v.entries|, i requires 0 <= i < |v.entries| =>
      Entry(v.entries[i].key.s, ToTree(f, style, v.entries[i].value).value))
  }

  /** The bytes that are signed: RFC 8785 text of a value whose numbers passed the check. */
  function CanonicalJson(f: Floats, v: PyValue): Result<Bytes> {
    if !Validate(v) then Err(ValueError)
    else match ToTree(f, Jcs, v)
      case None => Err(TypeError)
      case Some(t) => Ok(Utf8.Encode(JsonText.Text(Jcs, t)))
  }

  /** json.dumps(v, sort_keys=True, separators=(",", ":")) for values whose keys are text. */
  function DumpsText(f: Floats, v: PyValue): Result<string> {
    match ToTree(f, Dumps, v)
    case None => Err(TypeError)
    case Some(t) => Ok(JsonText.Text(Dumps, t))
  }

  // ---------------------------------------------------------------- trees of values

  lemma NumberTokens(f: Floats, style: Style, v: PyValue)
    requires FloatsSound(f) && IsNumber(v) && WellFormed(v)
    ensures JsonText.IsToken(NumberText(f, style, v))
  {
    match v
    case PyInt(n) => DecimalIsToken(n);
    case PyFloat(x) => if style.Jcs? && IsSafeIntegral(x) { DecimalIsToken(x.Floor); }
    case PyNonFinite(_) =>
  }

  lemma DecimalIsToken(n: int)
    ensures JsonText.IsToken(Decimal.Text(n))
  {
    var ds := Decimal.Digits(if n < 0 then -n else n);
    Decimal.DigitsRead(if n < 0 then -n else n);
    assert ds[0] in ds && Decimal.IsDigit(ds[0]);
    assert Decimal.Text(n)[0] == if n < 0 then '-' else ds[0];
    forall c | c in Decimal.Text(n) ensures JsonText.IsTokenChar(c) {
      if n < 0 { assert c == '-' || c in ds; }
    }
  }

  lemma {:induction false} TreeWellFormed(f: Floats, style: Style, v: PyValue)
    requires FloatsSound(f) && WellFormed(v) && ToTree(f, style, v).Some?
    ensures JsonText.WellFormed(ToTree(f, style, v).value)
    decreases v
  {
    match v
    case PyInt(_) => NumberTokens(f, style, v);
    case PyFloat(_) => NumberTokens(f, style, v);
    case PyNonFinite(_) => NumberTokens(f, style, v);
    case PyList(items) =>
      forall i | 0 <= i < |items| ensures JsonText.WellFormed(ToTree(f, style, items[i]).value) {
        TreeWellFormed(f, style, items[i]);
      }
    case PyTuple(items) =>
      forall i | 0 <= i < |items| ensures JsonText.WellFormed(ToTree(f, style, items[i]).value) {
        TreeWellFormed(f, style, items[i]);
      }
    case PyDict(entries) =>
      var ms := Members(f, style, v);
      forall i | 0 <= i < |entries| ensures JsonText.WellFormed(ms[i].value) {
        TreeWellFormed(f, style, entries[i].value);
      }
      SortMembers(style, ms);
      forall m | m in Sort(style, ms) ensures JsonText.WellFormed(m.value) {
        assert m in multiset(ms);
      }
    case _ =>
  }

  lemma NumberTextByValue(f: Floats, v: PyValue)
    requires IsNumber(v) && Validate(v)
    ensures NumberText(f, Jcs, v) == FloatText(f, Jcs, NumberValue(v))
  {
    if v.PyInt? { assert (v.n as real).Floor == v.n; }
  }

  lemma IntIsDouble(n: int)
    requires IsSafe(n)
    ensures IsDouble(n as real)
  {
    assert Pow2(0) == 1;
    assert DoubleWith(n as real, n, 0);
  }

  lemma Es6Injective(f: Floats, x: real, y: real)
    requires FloatsSound(f) && IsDouble(x) && IsDouble(y)
    ensures FloatText(f, Jcs, x) == FloatText(f, Jcs, y) <==> x == y
  {
    if IsSafeIntegral(x) { Decimal.ReadText(x.Floor); } else { assert Es6Sound(f, x); }
    if IsSafeIntegral(y) { Decimal.ReadText(y.Floor); } else { assert Es6Sound(f, y); }
  }

  /** The three special spellings are no integers and differ from each other. */
  lemma KindTexts(k: NonFinite, l: NonFinite)
    ensures Decimal.Read(KindText(k)).None?
    ensures KindText(k) == KindText(l) ==> k == l
  {
    assert KindText(k)[0] in KindText(k);
    if k == NegInfinity { assert KindText(k)[1..][0] == 'I'; assert 'I' in KindText(k)[1..]; }
    assert |KindText(NaN)| == 3 && |KindText(Infinity)| == 8 && |KindText(NegInfinity)| == 9;
  }

  lemma ReprInjective(f: Floats, v: PyValue, w: PyValue)
    requires FloatsSound(f) && WellFormed(v) && WellFormed(w) && IsNumber(v) && IsNumber(w)
    requires NumberText(f, Dumps, v) == NumberText(f, Dumps, w)
    ensures v == w
  {
    if v.PyInt? { Decimal.ReadText(v.n); }
    if w.PyInt? { Decimal.ReadText(w.n); }
    if v.PyFloat? { assert ReprSound(f, v.x); }
    if w.PyFloat? { assert ReprSound(f, w.x); }
    if v.PyNonFinite? { KindTexts(v.kind, if w.PyNonFinite? then w.kind else v.kind); }
    if w.PyNonFinite? { KindTexts(w.kind, w.kind); }
  }

  /** Two numbers print alike exactly when the style counts them as the same number. */
  lemma NumbersAgree(f: Floats, style: Style, v: PyValue, w: PyValue)
    requires FloatsSound(f) && WellFormed(v) && WellFormed(w)
    requires IsNumber(v) && IsNumber(w)
    requires style.Jcs? ==> Validate(v) && Validate(w)
    ensures NumberText(f, style, v) == NumberText(f, style, w) <==> SameNumber(style, v, w)
  {
    if style.Jcs? {
      NumberTextByValue(f, v);
      NumberTextByValue(f, w);
      if v.PyInt? { IntIsDouble(v.n); }
      if w.PyInt? { IntIsDouble(w.n); }
      Es6Injective(f, NumberValue(v), NumberValue(w));
    } else if NumberText(f, style, v) == NumberText(f, style, w) {
      ReprInjective(f, v, w);
    }
  }

  // ---------------------------------------------------------------- unambiguity

  lemma MembersDistinct(f: Floats, style: Style, v: PyValue)
    requires WellFormed(v) && v.PyDict? && WritableDict(f, style, v)
    ensures DistinctKeys(Members(f, style, v))
  {
    var ms := Members(f, style, v);
    forall i, j | 0 <= i < j < |ms| ensures ms[i].key != ms[j].key {
      assert v.entries[i].key != v.entries[j].key;
    }
  }

  /** The document of a value is determined by the value as JSON, and determines it. */
  lemma {:induction false} TreesAgree(f: Floats, style: Style, v: PyValue, w: PyValue)
    requires FloatsSound(f) && WellFormed(v) && WellFormed(w)
    requires ToTree(f, style, v).Some? && ToTree(f, style, w).Some?
    requires style.Jcs? ==> Validate(v) && Validate(w)
    ensures ToTree(f, style, v) == ToTree(f, style, w) <==> SameJson(style, v, w)
    decreases v, 1
  {
    if IsNumber(v) && IsNumber(w) {
      NumbersAgree(f, style, v, w);
    } else if IsSequence(v) && IsSequence(w) {
      ItemsAgree(f, style, v.items, w.items);
    } else if v.PyDict? && w.PyDict? {
      forall i, j | 0 <= i < |v.entries| && 0 <= j < |w.entries|
        ensures ToTree(f, style, v.entries[i].value) == ToTree(f, style, w.entries[j].value) <==>
                SameJson(style, v.entries[i].value, w.entries[j].value)
      {
        TreesAgree(f, style, v.entries[i].value, w.entries[j].value);
      }
      DictsAgree(f, style, v, w);
    }
  }

  lemma {:induction false} ItemsAgree(f: Floats, style: Style, a: seq<PyValue>, b: seq<PyValue>)
    requires FloatsSound(f) && Writable(f, style, a) && Writable(f, style, b)
    requires forall i :: 0 <= i < |a| ==> WellFormed(a[i]) && (style.Jcs? ==> Validate(a[i]))
    requires forall i :: 0 <= i < |b| ==> WellFormed(b[i]) && (style.Jcs? ==> Validate(b[i]))
    ensures Trees(f, style, a) == Trees(f, style, b) <==> SameItems(style, a, b)
    decreases a, 0
  {
    var x, y := Trees(f, style, a), Trees(f, style, b);
    if |a| == |b| {
      forall i | 0 <= i < |a| ensures x[i] == y[i] <==> SameJson(style, a[i], b[i]) {
        TreesAgree(f, style, a[i], b[i]);
      }
      if x == y {
        forall i | 0 <= i < |a| ensures SameJson(style, a[i], b[i]) { assert x[i] == y[i]; }
      }
    }
  }

  ghost predicate ValuesAgree(f: Floats, style: Style, v: PyValue, w: PyValue)
    requires v.PyDict? && w.PyDict?
  {
    forall i, j :: 0 <= i < |v.entries| && 0 <= j < |w.entries| ==>
      (ToTree(f, style, v.entries[i].value) == ToTree(f, style, w.entries[j].value) <==>
       SameJson(style, v.entries[i].value, w.entries[j].value))
  }

  ghost predicate SameMembers(a: seq<Entry<Tree>>, b: seq<Entry<Tree>>) {
    forall x :: x in a <==> x in b
  }

  lemma SameDictHasSameMembers(f: Floats, style: Style, v: PyValue, w: PyValue)
    requires v.PyDict? && w.PyDict? && WritableDict(f, style, v) && WritableDict(f, style, w)
    requires ValuesAgree(f, style, v, w) && SameDict(style, v, w)
    ensures SameMembers(Members(f, style, v), Members(f, style, w))
  {
    MembersIncluded(f, style, v, w);
    MembersIncluded(f, style, w, v);
  }

  lemma SameMembersMakeSameDict(f: Floats, style: Style, v: PyValue, w: PyValue)
    requires v.PyDict? && w.PyDict? && WellFormed(v) && WellFormed(w)
    requires WritableDict(f, style, v) && WritableDict(f, style, w)
    requires ValuesAgree(f, style, v, w) && SameMembers(Members(f, style, v), Members(f, style, w))
    ensures SameDict(style, v, w)
  {
    KeysIncluded(f, style, v, w);
    KeysIncluded(f, style, w, v);
    var a, b := Members(f, style, v), Members(f, style, w);
    forall i, j | 0 <= i < |v.entries| && 0 <= j < |w.entries| && v.entries[i].key == w.entries[j].key
      ensures SameJson(style, v.entries[i].value, w.entries[j].value)
    {
      assert a[i] in b;
      assert a[i] == b[j];
    }
  }

  /** Same members on both sides is the same as same keys and same JSON under each. */
  lemma DictsAgree(f: Floats, style: Style, v: PyValue, w: PyValue)
    requires v.PyDict? && w.PyDict? && WellFormed(v) && WellFormed(w)
    requires WritableDict(f, style, v) && WritableDict(f, style, w)
    requires ValuesAgree(f, style, v, w)
    ensures Sort(style, Members(f, style, v)) == Sort(style, Members(f, style, w)) <==> SameDict(style, v, w)
  {
    var a, b := Members(f, style, v), Members(f, style, w);
    MembersDistinct(f, style, v);
    MembersDistinct(f, style, w);
    SortCanonical(style, a, b);
    assert Sort(style, a) == Sort(style, b) <==> SameMembers(a, b);
    if SameDict(style, v, w) {
      SameDictHasSameMembers(f, style, v, w);
    } else if SameMembers(a, b) {
      SameMembersMakeSameDict(f, style, v, w);
    }
  }

  lemma MembersIncluded(f: Floats, style: Style, v: PyValue, w: PyValue)
    requires v.PyDict? && w.PyDict? && WritableDict(f, style, v) && WritableDict(f, style, w)
    requires forall k :: HasKey(v.entries, k) ==> HasKey(w.entries, k)
    requires forall i, j :: 0 <= i < |v.entries| && 0 <= j < |w.entries| && v.entries[i].key == w.entries[j].key ==>
               ToTree(f, style, v.entries[i].value) == ToTree(f, style, w.entries[j].value)
    ensures forall x :: x in Members(f, style, v) ==> x in Members(f, style, w)
  {
    var a, b := Members(f, style, v), Members(f, style, w);
    forall x | x in a ensures x in b {
      var i :| 0 <= i < |a| && a[i] == x;
      assert HasKey(v.entries, v.entries[i].key);
      var j :| 0 <= j < |w.entries| && w.entries[j].key == v.entries[i].key;
      assert b[j] == x;
    }
  }

  lemma KeysIncluded(f: Floats, style: Style, v: PyValue, w: PyValue)
    requires v.PyDict? && w.PyDict? && WritableDict(f, style, v) && WritableDict(f, style, w)
    requires forall x :: x in Members(f, style, v) ==> x in Members(f, style, w)
    ensures forall k :: HasKey(v.entries, k) ==> HasKey(w.entries, k)
  {
    var a, b := Members(f, style, v), Members(f, style, w);
    forall k | HasKey(v.entries, k) ensures HasKey(w.entries, k) {
      var i :| 0 <= i < |v.entries| && v.entries[i].key == k;
      assert a[i] in b;
      var j :| 0 <= j < |b| && b[j] == a[i];
      assert w.entries[j].key == k;
    }
  }

  lemma TextInjective(f: Floats, style: Style, v: PyValue, w: PyValue)
    requires FloatsSound(f) && WellFormed(v) && WellFormed(w)
    requires ToTree(f, style, v).Some? && ToTree(f, style, w).Some?
    requires JsonText.Text(style, ToTree(f, style, v).value) == JsonText.Text(style, ToTree(f, style, w).value)
    ensures ToTree(f, style, v) == ToTree(f, style, w)
  {
    TreeWellFormed(f, style, v);
    TreeWellFormed(f, style, w);
    JsonText.ReadText(style, ToTree(f, style, v).value);
    JsonText.ReadText(style, ToTree(f, style, w).value);
  }

  /** Canonical JSON is unambiguous and its form unique: equal bytes exactly for the same JSON. */
  lemma CanonicalJsonExact(f: Floats, v: PyValue, w: PyValue)
    requires FloatsSound(f) && WellFormed(v) && WellFormed(w)
    requires CanonicalJson(f, v).Ok? && CanonicalJson(f, w).Ok?
    ensures CanonicalJson(f, v) == CanonicalJson(f, w) <==> SameJson(Jcs, v, w)
  {
    TreesAgree(f, Jcs, v, w);
    if CanonicalJson(f, v) == CanonicalJson(f, w) {
      Utf8.EncodeInjective(JsonText.Text(Jcs, ToTree(f, Jcs, v).value), JsonText.Text(Jcs, ToTree(f, Jcs, w).value));
      TextInjective(f, Jcs, v, w);
    }
  }

  /** json.dumps with sorted keys: equal text exactly for the same JSON with the same number types. */
  lemma DumpsExact(f: Floats, v: PyValue, w: PyValue)
    requires FloatsSound(f) && WellFormed(v) && WellFormed(w)
    requires DumpsText(f, v).Ok? && DumpsText(f, w).Ok?
    ensures DumpsText(f, v) == DumpsText(f, w) <==> SameJson(Dumps, v, w)
  {
    TreesAgree(f, Dumps, v, w);
    if DumpsText(f, v) == DumpsText(f, w) { TextInjective(f, Dumps, v, w); }
  }
}
