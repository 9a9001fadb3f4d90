/** json.loads, with and without the duplicate-key hook, and what it returns for text json.dumps wrote. */
module Loading {
  import opened Basics
  import opened KeyOrder
  import opened KeySort
  import opened PyValues
  import opened Canonical
  import Decimal
  import JsonText

  /** The first value stored under k, as a dict lookup finds it. */
  function Find(entries: seq<PyEntry>, k: string): Option<PyValue> {
    if entries == [] then None
    else if entries[0].key == PyStr(k) then Some(entries[0].value)
    else Find(entries[1..], k)
  }

  function Get(v: PyValue, k: string): Option<PyValue> {
    if v.PyDict? then Find(v.entries, k) else None
  }

  /** entries[k] = v on a dict: a known key keeps its place, a new one goes last. */
  function Put(entries: seq<PyEntry>, k: string, v: PyValue): seq<PyEntry> {
    if entries == [] then [PyEntry(PyStr(k), v)]
    else if entries[0].key == PyStr(k) then [PyEntry(PyStr(k), v)] + entries[1..]
    else [entries[0]] + Put(entries[1..], k, v)
  }

  /** dict(pairs) */
  function DictOf(pairs: seq<Entry<PyValue>>): seq<PyEntry> {
    if pairs == [] then []
    else
      var last := pairs[|pairs| - 1];
      Put(DictOf(pairs[..|pairs| - 1]), last.key, last.value)
  }

  function AsEntries(pairs: seq<Entry<PyValue>>): seq<PyEntry> {
    seq(|pairs|, i requires 0 <= i < |pairs| => PyEntry(PyStr(pairs[i].key), pairs[i].value))
  }

  /** The object_pairs_hook: refuses a key it has seen and otherwise builds the dict. */
  method CheckDuplicateKeys(pairs: seq<Entry<PyValue>>) returns (r: Result<PyValue>)
    ensures r.Ok? <==> DistinctKeys(pairs)
    ensures r.Ok? ==> r.value == PyDict(AsEntries(pairs))
    ensures r.Err? ==> r.error == ValueError
  {
    var seen: set<string> := {};
    var i := 0;
    while i < |pairs|
      invariant 0 <= i <= |pairs|
      invariant forall j :: 0 <= j < i ==> pairs[j].key in seen
      invariant forall k :: k in seen ==> exists j :: 0 <= j < i && pairs[j].key == k
      invariant DistinctKeys(pairs[..i])
    {
      if pairs[i].key in seen {
        return Err(ValueError);
      }
      seen := seen + {pairs[i].key};
      i := i + 1;
    }
    assert pairs[..i] == pairs;
    DictOfDistinct(pairs);
    r := Ok(PyDict(DictOf(pairs)));
  }

  lemma {:induction false} PutNew(entries: seq<PyEntry>, k: string, v: PyValue)
    requires forall i :: 0 <= i < |entries| ==> entries[i].key != PyStr(k)
    ensures Put(entries, k, v) == entries + [PyEntry(PyStr(k), v)]
  {
    if entries != [] {
      PutNew(entries[1..], k, v);
      assert entries == [entries[0]] + entries[1..];
    }
  }

  /** Without a repeated key the dict lists the pairs as they come. */
  lemma {:induction false} DictOfDistinct(pairs: seq<Entry<PyValue>>)
    requires DistinctKeys(pairs)
    ensures DictOf(pairs) == AsEntries(pairs)
  {
    if pairs != [] {
      var init, last := pairs[..|pairs| - 1], pairs[|pairs| - 1];
      DictOfDistinct(init);
      PutNew(AsEntries(init), last.key, last.value);
    }
  }

  function TokenValue(f: Floats, tok: string): Option<PyValue> {
    match Decimal.Read(tok)
    case Some(n) => Some(PyInt(n))
    case None =>
      if tok == "NaN" then Some(PyNonFinite(NaN))
      else if tok == "Infinity" then Some(PyNonFinite(Infinity))
      else if tok == "-Infinity" then Some(PyNonFinite(NegInfinity))
      else if !Decimal.IsNumber(tok) then None
      else match f.read(tok)
        case Some(x) => Some(PyFloat(x))
        case None => None
  }

  /** The value of a document; with the hook a repeated key is an error. */
  function FromTree(f: Floats, hook: bool, t: Tree): Option<PyValue>
    decreases t, 2
  {
    match t
    case TNull => Some(PyNone)
    case TBool(b) => Some(PyBool(b))
    case TNum(tok) => TokenValue(f, tok)
    case TStr(s) => Some(PyStr(s))
    case TArr(items) =>
      if forall i :: 0 <= i < |items| ==> FromTree(f, hook, items[i]).Some? then
        Some(PyList(seq(|items|, i requires 0 <= i < |items| => FromTree(f, hook, items[i]).value)))
      else None
    case TObj(members) =>
      if !Loadable(f, hook, t) then None
      else if hook && exists i, j :: 0 <= i < j < |members| && members[i].key == members[j].key then None
      else Some(PyDict(DictOf(Pairs(f, hook, t))))
  }

  predicate Loadable(f: Floats, hook: bool, t: Tree)
    requires t.TObj?
    decreases t, 0
  {
    forall i :: 0 <= i < |t.members| ==> FromTree(f, hook, t.members[i].value).Some?
  }

  function Pairs(f: Floats, hook: bool, t: Tree): seq<Entry<PyValue>>
    requires t.TObj? && Loadable(f, hook, t)
    decreases t, 1
  {
    seq(|t.members|, i requires 0 <= i < |t.members| =>
      Entry(t.members[i].key, FromTree(f, hook, t.members[i].value).value))
  }

  function LoadsText(f: Floats, hook: bool, text: string): Result<PyValue> {
    match JsonText.Read(text)
    case None => Err(ValueError)
    case Some(t) => OrElse(FromTree(f, hook, t), ValueError)
  }

  // ---------------------------------------------------------------- lookups

  lemma {:induction false} FindSpec(entries: seq<PyEntry>, k: string)
    ensures Find(entries, k).Some? <==> HasKey(entries, PyStr(k))
    ensures Find(entries, k).Some? ==>
              exists i :: 0 <= i < |entries| && entries[i].key == PyStr(k) && entries[i].value == Find(entries, k).value
  {
    if entries != [] {
      FindSpec(entries[1..], k);
      if entries[0].key == PyStr(k) {
        assert entries[0].value == Find(entries, k).value;
      } else {
        if Find(entries, k).Some? {
          var i :| 0 <= i < |entries[1..]| && entries[1..][i].key == PyStr(k) && entries[1..][i].value == Find(entries, k).value;
          assert entries[i + 1] == entries[1..][i];
        }
        if HasKey(entries, PyStr(k)) {
          var i :| 0 <= i < |entries| && entries[i].key == PyStr(k);
          assert entries[1..][i - 1] == entries[i];
        }
      }
    }
  }

  /** The same JSON answers every lookup with the same JSON. */
  lemma GetSame(style: Style, v: PyValue, w: PyValue, k: string)
    requires v.PyDict? && w.PyDict? && SameJson(style, v, w)
    ensures Get(v, k).Some? <==> Get(w, k).Some?
    ensures Get(v, k).Some? ==> SameJson(style, Get(v, k).value, Get(w, k).value)
  {
    FindSpec(v.entries, k);
    FindSpec(w.entries, k);
    assert SameDict(style, v, w);
  }

  // ---------------------------------------------------------------- loads after dumps

  lemma {:induction false} DumpsSameIsJcsSame(v: PyValue, w: PyValue)
    requires SameJson(Dumps, v, w)
    ensures SameJson(Jcs, v, w)
    decreases v
  {
    if IsSequence(v) {
      forall i | 0 <= i < |v.items| ensures SameJson(Jcs, v.items[i], w.items[i]) {
        DumpsSameIsJcsSame(v.items[i], w.items[i]);
      }
    } else if v.PyDict? {
      assert SameDict(Dumps, v, w);
      forall i, j | 0 <= i < |v.entries| && 0 <= j < |w.entries| && v.entries[i].key == w.entries[j].key
        ensures SameJson(Jcs, v.entries[i].value, w.entries[j].value)
      {
        DumpsSameIsJcsSame(v.entries[i].value, w.entries[j].value);
      }
    }
  }

  /** w is v as it comes out at the other end of the wire. */
  ghost predicate Carried(f: Floats, v: PyValue, w: PyValue) {
    && WellFormed(w)
    && ToTree(f, Dumps, w).Some?
    && SameJson(Dumps, v, w)
    && (Validate(v) <==> Validate(w))
  }

  lemma TokenLoads(f: Floats, v: PyValue)
    requires FloatsSound(f) && WellFormed(v) && IsNumber(v)
    ensures TokenValue(f, NumberText(f, Dumps, v)) == Some(v)
  {
    match v
    case PyInt(n) => Decimal.ReadText(n);
    case PyFloat(x) => assert ReprSound(f, x);
    case PyNonFinite(k) =>
      KindTexts(k, k);
      assert |KindText(NaN)| == 3 && |KindText(Infinity)| == 8 && |KindText(NegInfinity)| == 9;
  }

  ghost predicate Loads(f: Floats, hook: bool, v: PyValue) {
    && ToTree(f, Dumps, v).Some?
    && var r := FromTree(f, hook, ToTree(f, Dumps, v).value);
       r.Some? && Carried(f, v, r.value)
  }

  lemma ItemsLoad(f: Floats, hook: bool, v: PyValue)
    requires IsSequence(v) && forall i :: 0 <= i < |v.items| ==> Loads(f, hook, v.items[i])
    ensures Loads(f, hook, v)
  {
    forall i | 0 <= i < |v.items|
      ensures FromTree(f, hook, ToTree(f, Dumps, v.items[i]).value).Some?
      ensures Carried(f, v.items[i], FromTree(f, hook, ToTree(f, Dumps, v.items[i]).value).value)
    {
      assert Loads(f, hook, v.items[i]);
    }
  }

  /** Loading what json.dumps wrote gives the same JSON back, with or without the duplicate-key hook. */
  lemma {:induction false} LoadsWritten(f: Floats, hook: bool, v: PyValue)
    requires FloatsSound(f) && WellFormed(v) && ToTree(f, Dumps, v).Some?
    ensures var r := FromTree(f, hook, ToTree(f, Dumps, v).value);
            r.Some? && Carried(f, v, r.value)
    decreases v
  {
    match v
    case PyInt(_) => TokenLoads(f, v);
    case PyFloat(_) => TokenLoads(f, v);
    case PyNonFinite(_) => TokenLoads(f, v);
    case PyList(items) =>
      forall i | 0 <= i < |items| ensures Loads(f, hook, items[i]) { LoadsWritten(f, hook, items[i]); }
      ItemsLoad(f, hook, v);
    case PyTuple(items) =>
      forall i | 0 <= i < |items| ensures Loads(f, hook, items[i]) { LoadsWritten(f, hook, items[i]); }
      ItemsLoad(f, hook, v);
    case PyDict(entries) =>
      forall i | 0 <= i < |entries|
        ensures FromTree(f, hook, ToTree(f, Dumps, entries[i].value).value).Some?
        ensures Carried(f, entries[i].value, FromTree(f, hook, ToTree(f, Dumps, entries[i].value).value).value)
      {
        LoadsWritten(f, hook, entries[i].value);
      }
      DictLoads(f, hook, v);
    case _ =>
  }

  ghost predicate CarriedEntry(f: Floats, a: PyEntry, b: PyEntry) {
    a.key == b.key && Carried(f, a.value, b.value)
  }

  ghost predicate Arrives(f: Floats, a: PyEntry, bs: seq<PyEntry>) {
    exists j :: 0 <= j < |bs| && CarriedEntry(f, a, bs[j])
  }

  ghost predicate Departed(f: Floats, sent: seq<PyEntry>, b: PyEntry) {
    exists i :: 0 <= i < |sent| && CarriedEntry(f, sent[i], b)
  }

  /** Every entry of a dict arrives and nothing else does. */
  ghost predicate EntriesCarried(f: Floats, v: seq<PyEntry>, w: seq<PyEntry>) {
    && (forall i :: 0 <= i < |v| ==> Arrives(f, v[i], w))
    && (forall j :: 0 <= j < |w| ==> Departed(f, v, w[j]))
    && (forall i, j :: 0 <= i < j < |w| ==> w[i].key != w[j].key)
  }

  lemma DictLoads(f: Floats, hook: bool, v: PyValue)
    requires WellFormed(v) && v.PyDict? && WritableDict(f, Dumps, v)
    requires forall i :: 0 <= i < |v.entries| ==>
               var r := FromTree(f, hook, ToTree(f, Dumps, v.entries[i].value).value);
               r.Some? && Carried(f, v.entries[i].value, r.value)
    ensures var r := FromTree(f, hook, ToTree(f, Dumps, v).value);
            r.Some? && Carried(f, v, r.value)
  {
    var ms := Members(f, Dumps, v);
    var t := JsonText.TObj(Sort(Dumps, ms));
    SortedMembers(f, v);
    assert Loadable(f, hook, t) by {
      forall j | 0 <= j < |t.members| ensures FromTree(f, hook, t.members[j].value).Some? {
        assert t.members[j] in ms;
      }
    }
    EntriesLoad(f, hook, v, t);
    DictCarried(f, v, PyDict(AsEntries(Pairs(f, hook, t))));
    DistinctLoads(f, hook, t);
  }

  lemma DistinctLoads(f: Floats, hook: bool, t: Tree)
    requires t.TObj? && Loadable(f, hook, t) && DistinctKeys(t.members)
    ensures FromTree(f, hook, t) == Some(PyDict(AsEntries(Pairs(f, hook, t))))
  {
    DictOfDistinct(Pairs(f, hook, t));
  }

  lemma SortedMembers(f: Floats, v: PyValue)
    requires WellFormed(v) && v.PyDict? && WritableDict(f, Dumps, v)
    ensures var ms := Members(f, Dumps, v);
            && DistinctKeys(Sort(Dumps, ms))
            && (forall x :: x in Sort(Dumps, ms) <==> x in ms)
  {
    var ms := Members(f, Dumps, v);
    var sm := Sort(Dumps, ms);
    MembersDistinct(f, Dumps, v);
    SortMembers(Dumps, ms);
    SortSorted(Dumps, ms);
    forall x ensures x in sm <==> x in ms {
      assert x in sm <==> x in multiset(sm);
      assert x in ms <==> x in multiset(ms);
    }
    forall i, j | 0 <= i < j < |sm| ensures sm[i].key != sm[j].key {
      StrictTotalOrder(Dumps, sm[i].key, sm[i].key, sm[j].key);
    }
  }

  lemma EntriesLoad(f: Floats, hook: bool, v: PyValue, t: Tree)
    requires v.PyDict? && WritableDict(f, Dumps, v)
    requires forall i :: 0 <= i < |v.entries| ==>
               var r := FromTree(f, hook, ToTree(f, Dumps, v.entries[i].value).value);
               r.Some? && Carried(f, v.entries[i].value, r.value)
    requires t.TObj? && Loadable(f, hook, t) && DistinctKeys(t.members)
    requires forall x :: x in t.members <==> x in Members(f, Dumps, v)
    ensures EntriesCarried(f, v.entries, AsEntries(Pairs(f, hook, t)))
  {
    var ms, w := Members(f, Dumps, v), AsEntries(Pairs(f, hook, t));
    forall j | 0 <= j < |w| ensures Departed(f, v.entries, w[j]) {
      assert t.members[j] in ms;
      var i :| 0 <= i < |ms| && ms[i] == t.members[j];
      assert CarriedEntry(f, v.entries[i], w[j]);
    }
    forall i | 0 <= i < |v.entries| ensures Arrives(f, v.entries[i], w) {
      assert ms[i] in t.members;
      var j :| 0 <= j < |t.members| && t.members[j] == ms[i];
      assert CarriedEntry(f, v.entries[i], w[j]);
    }
  }

  lemma EntryMeets(f: Floats, v: seq<PyEntry>, w: seq<PyEntry>, i: int, j: int)
    requires EntriesCarried(f, v, w)
    requires 0 <= i < |v| && 0 <= j < |w| && v[i].key == w[j].key
    ensures CarriedEntry(f, v[i], w[j])
  {
    assert Arrives(f, v[i], w);
    var k :| 0 <= k < |w| && CarriedEntry(f, v[i], w[k]);
  }

  lemma KeysCarried(f: Floats, v: seq<PyEntry>, w: seq<PyEntry>)
    requires EntriesCarried(f, v, w)
    ensures forall k :: HasKey(v, k) <==> HasKey(w, k)
  {
    forall k | HasKey(v, k) ensures HasKey(w, k) {
      var i :| 0 <= i < |v| && v[i].key == k;
      assert Arrives(f, v[i], w);
    }
    forall k | HasKey(w, k) ensures HasKey(v, k) {
      var j :| 0 <= j < |w| && w[j].key == k;
      assert Departed(f, v, w[j]);
    }
  }

  lemma WritableCarried(f: Floats, v: PyValue, w: PyValue)
    requires v.PyDict? && WritableDict(f, Dumps, v) && w.PyDict?
    requires EntriesCarried(f, v.entries, w.entries)
    ensures WellFormed(w) && ToTree(f, Dumps, w).Some?
    ensures Validate(v) ==> Validate(w)
  {
    forall j | 0 <= j < |w.entries|
      ensures w.entries[j].key.PyStr? && ToTree(f, Dumps, w.entries[j].value).Some? && WellFormed(w.entries[j].value)
      ensures Validate(v) ==> Validate(w.entries[j].value)
    {
      assert Departed(f, v.entries, w.entries[j]);
    }
  }

  lemma ValidateCarried(f: Floats, v: PyValue, w: PyValue)
    requires v.PyDict? && WritableDict(f, Dumps, v) && w.PyDict?
    requires EntriesCarried(f, v.entries, w.entries)
    ensures Validate(w) ==> Validate(v)
  {
    if Validate(w) {
      forall i | 0 <= i < |v.entries| ensures Validate(v.entries[i].key) && Validate(v.entries[i].value) {
        assert Arrives(f, v.entries[i], w.entries);
      }
    }
  }

  lemma DictCarried(f: Floats, v: PyValue, w: PyValue)
    requires v.PyDict? && WritableDict(f, Dumps, v) && w.PyDict?
    requires EntriesCarried(f, v.entries, w.entries)
    ensures Carried(f, v, w)
  {
    WritableCarried(f, v, w);
    ValidateCarried(f, v, w);
    KeysCarried(f, v.entries, w.entries);
    forall i, j | 0 <= i < |v.entries| && 0 <= j < |w.entries| && v.entries[i].key == w.entries[j].key
      ensures SameJson(Dumps, v.entries[i].value, w.entries[j].value)
    {
      EntryMeets(f, v.entries, w.entries, i, j);
    }
    assert SameDict(Dumps, v, w);
  }

  /** json.loads(json.dumps(v)) is v again as JSON. */
  lemma LoadsDumps(f: Floats, hook: bool, v: PyValue)
    requires FloatsSound(f) && WellFormed(v) && DumpsText(f, v).Ok?
    ensures var r := LoadsText(f, hook, DumpsText(f, v).value);
            r.Ok? && Carried(f, v, r.value)
  {
    TreeWellFormed(f, Dumps, v);
    JsonText.ReadText(Dumps, ToTree(f, Dumps, v).value);
    LoadsWritten(f, hook, v);
  }
}
