/** to_dict, JSON text and back: exactly which receipts come back, and under which names. */
module RoundTrip {
  import opened Basics
  import opened KeyOrder
  import opened PyValues
  import opened ReceiptFields
  import opened Receipts
  import opened FromDict
  import Base64
  import Canonical
  import Loading

  /** A dict with text keys as a table. */
  ghost function TableOf(entries: seq<PyEntry>): Table {
    if entries == [] then map[]
    else
      var rest := TableOf(entries[1..]);
      if entries[0].key.PyStr? then rest[entries[0].key.s := entries[0].value] else rest
  }

  lemma {:induction false} TableLookup(entries: seq<PyEntry>, k: string)
    ensures Lookup(TableOf(entries), k) == Loading.Find(entries, k)
  {
    if entries != [] { TableLookup(entries[1..], k); }
  }

  ghost function Data(r: L1Receipt): Table { TableOf(ToDict(r).entries) }

  /** A table that states exactly the fields of r under their names. */
  ghost predicate States(data: Table, r: L1Receipt) {
    && (forall f: Field :: Lookup(data, Name(f)) == Some(r[f]))
    && (forall k :: k in data ==> IsFieldName(k))
  }

  lemma ToDictWellFormed(r: L1Receipt)
    requires FieldsWellFormed(r)
    ensures WellFormed(ToDict(r))
  {
    var es := ToDict(r).entries;
    forall i, j | 0 <= i < j < |es| ensures es[i].key != es[j].key {
      PositionAt(i);
      PositionAt(j);
      NameInjective(FIELDS[i], FIELDS[j]);
    }
  }

  lemma ToDictGet(r: L1Receipt, f: Field)
    ensures Loading.Get(ToDict(r), Name(f)) == Some(r[f])
  {
    var es := ToDict(r).entries;
    Loading.FindSpec(es, Name(f));
    var p := Position(f);
    assert es[p].key == PyStr(Name(f));
    var i :| 0 <= i < |es| && es[i].key == PyStr(Name(f)) && es[i].value == Loading.Find(es, Name(f)).value;
    NameInjective(FIELDS[i], f);
  }

  lemma ToDictKeys(r: L1Receipt, k: string)
    requires Loading.Find(ToDict(r).entries, k).Some?
    ensures IsFieldName(k)
  {
    var es := ToDict(r).entries;
    Loading.FindSpec(es, k);
    var i :| 0 <= i < |es| && es[i].key == PyStr(k);
    assert Name(FIELDS[i]) == k;
  }

  lemma DataStates(r: L1Receipt)
    ensures States(Data(r), r)
  {
    forall f: Field ensures Lookup(Data(r), Name(f)) == Some(r[f]) {
      TableLookup(ToDict(r).entries, Name(f));
      ToDictGet(r, f);
    }
    forall k | k in Data(r) ensures IsFieldName(k) {
      TableLookup(ToDict(r).entries, k);
      ToDictKeys(r, k);
    }
  }

  // ---------------------------------------------------------------- which receipts come back

  /** No field is None and no text is longer than from_dict takes. */
  ghost predicate WithinLimits(r: L1Receipt) {
    forall f: Field :: !r[f].PyNone? && (r[f].PyStr? ==> |r[f].s| <= MAX_FIELD_LEN)
  }

  /** What a caller can look up on a receipt before writing it out. */
  ghost predicate Survives(r: L1Receipt) {
    && r[TraceId].PyStr? && r[TraceId].s != ""
    && r[ReceiptVersion] == PyStr(RECEIPT_VERSION)
    && WithinLimits(r)
    && Truthy(r[Signature]) && Truthy(r[PublicKeyFingerprint])
    && CanonicalKey(r[PublicKey])
  }

  ghost predicate NoNones(r: L1Receipt) { forall f: Field :: !r[f].PyNone? }

  lemma CanonicalKeyTruthy(v: PyValue)
    requires CanonicalKey(v)
    ensures Truthy(v)
  {
  }

  lemma StatesGiven(data: Table, r: L1Receipt)
    requires States(data, r)
    ensures GivenAll(data) == r && NamesKnown(data)
  {
    forall f: Field ensures Given(data, f) == Some(r[f]) {
      assert Lookup(data, Name(f)) == Some(r[f]);
    }
  }

  lemma SurvivorAcceptable(r: L1Receipt)
    requires Survives(r)
    ensures Acceptable(r, true)
  {
    CanonicalKeyTruthy(r[PublicKey]);
  }

  lemma AssembledSame(r: L1Receipt, dflt: L1Receipt)
    requires NoNones(dflt)
    ensures Assembled(r, dflt) == r <==> NoNones(r)
  {
    var a := Assembled(r, dflt);
    AllListed();
    assert forall f: Field :: a[f] == if r[f].PyNone? then dflt[f] else r[f];
  }

  lemma AcceptableSurvives(r: L1Receipt)
    requires Acceptable(r, true) && NoNones(r)
    ensures Survives(r)
  {
    forall f: Field ensures r[f].PyStr? ==> |r[f].s| <= MAX_FIELD_LEN {
      assert FieldOk(f, r[f]);
    }
    assert FieldOk(Signature, r[Signature]) && FieldOk(PublicKeyFingerprint, r[PublicKeyFingerprint]);
  }

  /** A table that states a receipt gives it back exactly when the receipt survives. */
  lemma StatedComesBack(data: Table, r: L1Receipt, dflt: L1Receipt)
    requires States(data, r) && NoNones(dflt)
    ensures Outcome(data, true, dflt) == Ok(r) <==> Survives(r)
  {
    StatesGiven(data, r);
    AssembledSame(r, dflt);
    if Survives(r) { SurvivorAcceptable(r); }
    if Acceptable(r, true) && NoNones(r) { AcceptableSurvives(r); }
  }

  /** from_dict(to_dict(r)) is r exactly when r survives. */
  lemma DictRoundTrip(r: L1Receipt, dflt: L1Receipt)
    requires NoNones(dflt)
    ensures Outcome(Data(r), true, dflt) == Ok(r) <==> Survives(r)
  {
    DataStates(r);
    StatedComesBack(Data(r), r, dflt);
  }

  // ---------------------------------------------------------------- old names

  function Moved(t: Table, from: string, to: string): Table {
    if from in t then t[to := t[from]] - {from} else t
  }

  /** The dict with a field under its old name instead of its new one. */
  ghost function Aged(t: Table, f: Field): Table
    requires f in RENAMED
  { Moved(t, Name(f), Old(f)) }

  ghost function AgedAll(t: Table, fs: seq<Field>): Table
    requires forall f :: f in fs ==> f in RENAMED
    decreases |fs|
  {
    if fs == [] then t else AgedAll(Aged(t, fs[0]), fs[1..])
  }

  lemma RenamedApart(g: Field, f: Field)
    requires g in RENAMED
    ensures Old(g) != Name(f)
    ensures f in RENAMED && f != g ==> Old(f) != Old(g)
    ensures f != g ==> Name(f) != Name(g)
  {
    NameInjective(f, g);
    LegacyNames(g, f);
    if f in RENAMED { LegacyDistinct(f, g); }
  }

  lemma MovedLookup(t: Table, from: string, to: string, k: string)
    requires from != to
    ensures k != from && k != to ==> Lookup(Moved(t, from, to), k) == Lookup(t, k)
    ensures from !in Moved(t, from, to)
    ensures from in t ==> Lookup(Moved(t, from, to), to) == Lookup(t, from)
  {
  }

  lemma AgedLookup(t: Table, g: Field, f: Field)
    requires g in RENAMED && (Old(g) in t ==> Name(g) !in t)
    ensures f != g ==> Lookup(Aged(t, g), Name(f)) == Lookup(t, Name(f))
    ensures f != g && f in RENAMED ==> Lookup(Aged(t, g), Old(f)) == Lookup(t, Old(f))
    ensures Name(g) !in Aged(t, g)
    ensures Name(g) in t ==> Lookup(Aged(t, g), Old(g)) == Lookup(t, Name(g))
  {
    RenamedApart(g, f);
    RenamedApart(g, g);
    MovedLookup(t, Name(g), Old(g), Name(f));
    if f in RENAMED {
      RenamedApart(f, g);
      MovedLookup(t, Name(g), Old(g), Old(f));
    }
  }

  lemma AgedKeepsGiven(t: Table, g: Field, f: Field)
    requires g in RENAMED && (Old(g) in t ==> Name(g) !in t)
    ensures Given(Aged(t, g), f) == Given(t, f)
    ensures f in RENAMED ==> ((Old(f) in t ==> Name(f) !in t) ==> Old(f) in Aged(t, g) ==> Name(f) !in Aged(t, g))
  {
    AgedLookup(t, g, f);
  }

  lemma AgedKnown(t: Table, g: Field)
    requires g in RENAMED && NamesKnown(t)
    ensures NamesKnown(Aged(t, g))
  {
    forall k | k in Aged(t, g) ensures IsFieldName(k) || IsLegacyName(k) {
      if k !in t { assert k == Old(g); }
    }
  }

  ghost predicate NotBoth(t: Table) { forall f :: f in RENAMED ==> Old(f) in t ==> Name(f) !in t }

  lemma {:induction false} AgedAllSame(t: Table, fs: seq<Field>)
    requires forall f :: f in fs ==> f in RENAMED
    requires NotBoth(t) && NamesKnown(t)
    ensures GivenAll(AgedAll(t, fs)) == GivenAll(t) && NamesKnown(AgedAll(t, fs))
    decreases |fs|
  {
    if fs != [] {
      var u := Aged(t, fs[0]);
      forall f: Field
        ensures Given(u, f) == Given(t, f)
        ensures f in RENAMED ==> Old(f) in u ==> Name(f) !in u
      {
        AgedKeepsGiven(t, fs[0], f);
      }
      AgedKnown(t, fs[0]);
      AgedAllSame(u, fs[1..]);
    }
  }

  lemma StatesNotBoth(data: Table, r: L1Receipt)
    requires States(data, r)
    ensures NotBoth(data)
  {
    forall f | f in RENAMED ensures Old(f) !in data {
      if Old(f) in data {
        var g: Field :| Name(g) == Old(f);
        LegacyNames(f, g);
      }
    }
  }

  /** Whichever of the renamed fields stand under their old names, the outcome is the same receipt or error. */
  lemma OldNamesSame(r: L1Receipt, fs: seq<Field>, strict: bool, dflt: L1Receipt)
    requires forall f :: f in fs ==> f in RENAMED
    ensures Outcome(AgedAll(Data(r), fs), strict, dflt) == Outcome(Data(r), strict, dflt)
  {
    DataStates(r);
    StatesGiven(Data(r), r);
    StatesNotBoth(Data(r), r);
    AgedAllSame(Data(r), fs);
  }

  // ---------------------------------------------------------------- JSON text

  predicate IsScalar(v: PyValue) { v.PyStr? || v.PyInt? || v.PyFloat? || v.PyBool? || v.PyNone? }

  /** from_json: json.loads with the duplicate-key hook, and then from_dict. */
  ghost function FromJson(f: Floats, text: string, strict: bool, dflt: L1Receipt): Result<L1Receipt> {
    match Loading.LoadsText(f, true, text)
    case Err(e) => Err(e)
    case Ok(v) => if v.PyDict? then Outcome(TableOf(v.entries), strict, dflt) else Err(ValueError)
  }

  lemma CarriedStates(f: Floats, r: L1Receipt, w: PyValue)
    requires forall g: Field :: IsScalar(r[g])
    requires SameJson(Dumps, ToDict(r), w)
    ensures w.PyDict? && States(TableOf(w.entries), r)
  {
    var v := ToDict(r);
    forall g: Field ensures Lookup(TableOf(w.entries), Name(g)) == Some(r[g]) {
      ToDictGet(r, g);
      Loading.GetSame(Dumps, v, w, Name(g));
      TableLookup(w.entries, Name(g));
    }
    forall k | k in TableOf(w.entries) ensures IsFieldName(k) {
      TableLookup(w.entries, k);
      Loading.GetSame(Dumps, v, w, k);
      ToDictKeys(r, k);
    }
  }

  /** from_json(json.dumps(to_dict(r))) is r exactly when r survives, for receipts of plain values. */
  lemma JsonRoundTrip(f: Floats, r: L1Receipt, dflt: L1Receipt)
    requires FloatsSound(f) && FieldsWellFormed(r) && NoNones(dflt)
    requires forall g: Field :: IsScalar(r[g])
    ensures var text := Canonical.DumpsText(f, ToDict(r));
            text.Ok? && (FromJson(f, text.value, true, dflt) == Ok(r) <==> Survives(r))
  {
    ToDictWellFormed(r);
    assert Canonical.WritableDict(f, Dumps, ToDict(r));
    var text := Canonical.DumpsText(f, ToDict(r)).value;
    Loading.LoadsDumps(f, true, ToDict(r));
    var w := Loading.LoadsText(f, true, text).value;
    CarriedStates(f, r, w);
    StatedComesBack(TableOf(w.entries), r, dflt);
  }

  // ---------------------------------------------------------------- signed receipts

  /** SHA-256 in hexadecimal has sixty-four digits. */
  ghost predicate HashesSized(c: Crypto) { forall bs :: |c.sha256(bs)| == 64 }

  /** What signing asks of a receipt so that the signed one survives. */
  ghost predicate Portable(r: L1Receipt) {
    && r[TraceId].PyStr? && r[TraceId].s != ""
    && r[ReceiptVersion] == PyStr(RECEIPT_VERSION)
    && WithinLimits(r)
  }

  lemma {:induction false} EncodedLength(bs: Bytes)
    ensures |Base64.Encode(bs)| <= 2 * |bs| + 3
  {
    RegroupedLength(bs);
  }

  lemma {:induction false} RegroupedLength(bs: Bytes)
    ensures |Base64.Regroup(bs)| <= 2 * |bs|
  {
    if |bs| >= 3 { RegroupedLength(bs[3..]); }
  }

  lemma EncodedKeyCanonical(pk: Bytes)
    requires |pk| == 32
    ensures CanonicalKey(PyStr(Base64.Encode(pk)))
  {
    Base64.DecodeEncode(pk);
  }

  lemma SignedSizes(c: Crypto, r: L1Receipt, s: L1Receipt, sig: Bytes, pk: Bytes)
    requires HashesSized(c) && Portable(r) && |pk| == 32 && |sig| == 64
    requires s[Signature] == PyStr(Base64.Encode(sig)) && s[PublicKey] == PyStr(Base64.Encode(pk))
    requires s[PublicKeyFingerprint] == PyStr(Fingerprint(c, pk)) && s[SigningAlgorithm] == PyStr(SIGNING_ALGORITHM)
    requires forall f: Field :: !SetBySigning(f) ==> s[f] == r[f]
    ensures WithinLimits(s)
    ensures Truthy(s[PublicKeyFingerprint])
  {
    EncodedLength(pk);
    EncodedLength(sig);
    assert |Fingerprint(c, pk)| == 16;
  }

  lemma EncodedTruthy(bs: Bytes)
    requires bs != []
    ensures Truthy(PyStr(Base64.Encode(bs)))
  {
    Base64.EncodeShape(bs);
  }

  /** The three texts signing adds pass the checks of from_dict. */
  lemma KeyTextsPass(s: L1Receipt, sig: Bytes, pk: Bytes)
    requires |pk| == 32 && |sig| == 64
    requires s[Signature] == PyStr(Base64.Encode(sig)) && s[PublicKey] == PyStr(Base64.Encode(pk))
    ensures Truthy(s[Signature]) && CanonicalKey(s[PublicKey])
  {
    EncodedKeyCanonical(pk);
    EncodedTruthy(sig);
  }

  lemma NameKept(r: L1Receipt, s: L1Receipt)
    requires Portable(r) && s[TraceId] == r[TraceId] && s[ReceiptVersion] == r[ReceiptVersion]
    ensures s[TraceId].PyStr? && s[TraceId].s != "" && s[ReceiptVersion] == PyStr(RECEIPT_VERSION)
  {
  }

  lemma ShapeSurvives(r: L1Receipt, s: L1Receipt, sig: Bytes, pk: Bytes)
    requires Portable(r) && WithinLimits(s) && |pk| == 32 && |sig| == 64
    requires s[Signature] == PyStr(Base64.Encode(sig)) && s[PublicKey] == PyStr(Base64.Encode(pk))
    requires Truthy(s[PublicKeyFingerprint]) && s[TraceId] == r[TraceId] && s[ReceiptVersion] == r[ReceiptVersion]
    ensures Survives(s)
  {
    KeyTextsPass(s, sig, pk);
    NameKept(r, s);
  }

  lemma SignedSurvives(c: Crypto, r: L1Receipt, seed: Bytes)
    requires Ed25519Correct(c) && HashesSized(c)
    requires Portable(r) && Sign(c, r, seed).Ok?
    ensures Survives(Sign(c, r, seed).value)
  {
    var s := Sign(c, r, seed).value;
    SignedShape(c, r, seed);
    forall f: Field | !SetBySigning(f) ensures s[f] == r[f] {
      SignKeeps(c, r, seed, f);
    }
    SignedFrom(c, r, s, c.sign(seed, SigningPayload(c, s).value), c.publicKey(seed));
  }

  lemma SignedFrom(c: Crypto, r: L1Receipt, s: L1Receipt, sig: Bytes, pk: Bytes)
    requires HashesSized(c) && Portable(r) && |pk| == 32 && |sig| == 64
    requires s[Signature] == PyStr(Base64.Encode(sig)) && s[PublicKey] == PyStr(Base64.Encode(pk))
    requires s[PublicKeyFingerprint] == PyStr(Fingerprint(c, pk)) && s[SigningAlgorithm] == PyStr(SIGNING_ALGORITHM)
    requires forall f: Field :: !SetBySigning(f) ==> s[f] == r[f]
    ensures Survives(s)
  {
    SignedSizes(c, r, s, sig, pk);
    ShapeSurvives(r, s, sig, pk);
  }

  /** A signed receipt comes back from its dict, new names or old, as the same receipt, and still verifies. */
  lemma SignedRoundTrip(c: Crypto, r: L1Receipt, seed: Bytes, fs: seq<Field>, dflt: L1Receipt)
    requires Ed25519Correct(c) && HashesSized(c) && NoNones(dflt)
    requires Portable(r) && Sign(c, r, seed).Ok?
    requires forall f :: f in fs ==> f in RENAMED
    ensures var s := Sign(c, r, seed).value;
            && Outcome(AgedAll(Data(s), fs), true, dflt) == Ok(s)
            && VerifySignature(c, s, None) && VerifySignature(c, s, Some(c.publicKey(seed)))
  {
    var s := Sign(c, r, seed).value;
    SignedSurvives(c, r, seed);
    DictRoundTrip(s, dflt);
    OldNamesSame(s, fs, true, dflt);
    SignVerifies(c, r, seed);
  }
}
