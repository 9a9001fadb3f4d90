/** Receipts out of dicts and JSON text: legacy names, validation and the way back from to_dict. */
module FromDict {
  import opened Basics
  import opened KeyOrder
  import opened PyValues
  import opened ReceiptFields
  import opened Receipts
  import Base64
  import Canonical
  import Loading

  type Table = map<string, PyValue>

  const MAX_FIELD_LEN: nat := 4096

  /** The old name of a field, for the three fields that were renamed. */
  function LegacyName(f: Field): Option<string> {
    match f
    case IssuedAt => Some("issuance_bound")
    case ExpiresAt => Some("expiry_bound")
    case MaxClockSkew => Some("clock_skew_bound")
    case _ => None
  }

  /** The renamed fields in the order in which from_dict looks for them. */
  const RENAMED: seq<Field> := [IssuedAt, ExpiresAt, MaxClockSkew]

  function Old(f: Field): string
    requires f in RENAMED
  { LegacyName(f).value }

  lemma LegacyShape(f: Field)
    requires f in RENAMED
    ensures Old(f) != "" && Shape(Old(f)) == match f
      case IssuedAt => (14, 'i', 'd')
      case ExpiresAt => (12, 'e', 'd')
      case _ => (16, 'c', 'd')
  {
  }

  lemma LegacyNames(f: Field, g: Field)
    requires f in RENAMED
    ensures Old(f) != Name(g)
  {
    LegacyShape(f);
    ShapeOfName(g);
  }

  lemma LegacyDistinct(f: Field, g: Field)
    requires f in RENAMED && g in RENAMED
    ensures Old(f) == Old(g) <==> f == g
  {
    LegacyShape(f);
    LegacyShape(g);
  }

  /** One old name moved to the new one; a new name already there wins. */
  ghost function MoveOne(t: Table, f: Field): Table
    requires f in RENAMED
  {
    if Old(f) !in t then t
    else (if Name(f) in t then t else t[Name(f) := t[Old(f)]]) - {Old(f)}
  }

  /** The dict after the first n renamings. */
  ghost function Moved(data: Table, n: nat): Table
    requires n <= |RENAMED|
  {
    if n == 0 then data else MoveOne(Moved(data, n - 1), RENAMED[n - 1])
  }

  ghost function Remapped(data: Table): Table { Moved(data, |RENAMED|) }

  method Remap(data: Table) returns (remapped: Table)
    ensures remapped == Remapped(data)
  {
    remapped := data;
    var i := 0;
    while i < |RENAMED|
      invariant 0 <= i <= |RENAMED|
      invariant remapped == Moved(data, i)
    {
      var f := RENAMED[i];
      if Old(f) in remapped {
        if Name(f) !in remapped {
          remapped := remapped[Name(f) := remapped[Old(f)]];
        }
        remapped := remapped - {Old(f)};
      }
      i := i + 1;
    }
  }

  ghost predicate IsFieldName(k: string) { exists f: Field :: Name(f) == k }

  ghost predicate IsLegacyName(k: string) { exists f :: f in RENAMED && Old(f) == k }

  ghost function Lookup(t: Table, k: string): Option<PyValue> {
    if k in t then Some(t[k]) else None
  }

  /** What the dict states for a field, under its name or else under its old one. */
  ghost function Given(data: Table, f: Field): Option<PyValue> {
    if Name(f) in data then Some(data[Name(f)])
    else if f in RENAMED then Lookup(data, Old(f))
    else None
  }

  lemma MoveOneSpec(t: Table, f: Field, k: string)
    requires f in RENAMED
    ensures Lookup(MoveOne(t, f), k) ==
            if k == Old(f) then None
            else if k == Name(f) then Given(t, f)
            else Lookup(t, k)
  {
    LegacyNames(f, f);
  }

  /** Renaming puts under each name what the dict gives for the field, drops the old names, and keeps the rest. */
  lemma RemappedMeaning(data: Table)
    ensures forall f: Field :: Lookup(Remapped(data), Name(f)) == Given(data, f)
    ensures forall k :: !IsFieldName(k) ==> (k in Remapped(data) <==> k in data && !IsLegacyName(k))
  {
    var t1 := MoveOne(data, IssuedAt);
    var t2 := MoveOne(t1, ExpiresAt);
    var t3 := MoveOne(t2, MaxClockSkew);
    assert Moved(data, 0) == data && Moved(data, 1) == t1 && Moved(data, 2) == t2 && Remapped(data) == t3;
    forall f: Field ensures Lookup(t3, Name(f)) == Given(data, f) {
      RemappedField(data, f);
    }
    forall k | !IsFieldName(k) ensures k in t3 <==> k in data && !IsLegacyName(k) {
      assert k != Name(IssuedAt) && k != Name(ExpiresAt) && k != Name(MaxClockSkew);
      MoveOneSpec(data, IssuedAt, k);
      MoveOneSpec(t1, ExpiresAt, k);
      MoveOneSpec(t2, MaxClockSkew, k);
      assert IsLegacyName(k) <==> k == Old(IssuedAt) || k == Old(ExpiresAt) || k == Old(MaxClockSkew);
    }
  }

  /** No renaming changes what the dict gives for a field. */
  lemma MoveKeepsGiven(t: Table, g: Field, f: Field)
    requires g in RENAMED
    ensures Given(MoveOne(t, g), f) == Given(t, f)
  {
    LegacyNames(g, f);
    NameInjective(f, g);
    MoveOneSpec(t, g, Name(f));
    if f in RENAMED {
      LegacyDistinct(f, g);
      LegacyNames(f, g);
      MoveOneSpec(t, g, Old(f));
    }
  }

  lemma OldGone(data: Table, f: Field)
    requires f in RENAMED
    ensures Old(f) !in MoveOne(MoveOne(MoveOne(data, IssuedAt), ExpiresAt), MaxClockSkew)
  {
    var t1 := MoveOne(data, IssuedAt);
    var t2 := MoveOne(t1, ExpiresAt);
    LegacyNames(f, IssuedAt);
    LegacyNames(f, ExpiresAt);
    LegacyNames(f, MaxClockSkew);
    MoveOneSpec(data, IssuedAt, Old(f));
    MoveOneSpec(t1, ExpiresAt, Old(f));
    MoveOneSpec(t2, MaxClockSkew, Old(f));
  }

  lemma RemappedField(data: Table, f: Field)
    ensures Lookup(MoveOne(MoveOne(MoveOne(data, IssuedAt), ExpiresAt), MaxClockSkew), Name(f)) == Given(data, f)
  {
    var t1 := MoveOne(data, IssuedAt);
    var t2 := MoveOne(t1, ExpiresAt);
    MoveKeepsGiven(data, IssuedAt, f);
    MoveKeepsGiven(t1, ExpiresAt, f);
    MoveKeepsGiven(t2, MaxClockSkew, f);
    if f in RENAMED { OldGone(data, f); }
  }

  // ---------------------------------------------------------------- validation

  type Values = map<Field, PyValue>

  /** What the dict gives, field by field. */
  ghost function GivenAll(data: Table): Values {
    map f: Field | Given(data, f).Some? :: Given(data, f).value
  }

  predicate MustNotBeNone(f: Field) {
    f == TraceId || f == Verdict || f == Signature || f == PublicKeyFingerprint
  }

  predicate MustNotBeEmpty(f: Field) {
    f == Signature || f == PublicKeyFingerprint || f == PublicKey
  }

  /** Base64 of 32 bytes in normal form. */
  predicate CanonicalKey(v: PyValue) {
    && v.PyStr?
    && Base64.Decode(v.s).Some? && |Base64.Decode(v.s).value| == 32
    && Base64.Canonical(v.s) == Ok(v.s)
  }

  predicate SizeOk(f: Field, v: PyValue) {
    if v.PyNone? then !MustNotBeNone(f) else (v.PyStr? ==> |v.s| <= MAX_FIELD_LEN)
  }

  predicate FieldOk(f: Field, v: PyValue) {
    SizeOk(f, v) && (!v.PyNone? && MustNotBeEmpty(f) ==> Truthy(v))
  }

  /** Whether validation passes on the stated values. */
  ghost predicate Acceptable(given: Values, strict: bool) {
    && TraceId in given && given[TraceId].PyStr? && given[TraceId].s != ""
    && (strict && ReceiptVersion in given ==> given[ReceiptVersion] == PyStr(RECEIPT_VERSION))
    && (forall f: Field :: f in given ==> FieldOk(f, given[f]))
    && (Signature in given && PublicKey in given && !given[PublicKey].PyNone? ==> CanonicalKey(given[PublicKey]))
    && (strict && Signature !in given ==> Verdict in given && given[Verdict] != PyStr("allow"))
  }

  /** The receipt that is built: the stated values, and the default where nothing or None is stated. */
  function Assembled(given: Values, dflt: L1Receipt): L1Receipt {
    AllListed();
    map f: Field | f in FIELDS :: if f in given && !given[f].PyNone? then given[f] else dflt[f]
  }

  ghost predicate NamesKnown(data: Table) { forall k :: k in data ==> IsFieldName(k) || IsLegacyName(k) }

  ghost function Outcome(data: Table, strict: bool, dflt: L1Receipt): Result<L1Receipt> {
    if (strict ==> NamesKnown(data)) && Acceptable(GivenAll(data), strict) then Ok(Assembled(GivenAll(data), dflt))
    else Err(ValueError)
  }

  ghost predicate NoRepeats(fields: seq<Field>) { forall i, j :: 0 <= i < j < |fields| ==> fields[i] != fields[j] }

  lemma FieldsNoRepeats()
    ensures NoRepeats(FIELDS)
  {
    forall i, j | 0 <= i < j < |FIELDS| ensures FIELDS[i] != FIELDS[j] {
      PositionAt(i);
      PositionAt(j);
    }
  }

  /** The values left after the walk has passed some fields. */
  ghost function Kept(given: Values, passed: seq<Field>): Values {
    map f: Field | f in given && (f in passed ==> !given[f].PyNone?) :: given[f]
  }

  lemma KeptStep(given: Values, passed: seq<Field>, f: Field)
    requires f !in passed
    ensures Kept(given, passed + [f]) == if f in given && given[f].PyNone? then Kept(given, passed) - {f} else Kept(given, passed)
    ensures f in Kept(given, passed) <==> f in given
  {
  }

  ghost predicate SizesOkIn(given: Values, passed: seq<Field>) { forall f: Field :: f in given && f in passed ==> SizeOk(f, given[f]) }

  /** The stated values that are not None. */
  ghost function Stated(given: Values): Values { map f: Field | f in given && !given[f].PyNone? :: given[f] }

  ghost predicate SizesOk(given: Values) { forall f: Field :: f in given ==> SizeOk(f, given[f]) }

  /** Walks over the fields, dropping None where a default may step in. */
  method DropNones(fields: seq<Field>, given: Values) returns (ok: bool, filtered: Values)
    requires NoRepeats(fields) && forall f: Field :: f in fields
    ensures ok <==> SizesOk(given)
    ensures ok ==> filtered == Stated(given)
  {
    filtered, ok := given, true;
    var n := 0;
    while n < |fields|
      invariant 0 <= n <= |fields|
      invariant filtered == Kept(given, fields[..n])
      invariant SizesOkIn(given, fields[..n])
    {
      var f := fields[n];
      assert fields[..n + 1] == fields[..n] + [f];
      KeptStep(given, fields[..n], f);
      if f in filtered {
        if !SizeOk(f, filtered[f]) {
          return false, filtered;
        }
        if filtered[f].PyNone? {
          filtered := filtered - {f};
        }
      }
      n := n + 1;
    }
    assert fields[..n] == fields;
  }

  /** The checks before the walk. */
  predicate HeadOk(given: Values, strict: bool) {
    && (strict && ReceiptVersion in given ==> given[ReceiptVersion] == PyStr(RECEIPT_VERSION))
    && TraceId in given && given[TraceId].PyStr? && given[TraceId].s != ""
  }

  /** The checks after it. */
  predicate StatedOk(stated: Values, strict: bool) {
    && (Signature in stated ==> Truthy(stated[Signature]))
    && (PublicKeyFingerprint in stated ==> Truthy(stated[PublicKeyFingerprint]))
    && (PublicKey in stated ==> Truthy(stated[PublicKey]))
    && (Signature in stated && PublicKey in stated ==> CanonicalKey(stated[PublicKey]))
    && (strict && Signature !in stated ==> Verdict in stated && stated[Verdict] != PyStr("allow"))
  }

  lemma FieldsExact(given: Values)
    requires SizesOk(given)
    ensures (forall f: Field :: f in given ==> FieldOk(f, given[f])) <==>
              (forall f: Field :: f in Stated(given) && MustNotBeEmpty(f) ==> Truthy(Stated(given)[f]))
  {
    if forall f: Field :: f in Stated(given) && MustNotBeEmpty(f) ==> Truthy(Stated(given)[f]) {
      forall f: Field | f in given ensures FieldOk(f, given[f]) {
        assert SizeOk(f, given[f]);
        assert f in Stated(given) <==> !given[f].PyNone?;
      }
    } else {
      var f: Field :| f in Stated(given) && MustNotBeEmpty(f) && !Truthy(Stated(given)[f]);
      assert !FieldOk(f, given[f]);
    }
  }

  lemma StatedExact(given: Values, strict: bool)
    requires SizesOk(given)
    ensures StatedOk(Stated(given), strict) <==>
              && (forall f: Field :: f in Stated(given) && MustNotBeEmpty(f) ==> Truthy(Stated(given)[f]))
              && (Signature in given && PublicKey in given && !given[PublicKey].PyNone? ==> CanonicalKey(given[PublicKey]))
              && (strict && Signature !in given ==> Verdict in given && given[Verdict] != PyStr("allow"))
  {
    assert Signature in given ==> SizeOk(Signature, given[Signature]);
    assert Verdict in given ==> SizeOk(Verdict, given[Verdict]);
  }

  lemma AcceptableExact(given: Values, strict: bool)
    ensures Acceptable(given, strict) <==> HeadOk(given, strict) && SizesOk(given) && StatedOk(Stated(given), strict)
  {
    if SizesOk(given) {
      FieldsExact(given);
      StatedExact(given, strict);
    } else {
      var f: Field :| f in given && !SizeOk(f, given[f]);
      assert !FieldOk(f, given[f]);
    }
  }

  lemma AssembledStated(given: Values, dflt: L1Receipt)
    ensures Assembled(Stated(given), dflt) == Assembled(given, dflt)
  {
    assert forall f: Field :: f in Stated(given) <==> f in given && !given[f].PyNone?;
  }

  /** The checks on the stated values and the construction of the receipt. */
  method Build(given: Values, strict: bool, dflt: L1Receipt) returns (r: Result<L1Receipt>)
    ensures r == if HeadOk(given, strict) && SizesOk(given) && StatedOk(Stated(given), strict)
                 then Ok(Assembled(given, dflt)) else Err(ValueError)
  {
    if strict && ReceiptVersion in given && given[ReceiptVersion] != PyStr(RECEIPT_VERSION) {
      return Err(ValueError);
    }
    if TraceId !in given || !given[TraceId].PyStr? || given[TraceId].s == "" {
      return Err(ValueError);
    }
    AllListed();
    FieldsNoRepeats();
    var ok, filtered := DropNones(FIELDS, given);
    if !ok {
      return Err(ValueError);
    }
    if Signature in filtered && !Truthy(filtered[Signature]) {
      return Err(ValueError);
    }
    if PublicKeyFingerprint in filtered && !Truthy(filtered[PublicKeyFingerprint]) {
      return Err(ValueError);
    }
    if PublicKey in filtered && !Truthy(filtered[PublicKey]) {
      return Err(ValueError);
    }
    if Signature in filtered && PublicKey in filtered && !CanonicalKey(filtered[PublicKey]) {
      return Err(ValueError);
    }
    if strict && Signature !in filtered && (Verdict !in filtered || filtered[Verdict] == PyStr("allow")) {
      return Err(ValueError);
    }
    AssembledStated(given, dflt);
    r := Ok(Assembled(filtered, dflt));
  }

  // ---------------------------------------------------------------- what is refused, and what is read

  /** The dict gives v for a field, under its name or else under its old one. */
  ghost predicate Gives(data: Table, f: Field, v: PyValue) {
    if Name(f) in data then data[Name(f)] == v
    else
      || (f == IssuedAt && "issuance_bound" in data && data["issuance_bound"] == v)
      || (f == ExpiresAt && "expiry_bound" in data && data["expiry_bound"] == v)
      || (f == MaxClockSkew && "clock_skew_bound" in data && data["clock_skew_bound"] == v)
  }

  ghost predicate GivesNothing(data: Table, f: Field) { forall v :: !Gives(data, f, v) }

  lemma OldNames()
    ensures Old(IssuedAt) == "issuance_bound" && Old(ExpiresAt) == "expiry_bound" && Old(MaxClockSkew) == "clock_skew_bound"
    ensures forall f: Field :: f in RENAMED <==> f == IssuedAt || f == ExpiresAt || f == MaxClockSkew
  {
  }

  /** Under one of three names. */
  lemma GivesOld(data: Table, f: Field, v: PyValue)
    requires Name(f) !in data && f in RENAMED
    ensures Gives(data, f, v) <==> Lookup(data, Old(f)) == Some(v)
  {
    OldNames();
  }

  lemma GivesOne(data: Table, f: Field, v: PyValue)
    ensures Gives(data, f, v) <==> Given(data, f) == Some(v)
  {
    OldNames();
    if Name(f) !in data && f in RENAMED { GivesOld(data, f, v); }
  }

  lemma GivesExact(data: Table, f: Field)
    ensures forall v :: Gives(data, f, v) <==> Given(data, f) == Some(v)
    ensures GivesNothing(data, f) <==> Given(data, f) == None
  {
    forall v ensures Gives(data, f, v) <==> Given(data, f) == Some(v) { GivesOne(data, f, v); }
    if Given(data, f).Some? { assert Gives(data, f, Given(data, f).value); }
  }

  /** Base64 of a 32-byte key, as an encoder writes it. */
  ghost predicate EncodesKey(v: PyValue) { exists pk: Bytes :: |pk| == 32 && v == PyStr(Base64.Encode(pk)) }

  /** A field's value that no call takes: text over 4096 characters, None where it is not allowed, or a signature, a
      fingerprint or a key that is empty. */
  predicate Bad(f: Field, v: PyValue) {
    || (v.PyStr? && |v.s| > 4096)
    || (v == PyNone && (f == Verdict || f == Signature || f == PublicKeyFingerprint))
    || (v != PyNone && !Truthy(v) && (f == Signature || f == PublicKeyFingerprint || f == PublicKey))
  }

  /** The refusals of every call: no text as trace id, a bad value, a signature beside a key that is no encoded key. */
  ghost predicate Malformed(data: Table) {
    || !(exists id :: Gives(data, TraceId, PyStr(id)) && id != "")
    || (exists f: Field, v :: Gives(data, f, v) && Bad(f, v))
    || (exists s, k :: Gives(data, Signature, s) && Gives(data, PublicKey, k) && k != PyNone && !EncodesKey(k))
  }

  /** The refusals of a strict call: a name that is neither a field's nor an old one, another version, an unsigned
      receipt that says "allow" or leaves the verdict to the default. */
  ghost predicate NotStrict(data: Table) {
    || (exists k :: k in data && (forall f: Field :: Name(f) != k)
                    && k != "issuance_bound" && k != "expiry_bound" && k != "clock_skew_bound")
    || (exists v :: Gives(data, ReceiptVersion, v) && v != PyStr("1.1"))
    || (GivesNothing(data, Signature) && (GivesNothing(data, Verdict) || Gives(data, Verdict, PyStr("allow"))))
  }

  /** A ValueError for what is refused, and otherwise a receipt with what the dict gives in each field, or with the
      default where it gives nothing or None. */
  ghost predicate Reads(data: Table, strict: bool, dflt: L1Receipt, r: Result<L1Receipt>) {
    if Malformed(data) || (strict && NotStrict(data)) then r == Err(ValueError)
    else
      && r.Ok?
      && forall f: Field :: if GivesNothing(data, f) || Gives(data, f, PyNone) then r.value[f] == dflt[f] else Gives(data, f, r.value[f])
  }

  lemma KeyEncoded(v: PyValue)
    ensures CanonicalKey(v) <==> EncodesKey(v)
  {
    if CanonicalKey(v) { assert v == PyStr(Base64.Encode(Base64.Decode(v.s).value)); }
    if EncodesKey(v) {
      var pk: Bytes :| |pk| == 32 && v == PyStr(Base64.Encode(pk));
      Base64.DecodeEncode(pk);
    }
  }

  lemma NamesNotKnown(data: Table)
    ensures NamesKnown(data) <==>
              forall k :: k in data && (forall f: Field :: Name(f) != k) ==>
                k == "issuance_bound" || k == "expiry_bound" || k == "clock_skew_bound"
  {
    OldNames();
    forall k ensures IsLegacyName(k) <==> k == "issuance_bound" || k == "expiry_bound" || k == "clock_skew_bound" {
      assert IssuedAt in RENAMED && ExpiresAt in RENAMED && MaxClockSkew in RENAMED;
    }
  }

  lemma GivesGiven(data: Table, f: Field, v: PyValue)
    ensures Gives(data, f, v) <==> f in GivenAll(data) && GivenAll(data)[f] == v
    ensures GivesNothing(data, f) <==> f !in GivenAll(data)
  {
    GivesExact(data, f);
  }

  lemma BadField(f: Field, v: PyValue)
    ensures f != TraceId || v.PyStr? ==> (FieldOk(f, v) <==> !Bad(f, v))
  {
  }

  lemma TraceGiven(data: Table)
    ensures var given := GivenAll(data);
            (exists id :: Gives(data, TraceId, PyStr(id)) && id != "") <==>
              TraceId in given && given[TraceId].PyStr? && given[TraceId].s != ""
  {
    var given := GivenAll(data);
    GivesExact(data, TraceId);
    if TraceId in given && given[TraceId].PyStr? { assert Gives(data, TraceId, PyStr(given[TraceId].s)); }
  }

  lemma FieldsGiven(data: Table)
    requires exists id :: Gives(data, TraceId, PyStr(id)) && id != ""
    ensures var given := GivenAll(data);
            (exists f: Field, v :: Gives(data, f, v) && Bad(f, v)) <==> !(forall f: Field :: f in given ==> FieldOk(f, given[f]))
  {
    var given := GivenAll(data);
    forall f: Field | f in given ensures FieldOk(f, given[f]) <==> !Bad(f, given[f]) {
      GivesGiven(data, f, given[f]);
      BadField(f, given[f]);
    }
    if exists f: Field, v :: Gives(data, f, v) && Bad(f, v) {
      var f: Field, v :| Gives(data, f, v) && Bad(f, v);
      GivesGiven(data, f, v);
    }
    if f: Field :| f in given && !FieldOk(f, given[f]) {
      GivesGiven(data, f, given[f]);
    }
  }

  lemma KeyGiven(data: Table)
    ensures var given := GivenAll(data);
            (exists s, k :: Gives(data, Signature, s) && Gives(data, PublicKey, k) && k != PyNone && !EncodesKey(k)) <==>
              Signature in given && PublicKey in given && !given[PublicKey].PyNone? && !CanonicalKey(given[PublicKey])
  {
    var given := GivenAll(data);
    GivesExact(data, Signature);
    GivesExact(data, PublicKey);
    if PublicKey in given { KeyEncoded(given[PublicKey]); }
    if Signature in given && PublicKey in given {
      assert Gives(data, Signature, given[Signature]) && Gives(data, PublicKey, given[PublicKey]);
    }
  }

  lemma StrictGiven(data: Table)
    ensures var given := GivenAll(data);
            NotStrict(data) <==>
              || !NamesKnown(data)
              || (ReceiptVersion in given && given[ReceiptVersion] != PyStr(RECEIPT_VERSION))
              || (Signature !in given && (Verdict !in given || given[Verdict] == PyStr("allow")))
  {
    var given := GivenAll(data);
    NamesNotKnown(data);
    GivesExact(data, ReceiptVersion);
    GivesExact(data, Signature);
    GivesExact(data, Verdict);
    if ReceiptVersion in given { assert Gives(data, ReceiptVersion, given[ReceiptVersion]); }
  }

  /** Validation refuses exactly this. */
  lemma AcceptableGiven(data: Table, strict: bool)
    ensures (strict ==> NamesKnown(data)) && Acceptable(GivenAll(data), strict) <==> !(Malformed(data) || (strict && NotStrict(data)))
  {
    TraceGiven(data);
    if exists id :: Gives(data, TraceId, PyStr(id)) && id != "" { FieldsGiven(data); }
    KeyGiven(data);
    StrictGiven(data);
  }

  lemma OutcomeReads(data: Table, strict: bool, dflt: L1Receipt)
    ensures Reads(data, strict, dflt, Outcome(data, strict, dflt))
  {
    AcceptableGiven(data, strict);
    forall f: Field ensures GivesNothing(data, f) <==> Given(data, f) == None
                    ensures forall v :: Gives(data, f, v) <==> Given(data, f) == Some(v)
    {
      GivesExact(data, f);
    }
  }

  /** A call that is not strict does not see a name it does not know. */
  lemma UnknownIgnored(data: Table, k: string, v: PyValue, dflt: L1Receipt)
    requires (forall f: Field :: Name(f) != k) && k != "issuance_bound" && k != "expiry_bound" && k != "clock_skew_bound"
    ensures Outcome(data[k := v], false, dflt) == Outcome(data, false, dflt)
  {
    OldNames();
    SameGiven(data, data[k := v], k);
  }

  lemma SameGiven(data: Table, more: Table, k: string)
    requires forall name :: name != k ==> Lookup(data, name) == Lookup(more, name)
    requires (forall f: Field :: Name(f) != k) && forall f :: f in RENAMED ==> Old(f) != k
    ensures GivenAll(data) == GivenAll(more)
  {
    forall f: Field ensures Given(data, f) == Given(more, f) {
      assert Lookup(data, Name(f)) == Lookup(more, Name(f));
      if f in RENAMED { assert Lookup(data, Old(f)) == Lookup(more, Old(f)); }
    }
  }

  /** L1Receipt.from_dict; dflt holds the values a receipt gets for fields nobody states. */
  method FromDict(data: Table, strict: bool, dflt: L1Receipt) returns (r: Result<L1Receipt>)
    ensures Reads(data, strict, dflt, r)
    ensures r == Outcome(data, strict, dflt)
  {
    OutcomeReads(data, strict, dflt);
    var remapped := Remap(data);
    var names := FieldNames();
    UnknownNames(data, names);
    if strict && remapped.Keys - names != {} {
      return Err(ValueError);
    }
    AllListed();
    var given: Values := map f: Field | f in FIELDS && Name(f) in remapped :: remapped[Name(f)];
    GivenByName(data, given);
    AcceptableExact(given, strict);
    r := Build(given, strict, dflt);
  }

  function FieldNames(): (names: set<string>)
    ensures forall k :: k in names <==> IsFieldName(k)
  {
    AllListed();
    set f: Field | f in FIELDS :: Name(f)
  }

  lemma GivenByName(data: Table, given: Values)
    requires forall f: Field :: f in given <==> Name(f) in Remapped(data)
    requires forall f: Field :: f in given ==> given[f] == Remapped(data)[Name(f)]
    ensures given == GivenAll(data)
  {
    RemappedMeaning(data);
    forall f: Field
      ensures f in given <==> f in GivenAll(data)
      ensures f in given ==> given[f] == GivenAll(data)[f]
    {
      assert Lookup(Remapped(data), Name(f)) == Given(data, f);
    }
  }

  lemma UnknownNames(data: Table, names: set<string>)
    requires forall k :: k in names <==> IsFieldName(k)
    ensures Remapped(data).Keys - names == {} <==> NamesKnown(data)
  {
    RemappedMeaning(data);
    var unknown := Remapped(data).Keys - names;
    assert forall k :: k in unknown <==> k in data && !IsFieldName(k) && !IsLegacyName(k);
    assert unknown == {} <==> forall k :: k !in unknown;
  }
}
