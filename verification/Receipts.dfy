/** Signing and verifying Level-1 receipts. The cryptography is a parameter, see Crypto. */
module Receipts {
  import opened Basics
  import opened KeyOrder
  import opened PyValues
  import opened ReceiptFields
  import Canonical
  import Base64

  /** Ed25519 (key derivation, signing, checking), SHA-256 in hexadecimal, HMAC-SHA256 in hexadecimal,
      and the float conversions; nothing is known of them but what a lemma requires. */
  datatype Crypto = Crypto(
    publicKey: Bytes -> Bytes,
    sign: (Bytes, Bytes) -> Bytes,
    check: (Bytes, Bytes, Bytes) -> bool,
    sha256: Bytes -> string,
    hmac: (Bytes, Bytes) -> string,
    floats: Floats)

  /** Section 5.1 of RFC 8032: sizes, and a signature checks under the key that belongs to its seed. */
  ghost predicate Ed25519Correct(c: Crypto) {
    forall seed, msg :: |seed| == 32 ==>
      |c.publicKey(seed)| == 32 && |c.sign(seed, msg)| == 64 && c.check(c.publicKey(seed), msg, c.sign(seed, msg))
  }

  /** Unforgeability: the signatures in circulation check under pk for nothing but the payloads of the
      receipts its holder signed. */
  ghost predicate SignedOnly(c: Crypto, pk: Bytes, circulating: set<Bytes>, log: set<L1Receipt>) {
    forall msg, sig :: sig in circulating && c.check(pk, msg, sig) ==> exists r :: r in log && SigningPayload(c, r) == Ok(msg)
  }

  const RECEIPT_VERSION: string := "1.1"
  const SIGNING_ALGORITHM: string := "Ed25519"

  function Prefix(s: string, n: nat): string { if |s| <= n then s else s[..n] }

  /** The first sixteen hexadecimal digits of the hash of a public key. */
  function Fingerprint(c: Crypto, pk: Bytes): string { Prefix(c.sha256(pk), 16) }

  /** bool(v) in Python; a foreign object counts as true. */
  predicate Truthy(v: PyValue) {
    match v
    case PyNone => false
    case PyBool(b) => b
    case PyInt(n) => n != 0
    case PyFloat(x) => x != 0.0
    case PyNonFinite(_) => true
    case PyStr(s) => s != ""
    case PyList(items) => items != []
    case PyTuple(items) => items != []
    case PyDict(entries) => entries != []
    case PyEnum(_) => true
    case PyOther => true
  }

  function ToDict(r: L1Receipt): PyValue {
    PyDict(seq(|FIELDS|, i requires 0 <= i < |FIELDS| => PyEntry(PyStr(Name(FIELDS[i])), r[FIELDS[i]])))
  }

  /** An enum member at the top of a field is signed as its text. */
  function SignedValue(v: PyValue): PyValue {
    if v.PyEnum? then PyStr(v.text) else v
  }

  /** The i-th field that is signed, in declaration order and without the signature. */
  function SignedField(i: nat): (f: Field)
    requires i < |FIELDS| - 1
    ensures f != Signature
  {
    PositionAt(i);
    PositionAt(i + 1);
    FIELDS[if i < Position(Signature) then i else i + 1]
  }

  function SigningDict(r: L1Receipt): PyValue {
    PyDict(seq(|FIELDS| - 1, i requires 0 <= i < |FIELDS| - 1 =>
      PyEntry(PyStr(Name(SignedField(i))), SignedValue(r[SignedField(i)]))))
  }

  function SigningPayload(c: Crypto, r: L1Receipt): Result<Bytes> {
    Canonical.CanonicalJson(c.floats, SigningDict(r))
  }

  /** The embedded key, if it is Base64 of 32 bytes and a stated fingerprint is its own. */
  function EmbeddedKey(c: Crypto, r: L1Receipt): (k: Option<Bytes>)
    ensures k.Some? ==> |k.value| == 32
  {
    if !r[PublicKey].PyStr? || r[PublicKey].s == "" then None
    else match Base64.Decode(r[PublicKey].s)
      case None => None
      case Some(pk) =>
        if |pk| != 32 then None
        else if Truthy(r[PublicKeyFingerprint]) && r[PublicKeyFingerprint] != PyStr(Fingerprint(c, pk)) then None
        else Some(pk)
  }

  function SignatureOf(r: L1Receipt): Option<Bytes> {
    if r[Signature].PyStr? then Base64.SignatureBytes(r[Signature].s) else None
  }

  predicate VerifyWith(c: Crypto, r: L1Receipt, pk: Bytes) {
    && r[SigningAlgorithm] == PyStr(SIGNING_ALGORITHM)
    && SignatureOf(r).Some?
    && |pk| == 32
    && r[PublicKeyFingerprint] == PyStr(Fingerprint(c, pk))
    && SigningPayload(c, r).Ok?
    && c.check(pk, SigningPayload(c, r).value, SignatureOf(r).value)
  }

  /** verify_signature, with the key the caller supplies or else the embedded one. */
  predicate VerifySignature(c: Crypto, r: L1Receipt, key: Option<Bytes>) {
    if !Truthy(r[Signature]) then false
    else match (if key.Some? then key else EmbeddedKey(c, r))
      case None => false
      case Some(pk) => VerifyWith(c, r, pk)
  }

  /** The key a call checks with: the supplied one, or what a text in the receipt decodes to. */
  ghost predicate KeyUsed(r: L1Receipt, key: Option<Bytes>, pk: Bytes) {
    if key.Some? then pk == key.value
    else exists t :: t != "" && r[PublicKey] == PyStr(t) && Base64.Decode(t) == Some(pk)
  }

  /** The bytes of the signed fields, under this key and this signature. */
  ghost predicate SignedUnder(c: Crypto, r: L1Receipt, pk: Bytes, sig: Bytes, payload: Bytes) {
    && |pk| == 32 && r[SigningAlgorithm] == PyStr("Ed25519")
    && r[PublicKeyFingerprint] == PyStr(Fingerprint(c, pk))
    && sig != [] && r[Signature] == PyStr(Base64.Encode(sig))
    && SigningPayload(c, r) == Ok(payload)
    && c.check(pk, payload, sig)
  }

  /** A receipt verifies exactly when it names Ed25519 and the fingerprint of a key of 32 bytes, carries as its signature
      the one Base64 text of some bytes, and these check for its payload under that key. */
  lemma VerifyExact(c: Crypto, r: L1Receipt, key: Option<Bytes>)
    ensures VerifySignature(c, r, key) <==> exists pk, sig, payload :: KeyUsed(r, key, pk) && SignedUnder(c, r, pk, sig, payload)
  {
    if VerifySignature(c, r, key) {
      var pk := if key.Some? then key.value else EmbeddedKey(c, r).value;
      Base64.SignatureTextExact(r[Signature].s, SignatureOf(r).value);
      assert KeyUsed(r, key, pk) && SignedUnder(c, r, pk, SignatureOf(r).value, SigningPayload(c, r).value);
    }
    if exists pk, sig, payload :: KeyUsed(r, key, pk) && SignedUnder(c, r, pk, sig, payload) {
      var pk, sig, payload :| KeyUsed(r, key, pk) && SignedUnder(c, r, pk, sig, payload);
      EncodedSignature(r, sig);
    }
  }

  /** The receipt as it is signed: algorithm, fingerprint and key filled in, signature still empty. */
  function Prepared(c: Crypto, r: L1Receipt, pk: Bytes): L1Receipt {
    r[SigningAlgorithm := PyStr(SIGNING_ALGORITHM)]
     [PublicKeyFingerprint := PyStr(Fingerprint(c, pk))]
     [PublicKey := PyStr(Base64.Encode(pk))]
     [Signature := PyStr("")]
  }

  /** sign_l1_receipt */
  function Sign(c: Crypto, r: L1Receipt, seed: Bytes): Result<L1Receipt> {
    if |seed| != 32 then Err(ValueError)
    else
      var prepared := Prepared(c, r, c.publicKey(seed));
      var payload :- SigningPayload(c, prepared);
      Ok(prepared[Signature := PyStr(Base64.Encode(c.sign(seed, payload)))])
  }

  // ---------------------------------------------------------------- what a signature covers

  lemma PayloadIgnoresSignature(c: Crypto, r: L1Receipt, v: PyValue)
    ensures SigningPayload(c, r[Signature := v]) == SigningPayload(c, r)
  {
    var s: L1Receipt := r[Signature := v];
    assert SigningDict(s).entries == SigningDict(r).entries;
  }

  lemma SameSigningDict(r: L1Receipt, s: L1Receipt)
    requires forall f: Field :: f != Signature ==> SignedValue(r[f]) == SignedValue(s[f])
    ensures SigningDict(r) == SigningDict(s)
  {
  }

  /** An enum member is signed as its text. */
  lemma EnumSigned(c: Crypto, r: L1Receipt, f: Field, text: string)
    ensures SigningPayload(c, r[f := PyEnum(text)]) == SigningPayload(c, r[f := PyStr(text)])
  {
    SameSigningDict(r[f := PyEnum(text)], r[f := PyStr(text)]);
  }

  ghost predicate FieldsWellFormed(r: L1Receipt) { forall f: Field :: WellFormed(r[f]) }

  /** r and s agree, as JSON values, on the twenty-nine fields other than the signature. */
  ghost predicate SameSigned(r: L1Receipt, s: L1Receipt) {
    forall f: Field :: f != Signature ==> SameJson(Jcs, SignedValue(r[f]), SignedValue(s[f]))
  }

  lemma SignedIndex(f: Field) returns (i: nat)
    requires f != Signature
    ensures i < |FIELDS| - 1 && SignedField(i) == f
  {
    var p := Position(f);
    assert FIELDS[Position(Signature)] == Signature;
    i := if p < Position(Signature) then p else p - 1;
  }

  lemma SignedFieldInjective(i: nat, j: nat)
    requires i < |FIELDS| - 1 && j < |FIELDS| - 1
    ensures SignedField(i) == SignedField(j) <==> i == j
  {
    var p := Position(Signature);
    PositionAt(if i < p then i else i + 1);
    PositionAt(if j < p then j else j + 1);
  }

  lemma SigningDictWellFormed(r: L1Receipt)
    requires FieldsWellFormed(r)
    ensures WellFormed(SigningDict(r))
  {
    var es := SigningDict(r).entries;
    forall i, j | 0 <= i < j < |es| ensures es[i].key != es[j].key {
      SignedFieldInjective(i, j);
      NameInjective(SignedField(i), SignedField(j));
    }
  }

  lemma SigningDictsSame(r: L1Receipt, s: L1Receipt)
    ensures SameJson(Jcs, SigningDict(r), SigningDict(s)) <==> SameSigned(r, s)
  {
    var v, w := SigningDict(r), SigningDict(s);
    forall k ensures HasKey(v.entries, k) <==> HasKey(w.entries, k) {
      forall i | 0 <= i < |v.entries| ensures v.entries[i].key == w.entries[i].key {}
    }
    if SameSigned(r, s) {
      forall i, j | 0 <= i < |v.entries| && 0 <= j < |w.entries| && v.entries[i].key == w.entries[j].key
        ensures SameJson(Jcs, v.entries[i].value, w.entries[j].value)
      {
        NameInjective(SignedField(i), SignedField(j));
      }
      assert SameDict(Jcs, v, w);
    }
    if SameJson(Jcs, v, w) {
      assert SameDict(Jcs, v, w);
      forall f: Field | f != Signature ensures SameJson(Jcs, SignedValue(r[f]), SignedValue(s[f])) {
        var i := SignedIndex(f);
        assert v.entries[i].key == w.entries[i].key;
        assert SameJson(Jcs, v.entries[i].value, w.entries[i].value);
      }
    }
  }

  /** Two receipts are signed as the same bytes exactly when they agree on every signed field. */
  lemma PayloadExact(c: Crypto, r: L1Receipt, s: L1Receipt)
    requires FloatsSound(c.floats) && FieldsWellFormed(r) && FieldsWellFormed(s)
    requires SigningPayload(c, r).Ok? && SigningPayload(c, s).Ok?
    ensures SigningPayload(c, r) == SigningPayload(c, s) <==> SameSigned(r, s)
  {
    SigningDictWellFormed(r);
    SigningDictWellFormed(s);
    Canonical.CanonicalJsonExact(c.floats, SigningDict(r), SigningDict(s));
    SigningDictsSame(r, s);
  }

  ghost predicate InCirculation(r: L1Receipt, circulating: set<Bytes>) {
    SignatureOf(r).Some? ==> SignatureOf(r).value in circulating
  }

  /** If a receipt verifies under pk, the holder of pk signed one with the same twenty-nine fields. */
  lemma TamperEvidence(c: Crypto, r: L1Receipt, pk: Bytes, circulating: set<Bytes>, log: set<L1Receipt>)
    requires FloatsSound(c.floats) && FieldsWellFormed(r)
    requires forall s :: s in log ==> FieldsWellFormed(s)
    requires SignedOnly(c, pk, circulating, log) && InCirculation(r, circulating)
    requires VerifySignature(c, r, Some(pk))
    ensures exists s :: s in log && SameSigned(r, s)
  {
    var msg := SigningPayload(c, r).value;
    assert c.check(pk, msg, SignatureOf(r).value);
    var s :| s in log && SigningPayload(c, s) == Ok(msg);
    PayloadExact(c, r, s);
  }

  /** Verifying receipts with the same signature bytes carry the same signature text. */
  lemma SignatureTextUnique(c: Crypto, r: L1Receipt, s: L1Receipt, k: Option<Bytes>, l: Option<Bytes>)
    requires VerifySignature(c, r, k) && VerifySignature(c, s, l)
    ensures SignatureOf(r) == SignatureOf(s) <==> r[Signature] == s[Signature]
  {
    Base64.SignatureTextExact(r[Signature].s, SignatureOf(r).value);
    Base64.SignatureTextExact(s[Signature].s, SignatureOf(s).value);
  }

  // ---------------------------------------------------------------- signing and verifying

  /** Verifying without a key is having a key embedded and verifying with it. */
  lemma EmbeddedIsExplicit(c: Crypto, r: L1Receipt)
    ensures VerifySignature(c, r, None) <==>
              EmbeddedKey(c, r).Some? && VerifySignature(c, r, EmbeddedKey(c, r))
  {
  }

  lemma SignedShape(c: Crypto, r: L1Receipt, seed: Bytes)
    requires Sign(c, r, seed).Ok?
    ensures var s := Sign(c, r, seed).value;
            var pk := c.publicKey(seed);
            && SigningPayload(c, s).Ok?
            && s[Signature] == PyStr(Base64.Encode(c.sign(seed, SigningPayload(c, s).value)))
            && s[SigningAlgorithm] == PyStr(SIGNING_ALGORITHM)
            && s[PublicKeyFingerprint] == PyStr(Fingerprint(c, pk))
            && s[PublicKey] == PyStr(Base64.Encode(pk))
  {
    var prepared := Prepared(c, r, c.publicKey(seed));
    var payload := SigningPayload(c, prepared).value;
    PayloadIgnoresSignature(c, prepared, PyStr(Base64.Encode(c.sign(seed, payload))));
  }

  lemma EncodedKey(c: Crypto, s: L1Receipt, pk: Bytes)
    requires |pk| == 32
    requires s[PublicKey] == PyStr(Base64.Encode(pk)) && s[PublicKeyFingerprint] == PyStr(Fingerprint(c, pk))
    ensures EmbeddedKey(c, s) == Some(pk)
  {
    Base64.DecodeEncode(pk);
    Base64.EncodeShape(pk);
  }

  lemma EncodedSignature(s: L1Receipt, sig: Bytes)
    requires sig != [] && s[Signature] == PyStr(Base64.Encode(sig))
    ensures SignatureOf(s) == Some(sig) && Truthy(s[Signature])
  {
    Base64.SignatureTextExact(Base64.Encode(sig), sig);
    Base64.EncodeShape(sig);
  }

  lemma CorrectlySigned(c: Crypto, s: L1Receipt, pk: Bytes, sig: Bytes)
    requires |pk| == 32 && SignatureOf(s) == Some(sig) && Truthy(s[Signature])
    requires s[SigningAlgorithm] == PyStr(SIGNING_ALGORITHM)
    requires s[PublicKeyFingerprint] == PyStr(Fingerprint(c, pk))
    requires EmbeddedKey(c, s) == Some(pk)
    requires SigningPayload(c, s).Ok? && c.check(pk, SigningPayload(c, s).value, sig)
    ensures VerifySignature(c, s, None) && VerifySignature(c, s, Some(pk))
  {
  }

  /** A signed receipt verifies under the signer's key, supplied or embedded. */
  lemma SignVerifies(c: Crypto, r: L1Receipt, seed: Bytes)
    requires Ed25519Correct(c) && Sign(c, r, seed).Ok?
    ensures var s := Sign(c, r, seed).value;
            && VerifySignature(c, s, None)
            && VerifySignature(c, s, Some(c.publicKey(seed)))
            && EmbeddedKey(c, s) == Some(c.publicKey(seed))
  {
    SignedShape(c, r, seed);
    ShapeVerifies(c, Sign(c, r, seed).value, seed);
  }

  lemma ShapeVerifies(c: Crypto, s: L1Receipt, seed: Bytes)
    requires Ed25519Correct(c) && |seed| == 32 && SigningPayload(c, s).Ok?
    requires s[Signature] == PyStr(Base64.Encode(c.sign(seed, SigningPayload(c, s).value)))
    requires s[SigningAlgorithm] == PyStr(SIGNING_ALGORITHM)
    requires s[PublicKeyFingerprint] == PyStr(Fingerprint(c, c.publicKey(seed)))
    requires s[PublicKey] == PyStr(Base64.Encode(c.publicKey(seed)))
    ensures VerifySignature(c, s, None) && VerifySignature(c, s, Some(c.publicKey(seed)))
    ensures EmbeddedKey(c, s) == Some(c.publicKey(seed))
  {
    var pk := c.publicKey(seed);
    var sig := c.sign(seed, SigningPayload(c, s).value);
    assert |pk| == 32 && |sig| == 64 && c.check(pk, SigningPayload(c, s).value, sig);
    EncodedKey(c, s, pk);
    EncodedSignature(s, sig);
    CorrectlySigned(c, s, pk, sig);
  }

  predicate SetBySigning(f: Field) {
    f == Signature || f == SigningAlgorithm || f == PublicKeyFingerprint || f == PublicKey
  }

  lemma PreparedKeeps(c: Crypto, r: L1Receipt, pk: Bytes, f: Field)
    requires !SetBySigning(f)
    ensures Prepared(c, r, pk)[f] == r[f]
  {
  }

  lemma UpdateKeeps(r: L1Receipt, v: PyValue, f: Field)
    requires f != Signature
    ensures r[Signature := v][f] == r[f]
  {
  }

  /** Signing changes nothing but the four signature fields. */
  lemma SignKeeps(c: Crypto, r: L1Receipt, seed: Bytes, f: Field)
    requires Sign(c, r, seed).Ok? && !SetBySigning(f)
    ensures Sign(c, r, seed).value[f] == r[f]
  {
    var prepared := Prepared(c, r, c.publicKey(seed));
    PreparedKeeps(c, r, c.publicKey(seed), f);
    UpdateKeeps(prepared, PyStr(Base64.Encode(c.sign(seed, SigningPayload(c, prepared).value))), f);
  }

  /** Signing again forgets the first signature altogether. */
  lemma SignAgain(c: Crypto, r: L1Receipt, first: Bytes, second: Bytes)
    requires Sign(c, r, first).Ok?
    ensures Sign(c, Sign(c, r, first).value, second) == Sign(c, r, second)
  {
    var s := Sign(c, r, first).value;
    var pk := c.publicKey(second);
    assert Prepared(c, s, pk) == Prepared(c, r, pk);
  }
}
