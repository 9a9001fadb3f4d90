/** The relying party's decision: a verified receipt is accepted only under a pinned key and in time. */
module Trust {
  import opened Basics
  import opened KeyOrder
  import opened PyValues
  import opened ReceiptFields
  import opened Receipts
  import Base64

  datatype TrustAnchor = TrustAnchor(issuer: string, publicKeyB64: string, fingerprint: string)

  datatype Reason =
    | Fine | SignatureFailed | Expired | NoAnchor | FingerprintMismatch | KeyDecodeFailed | KeyMismatch

  datatype TrustDecision = TrustDecision(verified: bool, accepted: bool, reason: Reason)

  function Refuse(reason: Reason): Result<TrustDecision> { Ok(TrustDecision(true, false, reason)) }

  /** A value Python compares with numbers. A verified receipt holds no NaN and no infinity. */
  function Numeric(v: PyValue): Option<real> {
    match v
    case PyInt(n) => Some(n as real)
    case PyFloat(x) => Some(x)
    case PyBool(b) => Some(if b then 1.0 else 0.0)
    case _ => None
  }

  /** The tolerance a receipt states; anything false counts as none. */
  function Skew(r: L1Receipt): Option<real> {
    if Truthy(r[MaxClockSkew]) then Numeric(r[MaxClockSkew]) else Some(0.0)
  }

  function FirstAnchor(anchors: seq<TrustAnchor>, issuer: PyValue): Option<TrustAnchor> {
    if anchors == [] then None
    else if PyStr(anchors[0].issuer) == issuer then Some(anchors[0])
    else FirstAnchor(anchors[1..], issuer)
  }

  function KeyOf(v: PyValue): Option<Bytes> {
    if v.PyStr? then Base64.Decode(v.s) else None
  }

  function PinCheck(r: L1Receipt, pinned: Option<TrustAnchor>): Result<TrustDecision> {
    match pinned
    case None => Refuse(NoAnchor)
    case Some(a) =>
      if r[PublicKeyFingerprint] != PyStr(a.fingerprint) then Refuse(FingerprintMismatch)
      else match KeyOf(r[PublicKey])
        case None => Refuse(KeyDecodeFailed)
        case Some(embedded) =>
          match Base64.Decode(a.publicKeyB64)
          case None => Err(ValueError)
          case Some(key) => if embedded != key then Refuse(KeyMismatch) else Ok(TrustDecision(true, true, Fine))
  }

  function TimeCheck(r: L1Receipt, now: real): Result<bool> {
    match Numeric(r[ExpiresAt])
    case None => Err(TypeError)
    case Some(expires) =>
      if expires <= 0.0 then Ok(true)
      else match Skew(r)
        case None => Err(TypeError)
        case Some(skew) => Ok(now <= expires + skew)
  }

  /** What evaluate_trust answers, or the exception it raises. */
  function Decide(c: Crypto, r: L1Receipt, anchors: seq<TrustAnchor>, now: real): Result<TrustDecision> {
    if !VerifySignature(c, r, None) then Ok(TrustDecision(false, false, SignatureFailed))
    else
      var inTime :- TimeCheck(r, now);
      if !inTime then Refuse(Expired) else PinCheck(r, FirstAnchor(anchors, r[Issuer]))
  }

  /** The loop of evaluate_trust: it stops at the first anchor of the issuer. */
  method FindAnchor(anchors: seq<TrustAnchor>, issuer: PyValue) returns (pinned: Option<TrustAnchor>)
    ensures pinned == FirstAnchor(anchors, issuer)
  {
    pinned := None;
    var i := 0;
    while i < |anchors|
      invariant 0 <= i <= |anchors|
      invariant pinned == None && FirstAnchor(anchors, issuer) == FirstAnchor(anchors[i..], issuer)
    {
      if PyStr(anchors[i].issuer) == issuer {
        pinned := Some(anchors[i]);
        break;
      }
      i := i + 1;
    }
  }

  // ---------------------------------------------------------------- what a decision says

  /** Anchor i is the first one of the issuer. */
  ghost predicate FirstAt(anchors: seq<TrustAnchor>, issuer: PyValue, i: nat) {
    && i < |anchors| && PyStr(anchors[i].issuer) == issuer
    && forall j :: 0 <= j < i ==> PyStr(anchors[j].issuer) != issuer
  }

  /** The seconds by which an expiry may be exceeded; what counts as false is none. */
  predicate Tolerates(r: L1Receipt, s: real) {
    if Truthy(r[MaxClockSkew]) then IsAmount(r[MaxClockSkew], s) else s == 0.0
  }

  /** The expiry is not positive, or now does not exceed it by more than the tolerance. */
  ghost predicate NotExpired(r: L1Receipt, now: real) {
    exists e :: IsAmount(r[ExpiresAt], e) && (e <= 0.0 || exists s :: Tolerates(r, s) && now <= e + s)
  }

  ghost predicate IsExpired(r: L1Receipt, now: real) {
    exists e, s :: IsAmount(r[ExpiresAt], e) && e > 0.0 && Tolerates(r, s) && now > e + s
  }

  /** The comparison raises: the expiry is no number, or it is positive and the tolerance is none. */
  ghost predicate Incomparable(r: L1Receipt) {
    (forall e :: !IsAmount(r[ExpiresAt], e)) || (exists e :: IsAmount(r[ExpiresAt], e) && e > 0.0 && forall s :: !Tolerates(r, s))
  }

  /** The first anchor of the issuer carries the fingerprint of the receipt. */
  ghost predicate PinsPrint(r: L1Receipt, anchors: seq<TrustAnchor>, i: nat) {
    FirstAt(anchors, r[Issuer], i) && r[PublicKeyFingerprint] == PyStr(anchors[i].fingerprint)
  }

  /** The condition under which a decision names each reason. */
  ghost predicate Because(c: Crypto, r: L1Receipt, anchors: seq<TrustAnchor>, now: real, reason: Reason) {
    match reason
    case SignatureFailed => !VerifySignature(c, r, None)
    case Expired => VerifySignature(c, r, None) && IsExpired(r, now)
    case NoAnchor =>
      VerifySignature(c, r, None) && NotExpired(r, now) && forall i :: 0 <= i < |anchors| ==> PyStr(anchors[i].issuer) != r[Issuer]
    case FingerprintMismatch =>
      VerifySignature(c, r, None) && NotExpired(r, now)
      && exists i: nat :: FirstAt(anchors, r[Issuer], i) && r[PublicKeyFingerprint] != PyStr(anchors[i].fingerprint)
    case KeyDecodeFailed => false
    case KeyMismatch =>
      VerifySignature(c, r, None) && NotExpired(r, now)
      && exists i: nat, key :: PinsPrint(r, anchors, i) && Base64.Decode(anchors[i].publicKeyB64) == Some(key) && !KeyUsed(r, None, key)
    case Fine =>
      VerifySignature(c, r, None) && NotExpired(r, now)
      && exists i: nat, key :: PinsPrint(r, anchors, i) && Base64.Decode(anchors[i].publicKeyB64) == Some(key) && KeyUsed(r, None, key)
  }

  /** The two flags and the reason of a decision, or the exception: a TypeError when the times cannot be compared, a
      ValueError when the pinned key is no Base64. */
  ghost predicate Judges(c: Crypto, r: L1Receipt, anchors: seq<TrustAnchor>, now: real, d: Result<TrustDecision>) {
    match d
    case Ok(decision) =>
      && (decision.verified <==> VerifySignature(c, r, None))
      && (decision.accepted <==> decision.reason == Fine)
      && Because(c, r, anchors, now, decision.reason)
    case Err(TypeError) => VerifySignature(c, r, None) && Incomparable(r)
    case Err(ValueError) =>
      VerifySignature(c, r, None) && NotExpired(r, now)
      && exists i: nat :: PinsPrint(r, anchors, i) && Base64.Decode(anchors[i].publicKeyB64).None?
    case Err(_) => false
  }

  lemma NumericAmount(v: PyValue, x: real)
    ensures IsAmount(v, x) <==> Numeric(v) == Some(x)
  {
  }

  lemma SkewTolerates(r: L1Receipt, s: real)
    ensures Tolerates(r, s) <==> Skew(r) == Some(s)
  {
  }

  lemma TimesJudged(r: L1Receipt, now: real)
    ensures NotExpired(r, now) <==> TimeCheck(r, now) == Ok(true)
    ensures IsExpired(r, now) <==> TimeCheck(r, now) == Ok(false)
    ensures Incomparable(r) <==> TimeCheck(r, now) == Err(TypeError)
  {
    forall x ensures IsAmount(r[ExpiresAt], x) <==> Numeric(r[ExpiresAt]) == Some(x) { NumericAmount(r[ExpiresAt], x); }
    forall s ensures Tolerates(r, s) <==> Skew(r) == Some(s) { SkewTolerates(r, s); }
    var e, s := Numeric(r[ExpiresAt]), Skew(r);
    if e.Some? {
      assert IsAmount(r[ExpiresAt], e.value);
      if s.Some? { assert Tolerates(r, s.value); }
    }
  }

  lemma {:induction false} FirstAnchorAt(anchors: seq<TrustAnchor>, issuer: PyValue, i: nat)
    ensures FirstAt(anchors, issuer, i) ==> FirstAnchor(anchors, issuer) == Some(anchors[i])
    decreases i
  {
    if FirstAt(anchors, issuer, i) && i > 0 {
      assert FirstAt(anchors[1..], issuer, i - 1);
      FirstAnchorAt(anchors[1..], issuer, i - 1);
    }
  }

  /** The place of the anchor the search finds, or none of the issuer at all. */
  lemma {:induction false} AnchorPlace(anchors: seq<TrustAnchor>, issuer: PyValue) returns (i: nat)
    ensures FirstAnchor(anchors, issuer).Some? ==> FirstAt(anchors, issuer, i)
    ensures FirstAnchor(anchors, issuer).None? <==> forall j :: 0 <= j < |anchors| ==> PyStr(anchors[j].issuer) != issuer
  {
    i := 0;
    if anchors != [] && PyStr(anchors[0].issuer) != issuer {
      var k := AnchorPlace(anchors[1..], issuer);
      i := k + 1;
      assert forall j :: 0 < j < |anchors| ==> anchors[j] == anchors[1..][j - 1];
    }
  }

  /** A verified receipt embeds a key that decodes. */
  lemma EmbeddedDecodes(c: Crypto, r: L1Receipt)
    requires VerifySignature(c, r, None)
    ensures EmbeddedKey(c, r).Some? && KeyOf(r[PublicKey]) == EmbeddedKey(c, r)
    ensures forall key :: KeyUsed(r, None, key) <==> EmbeddedKey(c, r) == Some(key)
  {
  }

  lemma DecideJudges(c: Crypto, r: L1Receipt, anchors: seq<TrustAnchor>, now: real)
    ensures Judges(c, r, anchors, now, Decide(c, r, anchors, now))
  {
    TimesJudged(r, now);
    var i := AnchorPlace(anchors, r[Issuer]);
    if VerifySignature(c, r, None) && TimeCheck(r, now) == Ok(true) && FirstAnchor(anchors, r[Issuer]).Some? {
      PinnedAt(c, r, anchors, i);
      var a := anchors[i];
      if r[PublicKeyFingerprint] == PyStr(a.fingerprint) {
        assert PinsPrint(r, anchors, i);
        var key := Base64.Decode(a.publicKeyB64);
        assert key.Some? ==> Base64.Decode(anchors[i].publicKeyB64) == Some(key.value);
      }
    }
  }

  /** What the pin check says of the anchor found. */
  lemma PinnedAt(c: Crypto, r: L1Receipt, anchors: seq<TrustAnchor>, i: nat)
    requires VerifySignature(c, r, None) && FirstAt(anchors, r[Issuer], i)
    ensures PinCheck(r, FirstAnchor(anchors, r[Issuer])) ==
            if r[PublicKeyFingerprint] != PyStr(anchors[i].fingerprint) then Ok(TrustDecision(true, false, FingerprintMismatch))
            else var key := Base64.Decode(anchors[i].publicKeyB64);
                 if key.None? then Err(ValueError)
                 else if !KeyUsed(r, None, key.value) then Ok(TrustDecision(true, false, KeyMismatch))
                 else Ok(TrustDecision(true, true, Fine))
  {
    FirstAnchorAt(anchors, r[Issuer], i);
    EmbeddedDecodes(c, r);
  }

  lemma JudgedDecides(c: Crypto, r: L1Receipt, anchors: seq<TrustAnchor>, now: real, d: Result<TrustDecision>)
    requires Judges(c, r, anchors, now, d)
    ensures d == Decide(c, r, anchors, now)
  {
    TimesJudged(r, now);
    var k := AnchorPlace(anchors, r[Issuer]);
    if VerifySignature(c, r, None) {
      forall i: nat | FirstAt(anchors, r[Issuer], i) ensures i == k {
        FirstAnchorAt(anchors, r[Issuer], i);
      }
      if FirstAt(anchors, r[Issuer], k) { PinnedAt(c, r, anchors, k); }
    }
  }

  /** One decision fits: the code's. */
  lemma DecideExact(c: Crypto, r: L1Receipt, anchors: seq<TrustAnchor>, now: real, d: Result<TrustDecision>)
    ensures Judges(c, r, anchors, now, d) <==> d == Decide(c, r, anchors, now)
  {
    DecideJudges(c, r, anchors, now);
    if Judges(c, r, anchors, now, d) { JudgedDecides(c, r, anchors, now, d); }
  }

  method EvaluateTrust(c: Crypto, r: L1Receipt, anchors: seq<TrustAnchor>, now: real)
    returns (d: Result<TrustDecision>)
    ensures Judges(c, r, anchors, now, d)
    ensures d == Decide(c, r, anchors, now)
  {
    DecideExact(c, r, anchors, now, Decide(c, r, anchors, now));
    var verified := VerifySignature(c, r, None);
    if !verified {
      return Ok(TrustDecision(false, false, SignatureFailed));
    }
    var inTime := TimeCheck(r, now);
    if inTime.Err? {
      return Err(inTime.error);
    }
    if !inTime.value {
      return Refuse(Expired);
    }
    var pinned := FindAnchor(anchors, r[Issuer]);
    d := PinCheck(r, pinned);
  }

  predicate Accepts(c: Crypto, r: L1Receipt, anchors: seq<TrustAnchor>, now: real) {
    var d := Decide(c, r, anchors, now);
    d.Ok? && d.value.accepted
  }

  /** The pinned key of the issuer a receipt names. */
  function PinnedKey(r: L1Receipt, anchors: seq<TrustAnchor>): Option<Bytes> {
    match FirstAnchor(anchors, r[Issuer])
    case None => None
    case Some(a) => Base64.Decode(a.publicKeyB64)
  }

  /** A receipt is accepted exactly when it verifies under the pinned key of its issuer, embeds that
      key, carries the pinned fingerprint, and its time has not run out. */
  lemma AcceptsExact(c: Crypto, r: L1Receipt, anchors: seq<TrustAnchor>, now: real)
    ensures Accepts(c, r, anchors, now) <==>
            && PinnedKey(r, anchors).Some?
            && VerifySignature(c, r, PinnedKey(r, anchors))
            && EmbeddedKey(c, r) == PinnedKey(r, anchors)
            && r[PublicKeyFingerprint] == PyStr(FirstAnchor(anchors, r[Issuer]).value.fingerprint)
            && TimeCheck(r, now) == Ok(true)
  {
    if VerifySignature(c, r, None) { EmbeddedIsExplicit(c, r); }
  }

  /** Of an accepted receipt every signed field is one the pinned key's holder signed together. */
  lemma AcceptedIsAuthentic(c: Crypto, r: L1Receipt, anchors: seq<TrustAnchor>, now: real,
                            circulating: set<Bytes>, log: set<L1Receipt>)
    requires FloatsSound(c.floats) && FieldsWellFormed(r)
    requires forall s :: s in log ==> FieldsWellFormed(s)
    requires Accepts(c, r, anchors, now)
    requires InCirculation(r, circulating)
    requires PinnedKey(r, anchors).Some? ==> SignedOnly(c, PinnedKey(r, anchors).value, circulating, log)
    ensures exists s :: s in log && SameSigned(r, s)
  {
    AcceptsExact(c, r, anchors, now);
    TamperEvidence(c, r, PinnedKey(r, anchors).value, circulating, log);
  }

  /** Time only runs out: accepted later is accepted earlier. */
  lemma AcceptanceAntitone(c: Crypto, r: L1Receipt, anchors: seq<TrustAnchor>, earlier: real, later: real)
    requires earlier <= later && Accepts(c, r, anchors, later)
    ensures Accepts(c, r, anchors, earlier)
  {
    AcceptsExact(c, r, anchors, later);
    AcceptsExact(c, r, anchors, earlier);
  }

  /** The anchors of one issuer, in their order. */
  function Of(anchors: seq<TrustAnchor>, issuer: PyValue): seq<TrustAnchor> {
    if anchors == [] then []
    else (if PyStr(anchors[0].issuer) == issuer then [anchors[0]] else []) + Of(anchors[1..], issuer)
  }

  lemma {:induction false} FirstOfIssuer(anchors: seq<TrustAnchor>, issuer: PyValue)
    ensures FirstAnchor(anchors, issuer) ==
            if Of(anchors, issuer) == [] then None else Some(Of(anchors, issuer)[0])
  {
    if anchors != [] { FirstOfIssuer(anchors[1..], issuer); }
  }

  /** Two anchor lists that begin alike for the receipt's issuer decide alike: anchors of other issuers may
      be added, removed or moved about, and later anchors of the same issuer never count. */
  lemma OnlyFirstAnchorCounts(c: Crypto, r: L1Receipt, anchors: seq<TrustAnchor>, others: seq<TrustAnchor>, now: real)
    requires var a, b := Of(anchors, r[Issuer]), Of(others, r[Issuer]);
             (a == [] <==> b == []) && (a != [] ==> a[0] == b[0])
    ensures Decide(c, r, anchors, now) == Decide(c, r, others, now)
  {
    FirstOfIssuer(anchors, r[Issuer]);
    FirstOfIssuer(others, r[Issuer]);
  }
}
