/** From a verify call to the relying party: exactly when the server issues a receipt, and exactly how long
    the receipt is accepted. */
module Issuing {
  import opened Basics
  import opened KeyOrder
  import opened PyValues
  import opened Canonical
  import opened Protocol
  import F = ReceiptFields
  import Receipts
  import Builder
  import FromDict
  import RoundTrip
  import Rules
  import Server
  import Trust
  import Base64

  // ---------------------------------------------------------------- receipts of plain values

  /** Floats can hold the clock readings that go into a receipt. */
  ghost predicate ClockExact(cfg: Server.Config, clk: Server.Clock) {
    && IsDouble(clk.now) && IsDouble(clk.now - cfg.clockSkew) && IsDouble(clk.now + 300.0) && IsDouble(cfg.clockSkew)
    && IsDouble(clk.stamp) && IsDouble(clk.verified) && IsDouble(clk.total)
  }

  ghost predicate Plain(v: PyValue) { v.PyStr? || v.PyInt? || (v.PyFloat? && IsDouble(v.x)) }

  ghost predicate AllPlain(r: F.L1Receipt) { forall f: F.Field :: Plain(r[f]) }

  lemma PlainValue(cfg: Server.Config, n: nat, cmd: Command, scan: Rules.Scan, paramsHash: string,
                   d: Server.Digests, clk: Server.Clock, f: F.Field)
    requires ClockExact(cfg, clk)
    ensures Plain(Server.DraftValue(cfg, n, cmd, scan, paramsHash, d, clk, f))
  {
  }

  lemma DraftPlain(cfg: Server.Config, n: nat, cmd: Command, scan: Rules.Scan, paramsHash: string,
                   digests: Result<Server.Digests>, clk: Server.Clock)
    requires ClockExact(cfg, clk)
    ensures var r := Server.DraftFrom(cfg, n, cmd, scan, paramsHash, digests, clk);
            r.Ok? ==> AllPlain(r.value)
  {
    if digests.Ok? {
      var r := Server.DraftFrom(cfg, n, cmd, scan, paramsHash, digests, clk).value;
      forall f: F.Field ensures Plain(r[f]) {
        Server.DraftField(cfg, n, cmd, scan, paramsHash, digests, clk, f);
        PlainValue(cfg, n, cmd, scan, paramsHash, digests.value, clk, f);
      }
    }
  }

  lemma AlignedPlain(r: F.L1Receipt)
    requires AllPlain(r)
    ensures Builder.Aligned(r).Ok? ==> AllPlain(Builder.Aligned(r).value)
  {
    if Builder.Aligned(r).Ok? {
      forall f: F.Field ensures Plain(Builder.Aligned(r).value[f]) {
        assert Plain(r[f]) && Plain(r[F.IssuedAt]);
      }
    }
  }

  lemma SignedPlain(c: Receipts.Crypto, r: F.L1Receipt, key: Bytes)
    requires AllPlain(r)
    ensures Receipts.Sign(c, r, key).Ok? ==> AllPlain(Receipts.Sign(c, r, key).value)
  {
    var s := Receipts.Sign(c, r, key);
    if s.Ok? {
      Receipts.SignedShape(c, r, key);
      forall f: F.Field ensures Plain(s.value[f]) {
        assert Plain(r[f]);
        if !Receipts.SetBySigning(f) { Receipts.SignKeeps(c, r, key, f); }
      }
    }
  }

  lemma IssuePlain(c: Receipts.Crypto, draft: Result<F.L1Receipt>, key: Bytes)
    requires draft.Ok? ==> AllPlain(draft.value)
    ensures Server.Issue(c, draft, key).Ok? ==> AllPlain(Server.Issue(c, draft, key).value)
  {
    if Server.Issue(c, draft, key).Ok? {
      AlignedPlain(draft.value);
      SignedPlain(c, Builder.Aligned(draft.value).value, key);
    }
  }

  lemma PlainFields(r: F.L1Receipt)
    requires AllPlain(r)
    ensures Receipts.FieldsWellFormed(r)
  {
    forall g: F.Field ensures WellFormed(r[g]) { assert Plain(r[g]); }
  }

  lemma PlainWritable(f: Floats, r: F.L1Receipt)
    requires AllPlain(r)
    ensures WellFormed(Receipts.ToDict(r)) && ToTree(f, Dumps, Receipts.ToDict(r)).Some?
  {
    PlainFields(r);
    RoundTrip.ToDictWellFormed(r);
    forall g: F.Field ensures ToTree(f, Dumps, r[g]).Some? { assert Plain(r[g]); }
    assert WritableDict(f, Dumps, Receipts.ToDict(r));
  }

  /** A receipt of plain values can be signed exactly when its integers are safe. */
  lemma PlainSigns(c: Receipts.Crypto, r: F.L1Receipt, key: Bytes)
    requires AllPlain(r)
    ensures Receipts.Sign(c, r, key).Ok? <==>
              |key| == 32 && forall f: F.Field :: !Receipts.SetBySigning(f) && r[f].PyInt? ==> IsSafe(r[f].n)
  {
    if |key| == 32 {
      var p := Receipts.Prepared(c, r, c.publicKey(key));
      forall f: F.Field
        ensures Plain(p[f]) && (p[f].PyInt? <==> !Receipts.SetBySigning(f) && r[f].PyInt?)
        ensures p[f].PyInt? ==> p[f] == r[f]
      {
        assert Plain(r[f]);
      }
      PlainPayload(c, p);
    }
  }

  lemma SigningEntry(p: F.L1Receipt, i: nat)
    requires AllPlain(p) && i < |F.FIELDS| - 1
    ensures var e := Receipts.SigningDict(p).entries[i];
            e.key.PyStr? && e.value == p[Receipts.SignedField(i)] && Plain(e.value)
  {
    assert Plain(p[Receipts.SignedField(i)]);
  }

  lemma SigningSafe(p: F.L1Receipt)
    requires AllPlain(p) && p[F.Signature].PyStr? && forall f: F.Field :: p[f].PyInt? ==> IsSafe(p[f].n)
    ensures Validate(Receipts.SigningDict(p))
  {
    var d := Receipts.SigningDict(p);
    forall i | 0 <= i < |d.entries| ensures Validate(d.entries[i].key) && Validate(d.entries[i].value) {
      SigningEntry(p, i);
    }
  }

  lemma SigningValid(p: F.L1Receipt)
    requires AllPlain(p) && p[F.Signature].PyStr?
    ensures Validate(Receipts.SigningDict(p)) <==> forall f: F.Field :: p[f].PyInt? ==> IsSafe(p[f].n)
  {
    if forall f: F.Field :: p[f].PyInt? ==> IsSafe(p[f].n) {
      SigningSafe(p);
    } else {
      var f: F.Field :| p[f].PyInt? && !IsSafe(p[f].n);
      var i := Receipts.SignedIndex(f);
      SigningEntry(p, i);
      assert !Validate(Receipts.SigningDict(p).entries[i].value);
    }
  }

  lemma PlainPayload(c: Receipts.Crypto, p: F.L1Receipt)
    requires AllPlain(p) && p[F.Signature].PyStr?
    ensures Receipts.SigningPayload(c, p).Ok? <==> forall f: F.Field :: p[f].PyInt? ==> IsSafe(p[f].n)
  {
    SigningValid(p);
    var d := Receipts.SigningDict(p);
    forall i | 0 <= i < |d.entries| ensures d.entries[i].key.PyStr? && ToTree(c.floats, Jcs, d.entries[i].value).Some? {
      SigningEntry(p, i);
    }
    assert WritableDict(c.floats, Jcs, d);
  }

  // ---------------------------------------------------------------- when the server issues

  /** What the fields that build looks at are set to. */
  ghost predicate Drafted(cfg: Server.Config, n: nat, cmd: Command, clk: Server.Clock, r: F.L1Receipt) {
    && r[F.IssuedAt] == PyFloat(clk.now - cfg.clockSkew) && r[F.Timestamp] == PyFloat(clk.stamp)
    && r[F.ExpiresAt] == PyFloat(clk.now + 300.0) && r[F.MaxClockSkew] == PyFloat(cfg.clockSkew)
    && r[F.Issuer] == PyStr(cfg.issuer)
    && r[F.Audience] == PyStr(if cfg.audience != "" then cfg.audience else cmd.agentId)
    && r[F.Action].PyStr? && r[F.Action].s != ""
    && r[F.Sequence] == PyInt(n)
    && (forall f: F.Field :: f != F.Sequence ==> !r[f].PyInt?)
  }

  lemma OneInteger(cfg: Server.Config, n: nat, cmd: Command, scan: Rules.Scan, paramsHash: string,
                   d: Server.Digests, clk: Server.Clock, f: F.Field)
    ensures f != F.Sequence ==> !Server.DraftValue(cfg, n, cmd, scan, paramsHash, d, clk, f).PyInt?
  {
  }

  /** The draft is what DraftValue says, field by field. */
  ghost predicate IsDraft(cfg: Server.Config, n: nat, cmd: Command, scan: Rules.Scan, paramsHash: string,
                          d: Server.Digests, clk: Server.Clock, r: F.L1Receipt)
  {
    forall f: F.Field :: r[f] == Server.DraftValue(cfg, n, cmd, scan, paramsHash, d, clk, f)
  }

  lemma DraftIs(cfg: Server.Config, n: nat, cmd: Command, scan: Rules.Scan, paramsHash: string,
                digests: Result<Server.Digests>, clk: Server.Clock, r: F.L1Receipt)
    requires Server.DraftFrom(cfg, n, cmd, scan, paramsHash, digests, clk) == Ok(r)
    ensures digests.Ok? && IsDraft(cfg, n, cmd, scan, paramsHash, digests.value, clk, r)
  {
    forall f: F.Field ensures r[f] == Server.DraftValue(cfg, n, cmd, scan, paramsHash, digests.value, clk, f) {
      Server.DraftField(cfg, n, cmd, scan, paramsHash, digests, clk, f);
    }
  }

  lemma DraftDrafted(cfg: Server.Config, n: nat, cmd: Command, scan: Rules.Scan, paramsHash: string,
                     digests: Result<Server.Digests>, clk: Server.Clock)
    ensures var r := Server.DraftFrom(cfg, n, cmd, scan, paramsHash, digests, clk);
            r.Ok? ==> Drafted(cfg, n, cmd, clk, r.value)
  {
    if digests.Ok? {
      var r := Server.DraftFrom(cfg, n, cmd, scan, paramsHash, digests, clk).value;
      DraftIs(cfg, n, cmd, scan, paramsHash, digests, clk, r);
      DraftedTimes(cfg, n, cmd, scan, paramsHash, digests.value, clk, r);
      DraftedNames(cfg, n, cmd, scan, paramsHash, digests.value, clk, r);
    }
  }

  lemma DraftedTimes(cfg: Server.Config, n: nat, cmd: Command, scan: Rules.Scan, paramsHash: string,
                     d: Server.Digests, clk: Server.Clock, r: F.L1Receipt)
    requires IsDraft(cfg, n, cmd, scan, paramsHash, d, clk, r)
    ensures r[F.IssuedAt] == PyFloat(clk.now - cfg.clockSkew) && r[F.Timestamp] == PyFloat(clk.stamp)
    ensures r[F.ExpiresAt] == PyFloat(clk.now + 300.0) && r[F.MaxClockSkew] == PyFloat(cfg.clockSkew)
  {
  }

  lemma DraftedNames(cfg: Server.Config, n: nat, cmd: Command, scan: Rules.Scan, paramsHash: string,
                     d: Server.Digests, clk: Server.Clock, r: F.L1Receipt)
    requires IsDraft(cfg, n, cmd, scan, paramsHash, d, clk, r)
    ensures r[F.Issuer] == PyStr(cfg.issuer)
    ensures r[F.Audience] == PyStr(if cfg.audience != "" then cfg.audience else cmd.agentId)
    ensures r[F.Action].PyStr? && r[F.Action].s != ""
    ensures r[F.Sequence] == PyInt(n)
    ensures forall f: F.Field :: f != F.Sequence ==> !r[f].PyInt?
  {
    assert |"ccs.verify." + VerdictText(scan.verdict)| >= 11;
    forall f: F.Field | f != F.Sequence ensures !r[f].PyInt? {
      OneInteger(cfg, n, cmd, scan, paramsHash, d, clk, f);
    }
  }

  /** The time check lets a call through exactly when the clock stepped back by less than the tolerance
      and one second between the decision and the receipt's time stamp; and there is none for a
      non-positive issue time. */
  predicate InTime(cfg: Server.Config, clk: Server.Clock) {
    clk.now - cfg.clockSkew > 0.0 ==> clk.now - clk.stamp < cfg.clockSkew + 1.0
  }

  lemma TimeExact(cfg: Server.Config, n: nat, cmd: Command, clk: Server.Clock, r: F.L1Receipt)
    requires Drafted(cfg, n, cmd, clk, r)
    ensures Builder.Aligned(r).Ok?
    ensures Builder.TooEarly(Builder.Aligned(r).value) == Ok(!InTime(cfg, clk))
  {
  }

  lemma BoundExact(cfg: Server.Config, n: nat, cmd: Command, clk: Server.Clock, r: F.L1Receipt, a: F.L1Receipt)
    requires Drafted(cfg, n, cmd, clk, r)
    requires forall f: F.Field :: f != F.Timestamp && f != F.VerifiedAt ==> a[f] == r[f]
    ensures Builder.Unbound(a) ==
            Ok(!(cfg.issuer != "" && (cfg.audience != "" || cmd.agentId != "") && clk.now + 300.0 > 0.0))
  {
    assert a[F.Issuer] == r[F.Issuer] && a[F.Audience] == r[F.Audience] && a[F.Action] == r[F.Action];
    assert a[F.ExpiresAt] == r[F.ExpiresAt];
  }

  lemma SafeExact(cfg: Server.Config, n: nat, cmd: Command, clk: Server.Clock, r: F.L1Receipt, a: F.L1Receipt)
    requires Drafted(cfg, n, cmd, clk, r) && Builder.Aligned(r) == Ok(a)
    ensures (forall f: F.Field :: !Receipts.SetBySigning(f) && a[f].PyInt? ==> IsSafe(a[f].n)) <==> n <= MAX_SAFE
  {
    AlignedBindings(r);
    assert a[F.Sequence] == PyInt(n);
  }

  /** A receipt is issued exactly if the key has 32 bytes, issuer and audience are named, the expiry is
      positive, the clocks agree, and the sequence number is a safe integer. */
  lemma IssueExact(cfg: Server.Config, key: Bytes, n: nat, cmd: Command, clk: Server.Clock, r: F.L1Receipt)
    requires Drafted(cfg, n, cmd, clk, r) && AllPlain(r)
    ensures Server.Issue(cfg.crypto, Ok(r), key).Ok? <==>
              && |key| == 32
              && cfg.issuer != "" && (cfg.audience != "" || cmd.agentId != "")
              && clk.now + 300.0 > 0.0
              && InTime(cfg, clk)
              && n <= MAX_SAFE
  {
    TimeExact(cfg, n, cmd, clk, r);
    AlignedPlain(r);
    AlignedBindings(r);
    var a := Builder.Aligned(r).value;
    PlainSigns(cfg.crypto, a, key);
    BoundExact(cfg, n, cmd, clk, r, a);
    SafeExact(cfg, n, cmd, clk, r, a);
    FinishedExact(cfg.crypto, a, key);
  }

  /** build succeeds exactly if nothing is missing, the times agree, and signing succeeds. */
  lemma FinishedExact(c: Receipts.Crypto, a: F.L1Receipt, key: Bytes)
    ensures Builder.Finished(c, a, Some(key)).Ok? <==>
              Builder.Unbound(a) == Ok(false) && Builder.TooEarly(a) == Ok(false) && Receipts.Sign(c, a, key).Ok?
  {
  }

  /** Aligning moves nothing but the two time stamps. */
  lemma AlignedBindings(r: F.L1Receipt)
    requires Builder.Aligned(r).Ok?
    ensures forall f: F.Field :: f != F.Timestamp && f != F.VerifiedAt ==> Builder.Aligned(r).value[f] == r[f]
    ensures r[F.IssuedAt].PyFloat? && !r[F.Timestamp].PyInt? ==> !Builder.Aligned(r).value[F.Timestamp].PyInt?
    ensures r[F.IssuedAt].PyFloat? && !r[F.VerifiedAt].PyInt? ==> !Builder.Aligned(r).value[F.VerifiedAt].PyInt?
  {
  }

  // ---------------------------------------------------------------- how long a receipt is accepted

  /** s verifies under the key it embeds. */
  ghost predicate Genuine(c: Receipts.Crypto, s: F.L1Receipt, pk: Bytes) {
    && Receipts.VerifySignature(c, s, None) && Receipts.VerifySignature(c, s, Some(pk))
    && Receipts.EmbeddedKey(c, s) == Some(pk)
    && s[F.PublicKeyFingerprint] == PyStr(Receipts.Fingerprint(c, pk))
  }

  predicate SetByBuild(f: F.Field) { Receipts.SetBySigning(f) || f == F.Timestamp || f == F.VerifiedAt }

  ghost predicate Kept(r: F.L1Receipt, s: F.L1Receipt) { forall f: F.Field :: !SetByBuild(f) ==> s[f] == r[f] }

  lemma SignedGenuine(c: Receipts.Crypto, a: F.L1Receipt, key: Bytes)
    requires Receipts.Ed25519Correct(c) && Receipts.Sign(c, a, key).Ok?
    ensures |key| == 32 && Genuine(c, Receipts.Sign(c, a, key).value, c.publicKey(key))
  {
    Receipts.SignVerifies(c, a, key);
    Receipts.SignedShape(c, a, key);
  }

  lemma BuildKept(c: Receipts.Crypto, r: F.L1Receipt, key: Bytes, s: F.L1Receipt)
    requires Builder.Built(c, r, Some(key)) == Ok(s)
    ensures Kept(r, s)
  {
    forall f: F.Field | !SetByBuild(f) ensures s[f] == r[f] { Builder.BuiltKeeps(c, r, Some(key), f); }
  }

  /** An issued receipt verifies and says what was drafted. */
  lemma IssuedShape(c: Receipts.Crypto, r: F.L1Receipt, key: Bytes, s: F.L1Receipt)
    requires Receipts.Ed25519Correct(c) && Server.Issue(c, Ok(r), key) == Ok(s)
    ensures |key| == 32 && Genuine(c, s, c.publicKey(key)) && Kept(r, s)
  {
    SignedGenuine(c, Builder.Aligned(r).value, key);
    BuildKept(c, r, key, s);
  }

  /** The relying party has pinned the server's key for the server's issuer name. */
  predicate Pinned(c: Receipts.Crypto, issuer: string, pk: Bytes, anchors: seq<Trust.TrustAnchor>) {
    match Trust.FirstAnchor(anchors, PyStr(issuer))
    case None => false
    case Some(a) => Base64.Decode(a.publicKeyB64) == Some(pk) && a.fingerprint == Receipts.Fingerprint(c, pk)
  }

  lemma WindowExact(r: F.L1Receipt, expires: real, skew: real, t: real)
    requires r[F.ExpiresAt] == PyFloat(expires) && r[F.MaxClockSkew] == PyFloat(skew) && expires > 0.0
    ensures Trust.TimeCheck(r, t) == Ok(t <= expires + skew)
  {
  }

  lemma PinnedKey(c: Receipts.Crypto, issuer: string, pk: Bytes, anchors: seq<Trust.TrustAnchor>, s: F.L1Receipt)
    requires Pinned(c, issuer, pk, anchors) && s[F.Issuer] == PyStr(issuer)
    ensures Trust.PinnedKey(s, anchors) == Some(pk)
    ensures Trust.FirstAnchor(anchors, s[F.Issuer]).Some?
    ensures Trust.FirstAnchor(anchors, s[F.Issuer]).value.fingerprint == Receipts.Fingerprint(c, pk)
  {
  }

  lemma AcceptsInTime(c: Receipts.Crypto, s: F.L1Receipt, pk: Bytes, anchors: seq<Trust.TrustAnchor>, t: real)
    requires Receipts.VerifySignature(c, s, Some(pk)) && Receipts.EmbeddedKey(c, s) == Some(pk)
    requires Trust.PinnedKey(s, anchors) == Some(pk) && Trust.FirstAnchor(anchors, s[F.Issuer]).Some?
    requires s[F.PublicKeyFingerprint] == PyStr(Trust.FirstAnchor(anchors, s[F.Issuer]).value.fingerprint)
    ensures Trust.Accepts(c, s, anchors, t) <==> Trust.TimeCheck(s, t) == Ok(true)
  {
    Trust.AcceptsExact(c, s, anchors, t);
  }

  ghost predicate Dated(s: F.L1Receipt, issuer: string, expires: real, skew: real) {
    s[F.Issuer] == PyStr(issuer) && s[F.ExpiresAt] == PyFloat(expires) && s[F.MaxClockSkew] == PyFloat(skew)
  }

  lemma KeptDated(cfg: Server.Config, n: nat, cmd: Command, clk: Server.Clock, r: F.L1Receipt, s: F.L1Receipt)
    requires Drafted(cfg, n, cmd, clk, r) && Kept(r, s)
    ensures Dated(s, cfg.issuer, clk.now + 300.0, cfg.clockSkew)
  {
    assert s[F.ExpiresAt] == r[F.ExpiresAt] && s[F.MaxClockSkew] == r[F.MaxClockSkew] && s[F.Issuer] == r[F.Issuer];
  }

  lemma AcceptedUntil(c: Receipts.Crypto, s: F.L1Receipt, pk: Bytes, issuer: string, anchors: seq<Trust.TrustAnchor>,
                      expires: real, skew: real, t: real)
    requires Genuine(c, s, pk) && Dated(s, issuer, expires, skew) && Pinned(c, issuer, pk, anchors) && expires > 0.0
    ensures Trust.Accepts(c, s, anchors, t) <==> t <= expires + skew
  {
    PinnedKey(c, issuer, pk, anchors, s);
    WindowExact(s, expires, skew, t);
    AcceptsInTime(c, s, pk, anchors, t);
  }

  /** A receipt issued at now is accepted up to and including now + 300 + skew and never after. */
  lemma AcceptanceWindow(cfg: Server.Config, key: Bytes, n: nat, cmd: Command, clk: Server.Clock, r: F.L1Receipt,
                         s: F.L1Receipt, anchors: seq<Trust.TrustAnchor>, t: real)
    requires Receipts.Ed25519Correct(cfg.crypto)
    requires Drafted(cfg, n, cmd, clk, r) && AllPlain(r) && Server.Issue(cfg.crypto, Ok(r), key) == Ok(s)
    requires Pinned(cfg.crypto, cfg.issuer, cfg.crypto.publicKey(key), anchors)
    ensures Trust.Accepts(cfg.crypto, s, anchors, t) <==> t <= clk.now + 300.0 + cfg.clockSkew
  {
    assert clk.now + 300.0 > 0.0 by { IssueExact(cfg, key, n, cmd, clk, r); }
    IssuedShape(cfg.crypto, r, key, s);
    KeptDated(cfg, n, cmd, clk, r, s);
    AcceptedUntil(cfg.crypto, s, cfg.crypto.publicKey(key), cfg.issuer, anchors, clk.now + 300.0, cfg.clockSkew, t);
  }
}
