/** From a command to an accepted receipt and back: what an answer of the server is worth to a relying
    party, and what an accepted receipt says about the server. */
module EndToEnd {
  import opened Basics
  import opened KeyOrder
  import opened PyValues
  import opened Protocol
  import opened Loading
  import F = ReceiptFields
  import Canonical
  import Messages
  import Receipts
  import Texts
  import Builder
  import FromDict
  import RoundTrip
  import Rules
  import Server
  import Trust
  import Issuing
  import Session
  import ServerLog
  import Guarantees
  import Remote

  // ---------------------------------------------------------------- the receipt of an answer

  /** The receipt an answer of verify carries, for the n-th sequence number. */
  function ReceiptOf(cfg: Server.Config, n: nat, cmd: Command, clk: Server.Clock): Option<F.L1Receipt> {
    match (Server.ScanOf(cfg, cmd, clk), ParamsHash(cfg.crypto, cmd.params), cfg.l1Key)
    case (Ok(scan), Ok(paramsHash), Some(key)) =>
      (match Server.IssueReceipt(cfg, key, n, cmd, scan, paramsHash, clk)
       case Ok(s) => Some(s)
       case Err(_) => None)
    case (_, _, _) => None
  }

  /** The receipt repeats what the result says. */
  ghost predicate Says(s: F.L1Receipt, n: nat, v: VerificationResult) {
    && s[F.TraceId] == PyStr(v.traceId) && s[F.Verdict] == PyStr(VerdictText(v.verdict)) && s[F.Tool] == PyStr(v.tool)
    && s[F.ParamsHash] == PyStr(v.paramsHash) && s[F.RuleSummary] == PyStr(RuleSummary(v.ruleResults))
    && s[F.Sequence] == PyInt(n)
  }

  lemma AnswerCarries(cfg: Server.Config, n: nat, cmd: Command, clk: Server.Clock)
    requires cfg.l1Key.Some?
    ensures var e, s := Server.EndingOf(cfg, n, cmd, clk), ReceiptOf(cfg, n + 1, cmd, clk);
            && (e.answer.Ok? <==> s.Some?)
            && (e.answer.Ok? ==>
                  e.answer.value.l1Receipt == Some(Receipts.ToDict(s.value)) && e.answer.value.traceId == cmd.traceId)
  {
  }

  /** What is known of an issued receipt: a draft, aligned and signed. */
  ghost predicate IssuedFrom(cfg: Server.Config, key: Bytes, n: nat, cmd: Command, clk: Server.Clock, r: F.L1Receipt,
                             s: F.L1Receipt)
  {
    Issuing.Drafted(cfg, n, cmd, clk, r) && Issuing.AllPlain(r) && Server.Issue(cfg.crypto, Ok(r), key) == Ok(s)
  }

  lemma ReceiptDrafted(cfg: Server.Config, key: Bytes, n: nat, cmd: Command, clk: Server.Clock, scan: Rules.Scan,
                       paramsHash: string)
    requires Issuing.ClockExact(cfg, clk)
    ensures var digests := Server.DigestsOf(cfg, cmd, scan);
            var r := Server.DraftFrom(cfg, n, cmd, scan, paramsHash, digests, clk);
            r.Ok? ==> Issuing.Drafted(cfg, n, cmd, clk, r.value) && Issuing.AllPlain(r.value)
  {
    Issuing.DraftPlain(cfg, n, cmd, scan, paramsHash, Server.DigestsOf(cfg, cmd, scan), clk);
    Issuing.DraftDrafted(cfg, n, cmd, scan, paramsHash, Server.DigestsOf(cfg, cmd, scan), clk);
  }

  lemma DraftSays(cfg: Server.Config, n: nat, cmd: Command, scan: Rules.Scan, paramsHash: string,
                  d: Server.Digests, clk: Server.Clock, r: F.L1Receipt)
    requires Issuing.IsDraft(cfg, n, cmd, scan, paramsHash, d, clk, r)
    ensures r[F.TraceId] == PyStr(cmd.traceId) && r[F.Verdict] == PyStr(VerdictText(scan.verdict))
    ensures r[F.Tool] == PyStr(cmd.tool) && r[F.ParamsHash] == PyStr(paramsHash)
    ensures r[F.RuleSummary] == PyStr(RuleSummary(scan.results))
    ensures r[F.Sequence] == PyInt(n)
  {
  }

  lemma KeptSays(r: F.L1Receipt, s: F.L1Receipt, n: nat, v: VerificationResult)
    requires Says(r, n, v) && Issuing.Kept(r, s)
    ensures Says(s, n, v)
  {
    assert s[F.TraceId] == r[F.TraceId] && s[F.Verdict] == r[F.Verdict] && s[F.Tool] == r[F.Tool];
    assert s[F.ParamsHash] == r[F.ParamsHash] && s[F.RuleSummary] == r[F.RuleSummary] && s[F.Sequence] == r[F.Sequence];
  }

  /** The draft a receipt was issued from. */
  lemma ReceiptIssued(cfg: Server.Config, n: nat, cmd: Command, clk: Server.Clock) returns (r: F.L1Receipt, d: Server.Digests)
    requires Issuing.ClockExact(cfg, clk) && ReceiptOf(cfg, n, cmd, clk).Some?
    ensures IssuedFrom(cfg, cfg.l1Key.value, n, cmd, clk, r, ReceiptOf(cfg, n, cmd, clk).value)
    ensures Server.ScanOf(cfg, cmd, clk).Ok? && ParamsHash(cfg.crypto, cmd.params).Ok?
    ensures Server.DigestsOf(cfg, cmd, Server.ScanOf(cfg, cmd, clk).value) == Ok(d)
    ensures Issuing.IsDraft(cfg, n, cmd, Server.ScanOf(cfg, cmd, clk).value, ParamsHash(cfg.crypto, cmd.params).value, d, clk, r)
  {
    var scan, paramsHash := Server.ScanOf(cfg, cmd, clk).value, ParamsHash(cfg.crypto, cmd.params).value;
    var digests := Server.DigestsOf(cfg, cmd, scan);
    ReceiptDrafted(cfg, cfg.l1Key.value, n, cmd, clk, scan, paramsHash);
    r := Server.DraftFrom(cfg, n, cmd, scan, paramsHash, digests, clk).value;
    d := digests.value;
    Issuing.DraftIs(cfg, n, cmd, scan, paramsHash, digests, clk, r);
  }

  /** An answer of the server carries a receipt that repeats it, verifies under the server's key and is
      accepted by whoever pinned that key, up to 300 seconds and the tolerance after the decision. */
  lemma AnswerAccepted(cfg: Server.Config, n: nat, cmd: Command, clk: Server.Clock, anchors: seq<Trust.TrustAnchor>, t: real)
    requires Receipts.Ed25519Correct(cfg.crypto) && cfg.l1Key.Some? && Issuing.ClockExact(cfg, clk)
    requires Issuing.Pinned(cfg.crypto, cfg.issuer, cfg.crypto.publicKey(cfg.l1Key.value), anchors)
    ensures var e, s := Server.EndingOf(cfg, n, cmd, clk), ReceiptOf(cfg, n + 1, cmd, clk);
            e.answer.Ok? ==>
              && s.Some? && e.answer.value.l1Receipt == Some(Receipts.ToDict(s.value))
              && Says(s.value, n + 1, e.answer.value)
              && (Trust.Accepts(cfg.crypto, s.value, anchors, t) <==> t <= clk.now + 300.0 + cfg.clockSkew)
  {
    AnswerCarries(cfg, n, cmd, clk);
    var e, s := Server.EndingOf(cfg, n, cmd, clk), ReceiptOf(cfg, n + 1, cmd, clk);
    if e.answer.Ok? {
      var key := cfg.l1Key.value;
      var r, d := ReceiptIssued(cfg, n + 1, cmd, clk);
      DraftSays(cfg, n + 1, cmd, Server.ScanOf(cfg, cmd, clk).value, ParamsHash(cfg.crypto, cmd.params).value, d, clk, r);
      AnswerSays(cfg, n, cmd, clk, r);
      Issuing.IssuedShape(cfg.crypto, r, key, s.value);
      KeptSays(r, s.value, n + 1, e.answer.value);
      Issuing.AcceptanceWindow(cfg, key, n + 1, cmd, clk, r, s.value, anchors, t);
    }
  }

  lemma AnswerSays(cfg: Server.Config, n: nat, cmd: Command, clk: Server.Clock, r: F.L1Receipt)
    requires Server.EndingOf(cfg, n, cmd, clk).answer.Ok?
    requires var scan, paramsHash := Server.ScanOf(cfg, cmd, clk), ParamsHash(cfg.crypto, cmd.params);
             && scan.Ok? && paramsHash.Ok?
             && r[F.TraceId] == PyStr(cmd.traceId) && r[F.Verdict] == PyStr(VerdictText(scan.value.verdict))
             && r[F.Tool] == PyStr(cmd.tool) && r[F.ParamsHash] == PyStr(paramsHash.value)
             && r[F.RuleSummary] == PyStr(RuleSummary(scan.value.results)) && r[F.Sequence] == PyInt(n + 1)
    ensures Says(r, n + 1, Server.EndingOf(cfg, n, cmd, clk).answer.value)
  {
  }

  // ---------------------------------------------------------------- which calls are answered

  predicate Canonicalises(f: Floats, v: PyValue) { Validate(v) && Canonical.ToTree(f, Jcs, v).Some? }

  lemma RecordCanonicalises(f: Floats, keys: seq<string>, values: seq<PyValue>)
    requires |values| <= |keys|
    ensures Canonicalises(f, Messages.Record(keys, values)) <==> forall i :: 0 <= i < |values| ==> Canonicalises(f, values[i])
  {
    var v := Messages.Record(keys, values);
    if forall i :: 0 <= i < |values| ==> Canonicalises(f, values[i]) {
      forall i | 0 <= i < |v.entries|
        ensures Validate(v.entries[i].key) && Validate(v.entries[i].value)
        ensures v.entries[i].key.PyStr? && Canonical.ToTree(f, Jcs, v.entries[i].value).Some?
      {
        assert Canonicalises(f, values[i]);
      }
      assert Canonical.WritableDict(f, Jcs, v) && Validate(v);
    } else {
      var i :| 0 <= i < |values| && !Canonicalises(f, values[i]);
      assert v.entries[i].value == values[i];
      if Validate(values[i]) {
        assert !Canonical.WritableDict(f, Jcs, v);
      } else {
        assert !Validate(v.entries[i].value);
        assert !Validate(v);
      }
    }
  }

  lemma NamesCanonicalise(f: Floats, rs: seq<RuleResult>)
    ensures Canonicalises(f, PyList(Server.RuleNames(rs)))
  {
    var names := Server.RuleNames(rs);
    forall i | 0 <= i < |names| ensures Validate(names[i]) && Canonical.ToTree(f, Jcs, names[i]).Some? {
      assert names[i] == PyStr(rs[i].ruleName);
    }
    assert Canonical.Writable(f, Jcs, names);
  }

  lemma HashExact(c: Receipts.Crypto, v: PyValue)
    ensures Builder.ComputeHash(c, v).Ok? <==> Canonicalises(c.floats, v)
  {
  }

  lemma RequestCanonicalises(f: Floats, cmd: Command)
    ensures Canonicalises(f, Server.RequestData(cmd)) <==> Canonicalises(f, cmd.params)
  {
    var values := [PyStr(cmd.agentId), PyStr(cmd.tool), cmd.params, PyFloat(cmd.timestamp), PyStr(cmd.traceId)];
    RecordCanonicalises(f, Server.REQUEST_DATA, values);
    assert values[2] == cmd.params;
  }

  lemma ResponseCanonicalises(f: Floats, scan: Rules.Scan)
    ensures Canonicalises(f, Server.ResponseData(scan))
  {
    RecordCanonicalises(f, ["verdict", "rule_results", "block_reason"],
                        [PyStr(VerdictText(scan.verdict)), PyList(Server.RuleNames(scan.results)), PyStr(scan.blockReason)]);
    NamesCanonicalise(f, scan.results);
  }

  lemma ContextCanonicalises(f: Floats, cfg: Server.Config)
    ensures Canonicalises(f, Server.RuntimeContext(cfg))
    ensures Canonicalises(f, Messages.Record(["rules"], [PyStr(cfg.configHash)]))
  {
    RecordCanonicalises(f, ["python_version", "mode"], [PyStr("3.x"), PyStr(cfg.deploymentMode)]);
    RecordCanonicalises(f, ["rules"], [PyStr(cfg.configHash)]);
  }

  /** The five digests can be computed exactly if the parameters have a canonical form. */
  lemma DigestsExact(cfg: Server.Config, cmd: Command, scan: Rules.Scan)
    ensures Server.DigestsOf(cfg, cmd, scan).Ok? <==> Canonicalises(cfg.crypto.floats, cmd.params)
  {
    var c, f := cfg.crypto, cfg.crypto.floats;
    RequestCanonicalises(f, cmd);
    ResponseCanonicalises(f, scan);
    ContextCanonicalises(f, cfg);
    HashExact(c, cmd.params);
    HashExact(c, Server.RequestData(cmd));
    HashExact(c, Server.ResponseData(scan));
    HashExact(c, Server.RuntimeContext(cfg));
    HashExact(c, Messages.Record(["rules"], [PyStr(cfg.configHash)]));
  }

  /** What the server and the call must bring for a receipt with number n. */
  predicate CanIssue(cfg: Server.Config, n: nat, cmd: Command, clk: Server.Clock)
    requires cfg.l1Key.Some?
  {
    && |cfg.l1Key.value| == 32
    && cfg.issuer != "" && (cfg.audience != "" || cmd.agentId != "")
    && clk.now + 300.0 > 0.0
    && Issuing.InTime(cfg, clk)
    && n <= MAX_SAFE
  }

  /** In Level-1 mode verify returns exactly if no rule it reaches raises, the parameters have a canonical
      form, and the receipt can be issued; in every other case it raises. */
  lemma AnswerExact(cfg: Server.Config, n: nat, cmd: Command, clk: Server.Clock)
    requires cfg.l1Key.Some? && Issuing.ClockExact(cfg, clk)
    ensures Server.EndingOf(cfg, n, cmd, clk).answer.Ok? <==>
              && Server.ScanOf(cfg, cmd, clk).Ok?
              && Canonicalises(cfg.crypto.floats, cmd.params)
              && CanIssue(cfg, n + 1, cmd, clk)
  {
    AnswerCarries(cfg, n, cmd, clk);
    Remote.WritableInBoth(cfg.crypto.floats, cmd.params);
    if Server.ScanOf(cfg, cmd, clk).Ok? && ParamsHash(cfg.crypto, cmd.params).Ok? {
      var scan, paramsHash := Server.ScanOf(cfg, cmd, clk).value, ParamsHash(cfg.crypto, cmd.params).value;
      DigestsExact(cfg, cmd, scan);
      IssuedExact(cfg, n + 1, cmd, clk, scan, paramsHash, Server.DigestsOf(cfg, cmd, scan));
    }
  }

  lemma IssuedExact(cfg: Server.Config, n: nat, cmd: Command, clk: Server.Clock, scan: Rules.Scan, paramsHash: string,
                    digests: Result<Server.Digests>)
    requires cfg.l1Key.Some? && Issuing.ClockExact(cfg, clk)
    ensures Server.Issue(cfg.crypto, Server.DraftFrom(cfg, n, cmd, scan, paramsHash, digests, clk), cfg.l1Key.value).Ok? <==>
              digests.Ok? && CanIssue(cfg, n, cmd, clk)
  {
    var draft := Server.DraftFrom(cfg, n, cmd, scan, paramsHash, digests, clk);
    assert draft.Ok? <==> digests.Ok?;
    if draft.Ok? {
      Issuing.DraftPlain(cfg, n, cmd, scan, paramsHash, digests, clk);
      Issuing.DraftDrafted(cfg, n, cmd, scan, paramsHash, digests, clk);
      Issuing.IssueExact(cfg, cfg.l1Key.value, n, cmd, clk, draft.value);
    }
  }

  lemma HashRaises(c: Receipts.Crypto, v: PyValue)
    requires Canonical.ToTree(c.floats, Jcs, v).Some?
    ensures Builder.ComputeHash(c, v).Ok? || Builder.ComputeHash(c, v) == Err(ValueError)
  {
  }

  lemma DigestsRaise(cfg: Server.Config, cmd: Command, scan: Rules.Scan)
    requires Canonical.ToTree(cfg.crypto.floats, Jcs, cmd.params).Some?
    ensures Server.DigestsOf(cfg, cmd, scan).Ok? || Server.DigestsOf(cfg, cmd, scan) == Err(ValueError)
  {
    HashRaises(cfg.crypto, cmd.params);
    HashExact(cfg.crypto, cmd.params);
    DigestsExact(cfg, cmd, scan);
    DigestsFail(cfg, cmd, scan);
  }

  /** The digests fail with the parameters, if these have no canonical form. */
  lemma DigestsFail(cfg: Server.Config, cmd: Command, scan: Rules.Scan)
    ensures Builder.ComputeHash(cfg.crypto, cmd.params).Err? ==>
              Server.DigestsOf(cfg, cmd, scan) == Err(Builder.ComputeHash(cfg.crypto, cmd.params).error)
  {
  }

  lemma IssueRaises(cfg: Server.Config, key: Bytes, n: nat, cmd: Command, clk: Server.Clock, r: F.L1Receipt)
    requires Issuing.Drafted(cfg, n, cmd, clk, r) && Issuing.AllPlain(r)
    ensures Server.Issue(cfg.crypto, Ok(r), key).Ok? || Server.Issue(cfg.crypto, Ok(r), key) == Err(ValueError)
  {
    Builder.BuildExact(cfg.crypto, r, key, clk.now - cfg.clockSkew, clk.stamp, clk.now + 300.0);
    Issuing.AlignedPlain(r);
    Builder.AlignedExact(r, clk.now - cfg.clockSkew, clk.stamp);
    SignRaises(cfg.crypto, Builder.Aligned(r).value, key);
  }

  lemma SignRaises(c: Receipts.Crypto, a: F.L1Receipt, key: Bytes)
    requires Issuing.AllPlain(a)
    ensures Receipts.Sign(c, a, key).Ok? || Receipts.Sign(c, a, key) == Err(ValueError)
  {
    if |key| == 32 {
      var p := Receipts.Prepared(c, a, c.publicKey(key));
      forall f: F.Field ensures Issuing.Plain(p[f]) { assert Issuing.Plain(a[f]); }
      PayloadRaises(c, p);
    }
  }

  lemma PayloadRaises(c: Receipts.Crypto, p: F.L1Receipt)
    requires Issuing.AllPlain(p)
    ensures Receipts.SigningPayload(c, p).Ok? || Receipts.SigningPayload(c, p) == Err(ValueError)
  {
    var d := Receipts.SigningDict(p);
    forall i | 0 <= i < |d.entries| ensures d.entries[i].key.PyStr? && Canonical.ToTree(c.floats, Jcs, d.entries[i].value).Some? {
      Issuing.SigningEntry(p, i);
    }
    assert Canonical.WritableDict(c.floats, Jcs, d);
  }

  /** What verify raises once the rules have answered and the parameters were written: a ValueError, and it has taken a
      sequence number. */
  lemma RaisesValueError(cfg: Server.Config, n: nat, cmd: Command, clk: Server.Clock)
    requires Issuing.ClockExact(cfg, clk)
    requires Server.ScanOf(cfg, cmd, clk).Ok? && Canonical.DumpsText(cfg.crypto.floats, cmd.params).Ok?
    ensures var e := Server.EndingOf(cfg, n, cmd, clk);
            e.answer.Err? ==> cfg.l1Key.Some? && e == Server.Ending(Err(ValueError), true)
  {
    Remote.WritableInBoth(cfg.crypto.floats, cmd.params);
    if cfg.l1Key.Some? {
      var scan, paramsHash := Server.ScanOf(cfg, cmd, clk).value, ParamsHash(cfg.crypto, cmd.params).value;
      DigestsRaise(cfg, cmd, scan);
      DraftRaises(cfg, n + 1, cmd, clk, scan, paramsHash, Server.DigestsOf(cfg, cmd, scan));
    }
  }

  lemma DraftRaises(cfg: Server.Config, n: nat, cmd: Command, clk: Server.Clock, scan: Rules.Scan, paramsHash: string,
                    digests: Result<Server.Digests>)
    requires cfg.l1Key.Some? && Issuing.ClockExact(cfg, clk) && (digests.Ok? || digests == Err(ValueError))
    ensures var s := Server.Issue(cfg.crypto, Server.DraftFrom(cfg, n, cmd, scan, paramsHash, digests, clk), cfg.l1Key.value);
            s.Ok? || s == Err(ValueError)
  {
    var draft := Server.DraftFrom(cfg, n, cmd, scan, paramsHash, digests, clk);
    if digests.Ok? {
      Issuing.DraftPlain(cfg, n, cmd, scan, paramsHash, digests, clk);
      Issuing.DraftDrafted(cfg, n, cmd, scan, paramsHash, digests, clk);
      IssueRaises(cfg, cfg.l1Key.value, n, cmd, clk, draft.value);
    }
  }

  // ---------------------------------------------------------------- what a receipt binds

  lemma RecordSame(style: Style, keys: seq<string>, xs: seq<PyValue>, ys: seq<PyValue>)
    requires |xs| == |ys| <= |keys| && Messages.Distinct(keys)
    ensures SameJson(style, Messages.Record(keys, xs), Messages.Record(keys, ys)) <==>
              forall i :: 0 <= i < |xs| ==> SameJson(style, xs[i], ys[i])
  {
    var v, w := Messages.Record(keys, xs), Messages.Record(keys, ys);
    forall k ensures HasKey(v.entries, k) <==> HasKey(w.entries, k) {
      forall i | 0 <= i < |xs| ensures v.entries[i].key == w.entries[i].key {}
    }
    if forall i :: 0 <= i < |xs| ==> SameJson(style, xs[i], ys[i]) {
      forall i, j | 0 <= i < |xs| && 0 <= j < |ys| && v.entries[i].key == w.entries[j].key
        ensures SameJson(style, v.entries[i].value, w.entries[j].value)
      {
        assert i == j;
      }
      assert SameDict(style, v, w);
    } else {
      var i :| 0 <= i < |xs| && !SameJson(style, xs[i], ys[i]);
      assert v.entries[i].key == w.entries[i].key && !SameJson(style, v.entries[i].value, w.entries[i].value);
      assert !SameDict(style, v, w);
    }
  }

  /** The hash tells the canonical bytes of two values apart. */
  predicate ToldApart(c: Receipts.Crypto, v: PyValue, w: PyValue) {
    var a, b := Canonical.CanonicalJson(c.floats, v), Canonical.CanonicalJson(c.floats, w);
    a.Ok? && b.Ok? && a != b ==> c.sha256(a.value) != c.sha256(b.value)
  }

  lemma HashSame(c: Receipts.Crypto, v: PyValue, w: PyValue)
    requires FloatsSound(c.floats) && v.PyDict? && w.PyDict? && WellFormed(v) && WellFormed(w) && ToldApart(c, v, w)
    requires Builder.ComputeHash(c, v).Ok? && Builder.ComputeHash(c, w).Ok?
    ensures Builder.ComputeHash(c, v) == Builder.ComputeHash(c, w) <==> SameJson(Jcs, v, w)
  {
    Canonical.CanonicalJsonExact(c.floats, v, w);
  }

  /** What of two commands a request hash distinguishes. */
  ghost predicate SameRequest(a: Command, b: Command) {
    && a.agentId == b.agentId && a.tool == b.tool && SameJson(Jcs, a.params, b.params)
    && a.timestamp == b.timestamp && a.traceId == b.traceId
  }

  lemma RequestSame(a: Command, b: Command)
    ensures SameJson(Jcs, Server.RequestData(a), Server.RequestData(b)) <==> SameRequest(a, b)
  {
    Remote.RequestDataKeys();
    var xs := [PyStr(a.agentId), PyStr(a.tool), a.params, PyFloat(a.timestamp), PyStr(a.traceId)];
    var ys := [PyStr(b.agentId), PyStr(b.tool), b.params, PyFloat(b.timestamp), PyStr(b.traceId)];
    RecordSame(Jcs, Server.REQUEST_DATA, xs, ys);
    assert xs[0] == PyStr(a.agentId) && xs[1] == PyStr(a.tool) && xs[2] == a.params && xs[3] == PyFloat(a.timestamp)
        && xs[4] == PyStr(a.traceId);
    assert ys[0] == PyStr(b.agentId) && ys[1] == PyStr(b.tool) && ys[2] == b.params && ys[3] == PyFloat(b.timestamp)
        && ys[4] == PyStr(b.traceId);
    if SameRequest(a, b) {
      forall i | 0 <= i < 5 ensures SameJson(Jcs, xs[i], ys[i]) {}
    }
  }

  lemma RequestWellFormed(cmd: Command)
    requires WellFormed(cmd.params) && IsDouble(cmd.timestamp)
    ensures WellFormed(Server.RequestData(cmd))
  {
    Remote.RequestDataKeys();
    Messages.RecordSound(Floats(x => "", x => "", t => None), Server.REQUEST_DATA,
                         [PyStr(cmd.agentId), PyStr(cmd.tool), cmd.params, PyFloat(cmd.timestamp), PyStr(cmd.traceId)]);
  }

  lemma ReceiptRequestHash(cfg: Server.Config, n: nat, cmd: Command, clk: Server.Clock)
    requires Receipts.Ed25519Correct(cfg.crypto) && cfg.l1Key.Some? && Issuing.ClockExact(cfg, clk)
    requires ReceiptOf(cfg, n, cmd, clk).Some?
    ensures Builder.ComputeHash(cfg.crypto, Server.RequestData(cmd)).Ok?
    ensures ReceiptOf(cfg, n, cmd, clk).value[F.RequestHash] ==
            PyStr(Builder.ComputeHash(cfg.crypto, Server.RequestData(cmd)).value)
  {
    var r, d := ReceiptIssued(cfg, n, cmd, clk);
    Issuing.IssuedShape(cfg.crypto, r, cfg.l1Key.value, ReceiptOf(cfg, n, cmd, clk).value);
    DigestedRequest(cfg, cmd, Server.ScanOf(cfg, cmd, clk).value, d);
    HashKept(cfg, n, cmd, Server.ScanOf(cfg, cmd, clk).value, ParamsHash(cfg.crypto, cmd.params).value, d, clk, r,
             ReceiptOf(cfg, n, cmd, clk).value);
  }

  lemma HashKept(cfg: Server.Config, n: nat, cmd: Command, scan: Rules.Scan, paramsHash: string, d: Server.Digests,
                 clk: Server.Clock, r: F.L1Receipt, s: F.L1Receipt)
    requires Issuing.IsDraft(cfg, n, cmd, scan, paramsHash, d, clk, r) && Issuing.Kept(r, s)
    ensures s[F.RequestHash] == PyStr(d.request)
  {
    assert r[F.RequestHash] == PyStr(d.request);
    assert s[F.RequestHash] == r[F.RequestHash];
  }

  lemma DigestedRequest(cfg: Server.Config, cmd: Command, scan: Rules.Scan, d: Server.Digests)
    requires Server.DigestsOf(cfg, cmd, scan) == Ok(d)
    ensures Builder.ComputeHash(cfg.crypto, Server.RequestData(cmd)) == Ok(d.request)
  {
  }

  /** Receipts bind requests: two receipts of the server have the same request hash exactly if they answer
      the same request, as long as the hash tells those two requests apart. */
  lemma RequestBound(cfg: Server.Config, m: nat, a: Command, s: Server.Clock, n: nat, b: Command, t: Server.Clock)
    requires Receipts.Ed25519Correct(cfg.crypto) && FloatsSound(cfg.crypto.floats) && cfg.l1Key.Some?
    requires Issuing.ClockExact(cfg, s) && Issuing.ClockExact(cfg, t)
    requires WellFormed(a.params) && IsDouble(a.timestamp) && WellFormed(b.params) && IsDouble(b.timestamp)
    requires ToldApart(cfg.crypto, Server.RequestData(a), Server.RequestData(b))
    requires ReceiptOf(cfg, m, a, s).Some? && ReceiptOf(cfg, n, b, t).Some?
    ensures ReceiptOf(cfg, m, a, s).value[F.RequestHash] == ReceiptOf(cfg, n, b, t).value[F.RequestHash] <==> SameRequest(a, b)
  {
    ReceiptRequestHash(cfg, m, a, s);
    ReceiptRequestHash(cfg, n, b, t);
    RequestWellFormed(a);
    RequestWellFormed(b);
    HashSame(cfg.crypto, Server.RequestData(a), Server.RequestData(b));
    RequestSame(a, b);
  }

  // ---------------------------------------------------------------- over the wire

  /** A trace id is given, and every text that goes into the receipt is within the limit of from_dict. */
  predicate Short(cfg: Server.Config, cmd: Command, scan: Rules.Scan) {
    && 0 < |cmd.traceId| <= FromDict.MAX_FIELD_LEN && |cmd.tool| <= FromDict.MAX_FIELD_LEN
    && |cmd.agentId| <= FromDict.MAX_FIELD_LEN && |RuleSummary(scan.results)| <= FromDict.MAX_FIELD_LEN
    && |cfg.ruleVersion| <= FromDict.MAX_FIELD_LEN && |cfg.sourceClass| <= FromDict.MAX_FIELD_LEN
    && |cfg.deploymentMode| <= FromDict.MAX_FIELD_LEN && |cfg.issuer| <= FromDict.MAX_FIELD_LEN
    && |cfg.audience| <= FromDict.MAX_FIELD_LEN
  }

  predicate Digested(d: Server.Digests) {
    |d.args| == 64 && |d.request| == 64 && |d.response| == 64 && |d.context| == 64 && |d.config| == 64
  }

  lemma DigestsSized(cfg: Server.Config, cmd: Command, scan: Rules.Scan)
    requires RoundTrip.HashesSized(cfg.crypto) && Server.DigestsOf(cfg, cmd, scan).Ok?
    ensures Digested(Server.DigestsOf(cfg, cmd, scan).value)
  {
  }

  predicate Fits(v: PyValue) { !v.PyNone? && (v.PyStr? ==> |v.s| <= FromDict.MAX_FIELD_LEN) }

  lemma DraftFits(cfg: Server.Config, n: nat, cmd: Command, scan: Rules.Scan, paramsHash: string,
                  d: Server.Digests, clk: Server.Clock, f: F.Field)
    requires Short(cfg, cmd, scan) && Digested(d) && |paramsHash| <= 16
    ensures Fits(Server.DraftValue(cfg, n, cmd, scan, paramsHash, d, clk, f))
  {
    assert |VerdictText(scan.verdict)| <= 8;
    assert |"ccs.verify." + VerdictText(scan.verdict)| <= 19;
  }

  lemma DraftPortable(cfg: Server.Config, n: nat, cmd: Command, scan: Rules.Scan, paramsHash: string,
                      d: Server.Digests, clk: Server.Clock, r: F.L1Receipt)
    requires Issuing.IsDraft(cfg, n, cmd, scan, paramsHash, d, clk, r)
    requires Short(cfg, cmd, scan) && Digested(d) && |paramsHash| <= 16
    ensures RoundTrip.Portable(r)
  {
    forall f: F.Field ensures Fits(r[f]) { DraftFits(cfg, n, cmd, scan, paramsHash, d, clk, f); }
    assert r[F.TraceId] == PyStr(cmd.traceId) && r[F.ReceiptVersion] == PyStr(Receipts.RECEIPT_VERSION);
  }

  lemma AlignedPortable(r: F.L1Receipt)
    requires RoundTrip.Portable(r) && r[F.IssuedAt].PyFloat? && Builder.Aligned(r).Ok?
    ensures RoundTrip.Portable(Builder.Aligned(r).value)
  {
  }

  lemma IssuedSurvives(c: Receipts.Crypto, r: F.L1Receipt, key: Bytes, s: F.L1Receipt)
    requires Receipts.Ed25519Correct(c) && RoundTrip.HashesSized(c)
    requires RoundTrip.Portable(r) && r[F.IssuedAt].PyFloat? && Server.Issue(c, Ok(r), key) == Ok(s)
    ensures RoundTrip.Survives(s)
  {
    AlignedPortable(r);
    RoundTrip.SignedSurvives(c, Builder.Aligned(r).value, key);
  }

  /** Whatever comes out of the wire for an issued receipt is read back as that receipt. */
  lemma ReceiptArrives(f: Floats, s: F.L1Receipt, w: PyValue, dflt: F.L1Receipt)
    requires Issuing.AllPlain(s) && RoundTrip.Survives(s) && RoundTrip.NoNones(dflt)
    requires SameJson(Dumps, Receipts.ToDict(s), w)
    ensures w.PyDict? && FromDict.Outcome(RoundTrip.TableOf(w.entries), true, dflt) == Ok(s)
  {
    forall g: F.Field ensures RoundTrip.IsScalar(s[g]) { assert Issuing.Plain(s[g]); }
    RoundTrip.CarriedStates(f, s, w);
    RoundTrip.StatedComesBack(RoundTrip.TableOf(w.entries), s, dflt);
  }

  /** The client of a remote verify can read the receipt it got with from_dict: it is the server's, it
      verifies under the server's key, and a relying party accepts it for as long as the server's own. */
  lemma RemoteReceiptAccepted(cfg: Server.Config, n: nat, cmd: Command, clk: Server.Clock, w: PyValue, dflt: F.L1Receipt,
                              anchors: seq<Trust.TrustAnchor>, t: real)
    requires Receipts.Ed25519Correct(cfg.crypto) && RoundTrip.HashesSized(cfg.crypto) && RoundTrip.NoNones(dflt)
    requires cfg.l1Key.Some? && Issuing.ClockExact(cfg, clk)
    requires Server.ScanOf(cfg, cmd, clk).Ok? ==> Short(cfg, cmd, Server.ScanOf(cfg, cmd, clk).value)
    requires Issuing.Pinned(cfg.crypto, cfg.issuer, cfg.crypto.publicKey(cfg.l1Key.value), anchors)
    requires Server.EndingOf(cfg, n, cmd, clk).answer.Ok?
    requires SameJson(Dumps, Server.EndingOf(cfg, n, cmd, clk).answer.value.l1Receipt.value, w)
    ensures w.PyDict?
    ensures var s := FromDict.Outcome(RoundTrip.TableOf(w.entries), true, dflt);
            && s.Ok? && s.value == ReceiptOf(cfg, n + 1, cmd, clk).value
            && Says(s.value, n + 1, Server.EndingOf(cfg, n, cmd, clk).answer.value)
            && Receipts.VerifySignature(cfg.crypto, s.value, Some(cfg.crypto.publicKey(cfg.l1Key.value)))
            && (Trust.Accepts(cfg.crypto, s.value, anchors, t) <==> t <= clk.now + 300.0 + cfg.clockSkew)
  {
    AnswerAccepted(cfg, n, cmd, clk, anchors, t);
    var r, d := ReceiptIssued(cfg, n + 1, cmd, clk);
    IssuedArrives(cfg, n + 1, cmd, clk, r, d, ReceiptOf(cfg, n + 1, cmd, clk).value, w, dflt);
  }

  lemma IssuedArrives(cfg: Server.Config, n: nat, cmd: Command, clk: Server.Clock, r: F.L1Receipt, d: Server.Digests,
                      s: F.L1Receipt, w: PyValue, dflt: F.L1Receipt)
    requires Receipts.Ed25519Correct(cfg.crypto) && RoundTrip.HashesSized(cfg.crypto) && RoundTrip.NoNones(dflt)
    requires cfg.l1Key.Some? && IssuedFrom(cfg, cfg.l1Key.value, n, cmd, clk, r, s)
    requires var scan, paramsHash := Server.ScanOf(cfg, cmd, clk), ParamsHash(cfg.crypto, cmd.params);
             && scan.Ok? && paramsHash.Ok? && Short(cfg, cmd, scan.value)
             && Server.DigestsOf(cfg, cmd, scan.value) == Ok(d)
             && Issuing.IsDraft(cfg, n, cmd, scan.value, paramsHash.value, d, clk, r)
    requires SameJson(Dumps, Receipts.ToDict(s), w)
    ensures w.PyDict? && FromDict.Outcome(RoundTrip.TableOf(w.entries), true, dflt) == Ok(s)
    ensures Receipts.VerifySignature(cfg.crypto, s, Some(cfg.crypto.publicKey(cfg.l1Key.value)))
  {
    var scan, paramsHash := Server.ScanOf(cfg, cmd, clk).value, ParamsHash(cfg.crypto, cmd.params).value;
    DigestsSized(cfg, cmd, scan);
    DraftPortable(cfg, n, cmd, scan, paramsHash, d, clk, r);
    IssuedSurvives(cfg.crypto, r, cfg.l1Key.value, s);
    Issuing.IssuePlain(cfg.crypto, Ok(r), cfg.l1Key.value);
    ReceiptArrives(cfg.crypto.floats, s, w, dflt);
    Issuing.IssuedShape(cfg.crypto, r, cfg.l1Key.value, s);
  }

  // ---------------------------------------------------------------- what an accepted receipt proves

  ghost predicate ClocksExact(cfg: Server.Config, calls: seq<Server.Call>) {
    forall i :: 0 <= i < |calls| ==> Issuing.ClockExact(cfg, calls[i].clk)
  }

  ghost predicate Carries(v: VerificationResult, s: F.L1Receipt) { v.l1Receipt == Some(Receipts.ToDict(s)) }

  /** The receipt an answer carries repeats the answer. */
  ghost predicate Honest(v: VerificationResult) {
    exists s, n: nat :: Carries(v, s) && Says(s, n, v) && Receipts.FieldsWellFormed(s)
  }

  lemma LastAnswer(cfg: Server.Config, calls: seq<Server.Call>)
    requires calls != []
    ensures var h, c := Server.Run(cfg, calls[..|calls| - 1]), calls[|calls| - 1];
            var e := Server.EndingOf(cfg, h.st.sequence, c.cmd, c.clk);
            Server.Run(cfg, calls).answered == if e.answer.Ok? then h.answered + [e.answer.value] else h.answered
  {
  }

  lemma AnswerHonest(cfg: Server.Config, n: nat, c: Server.Call)
    requires cfg.l1Key.Some? && Receipts.Ed25519Correct(cfg.crypto) && Issuing.ClockExact(cfg, c.clk)
    ensures var e := Server.EndingOf(cfg, n, c.cmd, c.clk); e.answer.Ok? ==> Honest(e.answer.value)
  {
    AnswerCarries(cfg, n, c.cmd, c.clk);
    var e := Server.EndingOf(cfg, n, c.cmd, c.clk);
    if e.answer.Ok? {
      IssuedSays(cfg, n, c.cmd, c.clk);
      assert Carries(e.answer.value, ReceiptOf(cfg, n + 1, c.cmd, c.clk).value);
    }
  }

  /** In Level-1 mode every answer of a run carries a receipt that repeats it. */
  lemma {:induction false} AnswersHonest(cfg: Server.Config, calls: seq<Server.Call>, v: VerificationResult)
    requires cfg.l1Key.Some? && Receipts.Ed25519Correct(cfg.crypto) && ClocksExact(cfg, calls)
    requires v in Server.Run(cfg, calls).answered
    ensures Honest(v)
    decreases |calls|
  {
    var before, c := calls[..|calls| - 1], calls[|calls| - 1];
    LastAnswer(cfg, calls);
    AnswerHonest(cfg, Server.Run(cfg, before).st.sequence, c);
    if v in Server.Run(cfg, before).answered {
      AnswersHonest(cfg, before, v);
    }
  }

  lemma DictInjective(r: F.L1Receipt, s: F.L1Receipt)
    requires Receipts.ToDict(r) == Receipts.ToDict(s)
    ensures r == s
  {
    forall f: F.Field ensures r[f] == s[f] {
      RoundTrip.ToDictGet(r, f);
      RoundTrip.ToDictGet(s, f);
    }
  }

  lemma IssuedSays(cfg: Server.Config, n: nat, cmd: Command, clk: Server.Clock)
    requires cfg.l1Key.Some? && Receipts.Ed25519Correct(cfg.crypto) && Issuing.ClockExact(cfg, clk)
    requires ReceiptOf(cfg, n + 1, cmd, clk).Some?
    ensures var e, s := Server.EndingOf(cfg, n, cmd, clk), ReceiptOf(cfg, n + 1, cmd, clk).value;
            && e.answer.Ok? && e.answer.value.l1Receipt == Some(Receipts.ToDict(s)) && Says(s, n + 1, e.answer.value)
            && Receipts.FieldsWellFormed(s)
  {
    AnswerCarries(cfg, n, cmd, clk);
    var e, s := Server.EndingOf(cfg, n, cmd, clk), ReceiptOf(cfg, n + 1, cmd, clk).value;
    var r, d := ReceiptIssued(cfg, n + 1, cmd, clk);
    DraftSays(cfg, n + 1, cmd, Server.ScanOf(cfg, cmd, clk).value, ParamsHash(cfg.crypto, cmd.params).value, d, clk, r);
    AnswerSays(cfg, n, cmd, clk, r);
    Issuing.IssuedShape(cfg.crypto, r, cfg.l1Key.value, s);
    KeptSays(r, s, n + 1, e.answer.value);
    Issuing.IssuePlain(cfg.crypto, Ok(r), cfg.l1Key.value);
    Issuing.PlainFields(s);
  }

  /** Every receipt in the log is one an answer carries. */
  ghost predicate FromAnswers(answered: seq<VerificationResult>, log: set<F.L1Receipt>) {
    forall s :: s in log ==> exists v :: v in answered && Carries(v, s)
  }

  lemma CarriedHonest(v: VerificationResult, s: F.L1Receipt)
    requires Honest(v) && Carries(v, s)
    ensures Receipts.FieldsWellFormed(s) && s[F.Verdict] == PyStr(VerdictText(v.verdict))
  {
    var r, n: nat :| Carries(v, r) && Says(r, n, v) && Receipts.FieldsWellFormed(r);
    DictInjective(r, s);
  }

  /** If the server's key signs nothing but the receipts of its answers, an accepted receipt has the same
      signed fields, among them the verdict, as the receipt of an answer the server gave. */
  lemma AcceptedWasAnswered(cfg: Server.Config, calls: seq<Server.Call>, r: F.L1Receipt, anchors: seq<Trust.TrustAnchor>,
                            circulating: set<Bytes>, log: set<F.L1Receipt>, t: real)
    requires FloatsSound(cfg.crypto.floats) && Receipts.Ed25519Correct(cfg.crypto)
    requires cfg.l1Key.Some? && ClocksExact(cfg, calls) && Receipts.FieldsWellFormed(r)
    requires FromAnswers(Server.Run(cfg, calls).answered, log) && Receipts.InCirculation(r, circulating)
    requires Receipts.SignedOnly(cfg.crypto, cfg.crypto.publicKey(cfg.l1Key.value), circulating, log)
    requires Trust.PinnedKey(r, anchors) == Some(cfg.crypto.publicKey(cfg.l1Key.value))
    requires Trust.Accepts(cfg.crypto, r, anchors, t)
    ensures exists v, s :: v in Server.Run(cfg, calls).answered && Carries(v, s) && Receipts.SameSigned(r, s)
                           && Receipts.SignedValue(r[F.Verdict]) == PyStr(VerdictText(v.verdict))
  {
    var answered := Server.Run(cfg, calls).answered;
    forall v | v in answered ensures Honest(v) { AnswersHonest(cfg, calls, v); }
    AcceptedFromAnswers(cfg.crypto, answered, r, anchors, circulating, log, t, cfg.crypto.publicKey(cfg.l1Key.value));
  }

  lemma AcceptedFromAnswers(c: Receipts.Crypto, answered: seq<VerificationResult>, r: F.L1Receipt,
                            anchors: seq<Trust.TrustAnchor>, circulating: set<Bytes>, log: set<F.L1Receipt>, t: real, pk: Bytes)
    requires FloatsSound(c.floats) && Receipts.FieldsWellFormed(r) && forall v :: v in answered ==> Honest(v)
    requires FromAnswers(answered, log) && Receipts.InCirculation(r, circulating)
    requires Receipts.SignedOnly(c, pk, circulating, log) && Trust.PinnedKey(r, anchors) == Some(pk)
    requires Trust.Accepts(c, r, anchors, t)
    ensures exists v, s :: v in answered && Carries(v, s) && Receipts.SameSigned(r, s)
                           && Receipts.SignedValue(r[F.Verdict]) == PyStr(VerdictText(v.verdict))
  {
    forall s | s in log ensures Receipts.FieldsWellFormed(s) {
      var v :| v in answered && Carries(v, s);
      CarriedHonest(v, s);
    }
    Trust.AcceptedIsAuthentic(c, r, anchors, t, circulating, log);
    var s :| s in log && Receipts.SameSigned(r, s);
    var v :| v in answered && Carries(v, s);
    CarriedHonest(v, s);
    SignedText(r, s, F.Verdict, VerdictText(v.verdict));
  }

  lemma SignedText(r: F.L1Receipt, s: F.L1Receipt, f: F.Field, text: string)
    requires Receipts.SameSigned(r, s) && f != F.Signature && s[f] == PyStr(text)
    ensures Receipts.SignedValue(r[f]) == PyStr(text)
  {
    assert SameJson(Jcs, Receipts.SignedValue(r[f]), Receipts.SignedValue(s[f]));
  }

  // ---------------------------------------------------------------- what an accepted allow proves

  /** v is what verify answered to this command when n sequence numbers had been taken. */
  ghost predicate AnswerTo(cfg: Server.Config, c: Server.Call, n: nat, v: VerificationResult) {
    Server.EndingOf(cfg, n, c.cmd, c.clk).answer == Ok(v)
  }

  lemma {:induction false} AnsweredBy(cfg: Server.Config, calls: seq<Server.Call>, v: VerificationResult)
    returns (i: nat, n: nat)
    requires v in Server.Run(cfg, calls).answered
    ensures i < |calls| && AnswerTo(cfg, calls[i], n, v)
    decreases |calls|
  {
    var before, c := calls[..|calls| - 1], calls[|calls| - 1];
    LastAnswer(cfg, calls);
    if v in Server.Run(cfg, before).answered {
      i, n := AnsweredBy(cfg, before, v);
    } else {
      i, n := |calls| - 1, Server.Run(cfg, before).st.sequence;
    }
  }

  lemma AnswerVerdict(cfg: Server.Config, c: Server.Call, n: nat, v: VerificationResult)
    requires AnswerTo(cfg, c, n, v)
    ensures Server.ScanOf(cfg, c.cmd, c.clk).Ok? && Server.ScanOf(cfg, c.cmd, c.clk).value.verdict == v.verdict
    ensures v.tool == c.cmd.tool && v.traceId == c.cmd.traceId
  {
  }

  /** Every rule of the configuration answers allow, also those the loop would not have reached. */
  ghost predicate AllAllow(cfg: Server.Config, cmd: Command) {
    forall j :: 0 <= j < |cfg.rules| ==> Rules.Allows(cfg.rules[j].evaluate(cmd))
  }

  lemma AllowedByAll(cfg: Server.Config, c: Server.Call, n: nat, v: VerificationResult)
    requires AnswerTo(cfg, c, n, v) && v.verdict == Allow
    ensures AllAllow(cfg, c.cmd)
  {
    AnswerVerdict(cfg, c, n, v);
    var answers := Rules.AnswersOf(cfg.rules, c.cmd);
    Rules.AllowExact(answers, c.clk.latency);
    forall j | 0 <= j < |cfg.rules| ensures Rules.Allows(cfg.rules[j].evaluate(c.cmd)) { assert Rules.Allows(answers[j]); }
  }

  /** The receipt names the command's tool and trace id and carries the hash of the request. */
  ghost predicate NamesRequest(c: Receipts.Crypto, r: F.L1Receipt, cmd: Command) {
    && Receipts.SignedValue(r[F.Tool]) == PyStr(cmd.tool) && Receipts.SignedValue(r[F.TraceId]) == PyStr(cmd.traceId)
    && Builder.ComputeHash(c, Server.RequestData(cmd)).Ok?
    && Receipts.SignedValue(r[F.RequestHash]) == PyStr(Builder.ComputeHash(c, Server.RequestData(cmd)).value)
  }

  lemma CarriedNames(cfg: Server.Config, c: Server.Call, n: nat, v: VerificationResult, s: F.L1Receipt, r: F.L1Receipt)
    requires Receipts.Ed25519Correct(cfg.crypto) && cfg.l1Key.Some? && Issuing.ClockExact(cfg, c.clk)
    requires AnswerTo(cfg, c, n, v) && Carries(v, s) && Receipts.SameSigned(r, s)
    ensures NamesRequest(cfg.crypto, r, c.cmd)
  {
    AnswerCarries(cfg, n, c.cmd, c.clk);
    var own := ReceiptOf(cfg, n + 1, c.cmd, c.clk).value;
    DictInjective(own, s);
    IssuedSays(cfg, n, c.cmd, c.clk);
    ReceiptRequestHash(cfg, n + 1, c.cmd, c.clk);
    AnswerVerdict(cfg, c, n, v);
    SignedText(r, s, F.Tool, c.cmd.tool);
    SignedText(r, s, F.TraceId, c.cmd.traceId);
    SignedText(r, s, F.RequestHash, Builder.ComputeHash(cfg.crypto, Server.RequestData(c.cmd)).value);
  }

  /** A receipt that is accepted and says "allow" comes from a call on which every rule of the configuration
      answered allow, and names that call's request. */
  lemma AcceptedAllow(cfg: Server.Config, calls: seq<Server.Call>, r: F.L1Receipt, anchors: seq<Trust.TrustAnchor>,
                      circulating: set<Bytes>, log: set<F.L1Receipt>, t: real)
    requires FloatsSound(cfg.crypto.floats) && Receipts.Ed25519Correct(cfg.crypto)
    requires cfg.l1Key.Some? && ClocksExact(cfg, calls) && Receipts.FieldsWellFormed(r)
    requires FromAnswers(Server.Run(cfg, calls).answered, log) && Receipts.InCirculation(r, circulating)
    requires Receipts.SignedOnly(cfg.crypto, cfg.crypto.publicKey(cfg.l1Key.value), circulating, log)
    requires Trust.PinnedKey(r, anchors) == Some(cfg.crypto.publicKey(cfg.l1Key.value))
    requires Trust.Accepts(cfg.crypto, r, anchors, t) && Receipts.SignedValue(r[F.Verdict]) == PyStr(VerdictText(Allow))
    ensures exists i :: 0 <= i < |calls| && AllAllow(cfg, calls[i].cmd) && NamesRequest(cfg.crypto, r, calls[i].cmd)
  {
    AcceptedWasAnswered(cfg, calls, r, anchors, circulating, log, t);
    var v, s :| v in Server.Run(cfg, calls).answered && Carries(v, s) && Receipts.SameSigned(r, s)
                && Receipts.SignedValue(r[F.Verdict]) == PyStr(VerdictText(v.verdict));
    VerdictTexts(v.verdict);
    VerdictTexts(Allow);
    var i, n := AnsweredBy(cfg, calls, v);
    AllowedByAll(cfg, calls[i], n, v);
    CarriedNames(cfg, calls[i], n, v, s, r);
  }

  /** Whoever knows a request with the hash such a receipt carries knows the request the rules allowed, as
      long as the hash tells the two apart. */
  lemma NamedIsSame(c: Receipts.Crypto, r: F.L1Receipt, a: Command, b: Command)
    requires FloatsSound(c.floats) && NamesRequest(c, r, a) && NamesRequest(c, r, b)
    requires WellFormed(a.params) && IsDouble(a.timestamp) && WellFormed(b.params) && IsDouble(b.timestamp)
    requires ToldApart(c, Server.RequestData(a), Server.RequestData(b))
    ensures SameRequest(a, b)
  {
    RequestWellFormed(a);
    RequestWellFormed(b);
    HashSame(c, Server.RequestData(a), Server.RequestData(b));
    RequestSame(a, b);
  }

  /** So an accepted receipt that says "allow" and names a request proves that every rule answered allow to
      that very request, as long as the hash tells it from the other requests of the run. */
  lemma RequestAllowed(cfg: Server.Config, calls: seq<Server.Call>, r: F.L1Receipt, anchors: seq<Trust.TrustAnchor>,
                       circulating: set<Bytes>, log: set<F.L1Receipt>, t: real, b: Command)
    requires FloatsSound(cfg.crypto.floats) && Receipts.Ed25519Correct(cfg.crypto)
    requires cfg.l1Key.Some? && ClocksExact(cfg, calls) && Receipts.FieldsWellFormed(r)
    requires FromAnswers(Server.Run(cfg, calls).answered, log) && Receipts.InCirculation(r, circulating)
    requires Receipts.SignedOnly(cfg.crypto, cfg.crypto.publicKey(cfg.l1Key.value), circulating, log)
    requires Trust.PinnedKey(r, anchors) == Some(cfg.crypto.publicKey(cfg.l1Key.value))
    requires Trust.Accepts(cfg.crypto, r, anchors, t) && Receipts.SignedValue(r[F.Verdict]) == PyStr(VerdictText(Allow))
    requires NamesRequest(cfg.crypto, r, b) && WellFormed(b.params) && IsDouble(b.timestamp)
    requires forall i :: 0 <= i < |calls| ==>
               && WellFormed(calls[i].cmd.params) && IsDouble(calls[i].cmd.timestamp)
               && ToldApart(cfg.crypto, Server.RequestData(calls[i].cmd), Server.RequestData(b))
    ensures exists i :: 0 <= i < |calls| && AllAllow(cfg, calls[i].cmd) && SameRequest(calls[i].cmd, b)
  {
    AcceptedAllow(cfg, calls, r, anchors, circulating, log, t);
    var i :| 0 <= i < |calls| && AllAllow(cfg, calls[i].cmd) && NamesRequest(cfg.crypto, r, calls[i].cmd);
    NamedIsSame(cfg.crypto, r, calls[i].cmd, b);
  }

  // ---------------------------------------------------------------- Level-0 receipts

  /** The payload behind the Level-0 receipt of an answer gives its six fields back, and the verdict can be
      recomputed from the rule summary among them. */
  lemma L0Recomputable(cfg: Server.Config, cmd: Command, clk: Server.Clock)
    requires FloatsSound(cfg.crypto.floats) && IsDouble(clk.now)
    requires Server.ScanOf(cfg, cmd, clk).Ok? && ParamsHash(cfg.crypto, cmd.params).Ok?
    requires var scan, paramsHash := Server.ScanOf(cfg, cmd, clk).value, ParamsHash(cfg.crypto, cmd.params).value;
             && ':' !in cmd.traceId && ':' !in paramsHash
             && forall i :: 0 <= i < |scan.results| ==> ':' !in scan.results[i].ruleName && '|' !in scan.results[i].ruleName
    ensures var scan, paramsHash := Server.ScanOf(cfg, cmd, clk).value, ParamsHash(cfg.crypto, cmd.params).value;
            var x := Server.L0Of(cmd, scan, paramsHash, clk);
            && ReadPayload(cfg.crypto.floats, L0Payload(cfg.crypto.floats, x)) == Some(x)
            && var items := ReadSummary(x.ruleSummary);
               && items == Some(NamedVerdicts(scan.results))
               && x.verdict == Rules.Worst(seq(|items.value|, i requires 0 <= i < |items.value| => items.value[i].1))
  {
    var scan, paramsHash := Server.ScanOf(cfg, cmd, clk).value, ParamsHash(cfg.crypto, cmd.params).value;
    SummaryColonFree(scan.results);
    PayloadRecovered(cfg.crypto.floats, Server.L0Of(cmd, scan, paramsHash, clk));
    SummaryRecovered(scan.results);
    Rules.VerdictFromResults(Rules.AnswersOf(cfg.rules, cmd), clk.latency);
    var items := NamedVerdicts(scan.results);
    assert seq(|items|, i requires 0 <= i < |items| => items[i].1) == Rules.Verdicts(scan.results);
  }

  lemma SummaryColonFree(rs: seq<RuleResult>)
    requires forall i :: 0 <= i < |rs| ==> ':' !in rs[i].ruleName
    ensures ':' !in RuleSummary(rs)
  {
    var items := SummaryItems(rs);
    forall i | 0 <= i < |items| ensures ':' !in items[i] {
      VerdictTexts(rs[i].verdict);
    }
    JoinFree(items, '|', ':');
  }

  lemma {:induction false} JoinFree(items: seq<string>, sep: char, c: char)
    requires c != sep && forall i :: 0 <= i < |items| ==> c !in items[i]
    ensures c !in Texts.Join(items, sep)
  {
    if |items| > 1 { JoinFree(items[1..], sep, c); }
  }

  // ---------------------------------------------------------------- all the way

  /** What a verify call over the wire brings home: its result names a verdict, and the receipt in it, read
      with from_dict, repeats the server's answer and is accepted for as long as the server's own. */
  lemma ReturnedReceiptAccepted(cfg: Server.Config, wire: Remote.Wire, m: Session.Config<Server.State, Remote.Tick>,
                                s: Session.State<Server.State, Remote.Tick>, k: nat, cmd: Command, now: real,
                                dflt: F.L1Receipt, anchors: seq<Trust.TrustAnchor>, t: real)
    requires Receipts.Ed25519Correct(cfg.crypto) && RoundTrip.HashesSized(cfg.crypto) && RoundTrip.NoNones(dflt)
    requires cfg.l1Key.Some? && Issuing.Pinned(cfg.crypto, cfg.issuer, cfg.crypto.publicKey(cfg.l1Key.value), anchors)
    requires Remote.LocalAtSomeMoment(cfg, wire, m, s, k, cmd, now)
    requires var clk := s.log[Guarantees.Place(s, k)].tick.clk;
             && Issuing.ClockExact(cfg, clk)
             && (Server.ScanOf(cfg, cmd, clk).Ok? ==> Short(cfg, cmd, Server.ScanOf(cfg, cmd, clk).value))
    ensures var clk := s.log[Guarantees.Place(s, k)].tick.clk;
            var v := Remote.ParseReply(cfg.crypto.floats, s.calls[k].phase.reply, now).value;
            && v.l1Receipt.Some? && v.l1Receipt.value.PyDict?
            && var receipt := FromDict.Outcome(RoundTrip.TableOf(v.l1Receipt.value.entries), true, dflt);
               && receipt.Ok? && receipt.value[F.Verdict] == PyStr(VerdictText(v.verdict))
               && receipt.value[F.TraceId] == PyStr(cmd.traceId) && receipt.value[F.Tool] == PyStr(cmd.tool)
               && receipt.value[F.ParamsHash] == PyStr(v.paramsHash)
               && (Trust.Accepts(cfg.crypto, receipt.value, anchors, t) <==> t <= clk.now + 300.0 + cfg.clockSkew)
  {
    var at := Guarantees.Place(s, k);
    var clk := s.log[at].tick.clk;
    var n := ServerLog.ServerAfter(m, Server.INITIAL, s.log[..at]).sequence;
    var v := Remote.ParseReply(cfg.crypto.floats, s.calls[k].phase.reply, now).value;
    var e := Server.EndingOf(cfg, n, cmd, clk);
    AnswerCarries(cfg, n, cmd, clk);
    AnswerNames(cfg, n, cmd, clk);
    RemoteReceiptAccepted(cfg, n, cmd, clk, v.l1Receipt.value, dflt, anchors, t);
  }

  lemma AnswerNames(cfg: Server.Config, n: nat, cmd: Command, clk: Server.Clock)
    requires Server.EndingOf(cfg, n, cmd, clk).answer.Ok?
    ensures var v := Server.EndingOf(cfg, n, cmd, clk).answer.value;
            v.traceId == cmd.traceId && v.tool == cmd.tool
  {
  }
}
