/** What an answer of the server and the receipt in it say, field by field, in terms of the command, the rules' answers,
    the configuration and the clocks. */
module Contents {
  import opened Basics
  import opened KeyOrder
  import opened PyValues
  import opened Protocol
  import F = ReceiptFields
  import Base64
  import Builder
  import Canonical
  import Drafting
  import Issuing
  import Messages
  import Receipts
  import Rules
  import Server
  import Utf8

  /** p is the first n characters of s, or all of it. */
  predicate IsFirst(p: string, s: string, n: nat) { p <= s && |p| == if |s| < n then |s| else n }

  lemma PrefixIsFirst(s: string, n: nat)
    ensures IsFirst(Receipts.Prefix(s, n), s, n)
  {
  }

  /** The hash of the parameters: sixteen hexadecimal digits over their sorted JSON text. */
  ghost predicate ParamsHashed(c: Receipts.Crypto, params: PyValue, h: string) {
    Canonical.DumpsText(c.floats, params).Ok? && IsFirst(h, c.sha256(Utf8.Encode(Canonical.DumpsText(c.floats, params).value)), 16)
  }

  /** The Level-0 receipt: thirty-two hexadecimal digits of the HMAC over six fields with colons between them. */
  ghost predicate L0Signed(c: Receipts.Crypto, secret: Bytes, v: VerificationResult) {
    IsFirst(v.receipt,
            c.hmac(secret, Utf8.Encode(v.traceId + ":" + VerdictText(v.verdict) + ":" + c.floats.repr(v.verifiedAt) + ":" +
                                       v.tool + ":" + v.paramsHash + ":" + RuleSummary(v.ruleResults))),
            32)
  }

  /** v answers a command: verdict, reason, code and results are what the rules told, the other fields are those of the
      command and the clock, and the receipts cover them. */
  ghost predicate IsAnswer(cfg: Server.Config, cmd: Command, clk: Server.Clock, v: VerificationResult) {
    && Rules.Told(Rules.AnswersOf(cfg.rules, cmd), clk.latency, Rules.Scan(v.ruleResults, v.verdict, v.blockReason, v.errorCode))
    && v.traceId == cmd.traceId && v.tool == cmd.tool && v.verifiedAt == clk.now
    && ParamsHashed(cfg.crypto, cmd.params, v.paramsHash)
    && L0Signed(cfg.crypto, cfg.signingKey, v)
    && (v.l1Receipt.Some? <==> cfg.l1Key.Some?)
  }

  lemma HashedParams(c: Receipts.Crypto, params: PyValue)
    ensures ParamsHash(c, params).Ok? <==> Canonical.DumpsText(c.floats, params).Ok?
    ensures ParamsHash(c, params).Ok? ==> ParamsHashed(c, params, ParamsHash(c, params).value)
    ensures ParamsHash(c, params).Err? ==> ParamsHash(c, params) == Err(TypeError)
  {
    if ParamsHash(c, params).Ok? { PrefixIsFirst(c.sha256(Utf8.Encode(Canonical.DumpsText(c.floats, params).value)), 16); }
  }

  lemma ResultAnswers(cfg: Server.Config, cmd: Command, scan: Rules.Scan, paramsHash: string, l1: Option<F.L1Receipt>, clk: Server.Clock)
    requires Rules.Told(Rules.AnswersOf(cfg.rules, cmd), clk.latency, scan)
    requires ParamsHashed(cfg.crypto, cmd.params, paramsHash) && (l1.Some? <==> cfg.l1Key.Some?)
    ensures IsAnswer(cfg, cmd, clk, Server.ResultOf(cfg, cmd, scan, paramsHash, l1, clk))
  {
    var v := Server.ResultOf(cfg, cmd, scan, paramsHash, l1, clk);
    assert Rules.Scan(v.ruleResults, v.verdict, v.blockReason, v.errorCode) == scan;
    L0Covers(cfg, cmd, scan, paramsHash, l1, clk);
  }

  lemma L0Covers(cfg: Server.Config, cmd: Command, scan: Rules.Scan, paramsHash: string, l1: Option<F.L1Receipt>, clk: Server.Clock)
    ensures L0Signed(cfg.crypto, cfg.signingKey, Server.ResultOf(cfg, cmd, scan, paramsHash, l1, clk))
  {
    var x := Server.L0Of(cmd, scan, paramsHash, clk);
    PrefixIsFirst(cfg.crypto.hmac(cfg.signingKey, Utf8.Encode(L0Payload(cfg.crypto.floats, x))), 32);
  }

  /** What verify returns is an answer; what it raises is the exception of the first rule that raises before any denies,
      or a TypeError for parameters json.dumps cannot write, or comes from the Level-1 receipt. */
  lemma AnswerContent(cfg: Server.Config, n: nat, cmd: Command, clk: Server.Clock)
    ensures var e := Server.EndingOf(cfg, n, cmd, clk);
            match e.answer
            case Ok(v) => IsAnswer(cfg, cmd, clk, v)
            case Err(error) =>
              || (exists i: nat :: Rules.RaisedBy(Rules.AnswersOf(cfg.rules, cmd), i, error))
              || (error == TypeError && Canonical.DumpsText(cfg.crypto.floats, cmd.params).Err?)
              || (cfg.l1Key.Some? && e.numbered)
  {
    var answers, scan := Rules.AnswersOf(cfg.rules, cmd), Server.ScanOf(cfg, cmd, clk);
    Rules.OutcomeExact(answers, clk.latency, scan);
    HashedParams(cfg.crypto, cmd.params);
    if scan.Ok? && ParamsHash(cfg.crypto, cmd.params).Ok? {
      EndsInAnswer(cfg, n, cmd, clk, scan.value, ParamsHash(cfg.crypto, cmd.params).value);
    }
  }

  lemma EndsInAnswer(cfg: Server.Config, n: nat, cmd: Command, clk: Server.Clock, scan: Rules.Scan, paramsHash: string)
    requires Rules.Told(Rules.AnswersOf(cfg.rules, cmd), clk.latency, scan) && ParamsHashed(cfg.crypto, cmd.params, paramsHash)
    ensures var e := Server.EndingFrom(cfg, n, cmd, clk, scan, paramsHash);
            if e.answer.Ok? then IsAnswer(cfg, cmd, clk, e.answer.value) else cfg.l1Key.Some? && e.numbered
  {
    if cfg.l1Key.None? {
      ResultAnswers(cfg, cmd, scan, paramsHash, None, clk);
    } else {
      var issued := Server.IssueReceipt(cfg, cfg.l1Key.value, n + 1, cmd, scan, paramsHash, clk);
      if issued.Ok? { ResultAnswers(cfg, cmd, scan, paramsHash, Some(issued.value), clk); }
    }
  }

  /** A caller may try again exactly when the rule that denied names the code for latency. */
  lemma RetryableExact(cfg: Server.Config, n: nat, cmd: Command, clk: Server.Clock)
    ensures var answer, answers := Server.EndingOf(cfg, n, cmd, clk).answer, Rules.AnswersOf(cfg.rules, cmd);
            answer.Ok? ==>
              (Retryable(answer.value) <==>
                 exists i: nat :: i < |answers| && Rules.Passed(answers, i) && answers[i].Ok? && answers[i].value.verdict == Deny
                                  && answers[i].value.errorCode == -32005)
  {
    AnswerContent(cfg, n, cmd, clk);
    var answer := Server.EndingOf(cfg, n, cmd, clk).answer;
    if answer.Ok? { ToldRetryable(Rules.AnswersOf(cfg.rules, cmd), clk.latency, answer.value); }
  }

  lemma ToldRetryable(answers: Rules.Answers, latency: nat -> real, v: VerificationResult)
    requires Rules.Told(answers, latency, Rules.Scan(v.ruleResults, v.verdict, v.blockReason, v.errorCode))
    ensures Retryable(v) <==>
              exists i: nat :: i < |answers| && Rules.Passed(answers, i) && answers[i].Ok? && answers[i].value.verdict == Deny
                               && answers[i].value.errorCode == -32005
  {
    var scan := Rules.Scan(v.ruleResults, v.verdict, v.blockReason, v.errorCode);
    match v.verdict
    case Deny =>
      var n: nat :| Rules.DeniedBy(answers, n, latency, scan);
      forall i: nat | i < |answers| && Rules.Passed(answers, i) && answers[i].Ok? && answers[i].value.verdict == Deny ensures i == n {
      }
    case _ =>
  }

  // ---------------------------------------------------------------- the Level-1 receipt

  function Named(k: string, v: PyValue): PyEntry { PyEntry(PyStr(k), v) }

  /** The names of the rules asked. */
  ghost predicate AreNames(names: seq<PyValue>, rs: seq<RuleResult>) {
    |names| == |rs| && forall i :: 0 <= i < |rs| ==> names[i] == PyStr(rs[i].ruleName)
  }

  /** SHA-256 over the canonical JSON of data, or over data itself if it is text. */
  ghost predicate Digests(c: Receipts.Crypto, data: PyValue, v: PyValue) {
    if data.PyStr? then v == PyStr(c.sha256(Utf8.Encode(data.s)))
    else Canonical.CanonicalJson(c.floats, data).Ok? && v == PyStr(c.sha256(Canonical.CanonicalJson(c.floats, data).value))
  }

  /** The five digests: of the parameters, the request, the response, the context and the configuration. */
  ghost predicate SaysDigests(cfg: Server.Config, cmd: Command, v: VerificationResult, s: F.L1Receipt) {
    && Digests(cfg.crypto, cmd.params, s[F.ArgsDigest])
    && Digests(cfg.crypto,
               PyDict([Named("agent_id", PyStr(cmd.agentId)), Named("tool", PyStr(cmd.tool)), Named("params", cmd.params),
                       Named("timestamp", PyFloat(cmd.timestamp)), Named("trace_id", PyStr(cmd.traceId))]),
               s[F.RequestHash])
    && (exists names :: AreNames(names, v.ruleResults)
          && Digests(cfg.crypto,
                     PyDict([Named("verdict", PyStr(VerdictText(v.verdict))), Named("rule_results", PyList(names)),
                             Named("block_reason", PyStr(v.blockReason))]),
                     s[F.ResponseHash]))
    && Digests(cfg.crypto,
               PyDict([Named("python_version", PyStr("3.x")), Named("mode", PyStr(cfg.deploymentMode))]),
               s[F.RuntimeContextHash])
    && Digests(cfg.crypto, PyDict([Named("rules", PyStr(cfg.configHash))]), s[F.ConfigHash])
  }

  /** What the receipt repeats of the answer. */
  ghost predicate SaysAnswer(n: nat, v: VerificationResult, s: F.L1Receipt) {
    && s[F.TraceId] == PyStr(v.traceId) && s[F.Verdict] == PyStr(VerdictText(v.verdict)) && s[F.Tool] == PyStr(v.tool)
    && s[F.ParamsHash] == PyStr(v.paramsHash) && s[F.RuleSummary] == PyStr(RuleSummary(v.ruleResults))
    && s[F.Action] == PyStr("ccs.verify." + VerdictText(v.verdict)) && s[F.Sequence] == PyInt(n)
  }

  /** What it states of the server and the agent. */
  ghost predicate SaysParties(cfg: Server.Config, cmd: Command, s: F.L1Receipt) {
    && s[F.ReceiptVersion] == PyStr("1.1") && s[F.ToolCallId] == PyStr("") && s[F.RuleVersion] == PyStr(cfg.ruleVersion)
    && s[F.VerifierSourceClass] == PyStr(cfg.sourceClass) && s[F.DeploymentMode] == PyStr(cfg.deploymentMode)
    && s[F.Issuer] == PyStr(cfg.issuer)
    && s[F.Audience] == PyStr(if cfg.audience != "" then cfg.audience else cmd.agentId)
  }

  /** The nonce is the start of the trace id if there is one; the times are those of the decision, and the two stamps
      are moved up to the time of issue if it is positive and lies less than a second after the first. */
  ghost predicate SaysTimes(cfg: Server.Config, cmd: Command, clk: Server.Clock, s: F.L1Receipt) {
    var issued := clk.now - cfg.clockSkew;
    var moved := issued > 0.0 && 0.0 < issued - clk.stamp < 1.0;
    && s[F.IssuedAt] == PyFloat(issued) && s[F.ExpiresAt] == PyFloat(clk.now + 300.0)
    && s[F.MaxClockSkew] == PyFloat(cfg.clockSkew) && s[F.LatencyUs] == PyFloat(clk.total)
    && s[F.Timestamp] == PyFloat(if moved then issued else clk.stamp)
    && s[F.VerifiedAt] == PyFloat(if moved then issued else clk.verified)
    && s[F.Nonce].PyStr? && if cmd.traceId == "" then s[F.Nonce].s == clk.nonce else IsFirst(s[F.Nonce].s, cmd.traceId, 16)
  }

  /** The signature is that of the server's key, which is embedded. */
  ghost predicate SaysKey(c: Receipts.Crypto, key: Bytes, s: F.L1Receipt) {
    && s[F.SigningAlgorithm] == PyStr("Ed25519") && s[F.PublicKey] == PyStr(Base64.Encode(c.publicKey(key)))
    && s[F.PublicKeyFingerprint].PyStr? && IsFirst(s[F.PublicKeyFingerprint].s, c.sha256(c.publicKey(key)), 16)
    && Receipts.SigningPayload(c, s).Ok?
    && s[F.Signature] == PyStr(Base64.Encode(c.sign(key, Receipts.SigningPayload(c, s).value)))
  }

  lemma Hashed(c: Receipts.Crypto, data: PyValue)
    ensures Builder.ComputeHash(c, data).Ok? ==> Digests(c, data, PyStr(Builder.ComputeHash(c, data).value))
  {
  }

  lemma RequestDict(cmd: Command)
    ensures Server.RequestData(cmd) ==
            PyDict([Named("agent_id", PyStr(cmd.agentId)), Named("tool", PyStr(cmd.tool)), Named("params", cmd.params),
                    Named("timestamp", PyFloat(cmd.timestamp)), Named("trace_id", PyStr(cmd.traceId))])
  {
  }

  lemma ResponseDict(scan: Rules.Scan)
    ensures AreNames(Server.RuleNames(scan.results), scan.results)
    ensures Server.ResponseData(scan) ==
            PyDict([Named("verdict", PyStr(VerdictText(scan.verdict))), Named("rule_results", PyList(Server.RuleNames(scan.results))),
                    Named("block_reason", PyStr(scan.blockReason))])
  {
  }

  lemma ContextDicts(cfg: Server.Config)
    ensures Server.RuntimeContext(cfg) ==
            PyDict([Named("python_version", PyStr("3.x")), Named("mode", PyStr(cfg.deploymentMode))])
    ensures Messages.Record(["rules"], [PyStr(cfg.configHash)]) == PyDict([Named("rules", PyStr(cfg.configHash))])
  {
  }

  /** The digests of a draft are those of the five values. */
  ghost predicate Covers(cfg: Server.Config, cmd: Command, scan: Rules.Scan, d: Server.Digests) {
    && Builder.ComputeHash(cfg.crypto, cmd.params) == Ok(d.args)
    && Builder.ComputeHash(cfg.crypto, Server.RequestData(cmd)) == Ok(d.request)
    && Builder.ComputeHash(cfg.crypto, Server.ResponseData(scan)) == Ok(d.response)
    && Builder.ComputeHash(cfg.crypto, Server.RuntimeContext(cfg)) == Ok(d.context)
    && Builder.ComputeHash(cfg.crypto, Messages.Record(["rules"], [PyStr(cfg.configHash)])) == Ok(d.config)
  }

  lemma DigestsCover(cfg: Server.Config, cmd: Command, scan: Rules.Scan, d: Server.Digests)
    requires Server.DigestsOf(cfg, cmd, scan) == Ok(d)
    ensures Covers(cfg, cmd, scan, d)
  {
  }

  lemma CoveredDigests(cfg: Server.Config, cmd: Command, v: VerificationResult, scan: Rules.Scan, d: Server.Digests, s: F.L1Receipt)
    requires Covers(cfg, cmd, scan, d)
    requires v.verdict == scan.verdict && v.ruleResults == scan.results && v.blockReason == scan.blockReason
    requires s[F.ArgsDigest] == PyStr(d.args) && s[F.RequestHash] == PyStr(d.request) && s[F.ResponseHash] == PyStr(d.response)
    requires s[F.RuntimeContextHash] == PyStr(d.context) && s[F.ConfigHash] == PyStr(d.config)
    ensures SaysDigests(cfg, cmd, v, s)
  {
    var c := cfg.crypto;
    Hashed(c, cmd.params);
    Hashed(c, Server.RequestData(cmd));
    Hashed(c, Server.ResponseData(scan));
    Hashed(c, Server.RuntimeContext(cfg));
    Hashed(c, Messages.Record(["rules"], [PyStr(cfg.configHash)]));
    RequestDict(cmd);
    ResponseDict(scan);
    ContextDicts(cfg);
  }

  /** The value of a field that neither build nor signing sets. */
  lemma IssuedField(x: Drafting.Inputs, r: F.L1Receipt, s: F.L1Receipt, f: F.Field)
    requires Issuing.IsDraft(x.cfg, x.sequence, x.cmd, x.scan, x.paramsHash, x.d, x.clk, r) && Issuing.Kept(r, s)
    requires !Issuing.SetByBuild(f)
    ensures s[f] == Drafting.TableValue(x, f)
  {
  }

  /** An issued receipt holds the table's values in these fields. */
  ghost predicate Holds(x: Drafting.Inputs, s: F.L1Receipt) {
    forall f: F.Field :: !Issuing.SetByBuild(f) ==> s[f] == Drafting.TableValue(x, f)
  }

  lemma IssuedHolds(x: Drafting.Inputs, r: F.L1Receipt, s: F.L1Receipt)
    requires Issuing.IsDraft(x.cfg, x.sequence, x.cmd, x.scan, x.paramsHash, x.d, x.clk, r) && Issuing.Kept(r, s)
    ensures Holds(x, s)
  {
    forall f: F.Field | !Issuing.SetByBuild(f) ensures s[f] == Drafting.TableValue(x, f) { IssuedField(x, r, s, f); }
  }

  lemma HeldAnswer(x: Drafting.Inputs, v: VerificationResult, s: F.L1Receipt)
    requires Holds(x, s)
    requires v.traceId == x.cmd.traceId && v.tool == x.cmd.tool && v.paramsHash == x.paramsHash
    requires v.verdict == x.scan.verdict && v.ruleResults == x.scan.results
    ensures SaysAnswer(x.sequence, v, s)
  {
  }

  lemma HeldParties(x: Drafting.Inputs, s: F.L1Receipt)
    requires Holds(x, s)
    ensures SaysParties(x.cfg, x.cmd, s)
  {
  }

  lemma HeldDigests(x: Drafting.Inputs, s: F.L1Receipt)
    requires Holds(x, s)
    ensures s[F.ArgsDigest] == PyStr(x.d.args) && s[F.RequestHash] == PyStr(x.d.request) && s[F.ResponseHash] == PyStr(x.d.response)
    ensures s[F.RuntimeContextHash] == PyStr(x.d.context) && s[F.ConfigHash] == PyStr(x.d.config)
  {
  }

  lemma DraftTimes(x: Drafting.Inputs, r: F.L1Receipt)
    requires Issuing.IsDraft(x.cfg, x.sequence, x.cmd, x.scan, x.paramsHash, x.d, x.clk, r)
    ensures r[F.IssuedAt] == PyFloat(x.clk.now - x.cfg.clockSkew) && r[F.ExpiresAt] == PyFloat(x.clk.now + 300.0)
    ensures r[F.Timestamp] == PyFloat(x.clk.stamp) && r[F.VerifiedAt] == PyFloat(x.clk.verified)
  {
  }

  lemma HeldTimes(x: Drafting.Inputs, s: F.L1Receipt)
    requires Holds(x, s)
    ensures s[F.IssuedAt] == PyFloat(x.clk.now - x.cfg.clockSkew) && s[F.ExpiresAt] == PyFloat(x.clk.now + 300.0)
    ensures s[F.MaxClockSkew] == PyFloat(x.cfg.clockSkew) && s[F.LatencyUs] == PyFloat(x.clk.total)
    ensures s[F.Nonce] == PyStr(if x.cmd.traceId != "" then Receipts.Prefix(x.cmd.traceId, 16) else x.clk.nonce)
  {
  }

  /** The two time stamps after build. */
  lemma BuiltStamps(c: Receipts.Crypto, r: F.L1Receipt, key: Bytes, s: F.L1Receipt,
                    issued: real, stamp: real, verified: real, expires: real)
    requires r[F.IssuedAt] == PyFloat(issued) && r[F.ExpiresAt] == PyFloat(expires)
    requires r[F.Timestamp] == PyFloat(stamp) && r[F.VerifiedAt] == PyFloat(verified)
    requires Builder.Built(c, r, Some(key)) == Ok(s)
    ensures var moved := issued > 0.0 && 0.0 < issued - stamp < 1.0;
            && s[F.Timestamp] == PyFloat(if moved then issued else stamp)
            && s[F.VerifiedAt] == PyFloat(if moved then issued else verified)
    ensures SaysKey(c, key, s)
  {
    Builder.BuildExact(c, r, key, issued, stamp, expires);
    var moved := issued > 0.0 && 0.0 < issued - stamp < 1.0;
    var a: F.L1Receipt := if moved then r[F.Timestamp := r[F.IssuedAt]][F.VerifiedAt := r[F.IssuedAt]] else r;
    Receipts.SignKeeps(c, a, key, F.Timestamp);
    Receipts.SignKeeps(c, a, key, F.VerifiedAt);
    SignedKey(c, a, key, s);
  }

  lemma SignedKey(c: Receipts.Crypto, a: F.L1Receipt, key: Bytes, s: F.L1Receipt)
    requires Receipts.Sign(c, a, key) == Ok(s)
    ensures SaysKey(c, key, s)
  {
    Receipts.SignedShape(c, a, key);
    PrefixIsFirst(c.sha256(c.publicKey(key)), 16);
  }

  lemma BuiltTimes(x: Drafting.Inputs, r: F.L1Receipt, key: Bytes, s: F.L1Receipt)
    requires Issuing.IsDraft(x.cfg, x.sequence, x.cmd, x.scan, x.paramsHash, x.d, x.clk, r)
    requires Builder.Built(x.cfg.crypto, r, Some(key)) == Ok(s) && Holds(x, s)
    ensures SaysTimes(x.cfg, x.cmd, x.clk, s) && SaysKey(x.cfg.crypto, key, s)
  {
    DraftTimes(x, r);
    BuiltStamps(x.cfg.crypto, r, key, s, x.clk.now - x.cfg.clockSkew, x.clk.stamp, x.clk.verified, x.clk.now + 300.0);
    HeldTimes(x, s);
    PrefixIsFirst(x.cmd.traceId, 16);
  }

  /** All thirty fields of an issued receipt. */
  ghost predicate IsReceipt(cfg: Server.Config, key: Bytes, n: nat, cmd: Command, clk: Server.Clock, v: VerificationResult,
                            s: F.L1Receipt)
  {
    && SaysAnswer(n, v, s) && SaysParties(cfg, cmd, s) && SaysDigests(cfg, cmd, v, s) && SaysTimes(cfg, cmd, clk, s)
    && SaysKey(cfg.crypto, key, s)
  }

  lemma IssuedContent(cfg: Server.Config, key: Bytes, n: nat, cmd: Command, clk: Server.Clock, scan: Rules.Scan, paramsHash: string,
                      digests: Result<Server.Digests>, v: VerificationResult, s: F.L1Receipt)
    requires digests == Server.DigestsOf(cfg, cmd, scan)
    requires Server.Issue(cfg.crypto, Server.DraftFrom(cfg, n, cmd, scan, paramsHash, digests, clk), key) == Ok(s)
    requires v.traceId == cmd.traceId && v.tool == cmd.tool && v.paramsHash == paramsHash
    requires v.verdict == scan.verdict && v.ruleResults == scan.results && v.blockReason == scan.blockReason
    ensures IsReceipt(cfg, key, n, cmd, clk, v, s)
  {
    var r := Server.DraftFrom(cfg, n, cmd, scan, paramsHash, digests, clk).value;
    Issuing.DraftIs(cfg, n, cmd, scan, paramsHash, digests, clk, r);
    var x := Drafting.Inputs(cfg, n, cmd, scan, paramsHash, digests.value, clk);
    Issuing.BuildKept(cfg.crypto, r, key, s);
    IssuedHolds(x, r, s);
    HeldAnswer(x, v, s);
    HeldParties(x, s);
    HeldDigests(x, s);
    DigestsCover(cfg, cmd, scan, x.d);
    CoveredDigests(cfg, cmd, v, scan, x.d, s);
    BuiltTimes(x, r, key, s);
  }

  /** In Level-1 mode an answer carries a receipt whose thirty fields are these, numbered one above the last. */
  lemma ReceiptContent(cfg: Server.Config, n: nat, cmd: Command, clk: Server.Clock) returns (s: F.L1Receipt)
    requires cfg.l1Key.Some? && Server.EndingOf(cfg, n, cmd, clk).answer.Ok?
    ensures var v := Server.EndingOf(cfg, n, cmd, clk).answer.value;
            v.l1Receipt == Some(Receipts.ToDict(s)) && IsReceipt(cfg, cfg.l1Key.value, n + 1, cmd, clk, v, s)
  {
    var scan, paramsHash := Server.ScanOf(cfg, cmd, clk).value, ParamsHash(cfg.crypto, cmd.params).value;
    s := ReceiptFrom(cfg, n, cmd, clk, scan, paramsHash);
  }

  lemma ReceiptFrom(cfg: Server.Config, n: nat, cmd: Command, clk: Server.Clock, scan: Rules.Scan, paramsHash: string)
    returns (s: F.L1Receipt)
    requires cfg.l1Key.Some? && Server.EndingFrom(cfg, n, cmd, clk, scan, paramsHash).answer.Ok?
    ensures var v := Server.EndingFrom(cfg, n, cmd, clk, scan, paramsHash).answer.value;
            v.l1Receipt == Some(Receipts.ToDict(s)) && IsReceipt(cfg, cfg.l1Key.value, n + 1, cmd, clk, v, s)
  {
    s := Server.IssueReceipt(cfg, cfg.l1Key.value, n + 1, cmd, scan, paramsHash, clk).value;
    IssuedContent(cfg, cfg.l1Key.value, n + 1, cmd, clk, scan, paramsHash, Server.DigestsOf(cfg, cmd, scan),
                  Server.ResultOf(cfg, cmd, scan, paramsHash, Some(s), clk), s);
  }
}
