/** The verifier server: one verify call as a step on its state, and runs of such calls. */
module Server {
  import opened Basics
  import opened PyValues
  import opened Protocol
  import F = ReceiptFields
  import Rules
  import Receipts
  import Builder
  import RoundTrip
  import Canonical
  import opened Messages

  type L1Receipt = F.L1Receipt

  /** What the constructor fixes. The configuration hash covers the rule types, which are not modelled. */
  datatype Config = Config(
    crypto: Receipts.Crypto,
    rules: seq<Rules.Rule>,
    signingKey: Bytes,
    l1Key: Option<Bytes>,
    maxAuditLog: nat,
    sourceClass: string,
    deploymentMode: string,
    issuer: string,
    audience: string,
    clockSkew: real,
    ruleVersion: string,
    configHash: string)

  /** What one call reads from clocks and the random source, in the order of reading:
      rule latencies, the total latency, the time of the decision, and the defaults of the new receipt. */
  datatype Clock = Clock(
    latency: nat -> real, total: real, now: real, stamp: real, nonce: string, verified: real)

  datatype State = State(auditLog: seq<VerificationResult>, requestCount: nat, denyCount: nat, sequence: nat)

  const INITIAL := State([], 0, 0, 0)

  // ---------------------------------------------------------------- Level-1 receipt

  const REQUEST_DATA: seq<string> := ["agent_id", "tool", "params", "timestamp", "trace_id"]

  function RequestData(cmd: Command): PyValue {
    Record(REQUEST_DATA, [PyStr(cmd.agentId), PyStr(cmd.tool), cmd.params, PyFloat(cmd.timestamp), PyStr(cmd.traceId)])
  }

  function RuleNames(rs: seq<RuleResult>): seq<PyValue> {
    seq(|rs|, i requires 0 <= i < |rs| => PyStr(rs[i].ruleName))
  }

  function ResponseData(scan: Rules.Scan): PyValue {
    Record(["verdict", "rule_results", "block_reason"],
           [PyStr(VerdictText(scan.verdict)), PyList(RuleNames(scan.results)), PyStr(scan.blockReason)])
  }

  function RuntimeContext(cfg: Config): PyValue {
    Record(["python_version", "mode"], [PyStr("3.x"), PyStr(cfg.deploymentMode)])
  }

  datatype Digests = Digests(args: string, request: string, response: string, context: string, config: string)

  function DigestsOf(cfg: Config, cmd: Command, scan: Rules.Scan): Result<Digests> {
    var args :- Builder.ComputeHash(cfg.crypto, cmd.params);
    var request :- Builder.ComputeHash(cfg.crypto, RequestData(cmd));
    var response :- Builder.ComputeHash(cfg.crypto, ResponseData(scan));
    var context :- Builder.ComputeHash(cfg.crypto, RuntimeContext(cfg));
    var config :- Builder.ComputeHash(cfg.crypto, Record(["rules"], [PyStr(cfg.configHash)]));
    Ok(Digests(args, request, response, context, config))
  }

  /** What the server puts into each field before it calls build. */
  function DraftValue(cfg: Config, sequence: nat, cmd: Command, scan: Rules.Scan, paramsHash: string, d: Digests,
                      clk: Clock, f: F.Field): PyValue
  {
    match f
    case TraceId => PyStr(cmd.traceId)
    case ReceiptVersion => PyStr(Receipts.RECEIPT_VERSION)
    case Verdict => PyStr(VerdictText(scan.verdict))
    case Timestamp => PyFloat(clk.stamp)
    case Tool => PyStr(cmd.tool)
    case ParamsHash => PyStr(paramsHash)
    case ArgsDigest => PyStr(d.args)
    case RuleSummary => PyStr(RuleSummary(scan.results))
    case RuleVersion => PyStr(cfg.ruleVersion)
    case RequestHash => PyStr(d.request)
    case ResponseHash => PyStr(d.response)
    case RuntimeContextHash => PyStr(d.context)
    case ConfigHash => PyStr(d.config)
    case VerifierSourceClass => PyStr(cfg.sourceClass)
    case DeploymentMode => PyStr(cfg.deploymentMode)
    case Issuer => PyStr(cfg.issuer)
    case Audience => PyStr(if cfg.audience != "" then cfg.audience else cmd.agentId)
    case Nonce => PyStr(if cmd.traceId != "" then Receipts.Prefix(cmd.traceId, 16) else clk.nonce)
    case Sequence => PyInt(sequence)
    case IssuedAt => PyFloat(clk.now - cfg.clockSkew)
    case ExpiresAt => PyFloat(clk.now + 300.0)
    case MaxClockSkew => PyFloat(cfg.clockSkew)
    case Action => PyStr("ccs.verify." + VerdictText(scan.verdict))
    case SigningAlgorithm => PyStr(Receipts.SIGNING_ALGORITHM)
    case VerifiedAt => PyFloat(clk.verified)
    case LatencyUs => PyFloat(clk.total)
    case ToolCallId => PyStr("")
    case Signature => PyStr("")
    case PublicKeyFingerprint => PyStr("")
    case PublicKey => PyStr("")
  }

  function DraftFrom(cfg: Config, sequence: nat, cmd: Command, scan: Rules.Scan, paramsHash: string,
                     digests: Result<Digests>, clk: Clock): Result<L1Receipt>
  {
    var d :- digests;
    F.AllListed();
    Ok(map f: F.Field | f in F.FIELDS :: DraftValue(cfg, sequence, cmd, scan, paramsHash, d, clk, f))
  }

  /** The receipt the server has put together when it calls build. */
  function Draft(cfg: Config, sequence: nat, cmd: Command, scan: Rules.Scan, paramsHash: string, clk: Clock)
    : Result<L1Receipt>
  {
    DraftFrom(cfg, sequence, cmd, scan, paramsHash, DigestsOf(cfg, cmd, scan), clk)
  }

  function Issue(c: Receipts.Crypto, draft: Result<L1Receipt>, key: Bytes): Result<L1Receipt> {
    match draft
    case Err(e) => Err(e)
    case Ok(r) => Builder.Built(c, r, Some(key))
  }

  /** The Level-1 receipt of a call, or the exception its construction raises. */
  function IssueReceipt(cfg: Config, key: Bytes, sequence: nat, cmd: Command, scan: Rules.Scan, paramsHash: string, clk: Clock)
    : Result<L1Receipt>
  {
    Issue(cfg.crypto, Draft(cfg, sequence, cmd, scan, paramsHash, clk), key)
  }

  // ---------------------------------------------------------------- verify

  function Trim(log: seq<VerificationResult>, max: nat): seq<VerificationResult> {
    if |log| > max then (if max == 0 then log else log[|log| - max..]) else log
  }

  function ScanOf(cfg: Config, cmd: Command, clk: Clock): Result<Rules.Scan> {
    Rules.Outcome(Rules.AnswersOf(cfg.rules, cmd), clk.latency)
  }

  function L0Of(cmd: Command, scan: Rules.Scan, paramsHash: string, clk: Clock): L0Fields {
    L0Fields(cmd.traceId, scan.verdict, clk.now, cmd.tool, paramsHash, RuleSummary(scan.results))
  }

  function ResultOf(cfg: Config, cmd: Command, scan: Rules.Scan, paramsHash: string, l1: Option<L1Receipt>, clk: Clock)
    : VerificationResult
  {
    VerificationResult(
      cmd.traceId, scan.verdict, scan.blockReason, scan.results,
      L0Receipt(cfg.crypto, cfg.signingKey, L0Of(cmd, scan, paramsHash, clk)),
      clk.now, cmd.tool, paramsHash, scan.errorCode,
      if l1.Some? then Some(Receipts.ToDict(l1.value)) else None)
  }

  /** A log of at most max entries holds the latest of a history; no entry is ever dropped when max is zero. */
  ghost predicate KeepsLatest(log: seq<VerificationResult>, history: seq<VerificationResult>, max: nat) {
    if max == 0 then log == history
    else |log| == (if |history| < max then |history| else max) && log == history[|history| - |log|..]
  }

  /** How a call ends: with a result or an exception, and with or without having taken a sequence number. */
  datatype Ending = Ending(answer: Result<VerificationResult>, numbered: bool)

  /** The ending of a call whose rules and parameter hash came out as given; n is the last number taken. */
  function EndingFrom(cfg: Config, n: nat, cmd: Command, clk: Clock, scan: Rules.Scan, paramsHash: string): Ending {
    if cfg.l1Key.None? then Ending(Ok(ResultOf(cfg, cmd, scan, paramsHash, None, clk)), false)
    else match IssueReceipt(cfg, cfg.l1Key.value, n + 1, cmd, scan, paramsHash, clk)
      case Err(e) => Ending(Err(e), true)
      case Ok(receipt) => Ending(Ok(ResultOf(cfg, cmd, scan, paramsHash, Some(receipt), clk)), true)
  }

  function EndingOf(cfg: Config, n: nat, cmd: Command, clk: Clock): Ending {
    match ScanOf(cfg, cmd, clk)
    case Err(e) => Ending(Err(e), false)
    case Ok(scan) =>
      match ParamsHash(cfg.crypto, cmd.params)
      case Err(e) => Ending(Err(e), false)
      case Ok(paramsHash) => EndingFrom(cfg, n, cmd, clk, scan, paramsHash)
  }

  /** The state after a call that ended in a certain way. */
  function Advance(max: nat, st: State, e: Ending): State {
    var sequence := if e.numbered then st.sequence + 1 else st.sequence;
    match e.answer
    case Err(_) => st.(sequence := sequence)
    case Ok(v) =>
      State(Trim(st.auditLog + [v], max), st.requestCount + 1,
            st.denyCount + (if v.verdict == Deny then 1 else 0), sequence)
  }

  /** The state after a call that was answered, field by field. */
  lemma AdvanceAnswered(max: nat, st: State, e: Ending, t: State)
    requires e.answer.Ok? && KeepsLatest(t.auditLog, st.auditLog + [e.answer.value], max)
    requires t.requestCount == st.requestCount + 1
    requires t.denyCount == if e.answer.value.verdict == Deny then st.denyCount + 1 else st.denyCount
    requires t.sequence == if e.numbered then st.sequence + 1 else st.sequence
    ensures t == Advance(max, st, e)
  {
  }

  lemma AdvanceRaised(max: nat, st: State, e: Ending)
    requires e.answer.Err?
    ensures Advance(max, st, e) == st.(sequence := if e.numbered then st.sequence + 1 else st.sequence)
  {
  }

  class VerifierServer {
    const cfg: Config
    var auditLog: seq<VerificationResult>
    var requestCount: nat
    var denyCount: nat
    var sequence: nat

    function Abs(): State
      reads this
    { State(auditLog, requestCount, denyCount, sequence) }

    constructor (cfg: Config)
      ensures this.cfg == cfg && Abs() == INITIAL
    {
      this.cfg := cfg;
      auditLog, requestCount, denyCount, sequence := [], 0, 0, 0;
    }

    /** The rule loop of verify on the server's rules. */
    method Evaluate(cmd: Command, clk: Clock) returns (r: Result<Rules.Scan>)
      ensures r == ScanOf(cfg, cmd, clk)
    {
      r := Rules.EvaluateRules(cfg.rules, cmd, clk.latency);
    }

    /** The part of verify that changes no field unless a Level-1 receipt is due. */
    method Conclude(cmd: Command, clk: Clock, scan: Rules.Scan, paramsHash: string)
      returns (r: Result<VerificationResult>)
      modifies this`sequence
      ensures var e := EndingFrom(cfg, old(sequence), cmd, clk, scan, paramsHash);
              r == e.answer && sequence == if e.numbered then old(sequence) + 1 else old(sequence)
    {
      if cfg.l1Key.None? {
        return Ok(ResultOf(cfg, cmd, scan, paramsHash, None, clk));
      }
      sequence := sequence + 1;
      var issued := IssueReceipt(cfg, cfg.l1Key.value, sequence, cmd, scan, paramsHash, clk);
      if issued.Err? {
        return Err(issued.error);
      }
      return Ok(ResultOf(cfg, cmd, scan, paramsHash, Some(issued.value), clk));
    }

    /** Appends a result to the audit log, trims the log, and counts. */
    method Record(v: VerificationResult)
      modifies this
      ensures KeepsLatest(auditLog, old(auditLog) + [v], cfg.maxAuditLog)
      ensures requestCount == old(requestCount) + 1 && sequence == old(sequence)
      ensures denyCount == if v.verdict == Deny then old(denyCount) + 1 else old(denyCount)
    {
      auditLog := auditLog + [v];
      if |auditLog| > cfg.maxAuditLog {
        auditLog := if cfg.maxAuditLog == 0 then auditLog else auditLog[|auditLog| - cfg.maxAuditLog..];
      }
      requestCount := requestCount + 1;
      if v.verdict == Deny {
        denyCount := denyCount + 1;
      }
    }

    /** The end of verify: an answer is recorded, an exception leaves everything as it is. */
    method Settle(r: Result<VerificationResult>, ghost start: State, ghost e: Ending)
      requires r == e.answer && Abs() == start.(sequence := if e.numbered then start.sequence + 1 else start.sequence)
      modifies this
      ensures Abs() == Advance(cfg.maxAuditLog, start, e)
    {
      if r.Ok? {
        Record(r.value);
        AdvanceAnswered(cfg.maxAuditLog, start, e, Abs());
      } else {
        AdvanceRaised(cfg.maxAuditLog, start, e);
      }
    }

    method Verify(cmd: Command, clk: Clock) returns (r: Result<VerificationResult>)
      modifies this
      ensures var e := EndingOf(cfg, old(sequence), cmd, clk);
              r == e.answer && Abs() == Advance(cfg.maxAuditLog, old(Abs()), e)
    {
      ghost var start, e := Abs(), EndingOf(cfg, sequence, cmd, clk);
      var scanned := Evaluate(cmd, clk);
      if scanned.Err? {
        return Err(scanned.error);
      }
      var hashed := ParamsHash(cfg.crypto, cmd.params);
      if hashed.Err? {
        return Err(hashed.error);
      }
      r := Conclude(cmd, clk, scanned.value, hashed.value);
      Settle(r, start, e);
    }
  }

  // ---------------------------------------------------------------- runs

  /** verify has no suspension point, so calls on different connections follow one another as a whole. */
  datatype Call = Call(cmd: Command, clk: Clock)

  /** The state after a run, with every answer given and the number of calls that raised once numbered. */
  datatype History = History(st: State, answered: seq<VerificationResult>, raisedNumbered: nat)

  function Extend(max: nat, h: History, e: Ending): History {
    History(Advance(max, h.st, e),
            if e.answer.Ok? then h.answered + [e.answer.value] else h.answered,
            if e.answer.Err? && e.numbered then h.raisedNumbered + 1 else h.raisedNumbered)
  }

  function Run(cfg: Config, calls: seq<Call>): History {
    if calls == [] then History(INITIAL, [], 0)
    else
      var h, c := Run(cfg, calls[..|calls| - 1]), calls[|calls| - 1];
      Extend(cfg.maxAuditLog, h, EndingOf(cfg, h.st.sequence, c.cmd, c.clk))
  }

  /** How many answers deny. */
  ghost function Denials(vs: seq<VerificationResult>): nat { |set i | 0 <= i < |vs| && vs[i].verdict == Deny| }

  lemma DenialsGrow(vs: seq<VerificationResult>, v: VerificationResult)
    ensures Denials(vs + [v]) == if v.verdict == Deny then Denials(vs) + 1 else Denials(vs)
  {
    var ws := vs + [v];
    var before, after := set i | 0 <= i < |vs| && vs[i].verdict == Deny, set i | 0 <= i < |ws| && ws[i].verdict == Deny;
    assert after == if v.verdict == Deny then before + {|vs|} else before;
  }

  /** The sequence number in the Level-1 receipt of an answer. */
  ghost predicate Carries(v: VerificationResult, n: int) {
    v.l1Receipt.Some? && exists r: L1Receipt :: v.l1Receipt.value == Receipts.ToDict(r) && r[F.Sequence] == PyInt(n)
  }

  ghost predicate NumberedUpTo(v: VerificationResult, top: int) {
    exists n :: 0 < n <= top && Carries(v, n)
  }

  ghost predicate StrictlyNumbered(vs: seq<VerificationResult>, top: int) {
    && (forall i :: 0 <= i < |vs| ==> NumberedUpTo(vs[i], top))
    && (forall i, j, m, n :: 0 <= i < j < |vs| && Carries(vs[i], m) && Carries(vs[j], n) ==> m < n)
  }

  ghost predicate Counted(max: nat, l1: bool, h: History) {
    && KeepsLatest(h.st.auditLog, h.answered, max)
    && h.st.requestCount == |h.answered|
    && h.st.denyCount == Denials(h.answered)
    && h.st.sequence == (if l1 then |h.answered| + h.raisedNumbered else 0)
  }

  ghost predicate Invariant(max: nat, l1: bool, h: History) {
    Counted(max, l1, h) && (l1 ==> StrictlyNumbered(h.answered, h.st.sequence))
  }

  /** Level-1 mode numbers every answer and puts the number into its receipt; Level-0 mode numbers nothing. */
  ghost predicate Proper(l1: bool, n: nat, e: Ending) {
    if l1 then e.answer.Ok? ==> e.numbered && Carries(e.answer.value, n + 1) else !e.numbered
  }

  lemma TrimKeeps(log: seq<VerificationResult>, history: seq<VerificationResult>, max: nat, v: VerificationResult)
    requires KeepsLatest(log, history, max)
    ensures KeepsLatest(Trim(log + [v], max), history + [v], max)
  {
  }

  lemma CarriesOne(v: VerificationResult, m: int, n: int)
    requires Carries(v, m) && Carries(v, n)
    ensures m == n
  {
    var r: L1Receipt :| v.l1Receipt.value == Receipts.ToDict(r) && r[F.Sequence] == PyInt(m);
    var s: L1Receipt :| v.l1Receipt.value == Receipts.ToDict(s) && s[F.Sequence] == PyInt(n);
    RoundTrip.ToDictGet(r, F.Sequence);
    RoundTrip.ToDictGet(s, F.Sequence);
  }

  lemma IssueKeeps(c: Receipts.Crypto, draft: Result<L1Receipt>, key: Bytes, n: nat)
    requires draft.Ok? ==> draft.value[F.Sequence] == PyInt(n)
    ensures Issue(c, draft, key).Ok? ==> Issue(c, draft, key).value[F.Sequence] == PyInt(n)
  {
    if Issue(c, draft, key).Ok? {
      Builder.BuiltKeeps(c, draft.value, Some(key), F.Sequence);
    }
  }

  lemma DraftField(cfg: Config, n: nat, cmd: Command, scan: Rules.Scan, paramsHash: string,
                   digests: Result<Digests>, clk: Clock, f: F.Field)
    ensures var r := DraftFrom(cfg, n, cmd, scan, paramsHash, digests, clk);
            r.Ok? ==> digests.Ok? && r.value[f] == DraftValue(cfg, n, cmd, scan, paramsHash, digests.value, clk, f)
  {
  }

  lemma DraftSequence(cfg: Config, n: nat, cmd: Command, scan: Rules.Scan, paramsHash: string,
                      digests: Result<Digests>, clk: Clock)
    ensures var r := DraftFrom(cfg, n, cmd, scan, paramsHash, digests, clk);
            r.Ok? ==> r.value[F.Sequence] == PyInt(n)
  {
    DraftField(cfg, n, cmd, scan, paramsHash, digests, clk, F.Sequence);
  }

  lemma EndingProper(cfg: Config, n: nat, cmd: Command, clk: Clock)
    ensures Proper(cfg.l1Key.Some?, n, EndingOf(cfg, n, cmd, clk))
  {
    var scan, paramsHash := ScanOf(cfg, cmd, clk), ParamsHash(cfg.crypto, cmd.params);
    if scan.Ok? && paramsHash.Ok? && cfg.l1Key.Some? {
      ProperFrom(cfg, n, cmd, clk, scan.value, paramsHash.value);
    }
  }

  lemma ProperFrom(cfg: Config, n: nat, cmd: Command, clk: Clock, scan: Rules.Scan, paramsHash: string)
    requires cfg.l1Key.Some?
    ensures Proper(true, n, EndingFrom(cfg, n, cmd, clk, scan, paramsHash))
  {
    var issued := IssueReceipt(cfg, cfg.l1Key.value, n + 1, cmd, scan, paramsHash, clk);
    if issued.Ok? {
      DraftSequence(cfg, n + 1, cmd, scan, paramsHash, DigestsOf(cfg, cmd, scan), clk);
      IssueKeeps(cfg.crypto, Draft(cfg, n + 1, cmd, scan, paramsHash, clk), cfg.l1Key.value, n + 1);
      assert Carries(ResultOf(cfg, cmd, scan, paramsHash, Some(issued.value), clk), n + 1);
    }
  }

  lemma TopGrows(vs: seq<VerificationResult>, top: int)
    requires StrictlyNumbered(vs, top)
    ensures StrictlyNumbered(vs, top + 1)
  {
    forall i | 0 <= i < |vs| ensures NumberedUpTo(vs[i], top + 1) {
      assert NumberedUpTo(vs[i], top);
    }
  }

  lemma NumberedGrows(vs: seq<VerificationResult>, top: int, v: VerificationResult)
    requires StrictlyNumbered(vs, top) && 0 <= top && Carries(v, top + 1)
    ensures StrictlyNumbered(vs + [v], top + 1)
  {
    var ws := vs + [v];
    TopGrows(vs, top);
    forall i | 0 <= i < |ws| ensures NumberedUpTo(ws[i], top + 1) {
      assert i < |vs| ==> ws[i] == vs[i];
    }
    forall i, j, m, n | 0 <= i < j < |ws| && Carries(ws[i], m) && Carries(ws[j], n) ensures m < n {
      assert ws[i] == vs[i];
      if j == |vs| {
        assert NumberedUpTo(vs[i], top);
        var k :| 0 < k <= top && Carries(vs[i], k);
        CarriesOne(vs[i], m, k);
        CarriesOne(v, n, top + 1);
      } else {
        assert ws[j] == vs[j];
      }
    }
  }

  lemma ExtendCounts(max: nat, l1: bool, h: History, e: Ending)
    requires Counted(max, l1, h) && Proper(l1, h.st.sequence, e)
    ensures Counted(max, l1, Extend(max, h, e))
  {
    if e.answer.Ok? {
      var v := e.answer.value;
      TrimKeeps(h.st.auditLog, h.answered, max, v);
      DenialsGrow(h.answered, v);
    }
  }

  lemma ExtendNumbers(max: nat, h: History, e: Ending)
    requires StrictlyNumbered(h.answered, h.st.sequence) && Proper(true, h.st.sequence, e)
    ensures StrictlyNumbered(Extend(max, h, e).answered, Extend(max, h, e).st.sequence)
  {
    if e.answer.Ok? {
      NumberedGrows(h.answered, h.st.sequence, e.answer.value);
    } else if e.numbered {
      TopGrows(h.answered, h.st.sequence);
    }
  }

  /** After any run: the log is the latest answers, the counters count them, Level-1 sequence numbers
      strictly increase, and the gap to the request count is the calls that raised once numbered. */
  lemma {:induction false} RunInvariant(cfg: Config, calls: seq<Call>)
    ensures Invariant(cfg.maxAuditLog, cfg.l1Key.Some?, Run(cfg, calls))
  {
    if calls != [] {
      var h, c := Run(cfg, calls[..|calls| - 1]), calls[|calls| - 1];
      RunInvariant(cfg, calls[..|calls| - 1]);
      var e := EndingOf(cfg, h.st.sequence, c.cmd, c.clk);
      EndingProper(cfg, h.st.sequence, c.cmd, c.clk);
      ExtendCounts(cfg.maxAuditLog, cfg.l1Key.Some?, h, e);
      if cfg.l1Key.Some? { ExtendNumbers(cfg.maxAuditLog, h, e); }
    }
  }
}
