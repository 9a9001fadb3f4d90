/** The receipt the server hands to build is what the receipt builder holds after the server's chain of setter
    calls. */
module Drafting {
  import opened Basics
  import opened KeyOrder
  import opened PyValues
  import opened Protocol
  import opened Messages
  import opened Builder
  import opened Server
  import F = ReceiptFields
  import Receipts
  import Rules

  type L1Receipt = F.L1Receipt

  type Setters = seq<Setter>

  // The server's chain of setter calls, three at a time.

  function Subject(cmd: Command, paramsHash: string): Setters {
    [Put(F.Tool, PyStr(cmd.tool)), Put(F.ParamsHash, PyStr(paramsHash)), PutHash(F.ArgsDigest, cmd.params)]
  }

  function Evaluation(cfg: Server.Config, cmd: Command, scan: Rules.Scan): Setters {
    [Put(F.RuleSummary, PyStr(RuleSummary(scan.results))), Put(F.RuleVersion, PyStr(cfg.ruleVersion)),
     PutHash(F.RequestHash, RequestData(cmd))]
  }

  function Context(cfg: Server.Config, scan: Rules.Scan): Setters {
    [PutHash(F.ResponseHash, ResponseData(scan)), PutHash(F.RuntimeContextHash, RuntimeContext(cfg)),
     PutHash(F.ConfigHash, Record(["rules"], [PyStr(cfg.configHash)]))]
  }

  function Origin(cfg: Server.Config): Setters {
    [Put(F.VerifierSourceClass, PyStr(cfg.sourceClass)), Put(F.DeploymentMode, PyStr(cfg.deploymentMode)),
     Put(F.Issuer, PyStr(cfg.issuer))]
  }

  function Bounds(cfg: Server.Config, sequence: nat, cmd: Command, clk: Clock): Setters {
    [Put(F.Audience, PyStr(if cfg.audience != "" then cfg.audience else cmd.agentId)), Put(F.Sequence, PyInt(sequence)),
     TimeBounds(PyFloat(clk.now - cfg.clockSkew), PyFloat(clk.now + 300.0), PyFloat(cfg.clockSkew))]
  }

  function Decision(cmd: Command, scan: Rules.Scan, clk: Clock): Setters {
    [Put(F.Action, PyStr("ccs.verify." + VerdictText(scan.verdict))), Put(F.LatencyUs, PyFloat(clk.total))]
    + (if cmd.traceId != "" then [Put(F.Nonce, PyStr(Receipts.Prefix(cmd.traceId, 16)))] else [])
  }

  /** The setter calls of the server, in their order. */
  function ServerSetters(cfg: Server.Config, sequence: nat, cmd: Command, scan: Rules.Scan, paramsHash: string, clk: Clock): Setters {
    Subject(cmd, paramsHash)
    + (Evaluation(cfg, cmd, scan)
       + (Context(cfg, scan)
          + (Origin(cfg) + (Bounds(cfg, sequence, cmd, clk) + Decision(cmd, scan, clk)))))
  }

  /** What the builder starts from. */
  function NewReceipt(cmd: Command, scan: Rules.Scan, clk: Clock): L1Receipt {
    Fresh(PyStr(cmd.traceId), VerdictText(scan.verdict), clk.stamp, clk.nonce, clk.verified)
  }

  // ---------------------------------------------------------------- what each part does

  lemma SubjectSets(c: Receipts.Crypto, r: L1Receipt, cmd: Command, paramsHash: string)
    ensures var h := ComputeHash(c, cmd.params);
            Chained(c, r, Subject(cmd, paramsHash)) ==
            if h.Err? then Err(h.error)
            else Ok(r[F.Tool := PyStr(cmd.tool)][F.ParamsHash := PyStr(paramsHash)][F.ArgsDigest := PyStr(h.value)])
  {
    var xs := Subject(cmd, paramsHash);
    ChainThree(c, r, xs[0], xs[1], xs[2]);
    ChainTwo(c, r[F.Tool := PyStr(cmd.tool)], xs[1], xs[2]);
  }

  lemma EvaluationSets(c: Receipts.Crypto, r: L1Receipt, cfg: Server.Config, cmd: Command, scan: Rules.Scan)
    ensures var h := ComputeHash(c, RequestData(cmd));
            Chained(c, r, Evaluation(cfg, cmd, scan)) ==
            if h.Err? then Err(h.error)
            else Ok(r[F.RuleSummary := PyStr(RuleSummary(scan.results))][F.RuleVersion := PyStr(cfg.ruleVersion)]
                     [F.RequestHash := PyStr(h.value)])
  {
    var xs := Evaluation(cfg, cmd, scan);
    ChainThree(c, r, xs[0], xs[1], xs[2]);
    ChainTwo(c, r[F.RuleSummary := PyStr(RuleSummary(scan.results))], xs[1], xs[2]);
  }

  lemma ContextSets(c: Receipts.Crypto, r: L1Receipt, cfg: Server.Config, scan: Rules.Scan)
    ensures var (h, k, l) := (ComputeHash(c, ResponseData(scan)), ComputeHash(c, RuntimeContext(cfg)),
                              ComputeHash(c, Record(["rules"], [PyStr(cfg.configHash)])));
            Chained(c, r, Context(cfg, scan)) ==
            if h.Err? then Err(h.error) else if k.Err? then Err(k.error) else if l.Err? then Err(l.error)
            else Ok(r[F.ResponseHash := PyStr(h.value)][F.RuntimeContextHash := PyStr(k.value)][F.ConfigHash := PyStr(l.value)])
  {
    var xs := Context(cfg, scan);
    ChainThree(c, r, xs[0], xs[1], xs[2]);
    if Called(c, r, xs[0]).Ok? { ChainTwo(c, Called(c, r, xs[0]).value, xs[1], xs[2]); }
  }

  lemma OriginSets(c: Receipts.Crypto, r: L1Receipt, cfg: Server.Config)
    ensures Chained(c, r, Origin(cfg)) ==
            Ok(r[F.VerifierSourceClass := PyStr(cfg.sourceClass)][F.DeploymentMode := PyStr(cfg.deploymentMode)]
                [F.Issuer := PyStr(cfg.issuer)])
  {
    var xs := Origin(cfg);
    ChainThree(c, r, xs[0], xs[1], xs[2]);
    ChainTwo(c, r[F.VerifierSourceClass := PyStr(cfg.sourceClass)], xs[1], xs[2]);
  }

  lemma BoundsSet(c: Receipts.Crypto, r: L1Receipt, cfg: Server.Config, sequence: nat, cmd: Command, clk: Clock)
    ensures var audience := PyStr(if cfg.audience != "" then cfg.audience else cmd.agentId);
            Chained(c, r, Bounds(cfg, sequence, cmd, clk)) ==
            Ok(r[F.Audience := audience][F.Sequence := PyInt(sequence)]
                [F.IssuedAt := PyFloat(clk.now - cfg.clockSkew)][F.ExpiresAt := PyFloat(clk.now + 300.0)]
                [F.MaxClockSkew := PyFloat(cfg.clockSkew)])
  {
    var xs := Bounds(cfg, sequence, cmd, clk);
    ChainThree(c, r, xs[0], xs[1], xs[2]);
    ChainTwo(c, r[F.Audience := xs[0].v], xs[1], xs[2]);
  }

  lemma DecisionSets(c: Receipts.Crypto, r: L1Receipt, cmd: Command, scan: Rules.Scan, clk: Clock)
    ensures var s := r[F.Action := PyStr("ccs.verify." + VerdictText(scan.verdict))][F.LatencyUs := PyFloat(clk.total)];
            Chained(c, r, Decision(cmd, scan, clk)) ==
            Ok(if cmd.traceId != "" then s[F.Nonce := PyStr(Receipts.Prefix(cmd.traceId, 16))] else s)
  {
    var xs := Decision(cmd, scan, clk);
    if cmd.traceId == "" {
      assert xs == [xs[0], xs[1]];
      ChainTwo(c, r, xs[0], xs[1]);
    } else {
      assert xs == [xs[0], xs[1], xs[2]];
      ChainThree(c, r, xs[0], xs[1], xs[2]);
      ChainTwo(c, r[F.Action := xs[0].v], xs[1], xs[2]);
    }
  }

  // ---------------------------------------------------------------- the whole chain

  function AfterSubject(r: L1Receipt, cmd: Command, paramsHash: string, d: Digests): L1Receipt {
    r[F.Tool := PyStr(cmd.tool)][F.ParamsHash := PyStr(paramsHash)][F.ArgsDigest := PyStr(d.args)]
  }

  function AfterEvaluation(r: L1Receipt, cfg: Server.Config, scan: Rules.Scan, d: Digests): L1Receipt {
    r[F.RuleSummary := PyStr(RuleSummary(scan.results))][F.RuleVersion := PyStr(cfg.ruleVersion)][F.RequestHash := PyStr(d.request)]
  }

  function AfterContext(r: L1Receipt, d: Digests): L1Receipt {
    r[F.ResponseHash := PyStr(d.response)][F.RuntimeContextHash := PyStr(d.context)][F.ConfigHash := PyStr(d.config)]
  }

  function Hashed(r: L1Receipt, cfg: Server.Config, cmd: Command, scan: Rules.Scan, paramsHash: string, d: Digests): L1Receipt {
    AfterContext(AfterEvaluation(AfterSubject(r, cmd, paramsHash, d), cfg, scan, d), d)
  }

  lemma HashedHalf(c: Receipts.Crypto, r: L1Receipt, cfg: Server.Config, cmd: Command, scan: Rules.Scan, paramsHash: string, rest: Setters)
    requires c == cfg.crypto
    ensures var digests := DigestsOf(cfg, cmd, scan);
            Chained(c, r, Subject(cmd, paramsHash) + (Evaluation(cfg, cmd, scan) + (Context(cfg, scan) + rest))) ==
            if digests.Err? then Err(digests.error)
            else Chained(c, Hashed(r, cfg, cmd, scan, paramsHash, digests.value), rest)
  {
    var second := Context(cfg, scan) + rest;
    var first := Evaluation(cfg, cmd, scan) + second;
    ChainOn(c, r, Subject(cmd, paramsHash), first);
    SubjectSets(c, r, cmd, paramsHash);
    if ComputeHash(c, cmd.params).Ok? {
      var r1 := Chained(c, r, Subject(cmd, paramsHash)).value;
      ChainOn(c, r1, Evaluation(cfg, cmd, scan), second);
      EvaluationSets(c, r1, cfg, cmd, scan);
      if ComputeHash(c, RequestData(cmd)).Ok? {
        var r2 := Chained(c, r1, Evaluation(cfg, cmd, scan)).value;
        ChainOn(c, r2, Context(cfg, scan), rest);
        ContextSets(c, r2, cfg, scan);
      }
    }
  }

  function AfterOrigin(r: L1Receipt, cfg: Server.Config): L1Receipt {
    r[F.VerifierSourceClass := PyStr(cfg.sourceClass)][F.DeploymentMode := PyStr(cfg.deploymentMode)][F.Issuer := PyStr(cfg.issuer)]
  }

  function AfterBounds(r: L1Receipt, cfg: Server.Config, sequence: nat, cmd: Command, clk: Clock): L1Receipt {
    r[F.Audience := PyStr(if cfg.audience != "" then cfg.audience else cmd.agentId)][F.Sequence := PyInt(sequence)]
     [F.IssuedAt := PyFloat(clk.now - cfg.clockSkew)][F.ExpiresAt := PyFloat(clk.now + 300.0)]
     [F.MaxClockSkew := PyFloat(cfg.clockSkew)]
  }

  function AfterDecision(r: L1Receipt, cmd: Command, scan: Rules.Scan, clk: Clock): L1Receipt {
    var s := r[F.Action := PyStr("ccs.verify." + VerdictText(scan.verdict))][F.LatencyUs := PyFloat(clk.total)];
    if cmd.traceId != "" then s[F.Nonce := PyStr(Receipts.Prefix(cmd.traceId, 16))] else s
  }

  lemma PlainHalf(c: Receipts.Crypto, r: L1Receipt, cfg: Server.Config, sequence: nat, cmd: Command, scan: Rules.Scan, clk: Clock)
    ensures Chained(c, r, Origin(cfg) + (Bounds(cfg, sequence, cmd, clk) + Decision(cmd, scan, clk))) ==
            Ok(AfterDecision(AfterBounds(AfterOrigin(r, cfg), cfg, sequence, cmd, clk), cmd, scan, clk))
  {
    var r1 := AfterOrigin(r, cfg);
    var r2 := AfterBounds(r1, cfg, sequence, cmd, clk);
    ChainOn(c, r, Origin(cfg), Bounds(cfg, sequence, cmd, clk) + Decision(cmd, scan, clk));
    OriginSets(c, r, cfg);
    ChainOn(c, r1, Bounds(cfg, sequence, cmd, clk), Decision(cmd, scan, clk));
    BoundsSet(c, r1, cfg, sequence, cmd, clk);
    DecisionSets(c, r2, cmd, scan, clk);
  }

  // ---------------------------------------------------------------- field by field

  /** What a draft is made from. */
  datatype Inputs = Inputs(cfg: Server.Config, sequence: nat, cmd: Command, scan: Rules.Scan, paramsHash: string, d: Digests, clk: Clock)

  function FirstHalf(x: Inputs, r: L1Receipt): L1Receipt { Hashed(r, x.cfg, x.cmd, x.scan, x.paramsHash, x.d) }

  function SecondHalf(x: Inputs, r: L1Receipt): L1Receipt {
    AfterDecision(AfterBounds(AfterOrigin(r, x.cfg), x.cfg, x.sequence, x.cmd, x.clk), x.cmd, x.scan, x.clk)
  }

  function TableValue(x: Inputs, f: F.Field): PyValue { DraftValue(x.cfg, x.sequence, x.cmd, x.scan, x.paramsHash, x.d, x.clk, f) }

  predicate InFirst(f: F.Field) {
    || f == F.Tool || f == F.ParamsHash || f == F.ArgsDigest || f == F.RuleSummary || f == F.RuleVersion
    || f == F.RequestHash || f == F.ResponseHash || f == F.RuntimeContextHash || f == F.ConfigHash
  }

  predicate InSecond(x: Inputs, f: F.Field) {
    || f == F.VerifierSourceClass || f == F.DeploymentMode || f == F.Issuer || f == F.Audience || f == F.Sequence
    || f == F.IssuedAt || f == F.ExpiresAt || f == F.MaxClockSkew || f == F.Action || f == F.LatencyUs
    || (f == F.Nonce && x.cmd.traceId != "")
  }

  lemma FirstWrites(x: Inputs, r: L1Receipt, f: F.Field)
    ensures FirstHalf(x, r)[f] == if InFirst(f) then TableValue(x, f) else r[f]
  {
  }

  lemma SecondWrites(x: Inputs, r: L1Receipt, f: F.Field)
    ensures SecondHalf(x, r)[f] == if InSecond(x, f) then TableValue(x, f) else r[f]
  {
  }

  lemma NewSays(x: Inputs, f: F.Field)
    requires !InFirst(f) && !InSecond(x, f)
    ensures NewReceipt(x.cmd, x.scan, x.clk)[f] == TableValue(x, f)
  {
  }

  /** The table of the server is what the two halves of the chain leave. */
  lemma TableFilled(x: Inputs)
    ensures DraftFrom(x.cfg, x.sequence, x.cmd, x.scan, x.paramsHash, Ok(x.d), x.clk)
         == Ok(SecondHalf(x, FirstHalf(x, NewReceipt(x.cmd, x.scan, x.clk))))
  {
    var r := NewReceipt(x.cmd, x.scan, x.clk);
    var s, t := FirstHalf(x, r), DraftFrom(x.cfg, x.sequence, x.cmd, x.scan, x.paramsHash, Ok(x.d), x.clk).value;
    forall f: F.Field ensures SecondHalf(x, s)[f] == t[f] {
      SecondWrites(x, s, f);
      FirstWrites(x, r, f);
      if !InFirst(f) && !InSecond(x, f) { NewSays(x, f); }
      DraftField(x.cfg, x.sequence, x.cmd, x.scan, x.paramsHash, Ok(x.d), x.clk, f);
    }
    assert SecondHalf(x, s) == t;
  }

  lemma ChainFilled(cfg: Server.Config, sequence: nat, cmd: Command, scan: Rules.Scan, paramsHash: string, clk: Clock)
    ensures var digests := DigestsOf(cfg, cmd, scan);
            Chained(cfg.crypto, NewReceipt(cmd, scan, clk), ServerSetters(cfg, sequence, cmd, scan, paramsHash, clk)) ==
            if digests.Err? then Err(digests.error)
            else var x := Inputs(cfg, sequence, cmd, scan, paramsHash, digests.value, clk);
                 Ok(SecondHalf(x, FirstHalf(x, NewReceipt(cmd, scan, clk))))
  {
    var r, digests := NewReceipt(cmd, scan, clk), DigestsOf(cfg, cmd, scan);
    HashedHalf(cfg.crypto, r, cfg, cmd, scan, paramsHash, Origin(cfg) + (Bounds(cfg, sequence, cmd, clk) + Decision(cmd, scan, clk)));
    if digests.Ok? {
      PlainHalf(cfg.crypto, Hashed(r, cfg, cmd, scan, paramsHash, digests.value), cfg, sequence, cmd, scan, clk);
    }
  }

  /** The server's draft is what its chain of setter calls makes of a new receipt, or the exception of the first
      hash in the chain that cannot be computed. */
  lemma DraftIsChain(cfg: Server.Config, sequence: nat, cmd: Command, scan: Rules.Scan, paramsHash: string, clk: Clock)
    ensures Draft(cfg, sequence, cmd, scan, paramsHash, clk)
         == Chained(cfg.crypto, NewReceipt(cmd, scan, clk), ServerSetters(cfg, sequence, cmd, scan, paramsHash, clk))
  {
    ChainFilled(cfg, sequence, cmd, scan, paramsHash, clk);
    var digests := DigestsOf(cfg, cmd, scan);
    if digests.Ok? { TableFilled(Inputs(cfg, sequence, cmd, scan, paramsHash, digests.value, clk)); }
  }

  /** So a receipt the server issues is one that build returns after a run of setter calls on a new builder. */
  lemma IssuedIsBuilt(cfg: Server.Config, key: Bytes, sequence: nat, cmd: Command, scan: Rules.Scan, paramsHash: string, clk: Clock)
    ensures var s := IssueReceipt(cfg, key, sequence, cmd, scan, paramsHash, clk);
            s.Ok? ==>
              s == Built(cfg.crypto,
                         Builder.Run(cfg.crypto, NewReceipt(cmd, scan, clk),
                                     Settings(ServerSetters(cfg, sequence, cmd, scan, paramsHash, clk))),
                         Some(key))
  {
    DraftIsChain(cfg, sequence, cmd, scan, paramsHash, clk);
    if Draft(cfg, sequence, cmd, scan, paramsHash, clk).Ok? {
      ChainIsRun(cfg.crypto, NewReceipt(cmd, scan, clk), ServerSetters(cfg, sequence, cmd, scan, paramsHash, clk));
    }
  }
}
