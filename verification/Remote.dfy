/** Verification over the wire is verification in process: encode, decode, dispatch, verify, respond, parse. */
module Remote {
  import opened Basics
  import opened KeyOrder
  import opened PyValues
  import opened Canonical
  import opened Loading
  import opened Protocol
  import opened Messages
  import F = ReceiptFields
  import Receipts
  import Builder
  import Rules
  import Server
  import Issuing
  import Session
  import ServerLog
  import Guarantees
  import Alignment

  // ---------------------------------------------------------------- parameters that came over the wire

  lemma {:induction false} WritableInBoth(f: Floats, v: PyValue)
    ensures ToTree(f, Dumps, v).Some? <==> ToTree(f, Jcs, v).Some?
    decreases v
  {
    if IsSequence(v) {
      forall i | 0 <= i < |v.items| ensures ToTree(f, Dumps, v.items[i]).Some? <==> ToTree(f, Jcs, v.items[i]).Some? {
        WritableInBoth(f, v.items[i]);
      }
    } else if v.PyDict? {
      forall i | 0 <= i < |v.entries|
        ensures ToTree(f, Dumps, v.entries[i].value).Some? <==> ToTree(f, Jcs, v.entries[i].value).Some?
      {
        WritableInBoth(f, v.entries[i].value);
      }
    }
  }

  /** Two values the writers take and know to be the same JSON. */
  ghost predicate Twins(f: Floats, v: PyValue, w: PyValue) {
    && WellFormed(v) && WellFormed(w) && ToTree(f, Dumps, v).Some? && ToTree(f, Dumps, w).Some?
    && SameJson(Dumps, v, w)
  }

  /** They hash alike, as parameters and as canonical JSON, or fail alike. */
  lemma TwinsWriteAlike(f: Floats, v: PyValue, w: PyValue)
    requires FloatsSound(f) && Twins(f, v, w)
    ensures CanonicalJson(f, v) == CanonicalJson(f, w)
    ensures DumpsText(f, v) == DumpsText(f, w)
  {
    WritableInBoth(f, v);
    WritableInBoth(f, w);
    ValidateSame(v, w);
    DumpsSameIsJcsSame(v, w);
    DumpsExact(f, v, w);
    if Validate(v) { CanonicalJsonExact(f, v, w); }
  }

  lemma RecordTwins(f: Floats, keys: seq<string>, xs: seq<PyValue>, ys: seq<PyValue>)
    requires |xs| == |ys| <= |keys| && Distinct(keys)
    requires forall i :: 0 <= i < |xs| ==> Twins(f, xs[i], ys[i])
    ensures Twins(f, Record(keys, xs), Record(keys, ys))
  {
    var v, w := Record(keys, xs), Record(keys, ys);
    RecordSound(f, keys, xs);
    RecordSound(f, keys, ys);
    forall k ensures HasKey(v.entries, k) <==> HasKey(w.entries, k) {
      forall i | 0 <= i < |xs| ensures v.entries[i].key == w.entries[i].key {}
    }
    forall i, j | 0 <= i < |xs| && 0 <= j < |ys| && v.entries[i].key == w.entries[j].key
      ensures SameJson(Dumps, v.entries[i].value, w.entries[j].value)
    {
      assert i == j;
    }
    assert SameDict(Dumps, v, w);
  }

  lemma RequestDataKeys()
    ensures Distinct(Server.REQUEST_DATA)
  {
    assert |"agent_id"| == 8 && |"tool"| == 4 && |"params"| == 6 && |"timestamp"| == 9 && |"trace_id"| == 8;
    assert "agent_id"[0] != "trace_id"[0];
  }

  lemma RequestDataTwins(f: Floats, cmd: Command, params: PyValue)
    requires Twins(f, cmd.params, params) && IsDouble(cmd.timestamp)
    ensures Twins(f, Server.RequestData(cmd), Server.RequestData(cmd.(params := params)))
  {
    RequestDataKeys();
    RecordTwins(f, Server.REQUEST_DATA,
                [PyStr(cmd.agentId), PyStr(cmd.tool), cmd.params, PyFloat(cmd.timestamp), PyStr(cmd.traceId)],
                [PyStr(cmd.agentId), PyStr(cmd.tool), params, PyFloat(cmd.timestamp), PyStr(cmd.traceId)]);
  }

  // ---------------------------------------------------------------- the server's answer

  /** A rule sees its command's parameters as JSON: it does not tell twins apart. */
  ghost predicate RespectsJson(f: Floats, rule: Rules.Rule) {
    forall cmd: Command, params :: Twins(f, cmd.params, params) ==> rule.evaluate(cmd.(params := params)) == rule.evaluate(cmd)
  }

  ghost predicate Respectful(cfg: Server.Config) {
    forall i :: 0 <= i < |cfg.rules| ==> RespectsJson(cfg.crypto.floats, cfg.rules[i])
  }

  lemma SameScan(cfg: Server.Config, cmd: Command, params: PyValue, clk: Server.Clock)
    requires Respectful(cfg) && Twins(cfg.crypto.floats, cmd.params, params)
    ensures Server.ScanOf(cfg, cmd.(params := params), clk) == Server.ScanOf(cfg, cmd, clk)
  {
    var a, b := Rules.AnswersOf(cfg.rules, cmd), Rules.AnswersOf(cfg.rules, cmd.(params := params));
    forall i | 0 <= i < |cfg.rules| ensures a[i] == b[i] {
      assert RespectsJson(cfg.crypto.floats, cfg.rules[i]);
    }
    assert a == b;
  }

  lemma SameParamsHash(c: Receipts.Crypto, v: PyValue, w: PyValue)
    requires FloatsSound(c.floats) && Twins(c.floats, v, w)
    ensures ParamsHash(c, v) == ParamsHash(c, w) && Builder.ComputeHash(c, v) == Builder.ComputeHash(c, w)
  {
    TwinsWriteAlike(c.floats, v, w);
  }

  lemma SameRequestHash(c: Receipts.Crypto, cmd: Command, params: PyValue)
    requires FloatsSound(c.floats) && Twins(c.floats, cmd.params, params) && IsDouble(cmd.timestamp)
    ensures Builder.ComputeHash(c, Server.RequestData(cmd.(params := params))) == Builder.ComputeHash(c, Server.RequestData(cmd))
  {
    RequestDataTwins(c.floats, cmd, params);
    SameParamsHash(c, Server.RequestData(cmd), Server.RequestData(cmd.(params := params)));
  }

  lemma SameDigests(cfg: Server.Config, cmd: Command, params: PyValue, scan: Rules.Scan)
    requires Builder.ComputeHash(cfg.crypto, params) == Builder.ComputeHash(cfg.crypto, cmd.params)
    requires Builder.ComputeHash(cfg.crypto, Server.RequestData(cmd.(params := params)))
          == Builder.ComputeHash(cfg.crypto, Server.RequestData(cmd))
    ensures Server.DigestsOf(cfg, cmd.(params := params), scan) == Server.DigestsOf(cfg, cmd, scan)
  {
  }

  lemma SameDraftValue(cfg: Server.Config, n: nat, cmd: Command, params: PyValue, scan: Rules.Scan, paramsHash: string,
                       d: Server.Digests, clk: Server.Clock, f: F.Field)
    ensures Server.DraftValue(cfg, n, cmd.(params := params), scan, paramsHash, d, clk, f)
         == Server.DraftValue(cfg, n, cmd, scan, paramsHash, d, clk, f)
  {
  }

  lemma SameDraft(cfg: Server.Config, n: nat, cmd: Command, params: PyValue, scan: Rules.Scan, paramsHash: string,
                  digests: Result<Server.Digests>, clk: Server.Clock)
    ensures Server.DraftFrom(cfg, n, cmd.(params := params), scan, paramsHash, digests, clk)
         == Server.DraftFrom(cfg, n, cmd, scan, paramsHash, digests, clk)
  {
    if digests.Ok? {
      var a := Server.DraftFrom(cfg, n, cmd, scan, paramsHash, digests, clk).value;
      var b := Server.DraftFrom(cfg, n, cmd.(params := params), scan, paramsHash, digests, clk).value;
      forall f: F.Field ensures a[f] == b[f] {
        Server.DraftField(cfg, n, cmd, scan, paramsHash, digests, clk, f);
        Server.DraftField(cfg, n, cmd.(params := params), scan, paramsHash, digests, clk, f);
        SameDraftValue(cfg, n, cmd, params, scan, paramsHash, digests.value, clk, f);
      }
      assert a == b;
    }
  }

  lemma SameReceipt(cfg: Server.Config, key: Bytes, n: nat, cmd: Command, params: PyValue, scan: Rules.Scan,
                    paramsHash: string, clk: Server.Clock)
    requires FloatsSound(cfg.crypto.floats) && Twins(cfg.crypto.floats, cmd.params, params) && IsDouble(cmd.timestamp)
    ensures Server.IssueReceipt(cfg, key, n, cmd.(params := params), scan, paramsHash, clk)
         == Server.IssueReceipt(cfg, key, n, cmd, scan, paramsHash, clk)
  {
    SameParamsHash(cfg.crypto, cmd.params, params);
    SameRequestHash(cfg.crypto, cmd, params);
    SameDigests(cfg, cmd, params, scan);
    SameDraft(cfg, n, cmd, params, scan, paramsHash, Server.DigestsOf(cfg, cmd, scan), clk);
  }

  /** verify ends the same way for the same command with the same JSON as parameters. */
  lemma SameEnding(cfg: Server.Config, n: nat, cmd: Command, params: PyValue, clk: Server.Clock)
    requires FloatsSound(cfg.crypto.floats) && Respectful(cfg)
    requires Twins(cfg.crypto.floats, cmd.params, params) && IsDouble(cmd.timestamp)
    ensures Server.EndingOf(cfg, n, cmd.(params := params), clk) == Server.EndingOf(cfg, n, cmd, clk)
  {
    SameScan(cfg, cmd, params, clk);
    SameParamsHash(cfg.crypto, cmd.params, params);
    var scan, paramsHash := Server.ScanOf(cfg, cmd, clk), ParamsHash(cfg.crypto, cmd.params);
    if scan.Ok? && paramsHash.Ok? && cfg.l1Key.Some? {
      SameReceipt(cfg, cfg.l1Key.value, n + 1, cmd, params, scan.value, paramsHash.value, clk);
    }
  }

  // ---------------------------------------------------------------- the connection handler

  /** What one pass through the handler reads: the clocks of verify, and the clock for a missing timestamp. */
  datatype Tick = Tick(clk: Server.Clock, arrived: real)

  /** round2 is Python's round(x, 2); other answers every message that is no verify request, and
      understood says which of those answers the client takes. */
  datatype Wire = Wire(
    round2: real -> real,
    other: (Server.State, PyValue, Tick) -> PyValue,
    understood: Bytes -> bool)

  /** Dispatch: None where an exception ends the handler. */
  function HandleMessage(cfg: Server.Config, wire: Wire, st: Server.State, tick: Tick, msg: PyValue)
    : (Server.State, Option<PyValue>)
  {
    if !msg.PyDict? then (st, None)
    else if GetOr(msg, "type", PyStr("")) != PyStr("verify") then (st, Some(wire.other(st, msg, tick)))
    else
      match ParseCommand(msg, tick.arrived)
      case Err(_) => (st, None)
      case Ok(cmd) =>
        var e := Server.EndingOf(cfg, st.sequence, cmd, tick.clk);
        (Server.Advance(cfg.maxAuditLog, st, e),
         if e.answer.Ok? then Some(ResultMessage(wire.round2, e.answer.value)) else None)
  }

  /** No message changes the server but a verify request with an agent, a tool and parameters. */
  lemma OnlyRequestsChange(cfg: Server.Config, wire: Wire, st: Server.State, tick: Tick, msg: PyValue)
    ensures HandleMessage(cfg, wire, st, tick, msg).0 != st ==>
              && Get(msg, "type") == Some(PyStr("verify"))
              && exists cmd :: StatesCommand(msg, tick.arrived, cmd)
  {
    var parsed := ParseCommand(msg, tick.arrived);
    if parsed.Ok? { Messages.CommandRead(msg, tick.arrived, parsed.value); }
  }

  function HandlePayload(cfg: Server.Config, wire: Wire, st: Server.State, tick: Tick, payload: Bytes)
    : (Server.State, Option<Bytes>)
  {
    match DecodeMessage(cfg.crypto.floats, payload)
    case Err(_) => (st, None)
    case Ok(msg) =>
      var (after, reply) := HandleMessage(cfg, wire, st, tick, msg);
      (after, if reply.Some? then Written(cfg.crypto.floats, reply.value) else None)
  }

  function Written(f: Floats, reply: PyValue): Option<Bytes> {
    var r := EncodeMessage(f, reply);
    if r.Ok? then Some(r.value) else None
  }

  /** The client's side of a reply. */
  function ParseReply(f: Floats, payload: Bytes, now: real): Result<VerificationResult> {
    var m :- DecodeMessage(f, payload);
    ParseResult(m, now)
  }

  // ---------------------------------------------------------------- results that can be written

  /** Floats can hold what the clocks say and what is computed from it. */
  ghost predicate ClockExact(cfg: Server.Config, wire: Wire, clk: Server.Clock) {
    Issuing.ClockExact(cfg, clk) && forall i: nat :: IsDouble(wire.round2(clk.latency(i)))
  }

  /** Every result of the server can be written. */
  lemma ResultRepresentable(cfg: Server.Config, wire: Wire, n: nat, cmd: Command, clk: Server.Clock)
    requires ClockExact(cfg, wire, clk)
    ensures var e := Server.EndingOf(cfg, n, cmd, clk);
            e.answer.Ok? ==> Representable(cfg.crypto.floats, wire.round2, e.answer.value)
  {
    var scan, paramsHash := Server.ScanOf(cfg, cmd, clk), ParamsHash(cfg.crypto, cmd.params);
    if scan.Ok? && paramsHash.Ok? {
      forall i | 0 <= i < |scan.value.results| ensures IsDouble(wire.round2(scan.value.results[i].latencyUs)) {
        assert scan.value.results[i].latencyUs == clk.latency(i);
      }
      if cfg.l1Key.Some? { ReceiptRepresentable(cfg, wire, n, cmd, clk, scan.value, paramsHash.value); }
    }
  }

  lemma ReceiptRepresentable(cfg: Server.Config, wire: Wire, n: nat, cmd: Command, clk: Server.Clock, scan: Rules.Scan,
                             paramsHash: string)
    requires ClockExact(cfg, wire, clk) && cfg.l1Key.Some?
    ensures var r := Server.IssueReceipt(cfg, cfg.l1Key.value, n + 1, cmd, scan, paramsHash, clk);
            r.Ok? ==> WellFormed(Receipts.ToDict(r.value)) && ToTree(cfg.crypto.floats, Dumps, Receipts.ToDict(r.value)).Some?
  {
    var digests := Server.DigestsOf(cfg, cmd, scan);
    Issuing.DraftPlain(cfg, n + 1, cmd, scan, paramsHash, digests, clk);
    var draft := Server.DraftFrom(cfg, n + 1, cmd, scan, paramsHash, digests, clk);
    Issuing.IssuePlain(cfg.crypto, draft, cfg.l1Key.value);
    var r := Server.Issue(cfg.crypto, draft, cfg.l1Key.value);
    if r.Ok? { Issuing.PlainWritable(cfg.crypto.floats, r.value); }
  }

  // ---------------------------------------------------------------- remote is local

  lemma CarriedTwins(f: Floats, v: PyValue, w: PyValue)
    requires WellFormed(v) && DumpsText(f, v).Ok? && Carried(f, v, w)
    ensures Twins(f, v, w)
  {
  }

  /** The handler does to the server what a direct call does. */
  lemma RequestHandled(cfg: Server.Config, wire: Wire, st: Server.State, tick: Tick, cmd: Command, payload: Bytes)
    requires FloatsSound(cfg.crypto.floats) && Respectful(cfg) && Sendable(cfg.crypto.floats, cmd)
    requires EncodeMessage(cfg.crypto.floats, RequestMessage(cmd)) == Ok(payload)
    ensures var e := Server.EndingOf(cfg, st.sequence, cmd, tick.clk);
            HandlePayload(cfg, wire, st, tick, payload) ==
            (Server.Advance(cfg.maxAuditLog, st, e),
             if e.answer.Ok? then Written(cfg.crypto.floats, ResultMessage(wire.round2, e.answer.value)) else None)
  {
    var f := cfg.crypto.floats;
    RequestSound(f, cmd);
    MessageArrives(f, RequestMessage(cmd));
    var msg := DecodeMessage(f, payload).value;
    RequestArrives(f, cmd, msg, tick.arrived);
    var got := ParseCommand(msg, tick.arrived).value;
    CarriedTwins(f, cmd.params, got.params);
    SameEnding(cfg, st.sequence, cmd, got.params, tick.clk);
  }

  /** Sending a command, handling it and reading the reply gives what verify gives in process, in the same
      state and with the same clock readings: the same server state after it, an exception for an exception,
      and the same result up to rounded latencies and the JSON form of the Level-1 receipt. */
  lemma RemoteIsLocal(cfg: Server.Config, wire: Wire, st: Server.State, tick: Tick, cmd: Command, payload: Bytes, now: real)
    requires FloatsSound(cfg.crypto.floats) && Respectful(cfg) && Sendable(cfg.crypto.floats, cmd)
    requires ClockExact(cfg, wire, tick.clk)
    requires EncodeMessage(cfg.crypto.floats, RequestMessage(cmd)) == Ok(payload)
    ensures var e := Server.EndingOf(cfg, st.sequence, cmd, tick.clk);
            var (after, reply) := HandlePayload(cfg, wire, st, tick, payload);
            && after == Server.Advance(cfg.maxAuditLog, st, e)
            && (reply.Some? <==> e.answer.Ok? && EncodeMessage(cfg.crypto.floats, ResultMessage(wire.round2, e.answer.value)).Ok?)
            && (reply.Some? ==>
                  var r := ParseReply(cfg.crypto.floats, reply.value, now);
                  r.Ok? && SameResult(cfg.crypto.floats, wire.round2, e.answer.value, r.value))
  {
    RequestHandled(cfg, wire, st, tick, cmd, payload);
    var f, e := cfg.crypto.floats, Server.EndingOf(cfg, st.sequence, cmd, tick.clk);
    if e.answer.Ok? {
      ResultRepresentable(cfg, wire, st.sequence, cmd, tick.clk);
      ReplyParsed(f, wire, e.answer.value, now);
    }
  }

  lemma ReplyParsed(f: Floats, wire: Wire, v: VerificationResult, now: real)
    requires FloatsSound(f) && Representable(f, wire.round2, v)
    ensures var reply := Written(f, ResultMessage(wire.round2, v));
            reply.Some? ==>
              var r := ParseReply(f, reply.value, now);
              r.Ok? && SameResult(f, wire.round2, v, r.value)
  {
    var m := ResultMessage(wire.round2, v);
    if EncodeMessage(f, m).Ok? {
      ResultSound(f, wire.round2, v);
      MessageArrives(f, m);
      ResultArrives(f, wire.round2, v, DecodeMessage(f, EncodeMessage(f, m).value).value, now);
    }
  }

  /** The client reads a reply as an answer of verify. */
  ghost predicate ReadAs(cfg: Server.Config, wire: Wire, e: Server.Ending, reply: Bytes, now: real) {
    var r := ParseReply(cfg.crypto.floats, reply, now);
    e.answer.Ok? && r.Ok? && SameResult(cfg.crypto.floats, wire.round2, e.answer.value, r.value)
  }

  /** The client reads the server's reply to a command as the answer of verify, whatever its own clock says. */
  lemma CommandRead(cfg: Server.Config, wire: Wire, st: Server.State, tick: Tick, cmd: Command, p: Bytes, now: real)
    requires FloatsSound(cfg.crypto.floats) && Respectful(cfg) && ClockExact(cfg, wire, tick.clk)
    requires Sendable(cfg.crypto.floats, cmd) && EncodeMessage(cfg.crypto.floats, RequestMessage(cmd)) == Ok(p)
    requires HandlePayload(cfg, wire, st, tick, p).1.Some?
    ensures var (after, reply) := HandlePayload(cfg, wire, st, tick, p);
            var e := Server.EndingOf(cfg, st.sequence, cmd, tick.clk);
            after == Server.Advance(cfg.maxAuditLog, st, e) && ReadAs(cfg, wire, e, reply.value, now)
  {
    RemoteIsLocal(cfg, wire, st, tick, cmd, p, now);
  }

  /** Parameters json.dumps cannot write make the call raise on either way. */
  lemma UnsendableRaises(cfg: Server.Config, n: nat, cmd: Command, clk: Server.Clock)
    requires DumpsText(cfg.crypto.floats, cmd.params).Err?
    ensures EncodeMessage(cfg.crypto.floats, RequestMessage(cmd)) == Err(TypeError)
    ensures Server.EndingOf(cfg, n, cmd, clk).answer.Err?
  {
    var entries := RequestMessage(cmd).entries;
    assert entries[3].value == cmd.params;
    assert !WritableDict(cfg.crypto.floats, Dumps, RequestMessage(cmd));
  }

  // ---------------------------------------------------------------- over whole runs

  /** The session machine with this server and this client. */
  function Machine(cfg: Server.Config, wire: Wire, reconnect: bool, maxRetries: nat): Session.Config<Server.State, Tick> {
    Session.Config(
      (st: Server.State, tick: Tick, p: Bytes) => HandlePayload(cfg, wire, st, tick, p),
      (kind: Session.Kind, p: Bytes) => if kind.Verify? then ParseReply(cfg.crypto.floats, p, 0.0).Ok? else wire.understood(p),
      reconnect, maxRetries)
  }

  /** A reply is read as the result a direct call of verify would have had as entry number at of the log, in
      the state the server was in; and the server went on from there as after that direct call. */
  ghost predicate LocalAt(cfg: Server.Config, wire: Wire, m: Session.Config<Server.State, Tick>,
                          log: seq<Session.Handling<Tick>>, at: nat, cmd: Command, reply: Bytes, now: real)
    requires at < |log|
  {
    var st := ServerLog.ServerAfter(m, Server.INITIAL, log[..at]);
    var e := Server.EndingOf(cfg, st.sequence, cmd, log[at].tick.clk);
    && ReadAs(cfg, wire, e, reply, now)
    && ServerLog.ServerAfter(m, Server.INITIAL, log[..at + 1]) == Server.Advance(cfg.maxAuditLog, st, e)
  }

  /** The result call k returned is that of a direct call at some moment between the start and the end of
      call k. */
  ghost predicate LocalAtSomeMoment(cfg: Server.Config, wire: Wire, m: Session.Config<Server.State, Tick>,
                                    s: Session.State<Server.State, Tick>, k: nat, cmd: Command, now: real)
  {
    && Guarantees.Read(s, k)
    && s.calls[k].since <= Guarantees.Place(s, k) < s.calls[k].phase.done <= |s.log|
    && LocalAt(cfg, wire, m, s.log, Guarantees.Place(s, k), cmd, s.calls[k].phase.reply, now)
  }

  lemma AnswerIsLocal(cfg: Server.Config, wire: Wire, m: Session.Config<Server.State, Tick>,
                      s: Session.State<Server.State, Tick>, k: nat, cmd: Command, now: real)
    requires m == Machine(cfg, wire, m.reconnect, m.maxRetries)
    requires FloatsSound(cfg.crypto.floats) && Respectful(cfg) && Sendable(cfg.crypto.floats, cmd)
    requires Guarantees.Answers(m, Server.INITIAL, s, k, k)
    requires EncodeMessage(cfg.crypto.floats, RequestMessage(cmd)) == Ok(s.calls[k].payload)
    requires ClockExact(cfg, wire, s.log[Guarantees.Place(s, k)].tick.clk)
    ensures LocalAtSomeMoment(cfg, wire, m, s, k, cmd, now)
  {
    EntryIsLocal(cfg, wire, m, s.log, Guarantees.Place(s, k), cmd, s.calls[k].phase.reply, now);
  }

  lemma MachineHandles(cfg: Server.Config, wire: Wire, m: Session.Config<Server.State, Tick>, st: Server.State, tick: Tick, payload: Bytes)
    requires m == Machine(cfg, wire, m.reconnect, m.maxRetries)
    ensures m.handle(st, tick, payload) == HandlePayload(cfg, wire, st, tick, payload)
  {
  }

  /** One entry of the server's log is handled as a direct call. */
  lemma EntryIsLocal(cfg: Server.Config, wire: Wire, m: Session.Config<Server.State, Tick>,
                     log: seq<Session.Handling<Tick>>, at: nat, cmd: Command, reply: Bytes, now: real)
    requires m == Machine(cfg, wire, m.reconnect, m.maxRetries) && at < |log|
    requires FloatsSound(cfg.crypto.floats) && Respectful(cfg) && Sendable(cfg.crypto.floats, cmd)
    requires EncodeMessage(cfg.crypto.floats, RequestMessage(cmd)) == Ok(log[at].payload)
    requires ClockExact(cfg, wire, log[at].tick.clk) && ServerLog.Answer(m, Server.INITIAL, log, at) == Some(reply)
    ensures LocalAt(cfg, wire, m, log, at, cmd, reply, now)
  {
    var st := ServerLog.ServerAfter(m, Server.INITIAL, log[..at]);
    ServerLog.AfterEntry(m, Server.INITIAL, log, at);
    MachineHandles(cfg, wire, m, st, log[at].tick, log[at].payload);
    CommandRead(cfg, wire, st, log[at].tick, cmd, log[at].payload, now);
  }

  /** In every run, with time-outs and cancellation anywhere: a verify call that returns is local at some
      moment if no read had been given up on its connection. */
  lemma LocalIfNothingGivenUp(cfg: Server.Config, wire: Wire, m: Session.Config<Server.State, Tick>,
                              steps: seq<Session.Step<Tick>>, k: nat, cmd: Command, now: real)
    requires m == Machine(cfg, wire, m.reconnect, m.maxRetries)
    requires FloatsSound(cfg.crypto.floats) && Respectful(cfg) && Sendable(cfg.crypto.floats, cmd)
    requires Session.Run(m, Session.Start(Server.INITIAL), steps).Some?
    ensures var s := Session.Run(m, Session.Start(Server.INITIAL), steps).value;
            && k < |s.calls| && s.calls[k].phase.Returned? && s.calls[k].phase.missed == 0
            && EncodeMessage(cfg.crypto.floats, RequestMessage(cmd)) == Ok(s.calls[k].payload)
            && (forall a :: 0 <= a < |s.log| ==> ClockExact(cfg, wire, s.log[a].tick.clk))
            ==> LocalAtSomeMoment(cfg, wire, m, s, k, cmd, now)
  {
    var s := Session.Run(m, Session.Start(Server.INITIAL), steps).value;
    Guarantees.ReplyAttribution(m, Server.INITIAL, steps, k);
    if k < |s.calls| && s.calls[k].phase.Returned? && s.calls[k].phase.missed == 0
       && EncodeMessage(cfg.crypto.floats, RequestMessage(cmd)) == Ok(s.calls[k].payload)
       && (forall a :: 0 <= a < |s.log| ==> ClockExact(cfg, wire, s.log[a].tick.clk)) {
      AnswerIsLocal(cfg, wire, m, s, k, cmd, now);
    }
  }

  /** In an orderly run, whatever the network does, every verify call that returns is local at some moment. */
  lemma VerifyIsLocal(cfg: Server.Config, wire: Wire, m: Session.Config<Server.State, Tick>,
                      steps: seq<Session.Step<Tick>>, k: nat, cmd: Command, now: real)
    requires m == Machine(cfg, wire, m.reconnect, m.maxRetries)
    requires FloatsSound(cfg.crypto.floats) && Respectful(cfg) && Sendable(cfg.crypto.floats, cmd)
    requires Session.Run(m, Session.Start(Server.INITIAL), steps).Some?
    requires Guarantees.OrderlyRun(m, Session.Start(Server.INITIAL), steps)
    ensures var s := Session.Run(m, Session.Start(Server.INITIAL), steps).value;
            && k < |s.calls| && s.calls[k].phase.Returned?
            && EncodeMessage(cfg.crypto.floats, RequestMessage(cmd)) == Ok(s.calls[k].payload)
            && (forall a :: 0 <= a < |s.log| ==> ClockExact(cfg, wire, s.log[a].tick.clk))
            ==> LocalAtSomeMoment(cfg, wire, m, s, k, cmd, now)
  {
    var s := Session.Run(m, Session.Start(Server.INITIAL), steps).value;
    Guarantees.Linearizable(m, Server.INITIAL, steps);
    if k < |s.calls| && s.calls[k].phase.Returned?
       && EncodeMessage(cfg.crypto.floats, RequestMessage(cmd)) == Ok(s.calls[k].payload)
       && (forall a :: 0 <= a < |s.log| ==> ClockExact(cfg, wire, s.log[a].tick.clk)) {
      assert Guarantees.Answers(m, Server.INITIAL, s, k, k);
      AnswerIsLocal(cfg, wire, m, s, k, cmd, now);
    }
  }

  // ---------------------------------------------------------------- sessions are runs of verify

  /** The verify calls among the handled requests, as the handler parses them. */
  function CallsOf(cfg: Server.Config, log: seq<Session.Handling<Tick>>): seq<Server.Call> {
    if |log| == 0 then []
    else CallsOf(cfg, log[..|log| - 1]) + CallOf(cfg, log[|log| - 1].payload, log[|log| - 1].tick)
  }

  function CallOf(cfg: Server.Config, payload: Bytes, tick: Tick): seq<Server.Call> {
    match DecodeMessage(cfg.crypto.floats, payload)
    case Err(_) => []
    case Ok(msg) =>
      if !msg.PyDict? || GetOr(msg, "type", PyStr("")) != PyStr("verify") then []
      else match ParseCommand(msg, tick.arrived)
        case Err(_) => []
        case Ok(cmd) => [Server.Call(cmd, tick.clk)]
  }

  function OnePlus(cfg: Server.Config, st: Server.State, calls: seq<Server.Call>): Server.State
    requires |calls| <= 1
  {
    if |calls| == 0 then st
    else Server.Advance(cfg.maxAuditLog, st, Server.EndingOf(cfg, st.sequence, calls[0].cmd, calls[0].clk))
  }

  lemma HandlingAdvances(cfg: Server.Config, wire: Wire, st: Server.State, tick: Tick, payload: Bytes)
    ensures |CallOf(cfg, payload, tick)| <= 1
    ensures HandlePayload(cfg, wire, st, tick, payload).0 == OnePlus(cfg, st, CallOf(cfg, payload, tick))
  {
  }

  lemma RunOnePlus(cfg: Server.Config, calls: seq<Server.Call>, more: seq<Server.Call>)
    requires |more| <= 1
    ensures Server.Run(cfg, calls + more).st == OnePlus(cfg, Server.Run(cfg, calls).st, more)
  {
    if |more| == 0 {
      assert calls + more == calls;
    } else {
      assert (calls + more)[..|calls + more| - 1] == calls;
    }
  }

  lemma {:induction false} LogIsRun(cfg: Server.Config, wire: Wire, m: Session.Config<Server.State, Tick>,
                                   log: seq<Session.Handling<Tick>>)
    requires m == Machine(cfg, wire, m.reconnect, m.maxRetries)
    ensures ServerLog.ServerAfter(m, Server.INITIAL, log) == Server.Run(cfg, CallsOf(cfg, log)).st
    decreases |log|
  {
    if |log| > 0 {
      var before, last := log[..|log| - 1], log[|log| - 1];
      LogIsRun(cfg, wire, m, before);
      HandlingAdvances(cfg, wire, ServerLog.ServerAfter(m, Server.INITIAL, before), last.tick, last.payload);
      RunOnePlus(cfg, CallsOf(cfg, before), CallOf(cfg, last.payload, last.tick));
    }
  }

  /** After any session, with requests of any number of connections and clients interleaved, the server has
      made a run of verify calls one after another; so its log, counters and sequence number are as after
      that run. */
  lemma SessionInvariant(cfg: Server.Config, wire: Wire, m: Session.Config<Server.State, Tick>, steps: seq<Session.Step<Tick>>)
    requires m == Machine(cfg, wire, m.reconnect, m.maxRetries)
    requires Session.Run(m, Session.Start(Server.INITIAL), steps).Some?
    ensures var s := Session.Run(m, Session.Start(Server.INITIAL), steps).value;
            var h := Server.Run(cfg, CallsOf(cfg, s.log));
            s.server == h.st && Server.Invariant(cfg.maxAuditLog, cfg.l1Key.Some?, h)
  {
    var s := Session.Run(m, Session.Start(Server.INITIAL), steps).value;
    Alignment.RunKeeps(m, Server.INITIAL, steps);
    LogIsRun(cfg, wire, m, s.log);
    Server.RunInvariant(cfg, CallsOf(cfg, s.log));
  }
}
