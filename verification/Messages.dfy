/** The messages of the wire: verify requests and results as JSON documents, and how they are read. */
module Messages {
  import opened Basics
  import opened KeyOrder
  import opened PyValues
  import opened Canonical
  import opened Loading
  import opened Protocol
  import Framing
  import Utf8
  import Receipts

  // ---------------------------------------------------------------- documents

  /** The payload of MessageFrame.encode, which the frame header precedes. */
  function EncodeMessage(f: Floats, msg: PyValue): Result<Bytes> {
    var text :- DumpsText(f, msg);
    var payload := Utf8.Encode(text);
    if |payload| > Framing.MAX_MESSAGE_SIZE then Err(TransportError) else Ok(payload)
  }

  /** What MessageFrame.decode makes of a payload; a repeated name is no error here. */
  function DecodeMessage(f: Floats, payload: Bytes): Result<PyValue> {
    var text :- OrElse(Utf8.Decode(payload), ValueError);
    LoadsText(f, false, text)
  }

  /** A message arrives as the same JSON. */
  lemma MessageArrives(f: Floats, msg: PyValue)
    requires FloatsSound(f) && WellFormed(msg) && EncodeMessage(f, msg).Ok?
    ensures var r := DecodeMessage(f, EncodeMessage(f, msg).value);
            r.Ok? && Carried(f, msg, r.value)
  {
    Utf8.DecodeEncode(DumpsText(f, msg).value);
    LoadsDumps(f, false, msg);
  }

  function Payloads(f: Floats, msgs: seq<PyValue>): (ps: seq<Bytes>)
    requires forall i :: 0 <= i < |msgs| ==> EncodeMessage(f, msgs[i]).Ok?
    ensures |ps| == |msgs| && forall i :: 0 <= i < |msgs| ==> ps[i] == EncodeMessage(f, msgs[i]).value
    ensures Framing.Fit(ps)
  { seq(|msgs|, i requires 0 <= i < |msgs| => EncodeMessage(f, msgs[i]).value) }

  /** Messages framed one after another and cut into chunks anywhere arrive one by one as the same JSON, with
      nothing left over. */
  lemma MessagesRoundTrip(f: Floats, msgs: seq<PyValue>, chunks: seq<Bytes>)
    requires FloatsSound(f) && forall i :: 0 <= i < |msgs| ==> WellFormed(msgs[i]) && EncodeMessage(f, msgs[i]).Ok?
    requires Framing.Concat(chunks) == Framing.Frames(Payloads(f, msgs))
    ensures var s := Framing.FeedAll(Framing.START, chunks);
            && !s.failed && s.rest == [] && |s.payloads| == |msgs|
            && forall i :: 0 <= i < |msgs| ==>
                 DecodeMessage(f, s.payloads[i]).Ok? && Carried(f, msgs[i], DecodeMessage(f, s.payloads[i]).value)
  {
    var ps := Payloads(f, msgs);
    Framing.FramesRoundTrip(ps, chunks);
    forall i | 0 <= i < |msgs| ensures DecodeMessage(f, ps[i]).Ok? && Carried(f, msgs[i], DecodeMessage(f, ps[i]).value) {
      MessageArrives(f, msgs[i]);
    }
  }

  // ---------------------------------------------------------------- parts of what arrives

  lemma {:induction false} ValidateSame(v: PyValue, w: PyValue)
    requires SameJson(Dumps, v, w)
    ensures Validate(v) <==> Validate(w)
    decreases v
  {
    if IsSequence(v) {
      forall i | 0 <= i < |v.items| ensures Validate(v.items[i]) <==> Validate(w.items[i]) {
        ValidateSame(v.items[i], w.items[i]);
      }
    } else if v.PyDict? {
      assert SameDict(Dumps, v, w);
      forall i, j | 0 <= i < |v.entries| && 0 <= j < |w.entries| && v.entries[i].key == w.entries[j].key
        ensures Validate(v.entries[i].value) <==> Validate(w.entries[j].value)
      {
        ValidateSame(v.entries[i].value, w.entries[j].value);
      }
      DictValidate(v, w);
      DictValidate(w, v);
    }
  }

  lemma DictValidate(v: PyValue, w: PyValue)
    requires v.PyDict? && w.PyDict? && forall k :: HasKey(v.entries, k) ==> HasKey(w.entries, k)
    requires forall i, j :: 0 <= i < |v.entries| && 0 <= j < |w.entries| && v.entries[i].key == w.entries[j].key ==>
               (Validate(v.entries[i].value) <==> Validate(w.entries[j].value))
    ensures Validate(w) ==> Validate(v)
  {
    if Validate(w) {
      forall i | 0 <= i < |v.entries| ensures Validate(v.entries[i].key) && Validate(v.entries[i].value) {
        assert HasKey(v.entries, v.entries[i].key);
        var j :| 0 <= j < |w.entries| && w.entries[j].key == v.entries[i].key;
      }
    }
  }

  /** What is stored under a name arrives under that name. */
  lemma GetCarried(f: Floats, v: PyValue, w: PyValue, k: string)
    requires v.PyDict? && Carried(f, v, w)
    ensures w.PyDict?
    ensures Get(v, k).Some? <==> Get(w, k).Some?
    ensures Get(v, k).Some? ==> Carried(f, Get(v, k).value, Get(w, k).value)
  {
    GetSame(Dumps, v, w, k);
    if Get(v, k).Some? {
      FindSpec(w.entries, k);
      var x, y := Get(v, k).value, Get(w, k).value;
      var j :| 0 <= j < |w.entries| && w.entries[j].key == PyStr(k) && w.entries[j].value == y;
      assert WritableDict(f, Dumps, w);
      ValidateSame(x, y);
    }
  }

  lemma ItemsCarried(f: Floats, v: PyValue, w: PyValue)
    requires IsSequence(v) && Carried(f, v, w)
    ensures IsSequence(w) && |w.items| == |v.items|
    ensures forall i :: 0 <= i < |v.items| ==> Carried(f, v.items[i], w.items[i])
  {
    assert SameItems(Dumps, v.items, w.items);
    assert Writable(f, Dumps, w.items);
    forall i | 0 <= i < |v.items| ensures Carried(f, v.items[i], w.items[i]) {
      ValidateSame(v.items[i], w.items[i]);
    }
  }

  /** Texts and numbers arrive unchanged. */
  lemma ScalarCarried(f: Floats, v: PyValue, w: PyValue)
    requires (v.PyStr? || v.PyInt? || v.PyFloat?) && Carried(f, v, w)
    ensures w == v
  {
  }

  // ---------------------------------------------------------------- records

  ghost predicate Distinct(keys: seq<string>) { forall i, j :: 0 <= i < j < |keys| ==> keys[i] != keys[j] }

  /** A dict with the given names, of which the last ones may be left out. */
  function Record(keys: seq<string>, values: seq<PyValue>): PyValue
    requires |values| <= |keys|
  {
    PyDict(seq(|values|, i requires 0 <= i < |values| => PyEntry(PyStr(keys[i]), values[i])))
  }

  lemma {:induction false} FindFirst(entries: seq<PyEntry>, k: string, i: nat)
    requires i <= |entries| && forall j :: 0 <= j < i ==> entries[j].key != PyStr(k)
    ensures i < |entries| && entries[i].key == PyStr(k) ==> Find(entries, k) == Some(entries[i].value)
    ensures i == |entries| ==> Find(entries, k) == None
    decreases i
  {
    if i > 0 { FindFirst(entries[1..], k, i - 1); }
  }

  lemma RecordGet(keys: seq<string>, values: seq<PyValue>, i: nat)
    requires |values| <= |keys| && i < |keys| && Distinct(keys)
    ensures Get(Record(keys, values), keys[i]) == if i < |values| then Some(values[i]) else None
  {
    FindFirst(Record(keys, values).entries, keys[i], if i < |values| then i else |values|);
  }

  lemma RecordSound(f: Floats, keys: seq<string>, values: seq<PyValue>)
    requires |values| <= |keys| && Distinct(keys)
    requires forall i :: 0 <= i < |values| ==> WellFormed(values[i])
    ensures WellFormed(Record(keys, values))
    ensures (forall i :: 0 <= i < |values| ==> ToTree(f, Dumps, values[i]).Some?) ==> ToTree(f, Dumps, Record(keys, values)).Some?
  {
    var es := Record(keys, values).entries;
    forall i, j | 0 <= i < j < |es| ensures es[i].key != es[j].key {
      assert keys[i] != keys[j];
    }
    if forall i :: 0 <= i < |values| ==> ToTree(f, Dumps, values[i]).Some? {
      assert WritableDict(f, Dumps, Record(keys, values));
    }
  }

  // ---------------------------------------------------------------- reading members

  function AsText(v: PyValue): Result<string> { if v.PyStr? then Ok(v.s) else Err(TypeError) }

  function AsFloat(v: PyValue): Result<real> { if v.PyFloat? then Ok(v.x) else Err(TypeError) }

  function AsInt(v: PyValue): Result<int> { if v.PyInt? then Ok(v.n) else Err(TypeError) }

  /** Verdict(v) */
  function AsVerdict(v: PyValue): Result<Verdict> {
    if v.PyStr? then OrElse(VerdictOf(v.s), ValueError) else Err(ValueError)
  }

  /** v[k] */
  function Item(v: PyValue, k: string): Result<PyValue> { OrElse(Get(v, k), KeyError) }

  /** v.get(k, d) */
  function GetOr(v: PyValue, k: string, d: PyValue): PyValue {
    match Get(v, k)
    case Some(x) => x
    case None => d
  }

  // ---------------------------------------------------------------- verify requests

  const REQUEST_KEYS: seq<string> := ["type", "agent_id", "tool", "params", "timestamp", "trace_id"]

  function RequestMessage(cmd: Command): PyValue {
    Record(REQUEST_KEYS, [PyStr("verify"), PyStr(cmd.agentId), PyStr(cmd.tool), cmd.params,
                          PyFloat(cmd.timestamp), PyStr(cmd.traceId)])
  }

  /** The command the server builds from a request; now is the clock it reads for a missing timestamp. */
  function ParseCommand(msg: PyValue, now: real): Result<Command> {
    var agentId :- Item(msg, "agent_id");
    var tool :- Item(msg, "tool");
    var params :- Item(msg, "params");
    var a :- AsText(agentId);
    var t :- AsText(tool);
    var ts :- AsFloat(GetOr(msg, "timestamp", PyFloat(now)));
    var id :- AsText(GetOr(msg, "trace_id", PyStr("")));
    Ok(Command(a, t, params, ts, id))
  }

  /** Under a name there is v, or nothing and v is the default. */
  predicate Has(m: PyValue, k: string, v: PyValue, dflt: PyValue) { Get(m, k) == Some(v) || (Get(m, k) == None && v == dflt) }

  /** The command a message states; a missing time is that of the clock, a missing trace id is empty. */
  predicate StatesCommand(msg: PyValue, now: real, cmd: Command) {
    && Get(msg, "agent_id") == Some(PyStr(cmd.agentId)) && Get(msg, "tool") == Some(PyStr(cmd.tool))
    && Get(msg, "params") == Some(cmd.params)
    && Has(msg, "timestamp", PyFloat(cmd.timestamp), PyFloat(now)) && Has(msg, "trace_id", PyStr(cmd.traceId), PyStr(""))
  }

  /** The server builds the command the message states, and none if the agent, the tool or the parameters are missing. */
  lemma CommandRead(msg: PyValue, now: real, cmd: Command)
    ensures ParseCommand(msg, now) == Ok(cmd) <==> StatesCommand(msg, now, cmd)
    ensures Get(msg, "agent_id").None? || Get(msg, "tool").None? || Get(msg, "params").None? ==>
              ParseCommand(msg, now) == Err(KeyError)
  {
  }

  lemma RequestKeysDistinct()
    ensures Distinct(REQUEST_KEYS)
  {
    assert |"type"| == 4 && |"agent_id"| == 8 && |"tool"| == 4 && |"params"| == 6 && |"timestamp"| == 9 && |"trace_id"| == 8;
    assert "type"[1] != "tool"[1] && "agent_id"[0] != "trace_id"[0];
  }

  ghost predicate Sendable(f: Floats, cmd: Command) {
    WellFormed(cmd.params) && IsDouble(cmd.timestamp) && DumpsText(f, cmd.params).Ok?
  }

  lemma RequestSound(f: Floats, cmd: Command)
    requires Sendable(f, cmd)
    ensures WellFormed(RequestMessage(cmd)) && ToTree(f, Dumps, RequestMessage(cmd)).Some?
  {
    RequestKeysDistinct();
    RecordSound(f, REQUEST_KEYS, [PyStr("verify"), PyStr(cmd.agentId), PyStr(cmd.tool), cmd.params,
                                  PyFloat(cmd.timestamp), PyStr(cmd.traceId)]);
  }

  lemma RequestGet(cmd: Command, i: nat)
    requires i < 6
    ensures Get(RequestMessage(cmd), REQUEST_KEYS[i]) ==
            Some([PyStr("verify"), PyStr(cmd.agentId), PyStr(cmd.tool), cmd.params,
                  PyFloat(cmd.timestamp), PyStr(cmd.traceId)][i])
  {
    RequestKeysDistinct();
    RecordGet(REQUEST_KEYS, [PyStr("verify"), PyStr(cmd.agentId), PyStr(cmd.tool), cmd.params,
                             PyFloat(cmd.timestamp), PyStr(cmd.traceId)], i);
  }

  /** The server gets the command as sent, its parameters as the same JSON. */
  lemma RequestArrives(f: Floats, cmd: Command, msg: PyValue, now: real)
    requires Carried(f, RequestMessage(cmd), msg)
    ensures Get(msg, "type") == Some(PyStr("verify"))
    ensures var r := ParseCommand(msg, now);
            r.Ok? && r.value == cmd.(params := r.value.params) && Carried(f, cmd.params, r.value.params)
  {
    var m := RequestMessage(cmd);
    forall i: nat | i < 6 ensures Get(m, REQUEST_KEYS[i]).Some? && Get(msg, REQUEST_KEYS[i]).Some?
      && Carried(f, Get(m, REQUEST_KEYS[i]).value, Get(msg, REQUEST_KEYS[i]).value)
    {
      RequestGet(cmd, i);
      GetCarried(f, m, msg, REQUEST_KEYS[i]);
    }
    RequestGet(cmd, 0);
    RequestGet(cmd, 1);
    RequestGet(cmd, 2);
    RequestGet(cmd, 3);
    RequestGet(cmd, 4);
    RequestGet(cmd, 5);
  }

  // ---------------------------------------------------------------- results

  const RULE_KEYS: seq<string> := ["rule_name", "verdict", "reason", "latency_us", "error_code"]

  const RESULT_KEYS: seq<string> :=
    ["type", "trace_id", "verdict", "block_reason", "rule_results", "receipt", "verified_at", "tool", "params_hash",
     "error_code", "l1_receipt"]

  /** round2 is Python's round(x, 2). */
  function RuleValues(round2: real -> real, r: RuleResult): seq<PyValue> {
    [PyStr(r.ruleName), PyStr(VerdictText(r.verdict)), PyStr(r.reason), PyFloat(round2(r.latencyUs)), PyInt(r.errorCode)]
  }

  function RuleMessages(round2: real -> real, rs: seq<RuleResult>): (ms: seq<PyValue>)
    ensures |ms| == |rs| && forall i :: 0 <= i < |rs| ==> ms[i] == Record(RULE_KEYS, RuleValues(round2, rs[i]))
  {
    seq(|rs|, i requires 0 <= i < |rs| => Record(RULE_KEYS, RuleValues(round2, rs[i])))
  }

  function ResultValues(round2: real -> real, v: VerificationResult): (xs: seq<PyValue>)
    ensures 10 <= |xs| <= 11
  {
    [PyStr("result"), PyStr(v.traceId), PyStr(VerdictText(v.verdict)), PyStr(v.blockReason),
     PyList(RuleMessages(round2, v.ruleResults)), PyStr(v.receipt), PyFloat(v.verifiedAt), PyStr(v.tool),
     PyStr(v.paramsHash), PyInt(v.errorCode)]
    + (if v.l1Receipt.Some? && Receipts.Truthy(v.l1Receipt.value) then [v.l1Receipt.value] else [])
  }

  function ResultMessage(round2: real -> real, v: VerificationResult): PyValue {
    Record(RESULT_KEYS, ResultValues(round2, v))
  }

  function ParseRule(r: PyValue): Result<RuleResult> {
    var name :- Item(r, "rule_name");
    var n :- AsText(name);
    var verdict :- Item(r, "verdict");
    var v :- AsVerdict(verdict);
    var reason :- AsText(GetOr(r, "reason", PyStr("")));
    var latency :- AsFloat(GetOr(r, "latency_us", PyFloat(0.0)));
    var code :- AsInt(GetOr(r, "error_code", PyInt(DEFAULT_ERROR_CODE)));
    Ok(RuleResult(n, v, reason, latency, code))
  }

  function ParseRules(rs: seq<PyValue>): Result<seq<RuleResult>> {
    if rs == [] then Ok([])
    else
      var first :- ParseRule(rs[0]);
      var rest :- ParseRules(rs[1..]);
      Ok([first] + rest)
  }

  /** The result the client builds from a reply; now is the clock it reads for a missing time. */
  function ParseResult(m: PyValue, now: real): Result<VerificationResult> {
    var items := GetOr(m, "rule_results", PyList([]));
    if !m.PyDict? || !IsSequence(items) then Err(TypeError)
    else
      var rules :- ParseRules(items.items);
      var traceId :- Item(m, "trace_id");
      var id :- AsText(traceId);
      var verdict :- Item(m, "verdict");
      var v :- AsVerdict(verdict);
      var reason :- AsText(GetOr(m, "block_reason", PyStr("")));
      var receipt :- AsText(GetOr(m, "receipt", PyStr("")));
      var at :- AsFloat(GetOr(m, "verified_at", PyFloat(now)));
      var tool :- AsText(GetOr(m, "tool", PyStr("")));
      var hash :- AsText(GetOr(m, "params_hash", PyStr("")));
      var code :- AsInt(GetOr(m, "error_code", PyInt(DEFAULT_ERROR_CODE)));
      var l1 := GetOr(m, "l1_receipt", PyNone);
      Ok(VerificationResult(id, v, reason, rules, receipt, at, tool, hash, code,
                            if Receipts.Truthy(l1) then Some(l1) else None))
  }

  /** The rule result a member of a reply states; reason, latency and code may be missing. */
  predicate StatesRule(m: PyValue, r: RuleResult) {
    && Get(m, "rule_name") == Some(PyStr(r.ruleName)) && Get(m, "verdict") == Some(PyStr(VerdictText(r.verdict)))
    && Has(m, "reason", PyStr(r.reason), PyStr("")) && Has(m, "latency_us", PyFloat(r.latencyUs), PyFloat(0.0))
    && Has(m, "error_code", PyInt(r.errorCode), PyInt(-32000))
  }

  lemma VerdictRead(v: PyValue, w: Verdict)
    ensures AsVerdict(v) == Ok(w) <==> v == PyStr(VerdictText(w))
  {
    VerdictTexts(w);
  }

  lemma RuleRead(m: PyValue, r: RuleResult)
    ensures ParseRule(m) == Ok(r) <==> StatesRule(m, r)
  {
    if Get(m, "verdict").Some? { VerdictRead(Get(m, "verdict").value, r.verdict); }
  }

  lemma {:induction false} RulesRead(ms: seq<PyValue>, rs: seq<RuleResult>)
    ensures ParseRules(ms) == Ok(rs) <==> |ms| == |rs| && forall i :: 0 <= i < |ms| ==> StatesRule(ms[i], rs[i])
  {
    if ms != [] && rs != [] {
      RuleRead(ms[0], rs[0]);
      RulesRead(ms[1..], rs[1..]);
      assert rs == [rs[0]] + rs[1..];
    } else if ms == [] {
      assert ParseRules(ms) == Ok([]);
    }
  }

  /** The rule results a reply states; without the member there are none. */
  predicate StatesRules(m: PyValue, rs: seq<RuleResult>) {
    var ms := GetOr(m, "rule_results", PyList([]));
    IsSequence(ms) && |ms.items| == |rs| && forall i :: 0 <= i < |rs| ==> StatesRule(ms.items[i], rs[i])
  }

  /** The result a reply states; only trace id and verdict must be there. A receipt that counts as false is none. */
  predicate StatesResult(m: PyValue, now: real, v: VerificationResult) {
    && m.PyDict? && StatesRules(m, v.ruleResults)
    && Get(m, "trace_id") == Some(PyStr(v.traceId)) && Get(m, "verdict") == Some(PyStr(VerdictText(v.verdict)))
    && Has(m, "block_reason", PyStr(v.blockReason), PyStr("")) && Has(m, "receipt", PyStr(v.receipt), PyStr(""))
    && Has(m, "verified_at", PyFloat(v.verifiedAt), PyFloat(now)) && Has(m, "tool", PyStr(v.tool), PyStr(""))
    && Has(m, "params_hash", PyStr(v.paramsHash), PyStr("")) && Has(m, "error_code", PyInt(v.errorCode), PyInt(-32000))
    && match v.l1Receipt
       case Some(l1) => Get(m, "l1_receipt") == Some(l1) && Receipts.Truthy(l1)
       case None => Get(m, "l1_receipt").None? || !Receipts.Truthy(Get(m, "l1_receipt").value)
  }

  lemma RulesStated(m: PyValue, rs: seq<RuleResult>)
    ensures var ms := GetOr(m, "rule_results", PyList([]));
            IsSequence(ms) && ParseRules(ms.items) == Ok(rs) <==> StatesRules(m, rs)
  {
    var ms := GetOr(m, "rule_results", PyList([]));
    if IsSequence(ms) { RulesRead(ms.items, rs); }
  }

  lemma ResultStated(m: PyValue, now: real, v: VerificationResult)
    requires StatesResult(m, now, v)
    ensures ParseResult(m, now) == Ok(v)
  {
    RulesStated(m, v.ruleResults);
    VerdictRead(Get(m, "verdict").value, v.verdict);
  }

  lemma ResultStates(m: PyValue, now: real)
    requires ParseResult(m, now).Ok?
    ensures StatesResult(m, now, ParseResult(m, now).value)
  {
    var v := ParseResult(m, now).value;
    RulesStated(m, v.ruleResults);
    VerdictRead(Get(m, "verdict").value, v.verdict);
  }

  /** The client builds the result the reply states. */
  lemma ResultRead(m: PyValue, now: real, v: VerificationResult)
    ensures ParseResult(m, now) == Ok(v) <==> StatesResult(m, now, v)
  {
    if StatesResult(m, now, v) { ResultStated(m, now, v); }
    if ParseResult(m, now).Ok? { ResultStates(m, now); }
  }

  /** The rule results as the client gets them. */
  function Rounded(round2: real -> real, rs: seq<RuleResult>): seq<RuleResult> {
    seq(|rs|, i requires 0 <= i < |rs| => rs[i].(latencyUs := round2(rs[i].latencyUs)))
  }

  /** w is v as the client gets it: only the latencies are rounded, and the Level-1 receipt is the same JSON. */
  ghost predicate SameResult(f: Floats, round2: real -> real, v: VerificationResult, w: VerificationResult) {
    && w == v.(ruleResults := Rounded(round2, v.ruleResults), l1Receipt := w.l1Receipt)
    && (v.l1Receipt.Some? <==> w.l1Receipt.Some?)
    && (v.l1Receipt.Some? ==> Carried(f, v.l1Receipt.value, w.l1Receipt.value))
  }

  /** The floats of a result are doubles, and its Level-1 receipt can be written. */
  ghost predicate Representable(f: Floats, round2: real -> real, v: VerificationResult) {
    && IsDouble(v.verifiedAt)
    && (forall i :: 0 <= i < |v.ruleResults| ==> IsDouble(round2(v.ruleResults[i].latencyUs)))
    && (v.l1Receipt.Some? ==>
          var l1 := v.l1Receipt.value;
          l1.PyDict? && l1.entries != [] && WellFormed(l1) && ToTree(f, Dumps, l1).Some?)
  }

  lemma RuleKeysDistinct()
    ensures Distinct(RULE_KEYS)
  {
    assert |"rule_name"| == 9 && |"verdict"| == 7 && |"reason"| == 6 && |"latency_us"| == 10 && |"error_code"| == 10;
    assert "latency_us"[0] != "error_code"[0];
  }

  lemma ResultKeysDistinct()
    ensures Distinct(RESULT_KEYS)
  {
    assert |"type"| == 4 && |"trace_id"| == 8 && |"verdict"| == 7 && |"block_reason"| == 12 && |"rule_results"| == 12
        && |"receipt"| == 7 && |"verified_at"| == 11 && |"tool"| == 4 && |"params_hash"| == 11 && |"error_code"| == 10
        && |"l1_receipt"| == 10;
    assert "type"[1] != "tool"[1] && "verdict"[0] != "receipt"[0] && "block_reason"[0] != "rule_results"[0]
        && "verified_at"[0] != "params_hash"[0] && "error_code"[0] != "l1_receipt"[0];
  }

  /** Under each name of a record that arrived there is what was stored under it. */
  lemma RecordArrives(f: Floats, keys: seq<string>, values: seq<PyValue>, w: PyValue, i: nat)
    requires |values| <= |keys| && i < |keys| && Distinct(keys) && Carried(f, Record(keys, values), w)
    ensures w.PyDict? && (Get(w, keys[i]).Some? <==> i < |values|)
    ensures i < |values| ==> Carried(f, values[i], Get(w, keys[i]).value)
  {
    RecordGet(keys, values, i);
    GetCarried(f, Record(keys, values), w, keys[i]);
  }

  lemma TextArrives(f: Floats, keys: seq<string>, values: seq<PyValue>, w: PyValue, i: nat)
    requires i < |values| <= |keys| && Distinct(keys) && Carried(f, Record(keys, values), w)
    requires values[i].PyStr? || values[i].PyInt? || values[i].PyFloat?
    ensures Get(w, keys[i]) == Some(values[i])
  {
    RecordArrives(f, keys, values, w, i);
    ScalarCarried(f, values[i], Get(w, keys[i]).value);
  }

  lemma RuleArrives(f: Floats, round2: real -> real, r: RuleResult, w: PyValue)
    requires Carried(f, Record(RULE_KEYS, RuleValues(round2, r)), w)
    ensures ParseRule(w) == Ok(r.(latencyUs := round2(r.latencyUs)))
  {
    var values := RuleValues(round2, r);
    RuleKeysDistinct();
    TextArrives(f, RULE_KEYS, values, w, 0);
    TextArrives(f, RULE_KEYS, values, w, 1);
    TextArrives(f, RULE_KEYS, values, w, 2);
    TextArrives(f, RULE_KEYS, values, w, 3);
    TextArrives(f, RULE_KEYS, values, w, 4);
    VerdictTexts(r.verdict);
  }

  lemma {:induction false} RulesArrive(f: Floats, round2: real -> real, rs: seq<RuleResult>, ws: seq<PyValue>)
    requires |ws| == |rs| && forall i :: 0 <= i < |rs| ==> Carried(f, Record(RULE_KEYS, RuleValues(round2, rs[i])), ws[i])
    ensures ParseRules(ws) == Ok(Rounded(round2, rs))
  {
    if rs != [] {
      RuleArrives(f, round2, rs[0], ws[0]);
      RulesArrive(f, round2, rs[1..], ws[1..]);
      assert Rounded(round2, rs) == [rs[0].(latencyUs := round2(rs[0].latencyUs))] + Rounded(round2, rs[1..]);
    }
  }

  lemma RuleMessagesSound(f: Floats, round2: real -> real, rs: seq<RuleResult>)
    requires forall i :: 0 <= i < |rs| ==> IsDouble(round2(rs[i].latencyUs))
    ensures WellFormed(PyList(RuleMessages(round2, rs))) && ToTree(f, Dumps, PyList(RuleMessages(round2, rs))).Some?
  {
    RuleKeysDistinct();
    var ms := RuleMessages(round2, rs);
    forall i | 0 <= i < |ms| ensures WellFormed(ms[i]) && ToTree(f, Dumps, ms[i]).Some? {
      RecordSound(f, RULE_KEYS, RuleValues(round2, rs[i]));
    }
    assert Writable(f, Dumps, ms);
  }

  lemma ResultSound(f: Floats, round2: real -> real, v: VerificationResult)
    requires Representable(f, round2, v)
    ensures WellFormed(ResultMessage(round2, v)) && ToTree(f, Dumps, ResultMessage(round2, v)).Some?
  {
    ResultKeysDistinct();
    RuleMessagesSound(f, round2, v.ruleResults);
    var values := ResultValues(round2, v);
    forall i | 0 <= i < |values| ensures WellFormed(values[i]) && ToTree(f, Dumps, values[i]).Some? {
    }
    RecordSound(f, RESULT_KEYS, values);
  }

  lemma RulesMember(f: Floats, round2: real -> real, v: VerificationResult, m: PyValue)
    requires Carried(f, ResultMessage(round2, v), m)
    ensures m.PyDict? && var items := GetOr(m, "rule_results", PyList([]));
            IsSequence(items) && ParseRules(items.items) == Ok(Rounded(round2, v.ruleResults))
  {
    var values := ResultValues(round2, v);
    ResultKeysDistinct();
    RecordArrives(f, RESULT_KEYS, values, m, 4);
    ItemsCarried(f, values[4], Get(m, "rule_results").value);
    RulesArrive(f, round2, v.ruleResults, Get(m, "rule_results").value.items);
  }

  lemma L1Member(f: Floats, round2: real -> real, v: VerificationResult, m: PyValue)
    requires Representable(f, round2, v) && Carried(f, ResultMessage(round2, v), m)
    ensures var l1 := GetOr(m, "l1_receipt", PyNone);
            && (Receipts.Truthy(l1) <==> v.l1Receipt.Some?)
            && (v.l1Receipt.Some? ==> Carried(f, v.l1Receipt.value, l1))
  {
    var values := ResultValues(round2, v);
    ResultKeysDistinct();
    RecordArrives(f, RESULT_KEYS, values, m, 10);
    if v.l1Receipt.Some? {
      var l1, w := v.l1Receipt.value, Get(m, "l1_receipt").value;
      assert SameDict(Dumps, l1, w);
      assert HasKey(l1.entries, l1.entries[0].key);
      assert HasKey(w.entries, l1.entries[0].key);
    }
  }

  lemma ResultMembers(f: Floats, round2: real -> real, v: VerificationResult, m: PyValue)
    requires Carried(f, ResultMessage(round2, v), m)
    ensures Get(m, "trace_id") == Some(PyStr(v.traceId)) && Get(m, "verdict") == Some(PyStr(VerdictText(v.verdict)))
    ensures Get(m, "block_reason") == Some(PyStr(v.blockReason)) && Get(m, "receipt") == Some(PyStr(v.receipt))
    ensures Get(m, "verified_at") == Some(PyFloat(v.verifiedAt)) && Get(m, "tool") == Some(PyStr(v.tool))
    ensures Get(m, "params_hash") == Some(PyStr(v.paramsHash)) && Get(m, "error_code") == Some(PyInt(v.errorCode))
  {
    var values := ResultValues(round2, v);
    ResultKeysDistinct();
    TextArrives(f, RESULT_KEYS, values, m, 1);
    TextArrives(f, RESULT_KEYS, values, m, 2);
    TextArrives(f, RESULT_KEYS, values, m, 3);
    TextArrives(f, RESULT_KEYS, values, m, 5);
    TextArrives(f, RESULT_KEYS, values, m, 6);
    TextArrives(f, RESULT_KEYS, values, m, 7);
    TextArrives(f, RESULT_KEYS, values, m, 8);
    TextArrives(f, RESULT_KEYS, values, m, 9);
  }

  /** The client gets the result the server answered with. */
  lemma ResultArrives(f: Floats, round2: real -> real, v: VerificationResult, m: PyValue, now: real)
    requires Representable(f, round2, v) && Carried(f, ResultMessage(round2, v), m)
    ensures ParseResult(m, now).Ok? && SameResult(f, round2, v, ParseResult(m, now).value)
  {
    RulesMember(f, round2, v, m);
    ResultMembers(f, round2, v, m);
    L1Member(f, round2, v, m);
    VerdictTexts(v.verdict);
  }
}
