/** One run of the verifier with every assumption discharged: asked about one tool, verify returns the verdict
    on another. */
module FailingRun {
  import opened Basics
  import opened KeyOrder
  import opened PyValues
  import opened Canonical
  import opened Loading
  import opened Protocol
  import opened Messages
  import opened WholeReplies
  import Assumptions
  import Decimal
  import Framing
  import JsonText
  import KeySort
  import Receipts
  import Remote
  import Rules
  import Server
  import Session
  import StaleVerdict
  import Utf8

  // ---------------------------------------------------------------- messages that fit a frame

  lemma {:induction false} BodyLength(s: string)
    ensures |JsonText.StringBody(Dumps, s)| <= 12 * |s| + 1
  {
    if s != "" { BodyLength(s[1..]); }
  }

  lemma {:induction false} BytesLength(s: string)
    ensures |Utf8.Encode(s)| <= 4 * |s|
  {
    if s != "" { BytesLength(s[1..]); }
  }

  lemma {:induction false} DigitsLength(n: nat)
    ensures |Decimal.Digits(n)| <= 2 + n / 100
  {
    if n >= 10 { DigitsLength(n / 10); }
  }

  predicate ShortTree(t: JsonText.Tree) { |JsonText.Text(Dumps, t)| <= 1000 }

  predicate Short(f: Floats, v: PyValue) { ToTree(f, Dumps, v).Some? && ShortTree(ToTree(f, Dumps, v).value) }

  lemma ShortText(f: Floats, s: string)
    requires |s| <= 64
    ensures Short(f, PyStr(s))
  {
    BodyLength(s);
  }

  ghost predicate ShortMembers(ms: seq<Entry<JsonText.Tree>>) { forall m :: m in ms ==> |m.key| <= 20 && ShortTree(m.value) }

  lemma {:induction false} MembersLength(ms: seq<Entry<JsonText.Tree>>)
    requires ms != [] && ShortMembers(ms)
    ensures |JsonText.MembersText(Dumps, ms)| <= 1300 * |ms|
  {
    assert ms[0] in ms;
    BodyLength(ms[0].key);
    if |ms| > 1 {
      forall m | m in ms[1..] ensures |m.key| <= 20 && ShortTree(m.value) { assert m in ms; }
      MembersLength(ms[1..]);
    }
  }

  lemma SortedShort(ms: seq<Entry<JsonText.Tree>>)
    requires ShortMembers(ms)
    ensures |KeySort.Sort(Dumps, ms)| == |ms| && ShortMembers(KeySort.Sort(Dumps, ms))
  {
    KeySort.SortMembers(Dumps, ms);
    forall m | m in KeySort.Sort(Dumps, ms) ensures m in ms { assert m in multiset(ms); }
  }

  lemma DictTree(f: Floats, v: PyValue)
    requires v.PyDict? && forall i :: 0 <= i < |v.entries| ==>
               v.entries[i].key.PyStr? && |v.entries[i].key.s| <= 20 && Short(f, v.entries[i].value)
    ensures var t := ToTree(f, Dumps, v);
            t.Some? && t.value.TObj? && |t.value.members| == |v.entries| && ShortMembers(t.value.members)
  {
    assert WritableDict(f, Dumps, v);
    var ms := Members(f, Dumps, v);
    forall m | m in ms ensures |m.key| <= 20 && ShortTree(m.value) {
      var i :| 0 <= i < |ms| && ms[i] == m;
      assert Short(f, v.entries[i].value);
    }
    SortedShort(ms);
  }

  /** A record of a few short members can be sent. */
  lemma RecordFits(f: Floats, keys: seq<string>, values: seq<PyValue>)
    requires 0 < |values| <= |keys| && |values| <= 100
    requires forall i :: 0 <= i < |values| ==> |keys[i]| <= 20 && Short(f, values[i])
    ensures EncodeMessage(f, Record(keys, values)).Ok?
    ensures |EncodeMessage(f, Record(keys, values)).value| <= Framing.MAX_MESSAGE_SIZE
  {
    DictTree(f, Record(keys, values));
    var t := ToTree(f, Dumps, Record(keys, values)).value;
    MembersLength(t.members);
    assert |JsonText.Text(Dumps, t)| <= 1 + 1300 * |values|;
    BytesLength(JsonText.Text(Dumps, t));
  }

  // ---------------------------------------------------------------- the verifier

  function TheServer(c: Receipts.Crypto): Server.Config { Assumptions.TheServer(c).(l1Key := None) }

  function ErrorMessage(): PyValue { PyDict([PyEntry(PyStr("type"), PyStr("error"))]) }

  function TheWire(): Remote.Wire { Remote.Wire(x => 0.0, (st, msg, tick) => ErrorMessage(), p => true) }

  function TheTick(): Remote.Tick { Remote.Tick(Assumptions.TheClock(), 0.0) }

  function CommandFor(tool: string): Command { Command("agent", tool, PyDict([]), 0.0, "trace") }

  lemma TheWirePlain()
    ensures PlainWire(TheWire())
  {
    assert ErrorMessage().entries[0].key.s == "type";
    assert LowerCase("type"[0]);
    assert Get(ErrorMessage(), "trace_id").None? by { assert |"type"| != |"trace_id"|; }
  }

  lemma TheClockExact(c: Receipts.Crypto)
    ensures Remote.ClockExact(TheServer(c), TheWire(), TheTick().clk)
  {
    Assumptions.DoublesHere();
  }

  lemma ShortScalars(f: Floats)
    requires f == Assumptions.SomeFloats()
    ensures Short(f, PyFloat(0.0)) && Short(f, PyInt(DEFAULT_ERROR_CODE)) && Short(f, PyList([])) && Short(f, PyDict([]))
  {
    DigitsLength(0);
    DigitsLength(-DEFAULT_ERROR_CODE);
    assert WritableDict(f, Dumps, PyDict([])) && Members(f, Dumps, PyDict([])) == [];
  }

  lemma RequestFits(f: Floats, cmd: Command)
    requires |cmd.agentId| <= 64 && |cmd.tool| <= 64 && |cmd.traceId| <= 64
    requires Short(f, cmd.params) && Short(f, PyFloat(cmd.timestamp))
    ensures EncodeMessage(f, RequestMessage(cmd)).Ok?
    ensures |EncodeMessage(f, RequestMessage(cmd)).value| <= Framing.MAX_MESSAGE_SIZE
  {
    ShortText(f, "verify");
    ShortText(f, cmd.agentId);
    ShortText(f, cmd.tool);
    ShortText(f, cmd.traceId);
    RecordFits(f, REQUEST_KEYS, [PyStr("verify"), PyStr(cmd.agentId), PyStr(cmd.tool), cmd.params,
                                 PyFloat(cmd.timestamp), PyStr(cmd.traceId)]);
  }

  ghost predicate AllShort(f: Floats, values: seq<PyValue>) { forall i :: 0 <= i < |values| ==> Short(f, values[i]) }

  lemma ResultShort(f: Floats, round2: real -> real, v: VerificationResult)
    requires |v.traceId| <= 64 && |v.blockReason| <= 64 && |v.receipt| <= 64 && |v.tool| <= 64 && |v.paramsHash| <= 64
    requires v.ruleResults == [] && v.l1Receipt.None?
    requires Short(f, PyList([])) && Short(f, PyFloat(v.verifiedAt)) && Short(f, PyInt(v.errorCode))
    ensures AllShort(f, ResultValues(round2, v)) && |ResultValues(round2, v)| == 10
  {
    var values := ResultValues(round2, v);
    assert RuleMessages(round2, v.ruleResults) == [];
    assert values[4] == PyList([]) && values[6] == PyFloat(v.verifiedAt) && values[9] == PyInt(v.errorCode);
    forall i | 0 <= i < |values| ensures Short(f, values[i]) {
      if values[i].PyStr? { ShortText(f, values[i].s); }
    }
  }

  lemma ResultKeysShort()
    ensures |RESULT_KEYS| == 11 && forall i :: 0 <= i < |RESULT_KEYS| ==> |RESULT_KEYS[i]| <= 20
  {
  }

  /** A result without rule results and without a Level-1 receipt. */
  lemma ResultFits(f: Floats, round2: real -> real, v: VerificationResult)
    requires AllShort(f, ResultValues(round2, v))
    ensures EncodeMessage(f, ResultMessage(round2, v)).Ok?
  {
    ResultKeysShort();
    RecordFits(f, RESULT_KEYS, ResultValues(round2, v));
  }

  // ---------------------------------------------------------------- the run

  lemma FirstAnswered(c: Receipts.Crypto, tool: string)
    requires c == Assumptions.Signing(Assumptions.Hashing(Assumptions.SomeFloats()), []) && |tool| <= 64
    ensures var e := Server.EndingOf(TheServer(c), 0, CommandFor(tool), TheTick().clk);
            && e.answer.Ok? && e.answer.value.tool == tool
            && EncodeMessage(c.floats, ResultMessage(TheWire().round2, e.answer.value)).Ok?
  {
    var cfg, cmd, clk := TheServer(c), CommandFor(tool), TheTick().clk;
    assert Rules.AnswersOf(cfg.rules, cmd) == [];
    var scan := Server.ScanOf(cfg, cmd, clk).value;
    assert scan == Rules.Scan([], Allow, "", DEFAULT_ERROR_CODE);
    ShortScalars(c.floats);
    var e := Server.EndingOf(cfg, 0, cmd, clk);
    ResultShort(c.floats, TheWire().round2, e.answer.value);
    ResultFits(c.floats, TheWire().round2, e.answer.value);
  }

  /** A server that answers a command, and messages of other kinds with an error. */
  ghost predicate Ready(cfg: Server.Config, wire: Remote.Wire, tick: Remote.Tick, cmd: Command) {
    && FloatsSound(cfg.crypto.floats) && Remote.Respectful(cfg) && Remote.ClockExact(cfg, wire, tick.clk)
    && var e := Server.EndingOf(cfg, 0, cmd, tick.clk);
       && e.answer.Ok? && e.answer.value.tool == cmd.tool
       && EncodeMessage(cfg.crypto.floats, ResultMessage(wire.round2, e.answer.value)).Ok?
  }

  ghost predicate SaysError(wire: Remote.Wire) {
    forall st: Server.State, msg: PyValue, tick: Remote.Tick :: wire.other(st, msg, tick) == ErrorMessage()
  }

  lemma SomeServer(cmd: Command) returns (cfg: Server.Config, wire: Remote.Wire, tick: Remote.Tick)
    requires cmd == CommandFor(cmd.tool) && |cmd.tool| <= 64
    ensures Ready(cfg, wire, tick, cmd) && cfg.crypto.floats == Assumptions.SomeFloats()
    ensures PlainWire(wire) && SaysError(wire)
  {
    var c := Assumptions.Signing(Assumptions.Hashing(Assumptions.SomeFloats()), []);
    cfg, wire, tick := TheServer(c), TheWire(), TheTick();
    Assumptions.SomeFloatsSound();
    TheWirePlain();
    TheClockExact(c);
    FirstAnswered(c, cmd.tool);
  }

  /** The server answers the health check. */
  lemma ErrorAnswered(cfg: Server.Config, wire: Remote.Wire, tick: Remote.Tick, p0: Bytes)
    requires FloatsSound(cfg.crypto.floats) && SaysError(wire)
    requires EncodeMessage(cfg.crypto.floats, StaleVerdict.HEALTH) == Ok(p0)
    ensures Remote.HandlePayload(cfg, wire, Server.INITIAL, tick, p0).1.Some?
  {
    StaleVerdict.HealthHandled(cfg, wire, Server.INITIAL, tick, p0);
    ErrorSent(cfg.crypto.floats);
  }

  lemma ErrorSent(f: Floats)
    ensures Remote.Written(f, ErrorMessage()).Some?
  {
    StaleVerdict.OneEntrySent(f, "type", "error");
  }

  /** The server answers the first command. */
  lemma CommandAnswered(cfg: Server.Config, wire: Remote.Wire, tick: Remote.Tick, cmd: Command, p1: Bytes)
    requires Ready(cfg, wire, tick, cmd) && Sendable(cfg.crypto.floats, cmd)
    requires EncodeMessage(cfg.crypto.floats, RequestMessage(cmd)) == Ok(p1)
    ensures Remote.HandlePayload(cfg, wire, Server.INITIAL, tick, p1).1.Some?
  {
    Remote.RemoteIsLocal(cfg, wire, Server.INITIAL, tick, cmd, p1, 0.0);
  }

  /** The session ends with a call for one command that returned what verify answered about another tool. */
  ghost predicate WrongTool(cfg: Server.Config, wire: Remote.Wire, m: Machine, asked: Server.Ending, other: Command, p2: Bytes,
                            s: Session.State<Server.State, Remote.Tick>)
  {
    && Sends(cfg, wire, m) && EncodeMessage(cfg.crypto.floats, RequestMessage(other)) == Ok(p2)
    && StaleVerdict.Stale(cfg, wire, m, asked, p2, 0.0, s)
    && asked.answer.Ok? && asked.answer.value.tool != other.tool
  }

  lemma RunsWrong(cfg: Server.Config, wire: Remote.Wire, tick: Remote.Tick, cmd: Command, other: Command,
                  p0: Bytes, p1: Bytes, p2: Bytes)
    requires Ready(cfg, wire, tick, cmd) && PlainWire(wire) && SaysError(wire) && Sendable(cfg.crypto.floats, cmd)
    requires EncodeMessage(cfg.crypto.floats, StaleVerdict.HEALTH) == Ok(p0)
    requires EncodeMessage(cfg.crypto.floats, RequestMessage(cmd)) == Ok(p1)
    requires EncodeMessage(cfg.crypto.floats, RequestMessage(other)) == Ok(p2) && |p2| <= Framing.MAX_MESSAGE_SIZE
    requires cmd.tool != other.tool
    ensures exists m, asked, s :: WrongTool(cfg, wire, m, asked, other, p2, s)
  {
    var m := Remote.Machine(cfg, wire, true, 3);
    ErrorAnswered(cfg, wire, tick, p0);
    CommandAnswered(cfg, wire, tick, cmd, p1);
    StaleVerdict.StaleVerdict(cfg, wire, m, tick, tick, p0, cmd, p1, p2, 0.0);
    var asked := Server.EndingOf(cfg, 0, cmd, tick.clk);
    var s :| StaleVerdict.Stale(cfg, wire, m, asked, p2, 0.0, s);
    assert WrongTool(cfg, wire, m, asked, other, p2, s);
  }

  lemma CommandSent(f: Floats, tool: string) returns (p: Bytes)
    requires f == Assumptions.SomeFloats() && |tool| <= 64
    ensures EncodeMessage(f, RequestMessage(CommandFor(tool))) == Ok(p) && |p| <= Framing.MAX_MESSAGE_SIZE
    ensures Sendable(f, CommandFor(tool))
  {
    Assumptions.DoublesHere();
    ShortScalars(f);
    RequestFits(f, CommandFor(tool));
    p := EncodeMessage(f, RequestMessage(CommandFor(tool))).value;
  }

  /** There is such a run. */
  lemma WrongToolHappens()
    ensures exists cfg, wire, m, asked, other, p2, s :: WrongTool(cfg, wire, m, asked, other, p2, s)
  {
    var cmd, other := CommandFor("read"), CommandFor("shell");
    var cfg, wire, tick := SomeServer(cmd);
    StaleVerdict.HealthIsSent(cfg.crypto.floats);
    var p1 := CommandSent(cfg.crypto.floats, "read");
    var p2 := CommandSent(cfg.crypto.floats, "shell");
    assert |"read"| != |"shell"|;
    RunsWrong(cfg, wire, tick, cmd, other, EncodeMessage(cfg.crypto.floats, StaleVerdict.HEALTH).value, p1, p2);
  }
}
