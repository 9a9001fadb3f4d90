/** The verifier's own messages make the run of LateReplies happen: verify returns the verdict on another command. */
module StaleVerdict {
  import opened Basics
  import opened KeyOrder
  import opened PyValues
  import opened Canonical
  import opened Loading
  import opened Protocol
  import opened Messages
  import opened Session
  import opened WholeReplies
  import Framing
  import JsonText
  import KeySort
  import LateReplies
  import NulFree
  import Remote
  import Runs
  import Server
  import Utf8

  /** The message of health_check. */
  const HEALTH: PyValue := Record(["type"], [PyStr("health")])

  ghost predicate Unescaped(s: string) { forall i :: 0 <= i < |s| ==> 'a' <= s[i] <= 'z' }

  lemma {:induction false} BodyUnescaped(s: string)
    requires Unescaped(s)
    ensures JsonText.StringBody(Dumps, s) == s + "\""
  {
    if s != "" {
      BodyUnescaped(s[1..]);
      assert JsonText.EscapeChar(Dumps, s[0]) == [s[0]];
      assert [s[0]] + s[1..] == s;
    }
  }

  lemma {:induction false} AsciiLength(s: string)
    requires forall i :: 0 <= i < |s| ==> s[i] as int < 0x80
    ensures |Utf8.Encode(s)| == |s|
  {
    if s != "" { AsciiLength(s[1..]); }
  }

  lemma OneEntryTree(f: Floats, k: string, v: string)
    ensures ToTree(f, Dumps, PyDict([PyEntry(PyStr(k), PyStr(v))])) == Some(JsonText.TObj([Entry(k, JsonText.TStr(v))]))
  {
    var m := PyDict([PyEntry(PyStr(k), PyStr(v))]);
    assert ToTree(f, Dumps, PyStr(v)) == Some(JsonText.TStr(v));
    assert WritableDict(f, Dumps, m);
    var ms := Members(f, Dumps, m);
    assert ms == [Entry(k, JsonText.TStr(v))];
    assert KeySort.Sort(Dumps, ms[1..]) == [];
    assert KeySort.Sort(Dumps, ms) == ms;
  }

  lemma OneEntryText(k: string, v: string)
    requires Unescaped(k) && Unescaped(v)
    ensures JsonText.Text(Dumps, JsonText.TObj([Entry(k, JsonText.TStr(v))]))
         == "{" + ("\"" + (k + "\"") + ":" + ("\"" + (v + "\"")) + "}")
  {
    BodyUnescaped(k);
    BodyUnescaped(v);
    var members := [Entry(k, JsonText.TStr(v))];
    assert JsonText.Text(Dumps, JsonText.TStr(v)) == "\"" + (v + "\"");
    assert JsonText.MembersTail(Dumps, members) == "}";
  }

  lemma OneEntryBytes(k: string, v: string)
    requires Unescaped(k) && Unescaped(v)
    ensures |Utf8.Encode("{" + ("\"" + (k + "\"") + ":" + ("\"" + (v + "\"")) + "}"))| == |k| + |v| + 7
  {
    var text := "{" + ("\"" + (k + "\"") + ":" + ("\"" + (v + "\"")) + "}");
    assert |text| == |k| + |v| + 7;
    forall c | c in text ensures c as int < 0x80 { assert c in k || c in v || c in "{\":}"; }
    AsciiLength(text);
  }

  lemma OneEntrySent(f: Floats, k: string, v: string)
    requires Unescaped(k) && Unescaped(v) && |k| + |v| <= 1000
    ensures var m := PyDict([PyEntry(PyStr(k), PyStr(v))]);
            && WellFormed(m) && EncodeMessage(f, m).Ok? && Get(m, k) == Some(PyStr(v))
            && |EncodeMessage(f, m).value| <= Framing.MAX_MESSAGE_SIZE
  {
    OneEntryTree(f, k, v);
    OneEntryText(k, v);
    OneEntryBytes(k, v);
  }

  lemma HealthIsSent(f: Floats)
    ensures WellFormed(HEALTH) && EncodeMessage(f, HEALTH).Ok? && |EncodeMessage(f, HEALTH).value| <= Framing.MAX_MESSAGE_SIZE
    ensures Get(HEALTH, "type") == Some(PyStr("health"))
  {
    assert HEALTH == PyDict([PyEntry(PyStr("type"), PyStr("health"))]);
    OneEntrySent(f, "type", "health");
  }

  /** A health check goes to the handler of other messages. */
  lemma HealthHandled(cfg: Server.Config, wire: Remote.Wire, st: Server.State, tick: Remote.Tick, payload: Bytes)
    requires FloatsSound(cfg.crypto.floats) && EncodeMessage(cfg.crypto.floats, HEALTH) == Ok(payload)
    ensures DecodeMessage(cfg.crypto.floats, payload).Ok?
    ensures Remote.HandlePayload(cfg, wire, st, tick, payload) ==
            (st, Remote.Written(cfg.crypto.floats, wire.other(st, DecodeMessage(cfg.crypto.floats, payload).value, tick)))
  {
    var f := cfg.crypto.floats;
    HealthIsSent(f);
    MessageArrives(f, HEALTH);
    var msg := DecodeMessage(f, payload).value;
    GetCarried(f, HEALTH, msg, "type");
    ScalarCarried(f, PyStr("health"), Get(msg, "type").value);
  }

  /** The server answers a health check with no result, and stays as it is. */
  lemma HealthAnswered(cfg: Server.Config, wire: Remote.Wire, st: Server.State, tick: Remote.Tick, payload: Bytes)
    requires FloatsSound(cfg.crypto.floats) && PlainWire(wire)
    requires EncodeMessage(cfg.crypto.floats, HEALTH) == Ok(payload)
    ensures Remote.HandlePayload(cfg, wire, st, tick, payload).0 == st
    ensures var reply := Remote.HandlePayload(cfg, wire, st, tick, payload).1;
            reply.Some? ==> |reply.value| <= Framing.MAX_MESSAGE_SIZE && Remote.ParseReply(cfg.crypto.floats, reply.value, 0.0).Err?
  {
    var f := cfg.crypto.floats;
    HealthHandled(cfg, wire, st, tick, payload);
    var other := wire.other(st, DecodeMessage(f, payload).value, tick);
    if EncodeMessage(f, other).Ok? { OtherIsNoResult(f, other, 0.0); }
  }

  lemma HealthReply(cfg: Server.Config, wire: Remote.Wire, m: Machine, tick: Remote.Tick, p: Bytes) returns (r: Bytes)
    requires Sends(cfg, wire, m) && EncodeMessage(cfg.crypto.floats, HEALTH) == Ok(p)
    requires Remote.HandlePayload(cfg, wire, Server.INITIAL, tick, p).1.Some?
    ensures |p| <= Framing.MAX_MESSAGE_SIZE
    ensures Runs.Replies(m, Server.INITIAL, tick, p, Server.INITIAL, r) && !m.parses(Verify, r)
  {
    HealthAnswered(cfg, wire, Server.INITIAL, tick, p);
    r := Remote.HandlePayload(cfg, wire, Server.INITIAL, tick, p).1.value;
  }

  lemma CommandHandled(cfg: Server.Config, wire: Remote.Wire, st: Server.State, tick: Remote.Tick, cmd: Command, p: Bytes, now: real)
    returns (after: Server.State, r: Bytes)
    requires FloatsSound(cfg.crypto.floats) && Remote.Respectful(cfg) && Remote.ClockExact(cfg, wire, tick.clk)
    requires Sendable(cfg.crypto.floats, cmd) && EncodeMessage(cfg.crypto.floats, RequestMessage(cmd)) == Ok(p)
    requires Remote.HandlePayload(cfg, wire, st, tick, p).1.Some?
    ensures Remote.HandlePayload(cfg, wire, st, tick, p) == (after, Some(r)) && |r| <= Framing.MAX_MESSAGE_SIZE
    ensures Remote.ReadAs(cfg, wire, Server.EndingOf(cfg, st.sequence, cmd, tick.clk), r, now)
    ensures after == Server.Advance(cfg.maxAuditLog, st, Server.EndingOf(cfg, st.sequence, cmd, tick.clk))
  {
    after := Remote.HandlePayload(cfg, wire, st, tick, p).0;
    r := Remote.HandlePayload(cfg, wire, st, tick, p).1.value;
    Remote.CommandRead(cfg, wire, st, tick, cmd, p, now);
    ReplyFits(cfg, wire, st, tick, p);
  }

  lemma ResultAnyTime(m: PyValue, now: real, later: real)
    ensures ParseResult(m, now).Ok? <==> ParseResult(m, later).Ok?
  {
  }

  /** Whether a reply is a result does not depend on the client's clock. */
  lemma ParsesAnyTime(f: Floats, r: Bytes, now: real, later: real)
    ensures Remote.ParseReply(f, r, now).Ok? <==> Remote.ParseReply(f, r, later).Ok?
  {
    if DecodeMessage(f, r).Ok? { ResultAnyTime(DecodeMessage(f, r).value, now, later); }
  }

  lemma MachineParses(cfg: Server.Config, wire: Remote.Wire, m: Machine, r: Bytes, now: real)
    requires m == Remote.Machine(cfg, wire, m.reconnect, m.maxRetries) && Remote.ParseReply(cfg.crypto.floats, r, now).Ok?
    ensures m.parses(Verify, r)
  {
    ParsesAnyTime(cfg.crypto.floats, r, now, 0.0);
  }

  lemma MachineReplies(cfg: Server.Config, wire: Remote.Wire, m: Machine, st: Server.State, tick: Remote.Tick, p: Bytes,
                       after: Server.State, r: Bytes)
    requires m == Remote.Machine(cfg, wire, m.reconnect, m.maxRetries) && |r| <= Framing.MAX_MESSAGE_SIZE
    requires Remote.HandlePayload(cfg, wire, st, tick, p) == (after, Some(r))
    ensures Runs.Replies(m, st, tick, p, after, r)
  {
  }

  lemma PayloadFits(f: Floats, msg: PyValue)
    requires EncodeMessage(f, msg).Ok?
    ensures |EncodeMessage(f, msg).value| <= Framing.MAX_MESSAGE_SIZE
  {
  }

  lemma CommandReply(cfg: Server.Config, wire: Remote.Wire, m: Machine, st: Server.State, tick: Remote.Tick, cmd: Command,
                     p: Bytes, now: real)
    returns (after: Server.State, r: Bytes)
    requires m == Remote.Machine(cfg, wire, m.reconnect, m.maxRetries) && FloatsSound(cfg.crypto.floats)
    requires Remote.Respectful(cfg) && Remote.ClockExact(cfg, wire, tick.clk)
    requires Sendable(cfg.crypto.floats, cmd) && EncodeMessage(cfg.crypto.floats, RequestMessage(cmd)) == Ok(p)
    requires Remote.HandlePayload(cfg, wire, st, tick, p).1.Some?
    ensures |p| <= Framing.MAX_MESSAGE_SIZE
    ensures Runs.Replies(m, st, tick, p, after, r) && m.parses(Verify, r)
    ensures Remote.ReadAs(cfg, wire, Server.EndingOf(cfg, st.sequence, cmd, tick.clk), r, now)
    ensures after == Server.Advance(cfg.maxAuditLog, st, Server.EndingOf(cfg, st.sequence, cmd, tick.clk))
  {
    after, r := CommandHandled(cfg, wire, st, tick, cmd, p, now);
    MachineParses(cfg, wire, m, r, now);
    MachineReplies(cfg, wire, m, st, tick, p, after, r);
    PayloadFits(cfg.crypto.floats, RequestMessage(cmd));
  }

  lemma ReplyFits(cfg: Server.Config, wire: Remote.Wire, st: Server.State, tick: Remote.Tick, p: Bytes)
    ensures var reply := Remote.HandlePayload(cfg, wire, st, tick, p).1;
            reply.Some? ==> |reply.value| <= Framing.MAX_MESSAGE_SIZE
  {
  }

  /** The session ends with call 2, which asked with payload p2 and returned what verify answered first. */
  ghost predicate Stale(cfg: Server.Config, wire: Remote.Wire, m: Machine, e: Server.Ending, p2: Bytes, now: real,
                        s: State<Server.State, Remote.Tick>)
  {
    && Runs.Reaches(m, Start(Server.INITIAL), s)
    && |s.calls| == 3 && s.calls[2].kind.Verify? && s.calls[2].payload == p2 && s.calls[2].phase.Returned?
    && Remote.ReadAs(cfg, wire, e, s.calls[2].phase.reply, now)
  }

  lemma StaleRun(cfg: Server.Config, wire: Remote.Wire, m: Machine, e: Server.Ending, p1: Bytes, r1: Bytes, p2: Bytes, now: real,
                 s: State<Server.State, Remote.Tick>)
    requires Runs.Reaches(m, Start(Server.INITIAL), s) && LateReplies.WrongResult(s, p1, r1, p2)
    requires Remote.ReadAs(cfg, wire, e, r1, now)
    ensures Stale(cfg, wire, m, e, p2, now, s)
  {
  }

  /** Whenever the server answers a health check and a command, there is a run in which the health check
      times out and a call of verify with any other command returns the result for the first: its verdict,
      its trace id, its receipts. */
  lemma StaleVerdict(cfg: Server.Config, wire: Remote.Wire, m: Machine, tick0: Remote.Tick, tick1: Remote.Tick,
                     p0: Bytes, cmd1: Command, p1: Bytes, p2: Bytes, now: real)
    requires Sends(cfg, wire, m) && m.reconnect && Remote.Respectful(cfg) && Remote.ClockExact(cfg, wire, tick1.clk)
    requires Sendable(cfg.crypto.floats, cmd1) && EncodeMessage(cfg.crypto.floats, HEALTH) == Ok(p0)
    requires EncodeMessage(cfg.crypto.floats, RequestMessage(cmd1)) == Ok(p1) && |p2| <= Framing.MAX_MESSAGE_SIZE
    requires Remote.HandlePayload(cfg, wire, Server.INITIAL, tick0, p0).1.Some?
    requires Remote.HandlePayload(cfg, wire, Server.INITIAL, tick1, p1).1.Some?
    ensures exists s :: Stale(cfg, wire, m, Server.EndingOf(cfg, 0, cmd1, tick1.clk), p2, now, s)
  {
    var r0 := HealthReply(cfg, wire, m, tick0, p0);
    var after, r1 := CommandReply(cfg, wire, m, Server.INITIAL, tick1, cmd1, p1, now);
    LateReplies.TimedOutHealthCheck(m, Server.INITIAL, Server.INITIAL, after, tick0, tick1, p0, r0, p1, r1, p2);
    var s :| Runs.Reaches(m, Start(Server.INITIAL), s) && LateReplies.WrongResult(s, p1, r1, p2);
    StaleRun(cfg, wire, m, Server.EndingOf(cfg, 0, cmd1, tick1.clk), p1, r1, p2, now, s);
  }
}
