/** What verify returns when reads have been given up on its connection in any way, even between a header and
    its payload: still a whole reply of the server to a verify request, and to its own unless a read was
    given up. */
module WholeReplies {
  import opened Basics
  import opened KeyOrder
  import opened KeySort
  import opened PyValues
  import opened Canonical
  import opened Loading
  import opened Messages
  import opened Protocol
  import opened Framing
  import opened Session
  import opened Streams
  import opened ServerLog
  import opened Alignment
  import Guarantees
  import opened Resync
  import JsonText
  import NulFree
  import Remote
  import Server
  import Utf8

  // ---------------------------------------------------------------- what is written and what is read

  predicate LowerCase(c: char) { 'a' <= c <= 'z' }

  /** A message whose names begin with lower-case letters, as all names in the verifier's messages do. */
  ghost predicate PlainNames(m: PyValue) {
    && m.PyDict? && m.entries != [] && WellFormed(m)
    && forall i :: 0 <= i < |m.entries| ==>
         m.entries[i].key.PyStr? && m.entries[i].key.s != "" && LowerCase(m.entries[i].key.s[0])
  }

  /** Its document begins with a brace, a quote and a letter. */
  lemma ObjectStart(first: string, members: seq<Entry<JsonText.Tree>>)
    requires members != [] && first == members[0].key && first != "" && LowerCase(first[0])
    ensures exists tail :: JsonText.Text(Dumps, JsonText.TObj(members)) == ['{'] + (['"'] + ([first[0]] + tail))
  {
    var value, rest := JsonText.Text(Dumps, members[0].value), JsonText.MembersTail(Dumps, members);
    var body := JsonText.StringBody(Dumps, first[1..]);
    assert JsonText.EscapeChar(Dumps, first[0]) == [first[0]];
    Joined(first[0], body, value, rest);
    assert JsonText.StringBody(Dumps, first) == [first[0]] + body;
    assert JsonText.MembersText(Dumps, members) == "\"" + ([first[0]] + body) + ":" + value + rest;
    var tail := body + ":" + value + rest;
    assert JsonText.Text(Dumps, JsonText.TObj(members)) == ['{'] + (['"'] + ([first[0]] + tail));
  }

  lemma Joined(c: char, body: string, value: string, rest: string)
    ensures "{" + ("\"" + ([c] + body) + ":" + value + rest) == ['{'] + (['"'] + ([c] + (body + ":" + value + rest)))
  {
    assert "\"" + ([c] + body) + ":" + value + rest == ['"'] + ([c] + (body + ":" + value + rest));
  }

  lemma PlainMembers(f: Floats, m: PyValue)
    requires PlainNames(m) && WritableDict(f, Dumps, m)
    ensures var members := Sort(Dumps, Members(f, Dumps, m));
            members != [] && members[0].key != "" && LowerCase(members[0].key[0])
  {
    var ms := Members(f, Dumps, m);
    var members := Sort(Dumps, ms);
    SortMembers(Dumps, ms);
    assert members[0] in multiset(members);
    assert members[0] in ms;
    var i :| 0 <= i < |ms| && ms[i] == members[0];
    assert ms[i].key == m.entries[i].key.s;
  }

  lemma AsciiStart(a: char, b: char, c: char, tail: string)
    requires a as int < 0x80 && b as int < 0x80 && c as int < 0x80
    ensures Utf8.Encode([a] + ([b] + ([c] + tail))) == [a as int] + ([b as int] + ([c as int] + Utf8.Encode(tail)))
  {
    NulFree.EncodeAscii(c, tail);
    NulFree.EncodeAscii(b, [c] + tail);
    NulFree.EncodeAscii(a, [b] + ([c] + tail));
  }

  /** Every such message is sent as a JSON object without a zero byte. */
  lemma SentIsObject(f: Floats, m: PyValue)
    requires FloatsSound(f) && PlainNames(m) && EncodeMessage(f, m).Ok?
    ensures ObjectPayload(EncodeMessage(f, m).value)
  {
    var tree, text := ToTree(f, Dumps, m).value, DumpsText(f, m).value;
    PlainMembers(f, m);
    var members := tree.members;
    ObjectStart(members[0].key, members);
    var tail :| text == ['{'] + (['"'] + ([members[0].key[0]] + tail));
    AsciiStart('{', '"', members[0].key[0], tail);
    TreeWellFormed(f, Dumps, m);
    NulFree.TextHasNone(Dumps, tree);
    NulFree.EncodeHasNoZero(text);
  }

  /** Whatever is taken for a result may be a JSON object. */
  lemma ResultIsObject(f: Floats, payload: Bytes, now: real)
    requires Remote.ParseReply(f, payload, now).Ok?
    ensures MaybeObject(payload)
  {
    var text := Utf8.Decode(payload).value;
    assert JsonText.Read("").None? && Utf8.Decode([]) == Some("");
    forall i | 0 <= i < |payload| ensures payload[i] != 0 {
      if payload[i] == 0 {
        NulFree.ZeroDecodesToNul(payload, i);
        NulFree.NulIsNoDocument(text);
      }
    }
    if IsLetter(payload[0]) {
      NulFree.AsciiDecodes(payload);
      NulFree.LetterIsNoObject(text);
    }
  }

  // ---------------------------------------------------------------- the server's messages

  /** Every message but a result has plain names, and none of them is "trace_id". */
  ghost predicate PlainWire(wire: Remote.Wire) {
    forall st: Server.State, msg: PyValue, tick: Remote.Tick ::
      PlainNames(wire.other(st, msg, tick)) && Get(wire.other(st, msg, tick), "trace_id").None?
  }

  predicate IsVerifyRequest(f: Floats, payload: Bytes) {
    var msg := DecodeMessage(f, payload);
    msg.Ok? && msg.value.PyDict? && GetOr(msg.value, "type", PyStr("")) == PyStr("verify")
  }

  lemma ResultIsPlain(f: Floats, round2: real -> real, v: VerificationResult)
    requires Representable(f, round2, v)
    ensures PlainNames(ResultMessage(round2, v))
  {
    ResultSound(f, round2, v);
    forall i | 0 <= i < |RESULT_KEYS| ensures RESULT_KEYS[i] != "" && LowerCase(RESULT_KEYS[i][0]) {}
  }

  /** Everything the server sends is a JSON object. */
  lemma ReplyIsObject(cfg: Server.Config, wire: Remote.Wire, st: Server.State, tick: Remote.Tick, payload: Bytes)
    requires FloatsSound(cfg.crypto.floats) && PlainWire(wire) && Remote.ClockExact(cfg, wire, tick.clk)
    requires Remote.HandlePayload(cfg, wire, st, tick, payload).1.Some?
    ensures ObjectPayload(Remote.HandlePayload(cfg, wire, st, tick, payload).1.value)
  {
    if IsVerifyRequest(cfg.crypto.floats, payload) {
      var cmd := VerifyReply(cfg, wire, st, tick, payload);
      AnswerObject(cfg, wire, st.sequence, cmd, tick.clk);
    } else {
      SentIsObject(cfg.crypto.floats, wire.other(st, DecodeMessage(cfg.crypto.floats, payload).value, tick));
    }
  }

  lemma VerifyReply(cfg: Server.Config, wire: Remote.Wire, st: Server.State, tick: Remote.Tick, payload: Bytes)
    returns (cmd: Command)
    requires IsVerifyRequest(cfg.crypto.floats, payload) && Remote.HandlePayload(cfg, wire, st, tick, payload).1.Some?
    ensures var e := Server.EndingOf(cfg, st.sequence, cmd, tick.clk);
            && e.answer.Ok?
            && EncodeMessage(cfg.crypto.floats, ResultMessage(wire.round2, e.answer.value)).Ok?
            && Remote.HandlePayload(cfg, wire, st, tick, payload).1.value
            == EncodeMessage(cfg.crypto.floats, ResultMessage(wire.round2, e.answer.value)).value
  {
    cmd := ParseCommand(DecodeMessage(cfg.crypto.floats, payload).value, tick.arrived).value;
  }

  lemma AnswerObject(cfg: Server.Config, wire: Remote.Wire, n: nat, cmd: Command, clk: Server.Clock)
    requires FloatsSound(cfg.crypto.floats) && Remote.ClockExact(cfg, wire, clk)
    requires Server.EndingOf(cfg, n, cmd, clk).answer.Ok?
    requires EncodeMessage(cfg.crypto.floats, ResultMessage(wire.round2, Server.EndingOf(cfg, n, cmd, clk).answer.value)).Ok?
    ensures ObjectPayload(EncodeMessage(cfg.crypto.floats,
                                        ResultMessage(wire.round2, Server.EndingOf(cfg, n, cmd, clk).answer.value)).value)
  {
    Remote.ResultRepresentable(cfg, wire, n, cmd, clk);
    var v := Server.EndingOf(cfg, n, cmd, clk).answer.value;
    ResultIsPlain(cfg.crypto.floats, wire.round2, v);
    SentIsObject(cfg.crypto.floats, ResultMessage(wire.round2, v));
  }

  /** What the client takes for a result answers a verify request. */
  lemma ResultsAnswerRequests(cfg: Server.Config, wire: Remote.Wire, st: Server.State, tick: Remote.Tick, payload: Bytes, now: real)
    requires FloatsSound(cfg.crypto.floats) && PlainWire(wire)
    requires var reply := Remote.HandlePayload(cfg, wire, st, tick, payload).1;
             reply.Some? && Remote.ParseReply(cfg.crypto.floats, reply.value, now).Ok?
    ensures IsVerifyRequest(cfg.crypto.floats, payload)
  {
    var f := cfg.crypto.floats;
    if !IsVerifyRequest(f, payload) {
      OtherIsNoResult(f, wire.other(st, DecodeMessage(f, payload).value, tick), now);
    }
  }

  lemma OtherIsNoResult(f: Floats, m: PyValue, now: real)
    requires FloatsSound(f) && m.PyDict? && WellFormed(m) && EncodeMessage(f, m).Ok? && Get(m, "trace_id").None?
    ensures Remote.ParseReply(f, EncodeMessage(f, m).value, now).Err?
  {
    MessageArrives(f, m);
    GetCarried(f, m, DecodeMessage(f, EncodeMessage(f, m).value).value, "trace_id");
  }

  // ---------------------------------------------------------------- results are parsed replies

  ghost predicate Parsed<S, K>(cfg: Config<S, K>, calls: seq<Call>) {
    forall k :: 0 <= k < |calls| && calls[k].phase.Returned? ==> cfg.parses(calls[k].kind, calls[k].phase.reply)
  }

  lemma ReceiveParses<S, K>(cfg: Config<S, K>, s: State<S, K>, k: nat)
    requires Apply(cfg, s, Receive(k)).Some?
    ensures var call := Apply(cfg, s, Receive(k)).value.calls[k];
            call.phase.Returned? ==> cfg.parses(call.kind, call.phase.reply)
  {
  }

  lemma ParsedKept<S, K>(cfg: Config<S, K>, s: State<S, K>, step: Step<K>, t: State<S, K>)
    requires Parsed(cfg, s.calls) && Apply(cfg, s, step) == Some(t)
    ensures Parsed(cfg, t.calls)
  {
    if step.Receive? {
      ReceiveEffect(cfg, s, step.k);
      ReceiveParses(cfg, s, step.k);
    } else {
      LaterCalls(cfg, s, step);
      if !step.Handle? && !step.HandleOther? { OtherCalls(cfg, s, step); }
      assert NoneReturned(s.calls, t.calls);
    }
  }

  lemma {:induction false} RunParsed<S, K>(cfg: Config<S, K>, start: S, steps: seq<Step<K>>)
    requires Run(cfg, Start(start), steps).Some?
    ensures Parsed(cfg, Run(cfg, Start(start), steps).value.calls)
    decreases |steps|
  {
    if |steps| > 0 {
      var before := steps[..|steps| - 1];
      RunParsed(cfg, start, before);
      ParsedKept(cfg, Run(cfg, Start(start), before).value, steps[|steps| - 1], Run(cfg, Start(start), steps).value);
    }
  }

  // ---------------------------------------------------------------- whole replies

  /** Call k returned reply number i of its connection, read where that reply's frame begins: the server's
      answer to the request of some call, handled after that call was made and before k returned. The
      request is its own, or one written before it on the connection. */
  ghost predicate WholeReply<S, K>(cfg: Config<S, K>, start: S, s: State<S, K>, k: nat, i: nat)
    requires k < |s.calls| && s.calls[k].phase.Returned?
  {
    var p := s.calls[k].phase;
    && p.conn < |s.conns| && i <= p.slot < |s.conns[p.conn].sent| && i < |s.conns[p.conn].evals|
    && AtReply(s.conns[p.conn], i, p.from, p.reply)
    && var asker, at := s.conns[p.conn].sent[i].call, s.conns[p.conn].evals[i].at;
       && asker < |s.calls| && s.calls[asker].since <= at < p.done <= |s.log|
       && s.log[at].payload == s.calls[asker].payload
       && Answer(cfg, start, s.log, at) == Some(p.reply)
       && (asker == k <==> i == p.slot)
  }

  ghost predicate AtReply(conn: Conn, i: nat, from: nat, reply: Bytes) {
    && i < |conn.evals| && conn.evals[i].reply == reply
    && Fit(Replies(conn.evals[..i])) && from == |Frames(Replies(conn.evals[..i]))|
  }

  /** Among objects a reply is found only at the beginning of its frame. */
  lemma FoundWhole(conn: Conn, n: nat, p: Phase)
    requires p.Returned? && FoundAmong(conn, n, p) && MaybeObject(p.reply)
    requires forall i :: 0 <= i < |conn.evals| ==> ObjectPayload(conn.evals[i].reply)
    ensures exists i: nat :: i < n && i <= p.slot && conn.evals[i].at < p.done && AtReply(conn, i, p.from, p.reply)
  {
    var ps := Replies(conn.evals[..n]);
    forall i | 0 <= i < |ps| ensures ObjectPayload(ps[i]) { assert ps[i] == conn.evals[i].reply; }
    Landing(ps, p.from, p.reply);
    var i: nat :| AtFrame(ps, i, p.from, p.reply);
    assert Replies(conn.evals[..i]) == ps[..i];
    assert AtReply(conn, i, p.from, p.reply);
  }

  /** Where a returned call read its reply. */
  lemma ReturnedFound<S, K>(cfg: Config<S, K>, start: S, s: State<S, K>, k: nat) returns (n: nat)
    requires Invariant(cfg, start, s) && k < |s.calls| && s.calls[k].phase.Returned?
    ensures var p := s.calls[k].phase;
            && p.conn < |s.conns| && FoundAmong(s.conns[p.conn], n, p) && p.done <= |s.log|
            && p.slot < |s.conns[p.conn].sent| && s.conns[p.conn].sent[p.slot].call == k && OnePerCall(s.conns[p.conn])
  {
    var p := s.calls[k].phase;
    assert ReturnedOk(s.conns, |s.log|, k, s.calls[k]);
    n :| FoundAmong(s.conns[p.conn], n, p);
  }

  lemma ReadsWhole<S, K>(cfg: Config<S, K>, start: S, s: State<S, K>, k: nat)
    requires Invariant(cfg, start, s) && k < |s.calls| && s.calls[k].phase.Returned? && MaybeObject(s.calls[k].phase.reply)
    requires forall c, i :: 0 <= c < |s.conns| && 0 <= i < |s.conns[c].evals| ==> ObjectPayload(s.conns[c].evals[i].reply)
    ensures exists i: nat :: WholeReply(cfg, start, s, k, i)
  {
    var p := s.calls[k].phase;
    var n := ReturnedFound(cfg, start, s, k);
    var conn := s.conns[p.conn];
    FoundWhole(conn, n, p);
    var i: nat :| i < n && i <= p.slot && conn.evals[i].at < p.done && AtReply(conn, i, p.from, p.reply);
    AnswersAsker(cfg, start, s, p.conn, conn, i);
    assert WholeReply(cfg, start, s, k, i);
  }

  /** Reply number i of a connection answers the call that wrote request number i. */
  lemma AnswersAsker<S, K>(cfg: Config<S, K>, start: S, s: State<S, K>, c: nat, conn: Conn, i: nat)
    requires Invariant(cfg, start, s) && c < |s.conns| && conn == s.conns[c] && i < |conn.evals|
    ensures i < |conn.sent| && conn.sent[i].call < |s.calls| && conn.evals[i].at < |s.log|
    ensures s.calls[conn.sent[i].call].since <= conn.evals[i].at
    ensures s.log[conn.evals[i].at].payload == s.calls[conn.sent[i].call].payload
    ensures Answer(cfg, start, s.log, conn.evals[i].at) == Some(conn.evals[i].reply)
  {
    assert UpOk(conn) && ConnEvals(cfg, start, s.log, c, conn) && ConnSent(s.calls, conn) && SinceConn(s.calls, conn);
    assert EvalOk(cfg, start, s.log, c, conn, i) && SentOk(s.calls, conn.sent[i]);
  }

  // ---------------------------------------------------------------- the verifier's sessions

  type Machine = Session.Config<Server.State, Remote.Tick>

  ghost predicate Clocked(cfg: Server.Config, wire: Remote.Wire, log: seq<Handling<Remote.Tick>>) {
    forall a :: 0 <= a < |log| ==> Remote.ClockExact(cfg, wire, log[a].tick.clk)
  }

  ghost predicate Sends(cfg: Server.Config, wire: Remote.Wire, m: Machine) {
    m == Remote.Machine(cfg, wire, m.reconnect, m.maxRetries) && FloatsSound(cfg.crypto.floats) && PlainWire(wire)
  }

  lemma AnswerIsObject(cfg: Server.Config, wire: Remote.Wire, m: Machine, log: seq<Handling<Remote.Tick>>, at: nat)
    requires Sends(cfg, wire, m) && Clocked(cfg, wire, log) && at < |log| && Answer(m, Server.INITIAL, log, at).Some?
    ensures ObjectPayload(Answer(m, Server.INITIAL, log, at).value)
  {
    ReplyIsObject(cfg, wire, ServerAfter(m, Server.INITIAL, log[..at]), log[at].tick, log[at].payload);
  }

  lemma ResultAnswers(cfg: Server.Config, wire: Remote.Wire, m: Machine, log: seq<Handling<Remote.Tick>>, at: nat)
    requires Sends(cfg, wire, m) && at < |log| && Answer(m, Server.INITIAL, log, at).Some?
    requires m.parses(Verify, Answer(m, Server.INITIAL, log, at).value)
    ensures IsVerifyRequest(cfg.crypto.floats, log[at].payload)
  {
    ResultsAnswerRequests(cfg, wire, ServerAfter(m, Server.INITIAL, log[..at]), log[at].tick, log[at].payload, 0.0);
  }

  lemma ParsesObjects(cfg: Server.Config, wire: Remote.Wire, m: Machine, payload: Bytes)
    requires Sends(cfg, wire, m) && m.parses(Verify, payload)
    ensures MaybeObject(payload)
  {
    ResultIsObject(cfg.crypto.floats, payload, 0.0);
  }

  lemma EvalsAreObjects(cfg: Server.Config, wire: Remote.Wire, m: Machine, s: State<Server.State, Remote.Tick>)
    requires Sends(cfg, wire, m) && Clocked(cfg, wire, s.log) && LogOk(m, Server.INITIAL, s)
    ensures forall c, i :: 0 <= c < |s.conns| && 0 <= i < |s.conns[c].evals| ==> ObjectPayload(s.conns[c].evals[i].reply)
  {
    forall c, i | 0 <= c < |s.conns| && 0 <= i < |s.conns[c].evals| ensures ObjectPayload(s.conns[c].evals[i].reply) {
      assert ConnEvals(m, Server.INITIAL, s.log, c, s.conns[c]);
      assert EvalOk(m, Server.INITIAL, s.log, c, s.conns[c], i);
      AnswerIsObject(cfg, wire, m, s.log, s.conns[c].evals[i].at);
    }
  }

  /** Call k returned a whole reply to a verify request. */
  ghost predicate GotResult(f: Floats, m: Machine, s: State<Server.State, Remote.Tick>, k: nat) {
    && k < |s.calls| && s.calls[k].phase.Returned?
    && exists i: nat ::
         && WholeReply(m, Server.INITIAL, s, k, i)
         && IsVerifyRequest(f, s.conns[s.calls[k].phase.conn].sent[i].payload)
  }

  lemma GotResultAt(cfg: Server.Config, wire: Remote.Wire, m: Machine, s: State<Server.State, Remote.Tick>, k: nat, i: nat)
    requires Sends(cfg, wire, m) && Invariant(m, Server.INITIAL, s)
    requires k < |s.calls| && s.calls[k].phase.Returned? && m.parses(Verify, s.calls[k].phase.reply)
    requires WholeReply(m, Server.INITIAL, s, k, i)
    ensures GotResult(cfg.crypto.floats, m, s, k)
  {
    var conn := s.conns[s.calls[k].phase.conn];
    assert ConnSent(s.calls, conn) && SentOk(s.calls, conn.sent[i]);
    ResultAnswers(cfg, wire, m, s.log, conn.evals[i].at);
  }

  lemma ReturnedWhole(cfg: Server.Config, wire: Remote.Wire, m: Machine, s: State<Server.State, Remote.Tick>, k: nat)
    requires Sends(cfg, wire, m) && Clocked(cfg, wire, s.log) && Invariant(m, Server.INITIAL, s)
    requires k < |s.calls| && s.calls[k].phase.Returned? && m.parses(Verify, s.calls[k].phase.reply)
    ensures GotResult(cfg.crypto.floats, m, s, k)
  {
    ParsesObjects(cfg, wire, m, s.calls[k].phase.reply);
    EvalsAreObjects(cfg, wire, m, s);
    ReadsWhole(m, Server.INITIAL, s, k);
    var i: nat :| WholeReply(m, Server.INITIAL, s, k, i);
    GotResultAt(cfg, wire, m, s, k, i);
  }

  /** In every run, with time-outs and cancellation anywhere, a verify call that returns has a whole reply of
      the server to a verify request: its own, or one written before it on the same connection. */
  lemma NeverGarbage(cfg: Server.Config, wire: Remote.Wire, m: Machine, steps: seq<Step<Remote.Tick>>, k: nat)
    requires Sends(cfg, wire, m) && Run(m, Start(Server.INITIAL), steps).Some?
    ensures var s := Run(m, Start(Server.INITIAL), steps).value;
            Clocked(cfg, wire, s.log) && k < |s.calls| && s.calls[k].phase.Returned? && s.calls[k].kind.Verify?
            ==> GotResult(cfg.crypto.floats, m, s, k)
  {
    var s := Run(m, Start(Server.INITIAL), steps).value;
    RunKeeps(m, Server.INITIAL, steps);
    RunParsed(m, Server.INITIAL, steps);
    if Clocked(cfg, wire, s.log) && k < |s.calls| && s.calls[k].phase.Returned? && s.calls[k].kind.Verify? {
      ReturnedWhole(cfg, wire, m, s, k);
    }
  }

  // ---------------------------------------------------------------- after a header without its payload

  /** The client has taken the header of reply number i and not its payload. */
  ghost predicate HeaderTaken(conn: Conn, i: nat) {
    && i < |conn.evals| && Fit(Replies(conn.evals[..i]))
    && conn.consumed == |Frames(Replies(conn.evals[..i]))| + 4
  }

  lemma SomeFrames(ps: seq<Bytes>)
    requires Fit(ps) && |Frames(ps)| > 0
    ensures |ps| > 0
  {
  }

  /** That is how a read leaves a connection in order when it is given up between header and payload. */
  lemma GivenUpAfterHeader(conn: Conn)
    requires DownOk(conn) && !conn.garbled && |conn.downBuffer| >= 4
    ensures HeaderTaken(HeaderGone(conn), conn.read)
  {
    var ps := Replies(conn.evals);
    TakenDown(conn, 4);
    assert Frames(ps)[conn.consumed..] == Frames(ps[conn.read..]);
    SomeFrames(ps[conn.read..]);
    var front := Replies(conn.evals[..conn.read]);
    assert ps == front + ps[conn.read..];
    FramesConcat(front, ps[conn.read..]);
  }

  /** Call k waits on such a connection. */
  ghost predicate WaitsAfterHeader<S, K>(s: State<S, K>, k: nat, i: nat) {
    Waits(s, k).Some? && HeaderTaken(s.conns[Waits(s, k).value], i)
  }

  lemma BufferTooLarge(buffer: Bytes)
    requires |buffer| >= 4 && HeaderValue(buffer[..4]) > MAX_MESSAGE_SIZE
    ensures DecodeFrame(buffer).TooLarge?
  {
  }

  lemma HeaderPlace(conn: Conn, i: nat)
    requires HeaderTaken(conn, i) && Fit(Replies(conn.evals))
    ensures conn.consumed == |Frames(Replies(conn.evals)[..i])| + 4
  {
    assert Replies(conn.evals[..i]) == Replies(conn.evals)[..i];
  }

  /** Then the next four bytes announce more than a frame may hold. */
  lemma AnnouncesTooMuch(conn: Conn, i: nat)
    requires DownOk(conn) && HeaderTaken(conn, i) && |conn.downBuffer| >= 4
    requires forall n :: 0 <= n < |conn.evals| ==> ObjectPayload(conn.evals[n].reply)
    ensures DecodeFrame(conn.downBuffer).TooLarge?
  {
    TakenDown(conn, 4);
    HeaderPlace(conn, i);
    BytesAnnounce(Replies(conn.evals), i, conn.consumed, conn.downBuffer);
  }

  lemma BytesAnnounce(ps: seq<Bytes>, i: nat, from: nat, buffer: Bytes)
    requires ObjectPayloads(ps) && i < |ps| && from == |Frames(ps[..i])| + 4
    requires |buffer| >= 4 && from + 4 <= |Frames(ps)| && Frames(ps)[from..from + 4] == buffer[..4]
    ensures DecodeFrame(buffer).TooLarge?
  {
    AfterHeader(ps, i);
    BufferTooLarge(buffer);
  }

  /** A length that is too large is a caught failure of verify. */
  lemma TooLargeReceived<S, K>(cfg: Config<S, K>, s: State<S, K>, k: nat, c: nat, t: State<S, K>)
    requires Waits(s, k) == Some(c) && DecodeFrame(s.conns[c].downBuffer).TooLarge?
    requires s.calls[k].kind.Verify? && Apply(cfg, s, Receive(k)) == Some(t)
    ensures !t.connected && k < |t.calls|
    ensures t.calls[k].phase == if s.calls[k].attempt < cfg.maxRetries then Sleeping else Raised
  {
  }

  lemma ReceiveBuffered<S, K>(cfg: Config<S, K>, s: State<S, K>, k: nat, c: nat)
    requires Waits(s, k) == Some(c) && Apply(cfg, s, Receive(k)).Some?
    ensures |s.conns[c].downBuffer| >= 4
  {
  }

  lemma TooLargeAfterHeader<S, K>(cfg: Config<S, K>, s: State<S, K>, k: nat, i: nat, t: State<S, K>)
    requires InOrder(s.conns) && WaitsAfterHeader(s, k, i) && s.calls[k].kind.Verify? && Apply(cfg, s, Receive(k)) == Some(t)
    requires forall c, n :: 0 <= c < |s.conns| && 0 <= n < |s.conns[c].evals| ==> ObjectPayload(s.conns[c].evals[n].reply)
    ensures !t.connected && k < |t.calls|
    ensures t.calls[k].phase == if s.calls[k].attempt < cfg.maxRetries then Sleeping else Raised
  {
    var c := Waits(s, k).value;
    ReceiveBuffered(cfg, s, k, c);
    AnnouncesTooMuch(s.conns[c], i);
    TooLargeReceived(cfg, s, k, c, t);
  }

  /** In no run does a verify call get a result from what it reads next on such a connection: it drops the
      connection and sleeps before its next attempt, or raises after its last one. */
  lemma NoResultAfterHeader(cfg: Server.Config, wire: Remote.Wire, m: Machine, steps: seq<Step<Remote.Tick>>,
                            s: State<Server.State, Remote.Tick>, k: nat, i: nat, t: State<Server.State, Remote.Tick>)
    requires Sends(cfg, wire, m) && Run(m, Start(Server.INITIAL), steps) == Some(s) && Clocked(cfg, wire, s.log)
    requires WaitsAfterHeader(s, k, i) && s.calls[k].kind.Verify? && Apply(m, s, Receive(k)) == Some(t)
    ensures !t.connected && k < |t.calls|
    ensures t.calls[k].phase == if s.calls[k].attempt < m.maxRetries then Sleeping else Raised
  {
    RunKeeps(m, Server.INITIAL, steps);
    EvalsAreObjects(cfg, wire, m, s);
    TooLargeAfterHeader(m, s, k, i, t);
  }
}
