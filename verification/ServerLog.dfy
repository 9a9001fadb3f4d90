/** The server's log of handled requests: every reply is the one of its request, and no request is
    handled twice. */
module ServerLog {
  import opened Basics
  import opened Framing
  import opened Session
  import opened Streams

  // ---------------------------------------------------------------- what a step changes

  ghost predicate Later(a: Conn, b: Conn) { a.sent <= b.sent && a.evals <= b.evals && (a.closed ==> b.closed) }

  lemma LaterClient()
    ensures RelatesWrite(Later) && RelatesReads(Later)
  {
  }

  lemma LaterServer()
    ensures RelatesAnswer(Later) && RelatesNetwork(Later)
  {
  }

  lemma LaterConns<S, K>(cfg: Config<S, K>, s: State<S, K>, step: Step<K>)
    requires Apply(cfg, s, step).Some?
    ensures AllRelated(s.conns, Apply(cfg, s, step).value.conns, Later)
  {
    LaterClient();
    LaterServer();
    StepRelates(cfg, s, step, Later);
  }

  /** Only Write adds requests, and only Handle adds replies. */
  ghost predicate SameSent(a: Conn, b: Conn) { a.sent == b.sent }

  ghost predicate SameEvals(a: Conn, b: Conn) { a.evals == b.evals }

  lemma SentUnlessWrite<S, K>(cfg: Config<S, K>, s: State<S, K>, step: Step<K>)
    requires Apply(cfg, s, step).Some? && !step.Write?
    ensures AllRelated(s.conns, Apply(cfg, s, step).value.conns, SameSent)
  {
    StepRelates(cfg, s, step, SameSent);
  }

  lemma EvalsUnlessHandle<S, K>(cfg: Config<S, K>, s: State<S, K>, step: Step<K>)
    requires Apply(cfg, s, step).Some? && !step.Handle?
    ensures AllRelated(s.conns, Apply(cfg, s, step).value.conns, SameEvals)
  {
    StepRelates(cfg, s, step, SameEvals);
  }

  predicate Unwritten(p: Phase) { p.Queued? || p.Connecting? || p.Ready? }

  /** A call keeps what it asks for and its result; before it writes again it starts a new attempt. */
  ghost predicate SameCall(a: Call, b: Call) {
    && a.kind == b.kind && a.payload == b.payload && a.since == b.since && a.attempt <= b.attempt
    && (Unwritten(b.phase) ==> Unwritten(a.phase) || a.attempt < b.attempt)
    && (a.phase.Returned? ==> b.phase == a.phase)
  }

  ghost predicate CallsFrom(before: seq<Call>, after: seq<Call>) {
    |before| <= |after| && forall k :: 0 <= k < |before| ==> SameCall(before[k], after[k])
  }

  ghost predicate NoneReturned(before: seq<Call>, after: seq<Call>) {
    forall k :: 0 <= k < |after| && after[k].phase.Returned? ==> k < |before| && before[k].phase == after[k].phase
  }

  ghost predicate NewCallsNow(calls: seq<Call>, n: nat, logged: nat) {
    forall k :: n <= k < |calls| ==> calls[k].since <= logged
  }

  /** The log and the server are as they were. */
  ghost predicate ClientOnly<S, K>(s: State<S, K>, t: State<S, K>) {
    CallsFrom(s.calls, t.calls) && NewCallsNow(t.calls, |s.calls|, |s.log|) && t.log == s.log && t.server == s.server
  }

  lemma WriteCalls<S, K>(cfg: Config<S, K>, s: State<S, K>, k: nat)
    requires Apply(cfg, s, Write(k)).Some?
    ensures ClientOnly(s, Apply(cfg, s, Write(k)).value)
    ensures NoneReturned(s.calls, Apply(cfg, s, Write(k)).value.calls)
  {
  }

  lemma ReceiveCalls<S, K>(cfg: Config<S, K>, s: State<S, K>, k: nat)
    requires Apply(cfg, s, Receive(k)).Some?
    ensures ClientOnly(s, Apply(cfg, s, Receive(k)).value)
  {
  }

  lemma ConnectCalls<S, K>(cfg: Config<S, K>, s: State<S, K>, k: nat, closing: bool)
    requires Apply(cfg, s, ConnectFails(k, closing)).Some?
    ensures ClientOnly(s, Apply(cfg, s, ConnectFails(k, closing)).value)
    ensures NoneReturned(s.calls, Apply(cfg, s, ConnectFails(k, closing)).value.calls)
  {
  }

  lemma TimeoutCalls<S, K>(cfg: Config<S, K>, s: State<S, K>, k: nat, tookHeader: bool)
    requires Apply(cfg, s, Timeout(k, tookHeader)).Some?
    ensures ClientOnly(s, Apply(cfg, s, Timeout(k, tookHeader)).value)
    ensures NoneReturned(s.calls, Apply(cfg, s, Timeout(k, tookHeader)).value.calls)
  {
  }

  lemma LostCalls<S, K>(cfg: Config<S, K>, s: State<S, K>, k: nat)
    requires Apply(cfg, s, ConnectionLost(k)).Some?
    ensures ClientOnly(s, Apply(cfg, s, ConnectionLost(k)).value)
    ensures NoneReturned(s.calls, Apply(cfg, s, ConnectionLost(k)).value.calls)
  {
  }

  lemma CancelCalls<S, K>(cfg: Config<S, K>, s: State<S, K>, k: nat, tookHeader: bool)
    requires Apply(cfg, s, Cancel(k, tookHeader)).Some?
    ensures ClientOnly(s, Apply(cfg, s, Cancel(k, tookHeader)).value)
    ensures NoneReturned(s.calls, Apply(cfg, s, Cancel(k, tookHeader)).value.calls)
  {
  }

  lemma CalmCalls<S, K>(cfg: Config<S, K>, s: State<S, K>, step: Step<K>)
    requires Apply(cfg, s, step).Some? && !step.Handle? && !step.HandleOther?
    requires !step.Write? && !step.Receive? && !step.ConnectFails? && !step.Timeout? && !step.ConnectionLost? && !step.Cancel?
    ensures ClientOnly(s, Apply(cfg, s, step).value)
    ensures NoneReturned(s.calls, Apply(cfg, s, step).value.calls)
  {
    if step.NewCall? || step.Acquire? || step.Reuse? || step.Connect? || step.EndOfStream? || step.Wake? {
      PhaseCalls(cfg, s, step);
    }
  }

  lemma PhaseCalls<S, K>(cfg: Config<S, K>, s: State<S, K>, step: Step<K>)
    requires Apply(cfg, s, step).Some?
    requires step.NewCall? || step.Acquire? || step.Reuse? || step.Connect? || step.EndOfStream? || step.Wake?
    ensures ClientOnly(s, Apply(cfg, s, step).value)
    ensures NoneReturned(s.calls, Apply(cfg, s, step).value.calls)
  {
  }

  lemma OtherCalls<S, K>(cfg: Config<S, K>, s: State<S, K>, step: Step<K>)
    requires Apply(cfg, s, step).Some? && !step.Handle? && !step.HandleOther?
    ensures ClientOnly(s, Apply(cfg, s, step).value)
    ensures !step.Receive? ==> NoneReturned(s.calls, Apply(cfg, s, step).value.calls)
  {
    match step {
      case Write(k) => WriteCalls(cfg, s, k);
      case Receive(k) => ReceiveCalls(cfg, s, k);
      case ConnectFails(k, closing) => ConnectCalls(cfg, s, k, closing);
      case Timeout(k, tookHeader) => TimeoutCalls(cfg, s, k, tookHeader);
      case ConnectionLost(k) => LostCalls(cfg, s, k);
      case Cancel(k, tookHeader) => CancelCalls(cfg, s, k, tookHeader);
      case _ => CalmCalls(cfg, s, step);
    }
  }

  lemma LaterCalls<S, K>(cfg: Config<S, K>, s: State<S, K>, step: Step<K>)
    requires Apply(cfg, s, step).Some?
    ensures CallsFrom(s.calls, Apply(cfg, s, step).value.calls)
    ensures NewCallsNow(Apply(cfg, s, step).value.calls, |s.calls|, |s.log|)
    ensures s.log <= Apply(cfg, s, step).value.log
  {
    if !step.Handle? && !step.HandleOther? { OtherCalls(cfg, s, step); }
  }

  // ---------------------------------------------------------------- the server's log

  /** The server after handling the requests of a log one after another. */
  function ServerAfter<S, K>(cfg: Config<S, K>, start: S, log: seq<Handling<K>>): S {
    if |log| == 0 then start
    else
      var last := log[|log| - 1];
      cfg.handle(ServerAfter(cfg, start, log[..|log| - 1]), last.tick, last.payload).0
  }

  /** What the server replied to entry number at of its log, in the state the entries before it led to. */
  function Answer<S, K>(cfg: Config<S, K>, start: S, log: seq<Handling<K>>, at: nat): Option<Bytes>
    requires at < |log|
  { cfg.handle(ServerAfter(cfg, start, log[..at]), log[at].tick, log[at].payload).1 }

  lemma AfterEntry<S, K>(cfg: Config<S, K>, start: S, log: seq<Handling<K>>, at: nat)
    requires at < |log|
    ensures ServerAfter(cfg, start, log[..at + 1]) == cfg.handle(ServerAfter(cfg, start, log[..at]), log[at].tick, log[at].payload).0
  {
    assert log[..at + 1][..at] == log[..at];
  }

  lemma AnswerKept<S, K>(cfg: Config<S, K>, start: S, log: seq<Handling<K>>, longer: seq<Handling<K>>, at: nat)
    requires log <= longer && at < |log|
    ensures Answer(cfg, start, longer, at) == Answer(cfg, start, log, at)
  {
    assert longer[..at] == log[..at];
  }

  /** Reply number i of connection c is the server's reply to request number i of that connection. */
  ghost predicate EvalOk<S, K>(cfg: Config<S, K>, start: S, log: seq<Handling<K>>, c: nat, conn: Conn, i: nat)
    requires i < |conn.evals|
  {
    var e := conn.evals[i];
    && i < |conn.sent| && e.at < |log|
    && log[e.at].origin == Some(Origin(c, i)) && log[e.at].payload == conn.sent[i].payload
    && Answer(cfg, start, log, e.at) == Some(e.reply)
  }

  ghost predicate ConnEvals<S, K>(cfg: Config<S, K>, start: S, log: seq<Handling<K>>, c: nat, conn: Conn) {
    forall i :: 0 <= i < |conn.evals| ==> EvalOk(cfg, start, log, c, conn, i)
  }

  ghost predicate Evals<S, K>(cfg: Config<S, K>, start: S, log: seq<Handling<K>>, conns: seq<Conn>) {
    forall c :: 0 <= c < |conns| ==> ConnEvals(cfg, start, log, c, conns[c])
  }

  /** An entry comes from a request that was answered or ended its connection. */
  ghost predicate OriginOk<K>(conns: seq<Conn>, h: Handling<K>) {
    h.origin.Some? ==>
      var o := h.origin.value;
      && o.conn < |conns| && o.slot < |conns[o.conn].sent|
      && h.payload == conns[o.conn].sent[o.slot].payload
      && (o.slot < |conns[o.conn].evals| || (o.slot == |conns[o.conn].evals| && conns[o.conn].closed))
  }

  ghost predicate Once<K>(log: seq<Handling<K>>) {
    forall a, b :: 0 <= a < b < |log| && log[a].origin.Some? ==> log[a].origin != log[b].origin
  }

  ghost predicate Origins<K>(log: seq<Handling<K>>, conns: seq<Conn>) {
    (forall a :: 0 <= a < |log| ==> OriginOk(conns, log[a])) && Once(log)
  }

  ghost predicate LogOk<S, K>(cfg: Config<S, K>, start: S, s: State<S, K>) {
    && s.server == ServerAfter(cfg, start, s.log)
    && Evals(cfg, start, s.log, s.conns)
    && Origins(s.log, s.conns)
  }

  lemma ConnEvalsKept<S, K>(cfg: Config<S, K>, start: S, log: seq<Handling<K>>, longer: seq<Handling<K>>,
                            c: nat, a: Conn, b: Conn)
    requires ConnEvals(cfg, start, log, c, a) && log <= longer && Later(a, b)
    ensures forall i :: 0 <= i < |a.evals| ==> EvalOk(cfg, start, longer, c, b, i)
  {
    forall i | 0 <= i < |a.evals| ensures EvalOk(cfg, start, longer, c, b, i) {
      assert EvalOk(cfg, start, log, c, a, i);
      AnswerKept(cfg, start, log, longer, a.evals[i].at);
    }
  }

  lemma EvalsKept<S, K>(cfg: Config<S, K>, start: S, log: seq<Handling<K>>, longer: seq<Handling<K>>,
                        before: seq<Conn>, after: seq<Conn>)
    requires Evals(cfg, start, log, before) && log <= longer
    requires AllRelated(before, after, Later) && AllRelated(before, after, SameEvals)
    ensures Evals(cfg, start, longer, after)
  {
    forall c | 0 <= c < |after| ensures ConnEvals(cfg, start, longer, c, after[c]) {
      if c < |before| {
        assert Later(before[c], after[c]) && SameEvals(before[c], after[c]);
        ConnEvalsKept(cfg, start, log, longer, c, before[c], after[c]);
      }
    }
  }

  lemma OriginsKept<K>(log: seq<Handling<K>>, before: seq<Conn>, after: seq<Conn>)
    requires Origins(log, before) && AllRelated(before, after, Later)
    ensures Origins(log, after)
  {
    forall a | 0 <= a < |log| ensures OriginOk(after, log[a]) {
      assert OriginOk(before, log[a]);
      if log[a].origin.Some? {
        var c := log[a].origin.value.conn;
        assert Later(before[c], after[c]);
      }
    }
  }

  lemma OtherHandled<K>(log: seq<Handling<K>>, conns: seq<Conn>, h: Handling<K>)
    requires Origins(log, conns) && h.origin.None?
    ensures Origins(log + [h], conns)
  {
  }

  /** The next request of an open connection has not been handled before. */
  lemma NextHandled<K>(log: seq<Handling<K>>, before: seq<Conn>, after: seq<Conn>, c: nat, h: Handling<K>)
    requires Origins(log, before) && AllRelated(before, after, Later)
    requires c < |before| && !before[c].closed && |before[c].evals| < |before[c].sent|
    requires h.origin == Some(Origin(c, |before[c].evals|)) && h.payload == before[c].sent[|before[c].evals|].payload
    requires after[c].closed || |after[c].evals| > |before[c].evals|
    requires |after[c].evals| >= |before[c].evals|
    ensures Origins(log + [h], after)
  {
    OriginsKept(log, before, after);
    assert Later(before[c], after[c]);
    assert OriginOk(after, h);
    forall a | 0 <= a < |log| && log[a].origin.Some? ensures log[a].origin != h.origin {
      assert OriginOk(before, log[a]);
    }
  }

  lemma EvalsHandled<S, K>(cfg: Config<S, K>, start: S, log: seq<Handling<K>>, h: Handling<K>,
                           before: seq<Conn>, c: nat, rest: Bytes, reply: Option<Bytes>)
    requires Evals(cfg, start, log, before)
    requires c < |before| && |before[c].evals| < |before[c].sent|
    requires h.origin == Some(Origin(c, |before[c].evals|)) && h.payload == before[c].sent[|before[c].evals|].payload
    requires reply == Answer(cfg, start, log + [h], |log|)
    ensures Evals(cfg, start, log + [h], before[c := Answered(before[c], rest, |log|, reply)])
  {
    var longer, after := log + [h], before[c := Answered(before[c], rest, |log|, reply)];
    forall d | 0 <= d < |after| ensures ConnEvals(cfg, start, longer, d, after[d]) {
      assert ConnEvals(cfg, start, log, d, before[d]);
      if d == c {
        ConnHandled(cfg, start, log, h, c, before[c], rest, reply);
      } else {
        ConnEvalsKept(cfg, start, log, longer, d, before[d], after[d]);
      }
    }
  }

  lemma ConnHandled<S, K>(cfg: Config<S, K>, start: S, log: seq<Handling<K>>, h: Handling<K>,
                          c: nat, conn: Conn, rest: Bytes, reply: Option<Bytes>)
    requires ConnEvals(cfg, start, log, c, conn) && |conn.evals| < |conn.sent|
    requires h.origin == Some(Origin(c, |conn.evals|)) && h.payload == conn.sent[|conn.evals|].payload
    requires reply == Answer(cfg, start, log + [h], |log|)
    ensures ConnEvals(cfg, start, log + [h], c, Answered(conn, rest, |log|, reply))
  {
    var after := Answered(conn, rest, |log|, reply);
    ConnEvalsKept(cfg, start, log, log + [h], c, conn, after);
    assert |after.evals| > |conn.evals| ==> EvalOk(cfg, start, log + [h], c, after, |conn.evals|);
  }

  lemma HandleEffect<S, K>(cfg: Config<S, K>, s: State<S, K>, c: nat, tick: K)
    requires InOrder(s.conns) && Apply(cfg, s, Handle(c, tick)).Some?
    ensures var conn, t := s.conns[c], Apply(cfg, s, Handle(c, tick)).value;
            && CanAnswer(conn) && UpOk(conn)
            && var p := DecodeFrame(conn.upBuffer).payload;
               && t.log == s.log + [Handling(Some(Origin(c, |conn.evals|)), p, tick)]
               && t.server == cfg.handle(s.server, tick, p).0
               && t.calls == s.calls
               && t.conns == s.conns[c := Answered(conn, DecodeFrame(conn.upBuffer).rest, |s.log|,
                                                   cfg.handle(s.server, tick, p).1)]
  {
    NoBadHeader(s.conns[c]);
  }

  lemma HandledLog<S, K>(cfg: Config<S, K>, start: S, s: State<S, K>, t: State<S, K>, c: nat, h: Handling<K>, rest: Bytes)
    requires LogOk(cfg, start, s) && AllRelated(s.conns, t.conns, Later)
    requires c < |s.conns| && !s.conns[c].closed && |s.conns[c].evals| < |s.conns[c].sent|
    requires h.origin == Some(Origin(c, |s.conns[c].evals|)) && h.payload == s.conns[c].sent[|s.conns[c].evals|].payload
    requires t.log == s.log + [h] && t.server == cfg.handle(s.server, h.tick, h.payload).0
    requires t.conns == s.conns[c := Answered(s.conns[c], rest, |s.log|, cfg.handle(s.server, h.tick, h.payload).1)]
    ensures LogOk(cfg, start, t)
  {
    assert t.log[..|s.log|] == s.log;
    EvalsHandled(cfg, start, s.log, h, s.conns, c, rest, cfg.handle(s.server, h.tick, h.payload).1);
    NextHandled(s.log, s.conns, t.conns, c, h);
  }

  lemma HandleLog<S, K>(cfg: Config<S, K>, start: S, s: State<S, K>, c: nat, tick: K)
    requires LogOk(cfg, start, s) && InOrder(s.conns) && Apply(cfg, s, Handle(c, tick)).Some?
    ensures LogOk(cfg, start, Apply(cfg, s, Handle(c, tick)).value)
  {
    var conn, t := s.conns[c], Apply(cfg, s, Handle(c, tick)).value;
    LaterConns(cfg, s, Handle(c, tick));
    HandleEffect(cfg, s, c, tick);
    NextRequest(conn);
    var h := Handling(Some(Origin(c, |conn.evals|)), DecodeFrame(conn.upBuffer).payload, tick);
    HandledLog(cfg, start, s, t, c, h, DecodeFrame(conn.upBuffer).rest);
  }

  lemma HandleOtherLog<S, K>(cfg: Config<S, K>, start: S, s: State<S, K>, payload: Bytes, tick: K)
    requires LogOk(cfg, start, s)
    ensures LogOk(cfg, start, Apply(cfg, s, HandleOther(payload, tick)).value)
  {
    var h := Handling(None, payload, tick);
    assert (s.log + [h])[..|s.log|] == s.log;
    EvalsKept(cfg, start, s.log, s.log + [h], s.conns, s.conns);
    OtherHandled(s.log, s.conns, h);
  }

  /** The server's state and every reply are those of handling the logged requests one by one;
      no request is handled twice. */
  lemma LogKept<S, K>(cfg: Config<S, K>, start: S, s: State<S, K>, step: Step<K>)
    requires LogOk(cfg, start, s) && InOrder(s.conns) && Apply(cfg, s, step).Some?
    ensures LogOk(cfg, start, Apply(cfg, s, step).value)
  {
    match step {
      case Handle(c, tick) => HandleLog(cfg, start, s, c, tick);
      case HandleOther(payload, tick) => HandleOtherLog(cfg, start, s, payload, tick);
      case _ => QuietLog(cfg, start, s, step);
    }
  }

  lemma QuietLog<S, K>(cfg: Config<S, K>, start: S, s: State<S, K>, step: Step<K>)
    requires LogOk(cfg, start, s) && Apply(cfg, s, step).Some? && !step.Handle? && !step.HandleOther?
    ensures LogOk(cfg, start, Apply(cfg, s, step).value)
  {
    var t := Apply(cfg, s, step).value;
    LaterConns(cfg, s, step);
    EvalsUnlessHandle(cfg, s, step);
    OtherCalls(cfg, s, step);
    QuietFrom(cfg, start, s, t);
  }

  lemma QuietFrom<S, K>(cfg: Config<S, K>, start: S, s: State<S, K>, t: State<S, K>)
    requires LogOk(cfg, start, s) && ClientOnly(s, t)
    requires AllRelated(s.conns, t.conns, Later) && AllRelated(s.conns, t.conns, SameEvals)
    ensures LogOk(cfg, start, t)
  {
    EvalsKept(cfg, start, s.log, t.log, s.conns, t.conns);
    OriginsKept(s.log, s.conns, t.conns);
  }
}
