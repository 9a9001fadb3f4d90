/** A run in which verify returns the result of another call: a health check times out and leaves its
    connection in use, so every later call on it reads the reply of the one before. */
module LateReplies {
  import opened Basics
  import opened Framing
  import opened Session
  import opened Runs

  /** A reply is left over in the buffer of the connection in use. */
  ghost predicate LeftOver<S, K>(s: State<S, K>) {
    && s.holder.None? && s.connected && s.current.Some? && s.current.value < |s.conns|
    && !s.conns[s.current.value].dead && DecodeFrame(s.conns[s.current.value].downBuffer).Frame?
  }

  function ReadLate<S, K>(cfg: Config<S, K>, s: State<S, K>, payload: Bytes, c: nat, p: Bytes, rest: Bytes): State<S, K>
    requires c < |s.conns| && |payload| <= MAX_MESSAGE_SIZE && |rest| <= |s.conns[c].downBuffer|
  {
    var conn := s.conns[c];
    At(SetConn(s, c, ReadOne(Written(conn, Request(|s.calls|, 0, payload)), rest)), Verify, payload,
       if cfg.parses(Verify, p) then Returned(c, |conn.sent|, conn.read, conn.abandoned, conn.consumed, p, !conn.garbled, |s.log|) else Raised,
       None)
  }

  /** It becomes the result of the next verify call, whatever that call asks for, and before the server
      has seen its request. */
  lemma LateReply<S, K>(cfg: Config<S, K>, s: State<S, K>, payload: Bytes)
    requires LeftOver(s) && |payload| <= MAX_MESSAGE_SIZE
    ensures var c := s.current.value;
            var found := DecodeFrame(s.conns[c].downBuffer);
            Run(cfg, s, AskSteps(payload, |s.calls|) + [Receive(|s.calls|)]) ==
            Some(ReadLate(cfg, s, payload, c, found.payload, found.rest))
  {
    var k, c, conn := |s.calls|, s.current.value, s.conns[s.current.value];
    var asked := SetConn(s, c, Written(conn, Request(k, 0, payload)));
    var w := Awaiting(c, |conn.sent|);
    var u := At(asked, Verify, payload, w, Some(k));
    Asks(cfg, s, payload);
    assert u.conns[c] == Written(conn, Request(k, 0, payload));
    assert Waits(u, k) == Some(c);
    var t := SetConn(asked, c, ReadOne(u.conns[c], DecodeFrame(conn.downBuffer).rest));
    var q := Outcome(cfg, u, k, c, DecodeFrame(conn.downBuffer).payload);
    assert t.conns == s.conns[c := t.conns[c]];
    MoveAt(t, Verify, payload, w, Some(k), q);
    assert Apply(cfg, u, Receive(k)) == Some(At(t, Verify, payload, q, None));
    RunOne(cfg, u, Receive(k));
    RunOn(cfg, s, AskSteps(payload, k), [Receive(k)]);
  }

  // ---------------------------------------------------------------- one such run

  /** Connection 0 is in use and nobody holds the lock. */
  ghost predicate InUse<S, K>(s: State<S, K>) { s.connected && s.current == Some(0) && s.holder == None }

  ghost predicate Asked<S, K>(s: State<S, K>, p: Bytes)
    requires |p| <= MAX_MESSAGE_SIZE
  { InUse(s) && UnderWay(s, 0, p) }

  /** The first request on a new connection is under way on it, also after its time is up. */
  lemma AskedUnderWay<S, K>(s: State<S, K>, p: Bytes)
    requires |p| <= MAX_MESSAGE_SIZE && s.conns == []
    ensures var asked := SetConn(Opened(s), 0, Written(OPENED, Request(|s.calls|, 0, p)));
            && |asked.conns| == 1
            && Asked(At(SetConn(asked, 0, Abandoned(asked.conns[0], false)), Side, p, Raised, None), p)
  {
    assert [] + FrameOf(p) == FrameOf(p);
  }

  /** A health check asks, and its time is up before the reply arrives. */
  lemma HealthCheckTimesOut<S, K(!new)>(cfg: Config<S, K>, start: S, p: Bytes) returns (t: State<S, K>)
    requires cfg.reconnect && |p| <= MAX_MESSAGE_SIZE
    ensures Reaches(cfg, Start(start), t) && Asked(t, p) && |t.calls| == 1 && t.server == start
  {
    var s := Start<S, K>(start);
    var asked := SetConn(Opened(s), 0, Written(OPENED, Request(0, 0, p)));
    AskedUnderWay(s, p);
    t := At(SetConn(asked, 0, Abandoned(asked.conns[0], false)), Side, p, Raised, None);
    AsksFirst(cfg, s, Side, p);
    AskedThenTimedOut(cfg, s, asked, p);
  }

  lemma AskedThenTimedOut<S, K(!new)>(cfg: Config<S, K>, s: State<S, K>, asked: State<S, K>, p: Bytes)
    requires |asked.conns| == 1 && |asked.calls| == 0
    requires Run(cfg, s, [NewCall(Side, p), Acquire(0), Connect(0, false), Write(0)]) == Some(At(asked, Side, p, Awaiting(0, 0), Some(0)))
    ensures Reaches(cfg, s, At(SetConn(asked, 0, Abandoned(asked.conns[0], false)), Side, p, Raised, None))
  {
    var u := At(asked, Side, p, Awaiting(0, 0), Some(0));
    assert Reaches(cfg, s, u);
    TimesOut(cfg, asked, p);
    ReachesOn(cfg, s, u, At(SetConn(asked, 0, Abandoned(asked.conns[0], false)), Side, p, Raised, None));
  }

  lemma TimesOut<S, K(!new)>(cfg: Config<S, K>, asked: State<S, K>, p: Bytes)
    requires |asked.conns| == 1 && |asked.calls| == 0
    ensures Reaches(cfg, At(asked, Side, p, Awaiting(0, 0), Some(0)),
                    At(SetConn(asked, 0, Abandoned(asked.conns[0], false)), Side, p, Raised, None))
  {
    var u := At(asked, Side, p, Awaiting(0, 0), Some(0));
    MoveAt(SetConn(asked, 0, Abandoned(asked.conns[0], false)), Side, p, Awaiting(0, 0), Some(0), Raised);
    RunOne(cfg, u, Timeout(0, false));
  }

  /** verify reads the left-over reply r; its own request is under way then. */
  lemma ReadsLate<S, K(!new)>(cfg: Config<S, K>, s: State<S, K>, r: Bytes, p: Bytes) returns (t: State<S, K>)
    requires |r| <= MAX_MESSAGE_SIZE && |p| <= MAX_MESSAGE_SIZE && InUse(s) && Arrived(s, 0, r)
    ensures Reaches(cfg, s, t) && t.server == s.server
    ensures Asked(t, p) && |t.calls| == |s.calls| + 1 && t.calls[..|s.calls|] == s.calls
    ensures var call := t.calls[|s.calls|];
            && call.kind.Verify? && call.payload == p
            && if cfg.parses(Verify, r) then call.phase.Returned? && call.phase.clean && call.phase.reply == r
               else call.phase.Raised?
  {
    FrameOfPayload(r);
    LateReply(cfg, s, p);
    t := ReadLate(cfg, s, p, 0, r, []);
    assert [] + FrameOf(p) == FrameOf(p);
  }

  /** Of two verify calls the first raised, and the second returned the reply to the first. */
  ghost predicate WrongResult<S, K>(s: State<S, K>, p1: Bytes, r1: Bytes, p2: Bytes) {
    && |s.calls| == 3
    && s.calls[1].kind.Verify? && s.calls[1].payload == p1 && s.calls[1].phase.Raised?
    && s.calls[2].kind.Verify? && s.calls[2].payload == p2
    && s.calls[2].phase.Returned? && s.calls[2].phase.clean && s.calls[2].phase.reply == r1
  }

  /** After a timed-out health check one verify call fails on the reply to the health check, and the next
      one returns the result of the call before it: for every server, with any three requests of which the
      reply to the first is no result and the reply to the second is one. */
  lemma TimedOutHealthCheck<S, K(!new)>(cfg: Config<S, K>, st0: S, st1: S, st2: S, tick0: K, tick1: K,
                                        p0: Bytes, r0: Bytes, p1: Bytes, r1: Bytes, p2: Bytes)
    requires cfg.reconnect && |p0| <= MAX_MESSAGE_SIZE && |p1| <= MAX_MESSAGE_SIZE && |p2| <= MAX_MESSAGE_SIZE
    requires Replies(cfg, st0, tick0, p0, st1, r0) && !cfg.parses(Verify, r0)
    requires Replies(cfg, st1, tick1, p1, st2, r1) && cfg.parses(Verify, r1)
    ensures exists s :: Reaches(cfg, Start(st0), s) && WrongResult(s, p1, r1, p2)
  {
    var s1 := HealthCheckTimesOut(cfg, st0, p0);
    var s2 := Served(cfg, s1, 0, tick0, p0, st1, r0);
    var s3 := ReadsLate(cfg, s2, r0, p1);
    var s4 := Served(cfg, s3, 0, tick1, p1, st2, r1);
    var s5 := ReadsLate(cfg, s4, r1, p2);
    assert s5.calls[1] == s4.calls[1] == s3.calls[1];
    ReachesOn(cfg, Start(st0), s1, s2);
    ReachesOn(cfg, Start(st0), s2, s3);
    ReachesOn(cfg, Start(st0), s3, s4);
    ReachesOn(cfg, Start(st0), s4, s5);
  }
}
