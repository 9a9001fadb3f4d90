/** Runs put together from parts: asking on a connection, and a request that is answered. */
module Runs {
  import opened Basics
  import opened Framing
  import opened Session

  lemma {:induction false} RunOn<S, K>(cfg: Config<S, K>, s: State<S, K>, xs: seq<Step<K>>, ys: seq<Step<K>>)
    ensures Run(cfg, s, xs).Some? ==> Run(cfg, s, xs + ys) == Run(cfg, Run(cfg, s, xs).value, ys)
    decreases |ys|
  {
    if |ys| == 0 {
      assert xs + ys == xs;
    } else {
      var init := ys[..|ys| - 1];
      RunOn(cfg, s, xs, init);
      assert (xs + ys)[..|xs + ys| - 1] == xs + init;
    }
  }

  lemma RunOne<S, K>(cfg: Config<S, K>, s: State<S, K>, step: Step<K>)
    ensures Run(cfg, s, [step]) == Apply(cfg, s, step)
  {
    assert [step][..0] == [];
    assert Run(cfg, s, []) == Some(s);
  }

  ghost predicate Reaches<S, K(!new)>(cfg: Config<S, K>, s: State<S, K>, t: State<S, K>) {
    exists steps :: Run(cfg, s, steps) == Some(t)
  }

  lemma ReachesOn<S, K(!new)>(cfg: Config<S, K>, s: State<S, K>, t: State<S, K>, u: State<S, K>)
    requires Reaches(cfg, s, t) && Reaches(cfg, t, u)
    ensures Reaches(cfg, s, u)
  {
    var xs :| Run(cfg, s, xs) == Some(t);
    var ys :| Run(cfg, t, ys) == Some(u);
    RunOn(cfg, s, xs, ys);
    assert Run(cfg, s, xs + ys) == Some(u);
  }

  lemma FourSteps<S, K>(cfg: Config<S, K>, s: State<S, K>, a: State<S, K>, b: State<S, K>, c: State<S, K>, d: State<S, K>,
                        p: Step<K>, q: Step<K>, r: Step<K>, t: Step<K>)
    requires Apply(cfg, s, p) == Some(a) && Apply(cfg, a, q) == Some(b)
    requires Apply(cfg, b, r) == Some(c) && Apply(cfg, c, t) == Some(d)
    ensures Run(cfg, s, [p, q, r, t]) == Some(d)
  {
    RunOne(cfg, s, p);
    RunOne(cfg, a, q);
    RunOne(cfg, b, r);
    RunOne(cfg, c, t);
    RunOn(cfg, s, [p], [q]);
    RunOn(cfg, s, [p, q], [r]);
    RunOn(cfg, s, [p, q, r], [t]);
    assert [p] + [q] == [p, q] && [p, q] + [r] == [p, q, r] && [p, q, r] + [t] == [p, q, r, t];
  }

  lemma ThreeSteps<S, K>(cfg: Config<S, K>, s: State<S, K>, a: State<S, K>, b: State<S, K>, c: State<S, K>,
                         p: Step<K>, q: Step<K>, r: Step<K>)
    requires Apply(cfg, s, p) == Some(a) && Apply(cfg, a, q) == Some(b) && Apply(cfg, b, r) == Some(c)
    ensures Run(cfg, s, [p, q, r]) == Some(c)
  {
    RunOne(cfg, s, p);
    RunOne(cfg, a, q);
    RunOne(cfg, b, r);
    RunOn(cfg, s, [p], [q]);
    RunOn(cfg, s, [p, q], [r]);
    assert [p] + [q] == [p, q] && [p, q] + [r] == [p, q, r];
  }

  /** The latest call of a state, in a phase. */
  function At<S, K>(s: State<S, K>, kind: Kind, payload: Bytes, phase: Phase, holder: Option<nat>): State<S, K> {
    s.(calls := s.calls + [Call(kind, payload, |s.log|, phase, 0, 0)], holder := holder)
  }

  lemma MoveAt<S, K>(s: State<S, K>, kind: Kind, payload: Bytes, p: Phase, h: Option<nat>, q: Phase)
    ensures SetPhase(At(s, kind, payload, p, h), |s.calls|, q) == At(s, kind, payload, q, h)
  {
    var a := At(s, kind, payload, p, h);
    assert a.calls[|s.calls| := a.calls[|s.calls|].(phase := q)] == s.calls + [Call(kind, payload, |s.log|, q, 0, 0)];
  }

  function AskSteps<K>(payload: Bytes, k: nat): seq<Step<K>> {
    [NewCall(Verify, payload), Acquire(k), Reuse(k), Write(k)]
  }

  /** verify, called on a connection in use: it takes the lock, keeps the connection, writes. */
  lemma Asks<S, K>(cfg: Config<S, K>, s: State<S, K>, payload: Bytes)
    requires s.holder.None? && s.connected && s.current.Some? && s.current.value < |s.conns| && |payload| <= MAX_MESSAGE_SIZE
    ensures var k, c := |s.calls|, s.current.value;
            Run(cfg, s, AskSteps(payload, k)) ==
            Some(At(SetConn(s, c, Written(s.conns[c], Request(k, 0, payload))), Verify, payload,
                    Awaiting(c, |s.conns[c].sent|), Some(k)))
  {
    var k, c := |s.calls|, s.current.value;
    var t := SetConn(s, c, Written(s.conns[c], Request(k, 0, payload)));
    var w := Awaiting(c, |s.conns[c].sent|);
    MoveAt(s, Verify, payload, Queued, None, Connecting);
    MoveAt(s, Verify, payload, Connecting, Some(k), Ready);
    MoveAt(t, Verify, payload, Ready, Some(k), w);
    FourSteps(cfg, s, At(s, Verify, payload, Queued, None), At(s, Verify, payload, Connecting, Some(k)),
              At(s, Verify, payload, Ready, Some(k)), At(t, Verify, payload, w, Some(k)),
              NewCall(Verify, payload), Acquire(k), Reuse(k), Write(k));
  }

  /** A call made while there is no connection opens one and writes. */
  lemma AsksFirst<S, K>(cfg: Config<S, K>, s: State<S, K>, kind: Kind, payload: Bytes)
    requires s.holder.None? && !s.connected && cfg.reconnect && |payload| <= MAX_MESSAGE_SIZE
    ensures var k, c := |s.calls|, |s.conns|;
            Run(cfg, s, [NewCall(kind, payload), Acquire(k), Connect(k, false), Write(k)]) ==
            Some(At(SetConn(Opened(s), c, Written(OPENED, Request(k, 0, payload))), kind, payload, Awaiting(c, 0), Some(k)))
  {
    var k, c := |s.calls|, |s.conns|;
    var t := SetConn(Opened(s), c, Written(OPENED, Request(k, 0, payload)));
    MoveAt(s, kind, payload, Queued, None, Connecting);
    MoveAt(Opened(s), kind, payload, Connecting, Some(k), Ready);
    MoveAt(t, kind, payload, Ready, Some(k), Awaiting(c, 0));
    FourSteps(cfg, s, At(s, kind, payload, Queued, None), At(s, kind, payload, Connecting, Some(k)),
              At(Opened(s), kind, payload, Ready, Some(k)), At(t, kind, payload, Awaiting(c, 0), Some(k)),
              NewCall(kind, payload), Acquire(k), Connect(k, false), Write(k));
  }

  // ---------------------------------------------------------------- a request that is answered

  function FrameOf(p: Bytes): Bytes
    requires |p| <= MAX_MESSAGE_SIZE
  { Header(|p|) + p }

  lemma FrameOfPayload(p: Bytes)
    requires |p| <= MAX_MESSAGE_SIZE
    ensures DecodeFrame(FrameOf(p)) == Frame(p, []) && |FrameOf(p)| == 4 + |p|
  {
    var f := FrameOf(p);
    HeaderValueOfHeader(|p|);
    assert f[..4] == Header(|p|) && f[4..4 + |p|] == p && f[4 + |p|..] == [];
  }

  ghost predicate Calm(conn: Conn) {
    && !conn.upLost && !conn.downLost && !conn.closed && !conn.dead && !conn.garbled
    && conn.upBuffer == conn.downFlight == []
  }

  /** A request is under way on connection c. */
  ghost predicate UnderWay<S, K>(s: State<S, K>, c: nat, p: Bytes)
    requires |p| <= MAX_MESSAGE_SIZE
  {
    c < |s.conns| && Calm(s.conns[c]) && s.conns[c].upFlight == FrameOf(p) && s.conns[c].downBuffer == []
  }

  /** The reply has arrived. */
  ghost predicate Arrived<S, K>(s: State<S, K>, c: nat, r: Bytes)
    requires |r| <= MAX_MESSAGE_SIZE
  {
    c < |s.conns| && Calm(s.conns[c]) && s.conns[c].upFlight == [] && s.conns[c].downBuffer == FrameOf(r)
  }

  /** What the server does with a request: the state after it and a reply that fits a frame. */
  ghost predicate Replies<S, K>(cfg: Config<S, K>, st: S, tick: K, p: Bytes, after: S, r: Bytes) {
    cfg.handle(st, tick, p) == (after, Some(r)) && |r| <= MAX_MESSAGE_SIZE
  }

  lemma Handled<S, K>(cfg: Config<S, K>, a: State<S, K>, c: nat, tick: K, p: Bytes, after: S, r: Bytes)
    requires |p| <= MAX_MESSAGE_SIZE && c < |a.conns| && a.conns[c].upBuffer == FrameOf(p) && !a.conns[c].closed
    requires Replies(cfg, a.server, tick, p, after, r)
    ensures Apply(cfg, a, Handle(c, tick)) ==
            Some(SetConn(a, c, Answered(a.conns[c], [], |a.log|, Some(r)))
                 .(server := after, log := a.log + [Handling(Some(Origin(c, |a.conns[c].evals|)), p, tick)]))
  {
    FrameOfPayload(p);
  }

  lemma Exchange(conn: Conn, p: Bytes, r: Bytes, at: nat) returns (came: Conn, done: Conn, back: Conn)
    requires |p| <= MAX_MESSAGE_SIZE && |r| <= MAX_MESSAGE_SIZE
    requires conn.upFlight == FrameOf(p) && conn.upBuffer == conn.downFlight == conn.downBuffer == [] && !conn.downLost
    ensures 4 + |p| <= |conn.upFlight| && came == ArriveUp(conn, 4 + |p|) == conn.(upBuffer := FrameOf(p), upFlight := [])
    ensures done == Answered(came, [], at, Some(r)) == came.(upBuffer := [], evals := done.evals, downFlight := FrameOf(r))
    ensures 4 + |r| <= |done.downFlight| && back == ArriveDown(done, 4 + |r|) == done.(downFlight := [], downBuffer := FrameOf(r))
  {
    var f, g := FrameOf(p), FrameOf(r);
    FrameOfPayload(p);
    FrameOfPayload(r);
    assert f[..4 + |p|] == f && f[4 + |p|..] == [] && [] + f == f;
    assert g[..4 + |r|] == g && g[4 + |r|..] == [] && [] + g == g;
    came := ArriveUp(conn, 4 + |p|);
    done := Answered(came, [], at, Some(r));
    back := ArriveDown(done, 4 + |r|);
  }

  /** The client's side is as it was, but for bytes that have arrived. */
  ghost predicate SameClient<S, K>(s: State<S, K>, t: State<S, K>, c: nat) {
    && t.calls == s.calls && t.holder == s.holder && t.connected == s.connected && t.current == s.current
    && c < |s.conns| == |t.conns|
    && s.conns[c].read == t.conns[c].read && s.conns[c].abandoned == t.conns[c].abandoned
    && s.conns[c].consumed == t.conns[c].consumed
  }

  /** The request arrives, is answered, and the answer arrives. */
  lemma Served<S, K(!new)>(cfg: Config<S, K>, s: State<S, K>, c: nat, tick: K, p: Bytes, after: S, r: Bytes)
    returns (t: State<S, K>)
    requires |p| <= MAX_MESSAGE_SIZE && UnderWay(s, c, p) && Replies(cfg, s.server, tick, p, after, r)
    ensures Reaches(cfg, s, t) && Arrived(t, c, r) && SameClient(s, t, c) && t.server == after
  {
    var came, done, back := Exchange(s.conns[c], p, r, |s.log|);
    var a := SetConn(s, c, came);
    Handled(cfg, a, c, tick, p, after, r);
    var b := Apply(cfg, a, Handle(c, tick)).value;
    assert b.conns[c] == done;
    t := SetConn(b, c, back);
    ThreeSteps(cfg, s, a, b, t, DeliverUp(c, 4 + |p|), Handle(c, tick), DeliverDown(c, 4 + |r|));
  }
}
