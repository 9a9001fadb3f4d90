/** No reachable state of a session is beyond recovery: from each of them it can go on so that a new verify
    call returns the server's answer to its own request. */
module Recovery {
  import opened Basics
  import opened Framing
  import opened Session
  import opened ServerLog
  import opened Alignment
  import opened Guarantees
  import opened Runs

  // ---------------------------------------------------------------- the lock comes free

  lemma FailHolder<S, K>(cfg: Config<S, K>, s: State<S, K>, k: nat)
    requires k < |s.calls| && s.holder == Some(k)
    ensures Fail(cfg, s, k).holder == Some(k) || Fail(cfg, s, k).holder == None
  {
  }

  /** The holder keeps the lock or leaves it. */
  lemma HolderKeepsOrLeaves<S, K>(cfg: Config<S, K>, s: State<S, K>, k: nat, t: State<S, K>)
    requires k < |s.calls| && s.holder == Some(k) && Apply(cfg, s, NextMove(s, k)) == Some(t)
    ensures t.holder == Some(k) || t.holder == None
  {
    match NextMove(s, k) {
      case ConnectFails(_, _) => FailHolder(cfg, s, k);
      case Write(_) => FailHolder(cfg, s, k);
      case Timeout(_, _) =>
        var c := Waits(s, k).value;
        FailHolder(cfg, SetConn(s, c, Abandoned(s.conns[c], false)), k);
      case _ =>
    }
  }

  function Left<S, K>(cfg: Config<S, K>, s: State<S, K>): nat {
    if s.holder.Some? && s.holder.value < |s.calls| && s.calls[s.holder.value].attempt <= cfg.maxRetries
    then Rank(cfg, s.calls[s.holder.value]) else 0
  }

  /** One step of the holder, which has fewer steps left after it. */
  lemma HolderSteps<S, K>(cfg: Config<S, K>, start: S, steps: seq<Step<K>>, s: State<S, K>, k: nat)
    returns (step: Step<K>, t: State<S, K>)
    requires Run(cfg, Start(start), steps) == Some(s) && s.holder == Some(k)
    ensures Apply(cfg, s, step) == Some(t) && Run(cfg, Start(start), steps + [step]) == Some(t)
    ensures Left(cfg, t) < Left(cfg, s) && t.server == s.server && |s.calls| <= |t.calls|
  {
    RunKeeps(cfg, start, steps);
    HolderMoves(cfg, s, k);
    step := NextMove(s, k);
    t := Apply(cfg, s, step).value;
    assert (steps + [step])[..|steps + [step]| - 1] == steps;
    OtherCalls(cfg, s, step);
    HolderKeepsOrLeaves(cfg, s, k, t);
    StepRank(cfg, s, step, t, k);
    assert BudgetOk(cfg, s.calls[k]);
  }

  /** The lock comes free without the server doing anything. */
  lemma {:induction false} LockComesFree<S, K(!new)>(cfg: Config<S, K>, start: S, steps: seq<Step<K>>, s: State<S, K>)
    returns (t: State<S, K>)
    requires Run(cfg, Start(start), steps) == Some(s)
    ensures Reaches(cfg, s, t) && t.holder.None? && t.server == s.server && |s.calls| <= |t.calls|
    decreases Left(cfg, s)
  {
    if s.holder.None? {
      assert Run(cfg, s, []) == Some(s);
      t := s;
    } else {
      var step, u := HolderSteps(cfg, start, steps, s, s.holder.value);
      t := LockComesFree(cfg, start, steps + [step], u);
      RunOne(cfg, s, step);
      ReachesOn(cfg, s, u, t);
    }
  }

  // ---------------------------------------------------------------- a call that is answered

  /** Call k asked with payload p and returned reply r, with no read given up on its connection before. */
  ghost predicate Gets<S, K>(t: State<S, K>, k: nat, p: Bytes, r: Bytes) {
    && k < |t.calls| && t.calls[k].kind.Verify? && t.calls[k].payload == p
    && t.calls[k].phase.Returned? && t.calls[k].phase.missed == 0 && t.calls[k].phase.reply == r
  }

  lemma ReadsOwn<S, K(!new)>(cfg: Config<S, K>, s: State<S, K>, k: nat, c: nat, r: Bytes) returns (t: State<S, K>)
    requires |r| <= MAX_MESSAGE_SIZE && Arrived(s, c, r) && Waits(s, k) == Some(c) && cfg.parses(s.calls[k].kind, r)
    requires s.conns[c].abandoned == 0 && s.calls[k].kind.Verify?
    ensures Reaches(cfg, s, t) && Gets(t, k, s.calls[k].payload, r) && t.server == s.server
  {
    FrameOfPayload(r);
    t := Apply(cfg, s, Receive(k)).value;
    RunOne(cfg, s, Receive(k));
  }

  lemma FirstUnderWay<S, K>(s: State<S, K>, p: Bytes)
    requires |p| <= MAX_MESSAGE_SIZE
    ensures var c, k := |s.conns|, |s.calls|;
            var u := At(SetConn(Opened(s), c, Written(OPENED, Request(k, 0, p))), Verify, p, Awaiting(c, 0), Some(k));
            UnderWay(u, c, p) && Waits(u, k) == Some(c) && u.conns[c].abandoned == 0 && u.server == s.server
            && u.calls[k].payload == p && u.calls[k].kind.Verify?
  {
    assert [] + FrameOf(p) == FrameOf(p);
  }

  /** On a new connection a call is answered. */
  lemma AnsweredOnNew<S, K(!new)>(cfg: Config<S, K>, s: State<S, K>, tick: K, p: Bytes, after: S, r: Bytes)
    returns (t: State<S, K>)
    requires s.holder.None? && !s.connected && cfg.reconnect && |p| <= MAX_MESSAGE_SIZE
    requires Replies(cfg, s.server, tick, p, after, r) && cfg.parses(Verify, r)
    ensures Reaches(cfg, s, t) && Gets(t, |s.calls|, p, r) && t.server == after
  {
    var c, k := |s.conns|, |s.calls|;
    var u := At(SetConn(Opened(s), c, Written(OPENED, Request(k, 0, p))), Verify, p, Awaiting(c, 0), Some(k));
    AsksFirst(cfg, s, Verify, p);
    assert Reaches(cfg, s, u);
    FirstUnderWay(s, p);
    var v := Served(cfg, u, c, tick, p, after, r);
    t := ReadsOwn(cfg, v, k, c, r);
    ReachesOn(cfg, s, u, v);
    ReachesOn(cfg, s, v, t);
  }

  lemma Closes<S, K(!new)>(cfg: Config<S, K>, s: State<S, K>) returns (t: State<S, K>)
    requires s.holder.None?
    ensures Reaches(cfg, s, t) && t.holder.None? && !t.connected && t.server == s.server && t.calls == s.calls
  {
    t := Apply(cfg, s, UserClose).value;
    RunOne(cfg, s, UserClose);
  }

  /** Whatever has happened before, the session can go on so that a new call returns the server's answer to
      its own request. */
  lemma Recovers<S, K(!new)>(cfg: Config<S, K>, start: S, steps: seq<Step<K>>, s: State<S, K>, tick: K, p: Bytes, after: S, r: Bytes)
    requires Run(cfg, Start(start), steps) == Some(s) && cfg.reconnect && |p| <= MAX_MESSAGE_SIZE
    requires Replies(cfg, s.server, tick, p, after, r) && cfg.parses(Verify, r)
    ensures exists t, k: nat :: Reaches(cfg, s, t) && |s.calls| <= k && Gets(t, k, p, r) && t.server == after
  {
    var u := LockComesFree(cfg, start, steps, s);
    var v := Closes(cfg, u);
    var t := AnsweredOnNew(cfg, v, tick, p, after, r);
    ReachesOn(cfg, s, u, v);
    ReachesOn(cfg, s, v, t);
    assert Gets(t, |v.calls|, p, r);
  }
}
