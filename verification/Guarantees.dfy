/** What callers of the client can rely on, over every run of the session machine. */
module Guarantees {
  import opened Basics
  import opened Framing
  import opened Session
  import opened Streams
  import opened ServerLog
  import opened Alignment

  /** The connection and the position among its replies that a returned call read. */
  function ReadFrom<S, K>(s: State<S, K>, k: nat): Conn
    requires k < |s.calls| && s.calls[k].phase.Returned? && s.calls[k].phase.conn < |s.conns|
  { s.conns[s.calls[k].phase.conn] }

  ghost predicate Read<S, K>(s: State<S, K>, k: nat) {
    && k < |s.calls| && s.calls[k].phase.Returned? && s.calls[k].phase.conn < |s.conns|
    && s.calls[k].phase.index < |ReadFrom(s, k).evals| && s.calls[k].phase.index < |ReadFrom(s, k).sent|
  }

  /** The place in the server's log of the reply call k returned. */
  ghost function Place<S, K>(s: State<S, K>, k: nat): nat
    requires Read(s, k)
  { ReadFrom(s, k).evals[s.calls[k].phase.index].at }

  /** The call whose request that reply answers. */
  ghost function Asker<S, K>(s: State<S, K>, k: nat): nat
    requires Read(s, k)
  { ReadFrom(s, k).sent[s.calls[k].phase.index].call }

  /** The reply call k returned is the server's reply to call j, handled after j was made and before k returned. */
  ghost predicate Answers<S, K>(cfg: Config<S, K>, start: S, s: State<S, K>, j: nat, k: nat) {
    && Read(s, k) && j < |s.calls|
    && var at := Place(s, k);
       && s.calls[j].since <= at < s.calls[k].phase.done <= |s.log|
       && s.log[at].payload == s.calls[j].payload
       && Answer(cfg, start, s.log, at) == Some(s.calls[k].phase.reply)
  }

  lemma RepliesAnswer<S, K>(cfg: Config<S, K>, start: S, s: State<S, K>, k: nat)
    requires Invariant(cfg, start, s) && k < |s.calls| && s.calls[k].phase.Returned? && s.calls[k].phase.clean
    ensures Read(s, k) && Answers(cfg, start, s, Asker(s, k), k)
    ensures Asker(s, k) == k <==> s.calls[k].phase.missed == 0
  {
    var p := s.calls[k].phase;
    assert ReturnedOk(s.conns, |s.log|, k, s.calls[k]);
    var conn := s.conns[p.conn];
    assert UpOk(conn) && ConnEvals(cfg, start, s.log, p.conn, conn) && ConnSent(s.calls, conn) && SinceConn(s.calls, conn);
    assert EvalOk(cfg, start, s.log, p.conn, conn, p.index) && SentOk(s.calls, conn.sent[p.index]);
    assert OnePerCall(conn);
  }

  /** Whose reply a returned call has. */
  ghost predicate Attributed<S, K>(cfg: Config<S, K>, start: S, s: State<S, K>, k: nat)
    requires k < |s.calls| && s.calls[k].phase.Returned?
  {
    var p := s.calls[k].phase;
    && p.conn < |s.conns| && (exists n :: FoundAmong(s.conns[p.conn], n, p))
    && (p.missed == 0 ==> Read(s, k) && Answers(cfg, start, s, k, k) && Asker(s, k) == k)
    && (p.clean ==>
          && Read(s, k) && Answers(cfg, start, s, Asker(s, k), k)
          && p.slot == p.index + p.missed
          && (Asker(s, k) == k <==> p.missed == 0))
  }

  /** In every run a returned reply stands in its connection's stream of replies where the client had got to.
      If no read was given up on the connection before, it is the call's own. If no header was taken without
      its payload, it answers the request as many places before the call's own as reads were given up, and
      is the call's own only if none was. */
  lemma ReplyAttribution<S, K>(cfg: Config<S, K>, start: S, steps: seq<Step<K>>, k: nat)
    requires Run(cfg, Start(start), steps).Some?
    ensures var s := Run(cfg, Start(start), steps).value;
            k < |s.calls| && s.calls[k].phase.Returned? ==> Attributed(cfg, start, s, k)
  {
    RunKeeps(cfg, start, steps);
    var s := Run(cfg, Start(start), steps).value;
    if k < |s.calls| && s.calls[k].phase.Returned? {
      assert ReturnedOk(s.conns, |s.log|, k, s.calls[k]);
      if s.calls[k].phase.clean { RepliesAnswer(cfg, start, s, k); }
    }
  }

  // ---------------------------------------------------------------- orderly runs

  /** No caller is cancelled while it waits for a reply, and none of the three requests that leave a
      timed-out connection in use times out. */
  predicate Orderly<S, K>(s: State<S, K>, step: Step<K>) {
    match step
    case Cancel(k, _) => Waits(s, k).None?
    case Timeout(k, _) => k < |s.calls| ==> s.calls[k].kind.Verify?
    case _ => true
  }

  ghost predicate OrderlyRun<S, K>(cfg: Config<S, K>, s: State<S, K>, steps: seq<Step<K>>) {
    |steps| > 0 ==>
      var before := steps[..|steps| - 1];
      OrderlyRun(cfg, s, before) && (Run(cfg, s, before).Some? ==> Orderly(Run(cfg, s, before).value, steps[|steps| - 1]))
  }

  ghost predicate Aligned(conn: Conn) { conn.dead || (conn.abandoned == 0 && !conn.garbled) }

  /** No reply is left over on the connection in use. */
  ghost predicate InUseAligned<S, K>(s: State<S, K>) {
    s.connected && s.current.Some? && s.current.value < |s.conns| ==> Aligned(s.conns[s.current.value])
  }

  ghost predicate OwnReply(call: Call) { call.phase.Returned? ==> call.phase.missed == 0 && call.phase.clean }

  ghost predicate OwnReplies<S, K>(s: State<S, K>) {
    InUseAligned(s) && forall k :: 0 <= k < |s.calls| ==> OwnReply(s.calls[k])
  }

  ghost predicate StaysAligned(a: Conn, b: Conn) { Aligned(a) ==> Aligned(b) }

  lemma AlignedUnlessRead<S, K>(cfg: Config<S, K>, s: State<S, K>, step: Step<K>)
    requires Apply(cfg, s, step).Some? && !IsRead(step)
    ensures AllRelated(s.conns, Apply(cfg, s, step).value.conns, StaysAligned)
  {
    StepRelates(cfg, s, step, StaysAligned);
  }

  /** The connection in use changes only to a new one. */
  ghost predicate SameOrNew<S, K>(s: State<S, K>, t: State<S, K>) {
    t.connected && t.current.Some? ==> (s.connected && s.current == t.current) || t.current == Some(|s.conns|)
  }

  lemma UseUnlessRead<S, K>(cfg: Config<S, K>, s: State<S, K>, step: Step<K>)
    requires Control(cfg, s) && Apply(cfg, s, step).Some? && !IsRead(step)
    ensures SameOrNew(s, Apply(cfg, s, step).value)
  {
  }

  lemma QuietOwn<S, K>(cfg: Config<S, K>, s: State<S, K>, step: Step<K>, t: State<S, K>)
    requires Control(cfg, s) && OwnReplies(s) && Apply(cfg, s, step) == Some(t) && !IsRead(step)
    ensures OwnReplies(t)
  {
    AlignedUnlessRead(cfg, s, step);
    UseUnlessRead(cfg, s, step);
    if t.connected && t.current.Some? && t.current.value < |t.conns| && t.current.value < |s.conns| {
      assert StaysAligned(s.conns[t.current.value], t.conns[t.current.value]);
    }
    if step.Handle? || step.HandleOther? {
      assert t.calls == s.calls;
    } else {
      OtherCalls(cfg, s, step);
      forall k | 0 <= k < |t.calls| ensures OwnReply(t.calls[k]) {
        if t.calls[k].phase.Returned? { assert OwnReply(s.calls[k]); }
      }
    }
  }

  lemma ReceiveOwn<S, K>(cfg: Config<S, K>, s: State<S, K>, k: nat, t: State<S, K>)
    requires Control(cfg, s) && InOrder(s.conns) && OwnReplies(s) && Apply(cfg, s, Receive(k)) == Some(t)
    ensures OwnReplies(t)
  {
    var c := Waits(s, k).value;
    assert ActiveOk(s, k, s.calls[k]);
    assert DownOk(s.conns[c]);
    ReceiveAligned(cfg, s, k, c, t);
  }

  lemma ReceiveAligned<S, K>(cfg: Config<S, K>, s: State<S, K>, k: nat, c: nat, t: State<S, K>)
    requires Waits(s, k) == Some(c) && s.current == Some(c) && s.connected && DownOk(s.conns[c])
    requires OwnReplies(s) && Apply(cfg, s, Receive(k)) == Some(t)
    ensures OwnReplies(t)
  {
    NoBadReply(s.conns[c]);
    ReceiveEffect(cfg, s, k);
    forall j | 0 <= j < |t.calls| && j != k ensures OwnReply(t.calls[j]) { assert OwnReply(s.calls[j]); }
  }

  /** Without a read given up, the client never meets an oversized header. */
  lemma NoBadReply(conn: Conn)
    requires DownOk(conn)
    ensures !conn.garbled ==> !DecodeFrame(conn.downBuffer).TooLarge?
  {
    if conn.garbled { return; }
    CarriesFirst(conn.downBuffer, conn.downFlight, conn.downLost, Replies(conn.evals)[conn.read..]);
  }

  lemma SettledOwn<S, K>(s: State<S, K>, t: State<S, K>)
    requires OwnReplies(s) && NoneReturned(s.calls, t.calls) && InUseAligned(t)
    ensures OwnReplies(t)
  {
    forall k | 0 <= k < |t.calls| ensures OwnReply(t.calls[k]) {
      if t.calls[k].phase.Returned? { assert OwnReply(s.calls[k]); }
    }
  }

  lemma TimeoutOwn<S, K>(cfg: Config<S, K>, s: State<S, K>, k: nat, tookHeader: bool, t: State<S, K>)
    requires OwnReplies(s) && Orderly(s, Timeout(k, tookHeader)) && Apply(cfg, s, Timeout(k, tookHeader)) == Some(t)
    ensures OwnReplies(t)
  {
    TimeoutCalls(cfg, s, k, tookHeader);
    SettledOwn(s, t);
  }

  lemma LostOwn<S, K>(cfg: Config<S, K>, s: State<S, K>, step: Step<K>, k: nat, t: State<S, K>)
    requires Control(cfg, s) && OwnReplies(s) && Apply(cfg, s, step) == Some(t)
    requires step == ConnectionLost(k) || step == EndOfStream(k)
    ensures OwnReplies(t)
  {
    OtherCalls(cfg, s, step);
    assert ActiveOk(s, k, s.calls[k]);
    SettledOwn(s, t);
  }

  lemma CancelOwn<S, K>(cfg: Config<S, K>, s: State<S, K>, k: nat, tookHeader: bool, t: State<S, K>)
    requires OwnReplies(s) && Orderly(s, Cancel(k, tookHeader)) && Apply(cfg, s, Cancel(k, tookHeader)) == Some(t)
    ensures OwnReplies(t)
  {
    CancelCalls(cfg, s, k, tookHeader);
    SettledOwn(s, t);
  }

  lemma ReadOwn<S, K>(cfg: Config<S, K>, s: State<S, K>, step: Step<K>, t: State<S, K>)
    requires Control(cfg, s) && InOrder(s.conns) && OwnReplies(s) && Orderly(s, step) && Apply(cfg, s, step) == Some(t)
    requires IsRead(step)
    ensures OwnReplies(t)
  {
    match step {
      case Receive(k) => ReceiveOwn(cfg, s, k, t);
      case Timeout(k, tookHeader) => TimeoutOwn(cfg, s, k, tookHeader, t);
      case Cancel(k, tookHeader) => CancelOwn(cfg, s, k, tookHeader, t);
      case ConnectionLost(k) => LostOwn(cfg, s, step, k, t);
      case EndOfStream(k) => LostOwn(cfg, s, step, k, t);
    }
  }

  lemma OrderlyKeeps<S, K>(cfg: Config<S, K>, s: State<S, K>, step: Step<K>, t: State<S, K>)
    requires Control(cfg, s) && InOrder(s.conns) && OwnReplies(s) && Orderly(s, step) && Apply(cfg, s, step) == Some(t)
    ensures OwnReplies(t)
  {
    if IsRead(step) { ReadOwn(cfg, s, step, t); } else { QuietOwn(cfg, s, step, t); }
  }

  lemma {:induction false} OrderlyRunKeeps<S, K>(cfg: Config<S, K>, start: S, steps: seq<Step<K>>)
    requires Run(cfg, Start(start), steps).Some? && OrderlyRun(cfg, Start(start), steps)
    ensures OwnReplies(Run(cfg, Start(start), steps).value)
    decreases |steps|
  {
    if |steps| > 0 {
      var before := steps[..|steps| - 1];
      OrderlyRunKeeps(cfg, start, before);
      RunKeeps(cfg, start, before);
      OrderlyKeeps(cfg, Run(cfg, Start(start), before).value, steps[|steps| - 1], Run(cfg, Start(start), steps).value);
    }
  }

  /** In an orderly run the calls that return are linearizable: each got the server's reply to its own
      request, handled between the call and the return; different calls have different places in the
      server's log. */
  lemma Linearizable<S, K>(cfg: Config<S, K>, start: S, steps: seq<Step<K>>)
    requires Run(cfg, Start(start), steps).Some? && OrderlyRun(cfg, Start(start), steps)
    ensures var s := Run(cfg, Start(start), steps).value;
            && s.server == ServerAfter(cfg, start, s.log)
            && (forall k :: 0 <= k < |s.calls| && s.calls[k].phase.Returned? ==> Answers(cfg, start, s, k, k))
            && (forall j, k :: 0 <= j < k < |s.calls| && Read(s, j) && Read(s, k) ==> Place(s, j) != Place(s, k))
  {
    var s := Run(cfg, Start(start), steps).value;
    RunKeeps(cfg, start, steps);
    OrderlyRunKeeps(cfg, start, steps);
    forall k | 0 <= k < |s.calls| && s.calls[k].phase.Returned? ensures Answers(cfg, start, s, k, k) {
      assert OwnReply(s.calls[k]);
      RepliesAnswer(cfg, start, s, k);
    }
    forall j, k | 0 <= j < k < |s.calls| && Read(s, j) && Read(s, k) ensures Place(s, j) != Place(s, k) {
      assert OwnReply(s.calls[j]) && OwnReply(s.calls[k]);
      PlaceOrigin(cfg, start, s, j);
      PlaceOrigin(cfg, start, s, k);
    }
  }

  lemma PlaceOrigin<S, K>(cfg: Config<S, K>, start: S, s: State<S, K>, k: nat)
    requires Invariant(cfg, start, s) && Read(s, k) && OwnReply(s.calls[k])
    ensures var p := s.calls[k].phase;
            Place(s, k) < |s.log| && s.log[Place(s, k)].origin == Some(Origin(p.conn, p.index)) && Asker(s, k) == k
  {
    var p := s.calls[k].phase;
    RepliesAnswer(cfg, start, s, k);
    assert ConnEvals(cfg, start, s.log, p.conn, s.conns[p.conn]);
    assert EvalOk(cfg, start, s.log, p.conn, s.conns[p.conn], p.index);
  }

  // ---------------------------------------------------------------- retries

  /** The server's handlings of requests of call k, on whatever connection and however late. */
  ghost function HandlingsOf<S, K>(s: State<S, K>, k: nat): (r: set<nat>)
    ensures forall a :: a in r ==> a < |s.log|
  {
    set a: nat | a < |s.log| && OfCall(s, a, k)
  }

  ghost predicate OfCall<S, K>(s: State<S, K>, a: nat, k: nat)
    requires a < |s.log|
  {
    && s.log[a].origin.Some?
    && var o := s.log[a].origin.value;
       o.conn < |s.conns| && o.slot < |s.conns[o.conn].sent| && s.conns[o.conn].sent[o.slot].call == k
  }

  ghost function AttemptOf<S, K>(s: State<S, K>, a: nat): nat {
    if a < |s.log| && s.log[a].origin.Some? && s.log[a].origin.value.conn < |s.conns|
       && s.log[a].origin.value.slot < |s.conns[s.log[a].origin.value.conn].sent|
    then s.conns[s.log[a].origin.value.conn].sent[s.log[a].origin.value.slot].attempt else 0
  }

  /** As many as the values below n they are told apart by. */
  lemma {:induction false} Pigeonhole(xs: set<nat>, f: nat -> nat, n: nat)
    requires forall x :: x in xs ==> f(x) < n
    requires forall x, y :: x in xs && y in xs && f(x) == f(y) ==> x == y
    ensures |xs| <= n
    decreases n
  {
    if n == 0 {
      assert xs == {};
    } else if x :| x in xs && f(x) == n - 1 {
      Pigeonhole(xs - {x}, f, n - 1);
    } else {
      Pigeonhole(xs, f, n - 1);
    }
  }

  /** The server handles a call at most once for each attempt, counting late handling on connections the
      client has left; a reply of its own means it did so at least once. */
  lemma HandledAtMost<S, K>(cfg: Config<S, K>, start: S, steps: seq<Step<K>>, k: nat)
    requires Run(cfg, Start(start), steps).Some?
    ensures var s := Run(cfg, Start(start), steps).value;
            k < |s.calls| ==>
              && |HandlingsOf(s, k)| <= s.calls[k].attempt + 1 <= cfg.maxRetries + 1
              && (OwnReply(s.calls[k]) && s.calls[k].phase.Returned? ==> |HandlingsOf(s, k)| >= 1)
  {
    RunKeeps(cfg, start, steps);
    var s := Run(cfg, Start(start), steps).value;
    if k < |s.calls| {
      HandlingsBounded(cfg, start, s, k);
      if OwnReply(s.calls[k]) && s.calls[k].phase.Returned? { HandledOnce(cfg, start, s, k); }
    }
  }

  lemma HandledOnce<S, K>(cfg: Config<S, K>, start: S, s: State<S, K>, k: nat)
    requires Invariant(cfg, start, s) && k < |s.calls| && s.calls[k].phase.Returned? && OwnReply(s.calls[k])
    ensures |HandlingsOf(s, k)| >= 1
  {
    RepliesAnswer(cfg, start, s, k);
    PlaceOrigin(cfg, start, s, k);
    HandledAt(s, Place(s, k), k);
  }

  lemma HandledAt<S, K>(s: State<S, K>, a: nat, k: nat)
    requires a < |s.log| && OfCall(s, a, k)
    ensures |HandlingsOf(s, k)| >= 1
  {
    assert a in HandlingsOf(s, k);
  }

  lemma HandlingsBounded<S, K>(cfg: Config<S, K>, start: S, s: State<S, K>, k: nat)
    requires Invariant(cfg, start, s) && k < |s.calls|
    ensures |HandlingsOf(s, k)| <= s.calls[k].attempt + 1 <= cfg.maxRetries + 1
  {
    var xs := HandlingsOf(s, k);
    assert BudgetOk(cfg, s.calls[k]);
    forall a | a in xs ensures AttemptOf(s, a) < s.calls[k].attempt + 1 {
      var o := s.log[a].origin.value;
      assert ConnSent(s.calls, s.conns[o.conn]);
      assert SentOk(s.calls, s.conns[o.conn].sent[o.slot]);
    }
    forall a, b | a in xs && b in xs && AttemptOf(s, a) == AttemptOf(s, b) ensures a == b {
      SameAttempt(s, a, b, k);
    }
    Pigeonhole(xs, a => AttemptOf(s, a), s.calls[k].attempt + 1);
  }

  lemma SameAttempt<S, K>(s: State<S, K>, a: nat, b: nat, k: nat)
    requires Tags(s.conns) && Once(s.log) && a < |s.log| && b < |s.log| && OfCall(s, a, k) && OfCall(s, b, k)
    requires AttemptOf(s, a) == AttemptOf(s, b)
    ensures a == b
  {
    var o, p := s.log[a].origin.value, s.log[b].origin.value;
    assert s.conns[o.conn].sent[o.slot].call == s.conns[p.conn].sent[p.slot].call;
    assert o == p;
  }

  lemma RunBudget<S, K>(cfg: Config<S, K>, start: S, steps: seq<Step<K>>, k: nat)
    requires Run(cfg, Start(start), steps).Some? && k < |Run(cfg, Start(start), steps).value.calls|
    ensures BudgetOk(cfg, Run(cfg, Start(start), steps).value.calls[k])
  {
    RunKeeps(cfg, start, steps);
  }

  /** A call has slept, in tenths of a second, at most half of R * (R + 1). */
  ghost predicate SleptWithin(call: Call, retries: nat) { 2 * call.slept <= retries * (retries + 1) }

  lemma CallSleeps<S, K>(cfg: Config<S, K>, call: Call)
    requires BudgetOk(cfg, call)
    ensures SleptWithin(call, cfg.maxRetries)
  {
    TriangleClosed(cfg.maxRetries);
  }

  /** The retries of a call sleep at most 0.05 * R * (R + 1) seconds in all. */
  lemma SleepBounded<S, K>(cfg: Config<S, K>, start: S, steps: seq<Step<K>>, k: nat)
    requires Run(cfg, Start(start), steps).Some? && k < |Run(cfg, Start(start), steps).value.calls|
    ensures SleptWithin(Run(cfg, Start(start), steps).value.calls[k], cfg.maxRetries)
  {
    RunBudget(cfg, start, steps, k);
    CallSleeps(cfg, Run(cfg, Start(start), steps).value.calls[k]);
  }

  // ---------------------------------------------------------------- termination

  /** The call a step belongs to. */
  function Mover<K>(step: Step<K>): Option<nat> {
    match step
    case Acquire(k) => Some(k)
    case Reuse(k) => Some(k)
    case Connect(k, _) => Some(k)
    case ConnectFails(k, _) => Some(k)
    case Write(k) => Some(k)
    case Receive(k) => Some(k)
    case Timeout(k, _) => Some(k)
    case ConnectionLost(k) => Some(k)
    case EndOfStream(k) => Some(k)
    case Cancel(k, _) => Some(k)
    case Wake(k) => Some(k)
    case _ => None
  }

  /** How many more steps a call can take. */
  function Rank<S, K>(cfg: Config<S, K>, call: Call): nat
    requires call.attempt <= cfg.maxRetries
  {
    var left := cfg.maxRetries - call.attempt;
    match call.phase
    case Queued => 4 * left + 5
    case Connecting => 4 * left + 4
    case Ready => 4 * left + 3
    case Awaiting(_, _) => 4 * left + 2
    case Sleeping => 4 * left + 1
    case _ => 0
  }

  /** Call j uses up at least n of its steps. */
  ghost predicate RankOk<S, K>(cfg: Config<S, K>, a: Call, b: Call, n: nat) {
    a.attempt <= cfg.maxRetries && b.attempt <= cfg.maxRetries ==> Rank(cfg, b) + n <= Rank(cfg, a)
  }

  function Own<K>(step: Step<K>, k: nat): nat { if Mover(step) == Some(k) then 1 else 0 }

  lemma FailRank<S, K>(cfg: Config<S, K>, s: State<S, K>, k: nat, j: nat)
    requires k < |s.calls| && j < |s.calls| && Active(s.calls[k].phase) && !s.calls[k].phase.Sleeping?
    ensures RankOk(cfg, s.calls[j], Fail(cfg, s, k).calls[j], if j == k then 1 else 0)
  {
  }

  lemma WriteRank<S, K>(cfg: Config<S, K>, s: State<S, K>, k: nat, j: nat)
    requires Apply(cfg, s, Write(k)).Some? && j < |s.calls|
    ensures var t := Apply(cfg, s, Write(k)).value;
            j < |t.calls| && RankOk(cfg, s.calls[j], t.calls[j], if j == k then 1 else 0)
  {
    FailRank(cfg, s, k, j);
  }

  lemma ReceiveRank<S, K>(cfg: Config<S, K>, s: State<S, K>, k: nat, j: nat)
    requires Apply(cfg, s, Receive(k)).Some? && j < |s.calls|
    ensures var t := Apply(cfg, s, Receive(k)).value;
            j < |t.calls| && RankOk(cfg, s.calls[j], t.calls[j], if j == k then 1 else 0)
  {
    var c := Waits(s, k).value;
    if DecodeFrame(s.conns[c].downBuffer).TooLarge? { FailRank(cfg, SetConn(s, c, HeaderGone(s.conns[c])), k, j); }
  }

  lemma GiveUpRank<S, K>(cfg: Config<S, K>, s: State<S, K>, step: Step<K>, k: nat, j: nat)
    requires Apply(cfg, s, step).Some? && j < |s.calls|
    requires step == ConnectionLost(k) || (step.Timeout? && step.k == k)
    ensures var t := Apply(cfg, s, step).value;
            j < |t.calls| && RankOk(cfg, s.calls[j], t.calls[j], if j == k then 1 else 0)
  {
    var c := Waits(s, k).value;
    FailRank(cfg, SetConn(s, c, if step.Timeout? then Abandoned(s.conns[c], step.tookHeader) else Killed(s.conns[c])), k, j);
  }

  lemma StepRank<S, K>(cfg: Config<S, K>, s: State<S, K>, step: Step<K>, t: State<S, K>, j: nat)
    requires Apply(cfg, s, step) == Some(t) && j < |s.calls|
    ensures j < |t.calls| && RankOk(cfg, s.calls[j], t.calls[j], Own(step, j))
  {
    if Mover(step) == Some(j) { OwnRank(cfg, s, step, t, j); } else { OthersKeep(cfg, s, step, t, j); }
  }

  lemma OwnRank<S, K>(cfg: Config<S, K>, s: State<S, K>, step: Step<K>, t: State<S, K>, j: nat)
    requires Apply(cfg, s, step) == Some(t) && j < |s.calls| && Mover(step) == Some(j)
    ensures j < |t.calls| && RankOk(cfg, s.calls[j], t.calls[j], 1)
  {
    match step {
      case ConnectFails(k, _) => FailRank(cfg, s, k, j);
      case Write(k) => WriteRank(cfg, s, k, j);
      case Receive(k) => ReceiveRank(cfg, s, k, j);
      case Timeout(k, _) => GiveUpRank(cfg, s, step, k, j);
      case ConnectionLost(k) => GiveUpRank(cfg, s, step, k, j);
      case _ => CalmRank(cfg, s, step, t, j);
    }
  }

  lemma CalmRank<S, K>(cfg: Config<S, K>, s: State<S, K>, step: Step<K>, t: State<S, K>, j: nat)
    requires Apply(cfg, s, step) == Some(t) && j < |s.calls| && Mover(step) == Some(j)
    requires !step.ConnectFails? && !step.Write? && !step.Receive? && !step.Timeout? && !step.ConnectionLost?
    ensures j < |t.calls| && RankOk(cfg, s.calls[j], t.calls[j], 1)
  {
  }

  function StepsOf<K>(steps: seq<Step<K>>, k: nat): nat {
    if |steps| == 0 then 0 else StepsOf(steps[..|steps| - 1], k) + Own(steps[|steps| - 1], k)
  }

  ghost predicate StepsLeft<S, K>(cfg: Config<S, K>, s: State<S, K>, taken: nat, k: nat) {
    if k < |s.calls| then
      s.calls[k].attempt <= cfg.maxRetries && taken + Rank(cfg, s.calls[k]) <= 4 * cfg.maxRetries + 5
    else taken == 0
  }

  /** A call takes at most 4 * R + 5 steps of its own, and after so many it has returned or raised. */
  lemma CallsEnd<S, K>(cfg: Config<S, K>, start: S, steps: seq<Step<K>>, k: nat)
    requires Run(cfg, Start(start), steps).Some?
    ensures var s, n := Run(cfg, Start(start), steps).value, 4 * cfg.maxRetries + 5;
            && StepsOf(steps, k) <= n
            && (StepsOf(steps, k) == n ==> k < |s.calls| && (s.calls[k].phase.Returned? || s.calls[k].phase.Raised?))
  {
    StepsCounted(cfg, start, steps, k);
  }

  lemma {:induction false} StepsCounted<S, K>(cfg: Config<S, K>, start: S, steps: seq<Step<K>>, k: nat)
    requires Run(cfg, Start(start), steps).Some?
    ensures StepsLeft(cfg, Run(cfg, Start(start), steps).value, StepsOf(steps, k), k)
    decreases |steps|
  {
    if |steps| > 0 {
      var before, step := steps[..|steps| - 1], steps[|steps| - 1];
      StepsCounted(cfg, start, before, k);
      RunKeeps(cfg, start, before);
      RunKeeps(cfg, start, steps);
      StepCounted(cfg, Run(cfg, Start(start), before).value, step, Run(cfg, Start(start), steps).value, StepsOf(before, k), k);
    }
  }

  lemma StepCounted<S, K>(cfg: Config<S, K>, s: State<S, K>, step: Step<K>, t: State<S, K>, taken: nat, k: nat)
    requires Control(cfg, s) && Control(cfg, t) && Apply(cfg, s, step) == Some(t) && StepsLeft(cfg, s, taken, k)
    ensures StepsLeft(cfg, t, taken + Own(step, k), k)
  {
    if k < |t.calls| { assert BudgetOk(cfg, t.calls[k]); }
    if k < |s.calls| {
      StepRank(cfg, s, step, t, k);
    } else {
      NewQueued(cfg, s, step, t, k);
    }
  }

  lemma NewQueued<S, K>(cfg: Config<S, K>, s: State<S, K>, step: Step<K>, t: State<S, K>, k: nat)
    requires Apply(cfg, s, step) == Some(t) && |s.calls| <= k
    ensures Own(step, k) == 0
    ensures k < |t.calls| ==> t.calls[k].phase.Queued? && t.calls[k].attempt == 0
  {
    match step {
      case Write(j) => WriteOnly(cfg, s, j, t);
      case Receive(j) => ReceiveEffect(cfg, s, j);
      case Timeout(j, _) => GiveUpOnly(cfg, s, step, j, t);
      case ConnectionLost(j) => GiveUpOnly(cfg, s, step, j, t);
      case ConnectFails(j, _) => FailOnly(cfg, s, j);
      case _ => CalmNew(cfg, s, step, t, k);
    }
  }

  lemma CalmNew<S, K>(cfg: Config<S, K>, s: State<S, K>, step: Step<K>, t: State<S, K>, k: nat)
    requires Apply(cfg, s, step) == Some(t) && |s.calls| <= k
    requires !step.Write? && !step.Receive? && !step.Timeout? && !step.ConnectionLost? && !step.ConnectFails?
    ensures Own(step, k) == 0
    ensures k < |t.calls| ==> t.calls[k].phase.Queued? && t.calls[k].attempt == 0
  {
  }

  // ---------------------------------------------------------------- the connection a call writes on

  /** Call k has written on connection c, where a reads had been given up then. */
  ghost predicate Tracks<S, K>(s: State<S, K>, k: nat, c: nat, a: nat) {
    && k < |s.calls| && c < |s.conns| && !NeverSent(s.conns[c], k)
    && match s.calls[k].phase
       case Awaiting(d, _) => d == c ==> s.conns[c].abandoned == a
       case Returned(d, _, _, missed, _, _, _, _) => d == c ==> missed == a
       case _ => true
  }

  lemma StillSent(a: Conn, b: Conn, k: nat)
    requires Later(a, b) && !NeverSent(a, k)
    ensures !NeverSent(b, k)
  {
    var i :| 0 <= i < |a.sent| && a.sent[i].call == k;
    assert b.sent[i].call == k;
  }

  /** While a call waits, only its own steps give reads up. */
  lemma OthersGiveNothingUp<S, K>(cfg: Config<S, K>, s: State<S, K>, step: Step<K>, t: State<S, K>, k: nat, c: nat)
    requires Control(cfg, s) && Apply(cfg, s, step) == Some(t) && Mover(step) != Some(k)
    requires k < |s.calls| && s.calls[k].phase.Awaiting? && c < |s.conns|
    ensures k < |t.calls| && t.calls[k] == s.calls[k] && c < |t.conns| && t.conns[c].abandoned == s.conns[c].abandoned
  {
    if !IsRead(step) && !step.Write? {
      CountsUnlessRead(cfg, s, step);
      assert SameCounts(s.conns[c], t.conns[c]);
    }
  }

  /** What the own step of a call can leave: no new wait on c, and only a result read on a waiting c. */
  ghost predicate Moved(before: Call, after: Call, c: nat, a: nat) {
    && (after.phase.Awaiting? ==> after.phase.conn != c)
    && (after.phase.Returned? && after.phase.conn == c ==>
          after.phase == before.phase || after.phase.missed == a)
  }

  lemma WriteMoves<S, K>(cfg: Config<S, K>, s: State<S, K>, t: State<S, K>, k: nat, c: nat, a: nat)
    requires Control(cfg, s) && Apply(cfg, s, Write(k)) == Some(t) && c < |s.conns| && !NeverSent(s.conns[c], k)
    ensures k < |s.calls| && k < |t.calls| && Moved(s.calls[k], t.calls[k], c, a)
  {
    WriteCalls(cfg, s, k);
    assert ActiveOk(s, k, s.calls[k]);
  }

  lemma ReceiveMoves<S, K>(cfg: Config<S, K>, s: State<S, K>, t: State<S, K>, k: nat, c: nat, a: nat)
    requires Apply(cfg, s, Receive(k)) == Some(t) && c < |s.conns| && Tracks(s, k, c, a)
    ensures k < |s.calls| && k < |t.calls| && Moved(s.calls[k], t.calls[k], c, a)
  {
    ReceiveCalls(cfg, s, k);
    if t.calls[k].phase.Returned? { ReceivePhase(cfg, s, k, Waits(s, k).value, t); }
  }

  lemma FailMoves<S, K>(cfg: Config<S, K>, s: State<S, K>, k: nat, c: nat, a: nat)
    requires k < |s.calls| && !s.calls[k].phase.Returned?
    ensures Moved(s.calls[k], Fail(cfg, s, k).calls[k], c, a)
  {
  }

  lemma GiveUpMoves<S, K>(cfg: Config<S, K>, s: State<S, K>, step: Step<K>, t: State<S, K>, k: nat, c: nat, a: nat)
    requires Apply(cfg, s, step) == Some(t)
    requires step == ConnectionLost(k) || (step.Timeout? && step.k == k)
    ensures k < |s.calls| && k < |t.calls| && Moved(s.calls[k], t.calls[k], c, a)
  {
    var d := Waits(s, k).value;
    FailMoves(cfg, SetConn(s, d, if step.Timeout? then Abandoned(s.conns[d], step.tookHeader) else Killed(s.conns[d])), k, c, a);
  }

  lemma CalmMoves<S, K>(cfg: Config<S, K>, s: State<S, K>, step: Step<K>, t: State<S, K>, k: nat, c: nat, a: nat)
    requires Apply(cfg, s, step) == Some(t) && Mover(step) == Some(k)
    requires !step.Write? && !step.Receive? && !step.Timeout? && !step.ConnectionLost?
    ensures k < |s.calls| && k < |t.calls| && Moved(s.calls[k], t.calls[k], c, a)
  {
  }

  lemma OwnStepMoves<S, K>(cfg: Config<S, K>, s: State<S, K>, step: Step<K>, t: State<S, K>, k: nat, c: nat, a: nat)
    requires Control(cfg, s) && Apply(cfg, s, step) == Some(t) && Tracks(s, k, c, a) && Mover(step) == Some(k)
    ensures k < |t.calls| && Moved(s.calls[k], t.calls[k], c, a)
  {
    match step {
      case Write(_) => WriteMoves(cfg, s, t, k, c, a);
      case Receive(_) => ReceiveMoves(cfg, s, t, k, c, a);
      case Timeout(_, _) => GiveUpMoves(cfg, s, step, t, k, c, a);
      case ConnectionLost(_) => GiveUpMoves(cfg, s, step, t, k, c, a);
      case _ => CalmMoves(cfg, s, step, t, k, c, a);
    }
  }

  lemma OtherStepTracks<S, K>(cfg: Config<S, K>, s: State<S, K>, step: Step<K>, t: State<S, K>, k: nat, c: nat, a: nat)
    requires Control(cfg, s) && Apply(cfg, s, step) == Some(t) && Tracks(s, k, c, a) && Mover(step) != Some(k)
    ensures k < |t.calls|
    ensures t.calls[k].phase.Awaiting? && t.calls[k].phase.conn == c ==> c < |t.conns| && t.conns[c].abandoned == a
    ensures t.calls[k].phase.Returned? && t.calls[k].phase.conn == c ==> t.calls[k].phase.missed == a
  {
    LaterCalls(cfg, s, step);
    if s.calls[k].phase.Awaiting? {
      OthersGiveNothingUp(cfg, s, step, t, k, c);
    } else {
      OthersKeep(cfg, s, step, t, k);
    }
  }

  /** Only call k may have changed. */
  ghost predicate OnlyCall(before: seq<Call>, after: seq<Call>, k: nat) {
    |before| == |after| && forall j :: 0 <= j < |before| && j != k ==> after[j] == before[j]
  }

  lemma FailOnly<S, K>(cfg: Config<S, K>, s: State<S, K>, k: nat)
    requires k < |s.calls|
    ensures OnlyCall(s.calls, Fail(cfg, s, k).calls, k)
  {
  }

  lemma WriteOnly<S, K>(cfg: Config<S, K>, s: State<S, K>, k: nat, t: State<S, K>)
    requires Apply(cfg, s, Write(k)) == Some(t)
    ensures OnlyCall(s.calls, t.calls, k)
  {
    FailOnly(cfg, s, k);
  }

  lemma GiveUpOnly<S, K>(cfg: Config<S, K>, s: State<S, K>, step: Step<K>, k: nat, t: State<S, K>)
    requires Apply(cfg, s, step) == Some(t) && (step == ConnectionLost(k) || (step.Timeout? && step.k == k))
    ensures OnlyCall(s.calls, t.calls, k)
  {
    var c := Waits(s, k).value;
    FailOnly(cfg, SetConn(s, c, if step.Timeout? then Abandoned(s.conns[c], step.tookHeader) else Killed(s.conns[c])), k);
  }

  lemma OthersKeep<S, K>(cfg: Config<S, K>, s: State<S, K>, step: Step<K>, t: State<S, K>, k: nat)
    requires Apply(cfg, s, step) == Some(t) && k < |s.calls| && Mover(step) != Some(k)
    ensures k < |t.calls| && t.calls[k] == s.calls[k]
  {
    match step {
      case Write(j) => WriteOnly(cfg, s, j, t);
      case Receive(j) => ReceiveEffect(cfg, s, j);
      case Timeout(j, _) => GiveUpOnly(cfg, s, step, j, t);
      case ConnectionLost(j) => GiveUpOnly(cfg, s, step, j, t);
      case ConnectFails(j, _) => FailOnly(cfg, s, j);
      case _ => CalmKeep(cfg, s, step, t, k);
    }
  }

  lemma CalmKeep<S, K>(cfg: Config<S, K>, s: State<S, K>, step: Step<K>, t: State<S, K>, k: nat)
    requires Apply(cfg, s, step) == Some(t) && k < |s.calls| && Mover(step) != Some(k)
    requires !step.Write? && !step.Receive? && !step.Timeout? && !step.ConnectionLost? && !step.ConnectFails?
    ensures k < |t.calls| && t.calls[k] == s.calls[k]
  {
  }

  lemma TracksKept<S, K>(cfg: Config<S, K>, s: State<S, K>, step: Step<K>, t: State<S, K>, k: nat, c: nat, a: nat)
    requires Control(cfg, s) && Apply(cfg, s, step) == Some(t) && Tracks(s, k, c, a)
    ensures Tracks(t, k, c, a)
  {
    LaterConns(cfg, s, step);
    StillSent(s.conns[c], t.conns[c], k);
    if Mover(step) == Some(k) {
      OwnStepMoves(cfg, s, step, t, k, c, a);
    } else {
      OtherStepTracks(cfg, s, step, t, k, c, a);
    }
  }

  lemma WriteTracks<S, K>(cfg: Config<S, K>, s: State<S, K>, k: nat, t: State<S, K>)
    requires Apply(cfg, s, Write(k)) == Some(t) && k < |s.calls| && |s.calls[k].payload| <= MAX_MESSAGE_SIZE
    ensures s.current.Some? && s.current.value < |s.conns|
    ensures Tracks(t, k, s.current.value, s.conns[s.current.value].abandoned)
  {
    var c := s.current.value;
    assert t.conns[c].sent[|s.conns[c].sent|].call == k;
  }

  /** After a write in s, the state t tracks it. */
  ghost predicate TracksWrite<S, K>(s: State<S, K>, t: State<S, K>, k: nat) {
    && k < |s.calls|
    && (|s.calls[k].payload| <= MAX_MESSAGE_SIZE ==>
          && s.current.Some? && s.current.value < |s.conns|
          && Tracks(t, k, s.current.value, s.conns[s.current.value].abandoned))
  }

  lemma WriteBegins<S, K>(cfg: Config<S, K>, s: State<S, K>, k: nat, t: State<S, K>)
    requires Apply(cfg, s, Write(k)) == Some(t)
    ensures TracksWrite(s, t, k)
  {
    if |s.calls[k].payload| <= MAX_MESSAGE_SIZE { WriteTracks(cfg, s, k, t); }
  }

  lemma WriteGoesOn<S, K>(cfg: Config<S, K>, s: State<S, K>, u: State<S, K>, step: Step<K>, t: State<S, K>, k: nat)
    requires TracksWrite(s, u, k) && Control(cfg, u) && Apply(cfg, u, step) == Some(t)
    ensures TracksWrite(s, t, k)
  {
    if |s.calls[k].payload| <= MAX_MESSAGE_SIZE {
      TracksKept(cfg, u, step, t, k, s.current.value, s.conns[s.current.value].abandoned);
    }
  }

  /** A run in three parts: up to a write, the write, and on. */
  lemma {:induction false} TrackedRun<S, K>(cfg: Config<S, K>, start: S, xs: seq<Step<K>>, k: nat, ys: seq<Step<K>>)
    requires Run(cfg, Start(start), xs + [Write(k)] + ys).Some?
    ensures Run(cfg, Start(start), xs).Some?
    ensures TracksWrite(Run(cfg, Start(start), xs).value, Run(cfg, Start(start), xs + [Write(k)] + ys).value, k)
    decreases |ys|
  {
    var all := xs + [Write(k)] + ys;
    if |ys| == 0 {
      assert all[..|all| - 1] == xs;
      WriteBegins(cfg, Run(cfg, Start(start), xs).value, k, Run(cfg, Start(start), all).value);
    } else {
      var before := xs + [Write(k)] + ys[..|ys| - 1];
      assert all[..|all| - 1] == before;
      TrackedRun(cfg, start, xs, k, ys[..|ys| - 1]);
      RunKeeps(cfg, start, before);
      WriteGoesOn(cfg, Run(cfg, Start(start), xs).value, Run(cfg, Start(start), before).value, ys[|ys| - 1],
                  Run(cfg, Start(start), all).value, k);
    }
  }

  /** What can be told before a request is written: if no read has been given up on the connection, any
      reply the call returns from it is its own, whatever happens later; and a reply read from whole frames
      is its own only then. */
  lemma OwnIfNothingGivenUp<S, K>(cfg: Config<S, K>, start: S, xs: seq<Step<K>>, k: nat, ys: seq<Step<K>>)
    requires Run(cfg, Start(start), xs + [Write(k)] + ys).Some?
    ensures Run(cfg, Start(start), xs).Some?
    ensures var s, t := Run(cfg, Start(start), xs).value, Run(cfg, Start(start), xs + [Write(k)] + ys).value;
            k < |s.calls| && |s.calls[k].payload| <= MAX_MESSAGE_SIZE && k < |t.calls| && t.calls[k].phase.Returned?
            && s.current == Some(t.calls[k].phase.conn) && t.calls[k].phase.conn < |s.conns| ==>
              var given := s.conns[t.calls[k].phase.conn].abandoned;
              && (given == 0 ==> Answers(cfg, start, t, k, k))
              && (t.calls[k].phase.clean ==> Read(t, k) && (Asker(t, k) == k <==> given == 0))
  {
    TrackedRun(cfg, start, xs, k, ys);
    ReplyAttribution(cfg, start, xs + [Write(k)] + ys, k);
  }

  // ---------------------------------------------------------------- progress

  /** A step of a call that can happen whatever the network does. */
  function NextMove<S, K>(s: State<S, K>, k: nat): Step<K>
    requires k < |s.calls|
  {
    match s.calls[k].phase
    case Queued => Acquire(k)
    case Connecting => if s.connected && s.current.Some? then Reuse(k) else ConnectFails(k, false)
    case Ready => Write(k)
    case Sleeping => Wake(k)
    case _ => Timeout(k, false)
  }

  ghost predicate CanMove<S, K>(cfg: Config<S, K>, s: State<S, K>, k: nat) {
    && k < |s.calls| && Mover(NextMove(s, k)) == Some(k)
    && Apply(cfg, s, NextMove(s, k)).Some?
  }

  lemma HolderMoves<S, K>(cfg: Config<S, K>, s: State<S, K>, k: nat)
    requires Control(cfg, s) && s.holder == Some(k)
    ensures CanMove(cfg, s, k)
  {
    assert ActiveOk(s, k, s.calls[k]);
  }

  /** No session gets stuck: while some call has neither returned nor raised, the holder of the lock can take
      a step of its own that is no cancellation, or the lock is free and the call can take it. */
  lemma NeverStuck<S, K>(cfg: Config<S, K>, start: S, steps: seq<Step<K>>, k: nat)
    requires Run(cfg, Start(start), steps).Some?
    ensures var s := Run(cfg, Start(start), steps).value;
            k < |s.calls| && !s.calls[k].phase.Returned? && !s.calls[k].phase.Raised? ==>
              if s.holder.Some? then CanMove(cfg, s, s.holder.value) else CanMove(cfg, s, k)
  {
    RunKeeps(cfg, start, steps);
    var s := Run(cfg, Start(start), steps).value;
    if k < |s.calls| && s.holder.Some? { HolderMoves(cfg, s, s.holder.value); }
  }
}
