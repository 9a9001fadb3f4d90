/** What every run of the session machine keeps: which request a reply belongs to, how late it is, how
    often the server handles a request, and when replies are always a call's own. */
module Alignment {
  import opened Basics
  import opened Framing
  import opened Session
  import opened Streams
  import opened ServerLog

  // ---------------------------------------------------------------- calls and the lock

  predicate Active(p: Phase) { p.Connecting? || p.Ready? || p.Awaiting? || p.Sleeping? }

  /** 1 + 2 + ... + n tenths of a second are slept in n retries. */
  function Triangle(n: nat): nat { if n == 0 then 0 else n + Triangle(n - 1) }

  lemma {:induction false} TriangleGrows(m: nat, n: nat)
    requires m <= n
    ensures Triangle(m) <= Triangle(n)
  {
    if m < n { TriangleGrows(m, n - 1); }
  }

  lemma {:induction false} TriangleClosed(n: nat)
    ensures 2 * Triangle(n) == n * (n + 1)
  {
    if n > 0 { TriangleClosed(n - 1); }
  }

  /** At most maxRetries retries, each after its sleep. */
  ghost predicate BudgetOk<S, K>(cfg: Config<S, K>, call: Call) {
    && call.attempt <= cfg.maxRetries && call.slept <= Triangle(cfg.maxRetries)
    && (call.kind.Side? ==> call.attempt == 0)
    && match call.phase
       case Queued => call.attempt == 0 && call.slept == 0
       case Sleeping => call.kind.Verify? && call.attempt < cfg.maxRetries && call.slept == Triangle(call.attempt + 1)
       case Raised => true
       case _ => call.slept == Triangle(call.attempt)
  }

  /** The lock is held by exactly the one active call. */
  ghost predicate HolderOk<S, K>(s: State<S, K>) {
    && (s.holder.Some? ==> s.holder.value < |s.calls| && Active(s.calls[s.holder.value].phase))
    && (forall k :: 0 <= k < |s.calls| && Active(s.calls[k].phase) ==> s.holder == Some(k))
  }

  ghost predicate NeverSent(conn: Conn, k: nat) { forall i :: 0 <= i < |conn.sent| ==> conn.sent[i].call != k }

  ghost predicate ActiveOk<S, K>(s: State<S, K>, k: nat, call: Call) {
    match call.phase
    case Connecting => call.attempt == 0 || !s.connected
    case Ready => s.connected && s.current.Some? && s.current.value < |s.conns| && NeverSent(s.conns[s.current.value], k)
    case Sleeping => !s.connected
    case Awaiting(c, slot) =>
      && s.connected && s.current == Some(c) && c < |s.conns|
      && slot + 1 == |s.conns[c].sent| && s.conns[c].sent[slot] == Request(k, call.attempt, call.payload)
    case _ => true
  }

  ghost predicate Control<S, K>(cfg: Config<S, K>, s: State<S, K>) {
    && (s.current.Some? ==> s.current.value < |s.conns|)
    && HolderOk(s)
    && (forall k :: 0 <= k < |s.calls| ==> BudgetOk(cfg, s.calls[k]))
    && (s.holder.Some? ==> ActiveOk(s, s.holder.value, s.calls[s.holder.value]))
  }

  /** A request on the wire was written by an attempt of its call. */
  ghost predicate SentOk(calls: seq<Call>, r: Request) {
    && r.call < |calls| && r.payload == calls[r.call].payload && r.attempt <= calls[r.call].attempt
    && (Unwritten(calls[r.call].phase) ==> r.attempt < calls[r.call].attempt)
  }

  ghost predicate ConnSent(calls: seq<Call>, conn: Conn) {
    forall i :: 0 <= i < |conn.sent| ==> SentOk(calls, conn.sent[i])
  }

  ghost predicate AllSent<S, K>(s: State<S, K>) { forall c :: 0 <= c < |s.conns| ==> ConnSent(s.calls, s.conns[c]) }

  /** Call k moves on; the lock is free or its own. */
  lemma CallMoves<S, K>(cfg: Config<S, K>, s: State<S, K>, t: State<S, K>, k: nat, call: Call)
    requires Control(cfg, s) && k < |s.calls| && t.calls == s.calls[k := call]
    requires s.holder == None || s.holder == Some(k)
    requires BudgetOk(cfg, call) && t.holder == (if Active(call.phase) then Some(k) else None)
    requires t.current.Some? ==> t.current.value < |t.conns|
    requires ActiveOk(t, k, call)
    ensures Control(cfg, t)
  {
    forall j | 0 <= j < |t.calls| ensures BudgetOk(cfg, t.calls[j]) {
      assert j != k ==> t.calls[j] == s.calls[j];
    }
  }

  ghost predicate SameControl<S, K>(s: State<S, K>, t: State<S, K>) {
    t.calls == s.calls && t.holder == s.holder && t.current == s.current && t.connected == s.connected
  }

  /** Only the network or the server moves. */
  lemma OthersMove<S, K>(cfg: Config<S, K>, s: State<S, K>, t: State<S, K>)
    requires Control(cfg, s) && SameControl(s, t) && AllRelated(s.conns, t.conns, SameSent)
    ensures Control(cfg, t)
  {
    if s.current.Some? { assert SameSent(s.conns[s.current.value], t.conns[s.current.value]); }
  }

  /** The state a failed attempt leaves, given the connections it leaves. */
  lemma FailControl<S, K>(cfg: Config<S, K>, s: State<S, K>, t: State<S, K>, k: nat)
    requires Control(cfg, s) && k < |s.calls| && s.holder == Some(k) && Active(s.calls[k].phase) && !s.calls[k].phase.Sleeping?
    requires SameControl(s, t) && |s.conns| <= |t.conns|
    ensures Control(cfg, Fail(cfg, t, k))
  {
    var call, u := s.calls[k], Fail(cfg, t, k);
    if call.kind.Verify? && call.attempt < cfg.maxRetries {
      TriangleGrows(call.attempt + 1, cfg.maxRetries);
    }
    CallMoves(cfg, s, u, k, u.calls[k]);
  }

  lemma FinishControl<S, K>(cfg: Config<S, K>, s: State<S, K>, t: State<S, K>, k: nat, p: Phase)
    requires Control(cfg, s) && k < |s.calls| && s.holder == Some(k) && Active(s.calls[k].phase)
    requires SameControl(s, t) && |s.conns| <= |t.conns|
    requires p.Raised? || (p.Returned? && !s.calls[k].phase.Sleeping?)
    ensures Control(cfg, Finish(t, k, p))
  {
    var u := Finish(t, k, p);
    CallMoves(cfg, s, u, k, u.calls[k]);
  }

  lemma WriteControl<S, K>(cfg: Config<S, K>, s: State<S, K>, k: nat)
    requires Control(cfg, s) && Apply(cfg, s, Write(k)).Some?
    ensures Control(cfg, Apply(cfg, s, Write(k)).value)
  {
    var c, t := s.current.value, Apply(cfg, s, Write(k)).value;
    if |s.calls[k].payload| > MAX_MESSAGE_SIZE {
      FailControl(cfg, s, s, k);
    } else {
      CallMoves(cfg, s, t, k, t.calls[k]);
    }
  }

  lemma ReceiveControl<S, K>(cfg: Config<S, K>, s: State<S, K>, k: nat)
    requires Control(cfg, s) && Apply(cfg, s, Receive(k)).Some?
    ensures Control(cfg, Apply(cfg, s, Receive(k)).value)
  {
    var c := Waits(s, k).value;
    match DecodeFrame(s.conns[c].downBuffer) {
      case TooLarge => FailControl(cfg, s, SetConn(s, c, HeaderGone(s.conns[c])), k);
      case Frame(p, rest) =>
        FinishControl(cfg, s, SetConn(s, c, ReadOne(s.conns[c], rest)), k, Outcome(cfg, s, k, c, p));
    }
  }

  lemma GiveUpControl<S, K>(cfg: Config<S, K>, s: State<S, K>, step: Step<K>, k: nat)
    requires Control(cfg, s) && Apply(cfg, s, step).Some?
    requires step == ConnectionLost(k) || step == EndOfStream(k) || (step.Timeout? && step.k == k)
    ensures Control(cfg, Apply(cfg, s, step).value)
  {
    var c := Waits(s, k).value;
    match step {
      case Timeout(_, tookHeader) => FailControl(cfg, s, SetConn(s, c, Abandoned(s.conns[c], tookHeader)), k);
      case ConnectionLost(_) => FailControl(cfg, s, SetConn(s, c, Killed(s.conns[c])), k);
      case EndOfStream(_) => FinishControl(cfg, s, SetConn(s, c, Killed(s.conns[c])), k, Raised);
    }
  }

  lemma CancelControl<S, K>(cfg: Config<S, K>, s: State<S, K>, k: nat, tookHeader: bool)
    requires Control(cfg, s) && Apply(cfg, s, Cancel(k, tookHeader)).Some?
    ensures Control(cfg, Apply(cfg, s, Cancel(k, tookHeader)).value)
  {
    if Waits(s, k).Some? {
      var c := Waits(s, k).value;
      FinishControl(cfg, s, SetConn(s, c, Abandoned(s.conns[c], tookHeader)), k, Raised);
    } else if s.calls[k].phase.Queued? {
    } else {
      FinishControl(cfg, s, s, k, Raised);
    }
  }

  /** Nothing was sent by call k on the connection it goes on with. */
  lemma ConnectControl<S, K>(cfg: Config<S, K>, s: State<S, K>, step: Step<K>, k: nat)
    requires Control(cfg, s) && AllSent(s) && Apply(cfg, s, step).Some?
    requires step == Acquire(k) || step == Reuse(k) || step == Wake(k) || (step.Connect? && step.k == k)
    ensures Control(cfg, Apply(cfg, s, step).value)
  {
    var t := Apply(cfg, s, step).value;
    if step.Reuse? {
      var conn := s.conns[s.current.value];
      assert ConnSent(s.calls, conn);
      forall i | 0 <= i < |conn.sent| ensures conn.sent[i].call != k { assert SentOk(s.calls, conn.sent[i]); }
    }
    CallMoves(cfg, s, t, k, t.calls[k]);
  }

  lemma QuietControl<S, K>(cfg: Config<S, K>, s: State<S, K>, step: Step<K>)
    requires Control(cfg, s) && Apply(cfg, s, step).Some?
    requires step.DeliverUp? || step.DeliverDown? || step.Lose? || step.HandleOther? || step.ServerCloses?
    ensures Control(cfg, Apply(cfg, s, step).value)
  {
    SentUnlessWrite(cfg, s, step);
    OthersMove(cfg, s, Apply(cfg, s, step).value);
  }

  lemma HandleControl<S, K>(cfg: Config<S, K>, s: State<S, K>, c: nat, tick: K)
    requires Control(cfg, s) && Apply(cfg, s, Handle(c, tick)).Some?
    ensures Control(cfg, Apply(cfg, s, Handle(c, tick)).value)
  {
    SentUnlessWrite(cfg, s, Handle(c, tick));
    OthersMove(cfg, s, Apply(cfg, s, Handle(c, tick)).value);
  }

  lemma ControlKept<S, K>(cfg: Config<S, K>, s: State<S, K>, step: Step<K>)
    requires Control(cfg, s) && AllSent(s) && Apply(cfg, s, step).Some?
    ensures Control(cfg, Apply(cfg, s, step).value)
  {
    match step {
      case Acquire(k) => ConnectControl(cfg, s, step, k);
      case Reuse(k) => ConnectControl(cfg, s, step, k);
      case Connect(k, _) => ConnectControl(cfg, s, step, k);
      case Wake(k) => ConnectControl(cfg, s, step, k);
      case ConnectFails(k, _) => FailControl(cfg, s, s, k);
      case Write(k) => WriteControl(cfg, s, k);
      case Receive(k) => ReceiveControl(cfg, s, k);
      case Timeout(k, _) => GiveUpControl(cfg, s, step, k);
      case ConnectionLost(k) => GiveUpControl(cfg, s, step, k);
      case EndOfStream(k) => GiveUpControl(cfg, s, step, k);
      case Cancel(k, tookHeader) => CancelControl(cfg, s, k, tookHeader);
      case Handle(c, tick) => HandleControl(cfg, s, c, tick);
      case NewCall(_, _) =>
      case UserConnect =>
      case UserClose =>
      case _ => QuietControl(cfg, s, step);
    }
  }

  // ---------------------------------------------------------------- requests on the wire

  lemma AllSentFrom<S, K>(s: State<S, K>, t: State<S, K>)
    requires AllSent(s) && CallsFrom(s.calls, t.calls) && AllRelated(s.conns, t.conns, SameSent)
    ensures AllSent(t)
  {
    forall c | 0 <= c < |t.conns| ensures ConnSent(t.calls, t.conns[c]) {
      if c < |s.conns| {
        assert SameSent(s.conns[c], t.conns[c]) && ConnSent(s.calls, s.conns[c]);
        forall i | 0 <= i < |t.conns[c].sent| ensures SentOk(t.calls, t.conns[c].sent[i]) {
          var r := s.conns[c].sent[i];
          assert SentOk(s.calls, r) && SameCall(s.calls[r.call], t.calls[r.call]);
        }
      }
    }
  }

  /** No two requests come from the same attempt of the same call. */
  ghost predicate Tags(conns: seq<Conn>) {
    forall c, i, d, j :: 0 <= c < |conns| && 0 <= i < |conns[c].sent| && 0 <= d < |conns| && 0 <= j < |conns[d].sent|
      && conns[c].sent[i].call == conns[d].sent[j].call && conns[c].sent[i].attempt == conns[d].sent[j].attempt
      ==> c == d && i == j
  }

  /** No connection carries two requests of one call. */
  ghost predicate OnePerCall(conn: Conn) {
    forall i, j :: 0 <= i < j < |conn.sent| ==> conn.sent[i].call != conn.sent[j].call
  }

  ghost predicate Distinct(conns: seq<Conn>) { Tags(conns) && forall c :: 0 <= c < |conns| ==> OnePerCall(conns[c]) }

  lemma DistinctFrom(before: seq<Conn>, after: seq<Conn>)
    requires Distinct(before) && AllRelated(before, after, SameSent)
    ensures Distinct(after)
  {
    forall c | 0 <= c < |after| ensures OnePerCall(after[c]) && (c >= |before| ==> after[c].sent == []) {
      if c < |before| { assert SameSent(before[c], after[c]) && OnePerCall(before[c]); }
    }
    forall c, i, d, j | 0 <= c < |after| && 0 <= i < |after[c].sent| && 0 <= d < |after| && 0 <= j < |after[d].sent|
      && after[c].sent[i].call == after[d].sent[j].call && after[c].sent[i].attempt == after[d].sent[j].attempt
      ensures c == d && i == j
    {
      assert SameSent(before[c], after[c]) && SameSent(before[d], after[d]);
    }
  }

  lemma DistinctWritten(calls: seq<Call>, before: seq<Conn>, c: nat, r: Request)
    requires Distinct(before) && c < |before| && NeverSent(before[c], r.call) && |r.payload| <= MAX_MESSAGE_SIZE
    requires forall d :: 0 <= d < |before| ==> ConnSent(calls, before[d])
    requires r.call < |calls| && Unwritten(calls[r.call].phase) && r.attempt == calls[r.call].attempt
    ensures Distinct(before[c := Written(before[c], r)])
  {
    var after := before[c := Written(before[c], r)];
    forall d | 0 <= d < |after| ensures OnePerCall(after[d]) { assert OnePerCall(before[d]); }
    forall d, i | 0 <= d < |before| && 0 <= i < |before[d].sent|
      ensures !(before[d].sent[i].call == r.call && before[d].sent[i].attempt == r.attempt)
    {
      assert ConnSent(calls, before[d]);
      assert SentOk(calls, before[d].sent[i]);
    }
  }

  ghost predicate Wire<S, K>(s: State<S, K>) { AllSent(s) && Distinct(s.conns) }

  lemma WriteWire<S, K>(cfg: Config<S, K>, s: State<S, K>, k: nat)
    requires Control(cfg, s) && Wire(s) && Apply(cfg, s, Write(k)).Some?
    ensures Wire(Apply(cfg, s, Write(k)).value)
  {
    var c, call, t := s.current.value, s.calls[k], Apply(cfg, s, Write(k)).value;
    WriteCalls(cfg, s, k);
    if |call.payload| > MAX_MESSAGE_SIZE {
      assert t.conns == s.conns;
      AllSentFrom(s, t);
    } else {
      DistinctWritten(s.calls, s.conns, c, Request(k, call.attempt, call.payload));
      var u := s.(calls := t.calls);
      AllSentFrom(s, u);
      assert SentOk(t.calls, Request(k, call.attempt, call.payload));
      assert ConnSent(u.calls, u.conns[c]);
    }
  }

  lemma WireKept<S, K>(cfg: Config<S, K>, s: State<S, K>, step: Step<K>)
    requires Control(cfg, s) && Wire(s) && Apply(cfg, s, step).Some?
    ensures Wire(Apply(cfg, s, step).value)
  {
    if step.Write? {
      WriteWire(cfg, s, step.k);
    } else {
      QuietWire(cfg, s, step, Apply(cfg, s, step).value);
    }
  }

  lemma QuietWire<S, K>(cfg: Config<S, K>, s: State<S, K>, step: Step<K>, t: State<S, K>)
    requires Wire(s) && Apply(cfg, s, step) == Some(t) && !step.Write?
    ensures Wire(t)
  {
    SentUnlessWrite(cfg, s, step);
    LaterCalls(cfg, s, step);
    AllSentFrom(s, t);
    DistinctFrom(s.conns, t.conns);
  }

  // ---------------------------------------------------------------- requests, reads, reads given up

  predicate Busy<S, K>(s: State<S, K>, c: nat) {
    && s.holder.Some? && s.holder.value < |s.calls|
    && s.calls[s.holder.value].phase.Awaiting? && s.calls[s.holder.value].phase.conn == c
  }

  /** Every request but the one being waited for was read or given up: at most one is outstanding. */
  ghost predicate Counted<S, K>(s: State<S, K>) {
    forall c :: 0 <= c < |s.conns| ==>
      |s.conns[c].sent| == s.conns[c].read + s.conns[c].abandoned + (if Busy(s, c) then 1 else 0)
  }

  ghost predicate SameCounts(a: Conn, b: Conn) { a.sent == b.sent && a.read == b.read && a.abandoned == b.abandoned }

  lemma CountsUnlessRead<S, K>(cfg: Config<S, K>, s: State<S, K>, step: Step<K>)
    requires Apply(cfg, s, step).Some? && !IsRead(step) && !step.Write?
    ensures AllRelated(s.conns, Apply(cfg, s, step).value.conns, SameCounts)
  {
    StepRelates(cfg, s, step, SameCounts);
  }

  lemma BusyUnlessRead<S, K>(cfg: Config<S, K>, s: State<S, K>, step: Step<K>, c: nat)
    requires Control(cfg, s) && Apply(cfg, s, step).Some? && !IsRead(step) && !step.Write?
    ensures Busy(Apply(cfg, s, step).value, c) == Busy(s, c)
  {
  }

  lemma CountedFrom<S, K>(s: State<S, K>, t: State<S, K>)
    requires Counted(s) && AllRelated(s.conns, t.conns, SameCounts)
    requires forall c :: 0 <= c < |t.conns| ==> Busy(t, c) == (c < |s.conns| && Busy(s, c))
    ensures Counted(t)
  {
    forall c | 0 <= c < |t.conns|
      ensures |t.conns[c].sent| == t.conns[c].read + t.conns[c].abandoned + (if Busy(t, c) then 1 else 0)
    {
      if c < |s.conns| { assert SameCounts(s.conns[c], t.conns[c]); }
    }
  }

  lemma QuietCounted<S, K>(cfg: Config<S, K>, s: State<S, K>, step: Step<K>, t: State<S, K>)
    requires Control(cfg, s) && Counted(s) && Apply(cfg, s, step) == Some(t) && !IsRead(step) && !step.Write?
    ensures Counted(t)
  {
    CountsUnlessRead(cfg, s, step);
    forall c | 0 <= c < |t.conns| ensures Busy(t, c) == (c < |s.conns| && Busy(s, c)) {
      BusyUnlessRead(cfg, s, step, c);
      assert Busy(s, c) ==> ActiveOk(s, s.holder.value, s.calls[s.holder.value]);
    }
    CountedFrom(s, t);
  }

  /** The wait on connection c is over. */
  lemma WaitOver<S, K>(s: State<S, K>, t: State<S, K>, c: nat, conn: Conn)
    requires Counted(s) && c < |s.conns| && Busy(s, c) && t.conns == s.conns[c := conn]
    requires conn.sent == s.conns[c].sent && conn.read + conn.abandoned == s.conns[c].read + s.conns[c].abandoned + 1
    requires t.holder.Some? && t.holder.value < |t.calls| ==> !t.calls[t.holder.value].phase.Awaiting?
    ensures Counted(t)
  {
    forall d | 0 <= d < |t.conns|
      ensures |t.conns[d].sent| == t.conns[d].read + t.conns[d].abandoned + (if Busy(t, d) then 1 else 0)
    {
      assert d != c ==> t.conns[d] == s.conns[d] && !Busy(s, d);
    }
  }

  lemma FailCounted<S, K>(cfg: Config<S, K>, s: State<S, K>, k: nat, c: nat, conn: Conn)
    requires Counted(s) && Waits(s, k) == Some(c)
    requires conn.sent == s.conns[c].sent && conn.read == s.conns[c].read && conn.abandoned == s.conns[c].abandoned + 1
    ensures Counted(Fail(cfg, SetConn(s, c, conn), k))
  {
    WaitOver(s, Fail(cfg, SetConn(s, c, conn), k), c, conn);
  }

  lemma FinishCounted<S, K>(s: State<S, K>, k: nat, c: nat, conn: Conn, p: Phase)
    requires Counted(s) && Waits(s, k) == Some(c)
    requires conn.sent == s.conns[c].sent && conn.read + conn.abandoned == s.conns[c].read + s.conns[c].abandoned + 1
    ensures Counted(Finish(SetConn(s, c, conn), k, p))
  {
    WaitOver(s, Finish(SetConn(s, c, conn), k, p), c, conn);
  }

  lemma ReceiveCounted<S, K>(cfg: Config<S, K>, s: State<S, K>, k: nat)
    requires Counted(s) && Apply(cfg, s, Receive(k)).Some?
    ensures Counted(Apply(cfg, s, Receive(k)).value)
  {
    var c := Waits(s, k).value;
    match DecodeFrame(s.conns[c].downBuffer) {
      case TooLarge => FailCounted(cfg, s, k, c, HeaderGone(s.conns[c]));
      case Frame(p, rest) => FinishCounted(s, k, c, ReadOne(s.conns[c], rest), Outcome(cfg, s, k, c, p));
    }
  }

  lemma GiveUpCounted<S, K>(cfg: Config<S, K>, s: State<S, K>, step: Step<K>, k: nat)
    requires Counted(s) && Apply(cfg, s, step).Some?
    requires step == ConnectionLost(k) || step == EndOfStream(k) || (step.Timeout? && step.k == k)
    ensures Counted(Apply(cfg, s, step).value)
  {
    var c := Waits(s, k).value;
    match step {
      case Timeout(_, tookHeader) => FailCounted(cfg, s, k, c, Abandoned(s.conns[c], tookHeader));
      case ConnectionLost(_) => FailCounted(cfg, s, k, c, Killed(s.conns[c]));
      case EndOfStream(_) => FinishCounted(s, k, c, Killed(s.conns[c]), Raised);
    }
  }

  lemma CancelCounted<S, K>(cfg: Config<S, K>, s: State<S, K>, k: nat, tookHeader: bool)
    requires Control(cfg, s) && Counted(s) && Apply(cfg, s, Cancel(k, tookHeader)).Some?
    ensures Counted(Apply(cfg, s, Cancel(k, tookHeader)).value)
  {
    var t := Apply(cfg, s, Cancel(k, tookHeader)).value;
    if Waits(s, k).Some? {
      var c := Waits(s, k).value;
      WaitOver(s, t, c, t.conns[c]);
    } else {
      assert t.conns == s.conns;
      forall c | 0 <= c < |t.conns| ensures Busy(t, c) == Busy(s, c) {
        assert Busy(s, c) ==> ActiveOk(s, s.holder.value, s.calls[s.holder.value]);
      }
    }
  }

  lemma WriteCounted<S, K>(cfg: Config<S, K>, s: State<S, K>, k: nat)
    requires Control(cfg, s) && Counted(s) && Apply(cfg, s, Write(k)).Some?
    ensures Counted(Apply(cfg, s, Write(k)).value)
  {
    var c, t := s.current.value, Apply(cfg, s, Write(k)).value;
    forall d | 0 <= d < |t.conns|
      ensures |t.conns[d].sent| == t.conns[d].read + t.conns[d].abandoned + (if Busy(t, d) then 1 else 0)
    {
      assert !Busy(s, d);
      assert d != c ==> t.conns[d] == s.conns[d];
    }
  }

  lemma CountedKept<S, K>(cfg: Config<S, K>, s: State<S, K>, step: Step<K>)
    requires Control(cfg, s) && Counted(s) && Apply(cfg, s, step).Some?
    ensures Counted(Apply(cfg, s, step).value)
  {
    match step {
      case Write(k) => WriteCounted(cfg, s, k);
      case Receive(k) => ReceiveCounted(cfg, s, k);
      case Timeout(k, _) => GiveUpCounted(cfg, s, step, k);
      case ConnectionLost(k) => GiveUpCounted(cfg, s, step, k);
      case EndOfStream(k) => GiveUpCounted(cfg, s, step, k);
      case Cancel(k, tookHeader) => CancelCounted(cfg, s, k, tookHeader);
      case _ => QuietCounted(cfg, s, step, Apply(cfg, s, step).value);
    }
  }

  // ---------------------------------------------------------------- results

  /** The reply stands where the client had got to in the stream of the first n replies, all of them written
      before the call returned and none to a request after its own. */
  ghost predicate FoundAmong(conn: Conn, n: nat, p: Phase)
    requires p.Returned?
  {
    && n <= |conn.evals| && n <= p.slot + 1
    && (forall i :: 0 <= i < n ==> conn.evals[i].at < p.done)
    && Fit(Replies(conn.evals[..n])) && ReadAt(Frames(Replies(conn.evals[..n])), p.from, p.reply)
  }

  /** A call that returned read its reply in the stream of replies. Unless a header had been taken alone,
      which takes a read given up, that is the next unread reply: the one to the request as many places before
      the call's own as reads had been given up. */
  ghost predicate PhaseOk(conns: seq<Conn>, logged: nat, k: nat, p: Phase) {
    p.Returned? ==>
      && p.conn < |conns| && p.slot < |conns[p.conn].sent| && conns[p.conn].sent[p.slot].call == k
      && p.slot == p.index + p.missed && p.done <= logged
      && (exists n :: FoundAmong(conns[p.conn], n, p))
      && (p.missed == 0 ==> p.clean)
      && (p.clean ==> p.index < |conns[p.conn].evals| && conns[p.conn].evals[p.index].reply == p.reply
                      && conns[p.conn].evals[p.index].at < p.done)
  }

  ghost predicate ReturnedOk(conns: seq<Conn>, logged: nat, k: nat, call: Call) { PhaseOk(conns, logged, k, call.phase) }

  ghost predicate AllReturned<S, K>(s: State<S, K>) {
    forall k :: 0 <= k < |s.calls| ==> ReturnedOk(s.conns, |s.log|, k, s.calls[k])
  }

  lemma FoundStays(a: Conn, b: Conn, n: nat, p: Phase)
    requires p.Returned? && Later(a, b) && FoundAmong(a, n, p)
    ensures FoundAmong(b, n, p)
  {
    assert b.evals[..n] == a.evals[..n];
  }

  lemma ReturnedStays(before: seq<Conn>, after: seq<Conn>, m: nat, n: nat, k: nat, a: Call, b: Call)
    requires AllRelated(before, after, Later) && m <= n && ReturnedOk(before, m, k, a) && a.phase == b.phase
    ensures ReturnedOk(after, n, k, b)
  {
    if a.phase.Returned? {
      var p := a.phase;
      assert Later(before[p.conn], after[p.conn]);
      var i :| FoundAmong(before[p.conn], i, p);
      FoundStays(before[p.conn], after[p.conn], i, p);
    }
  }

  lemma QuietReturned<S, K>(s: State<S, K>, t: State<S, K>)
    requires AllReturned(s) && AllRelated(s.conns, t.conns, Later) && NoneReturned(s.calls, t.calls) && |s.log| <= |t.log|
    ensures AllReturned(t)
  {
    forall k | 0 <= k < |t.calls| ensures ReturnedOk(t.conns, |t.log|, k, t.calls[k]) {
      if t.calls[k].phase.Returned? {
        ReturnedStays(s.conns, t.conns, |s.log|, |t.log|, k, s.calls[k], t.calls[k]);
      }
    }
  }

  lemma ReceiveEffect<S, K>(cfg: Config<S, K>, s: State<S, K>, k: nat)
    requires Apply(cfg, s, Receive(k)).Some?
    ensures var t := Apply(cfg, s, Receive(k)).value;
            k < |s.calls| == |t.calls| && t.log == s.log && forall j :: 0 <= j < |t.calls| && j != k ==> t.calls[j] == s.calls[j]
  {
  }

  lemma OneReturned<S, K>(s: State<S, K>, t: State<S, K>, k: nat)
    requires AllReturned(s) && AllRelated(s.conns, t.conns, Later) && |s.log| <= |t.log|
    requires |s.calls| == |t.calls| && forall j :: 0 <= j < |t.calls| && j != k ==> t.calls[j] == s.calls[j]
    requires k < |t.calls| && ReturnedOk(t.conns, |t.log|, k, t.calls[k])
    ensures AllReturned(t)
  {
    forall j | 0 <= j < |t.calls| && j != k ensures ReturnedOk(t.conns, |t.log|, j, t.calls[j]) {
      ReturnedStays(s.conns, t.conns, |s.log|, |t.log|, j, s.calls[j], t.calls[j]);
    }
  }

  /** What a read finds on a connection, as the phase of the call that waited for it. */
  lemma FoundPhase<S, K>(cfg: Config<S, K>, start: S, log: seq<Handling<K>>, conns: seq<Conn>, c: nat, k: nat, slot: nat)
    requires c < |conns| && UpOk(conns[c]) && DownOk(conns[c]) && ConnEvals(cfg, start, log, c, conns[c])
    requires slot + 1 == |conns[c].sent| == conns[c].read + conns[c].abandoned + 1 && conns[c].sent[slot].call == k
    requires DecodeFrame(conns[c].downBuffer).Frame?
    ensures var conn := conns[c];
            var found := DecodeFrame(conn.downBuffer);
            PhaseOk(conns[c := ReadOne(conn, found.rest)], |log|, k,
                    Returned(c, slot, conn.read, conn.abandoned, conn.consumed, found.payload, !conn.garbled, |log|))
  {
    var conn := conns[c];
    var found := DecodeFrame(conn.downBuffer);
    var p := Returned(c, slot, conn.read, conn.abandoned, conn.consumed, found.payload, !conn.garbled, |log|);
    FoundAt(conn);
    assert conn.evals[..|conn.evals|] == conn.evals;
    forall i | 0 <= i < |conn.evals| ensures conn.evals[i].at < |log| { assert EvalOk(cfg, start, log, c, conn, i); }
    assert FoundAmong(ReadOne(conn, found.rest), |conn.evals|, p);
    if !conn.garbled { NextReply(conn); }
  }

  lemma ReceivePhase<S, K>(cfg: Config<S, K>, s: State<S, K>, k: nat, c: nat, t: State<S, K>)
    requires Waits(s, k) == Some(c) && Apply(cfg, s, Receive(k)) == Some(t) && t.calls[k].phase.Returned?
    ensures var conn := s.conns[c];
            var found := DecodeFrame(conn.downBuffer);
            && found.Frame? && t.conns == s.conns[c := ReadOne(conn, found.rest)] && t.log == s.log
            && t.calls[k].phase == Returned(c, s.calls[k].phase.slot, conn.read, conn.abandoned, conn.consumed,
                                            found.payload, !conn.garbled, |s.log|)
  {
  }

  lemma NewReturned<S, K>(cfg: Config<S, K>, start: S, s: State<S, K>, k: nat, c: nat, t: State<S, K>)
    requires Counted(s) && InOrder(s.conns) && Evals(cfg, start, s.log, s.conns)
    requires Waits(s, k) == Some(c) && ActiveOk(s, k, s.calls[k]) && Apply(cfg, s, Receive(k)) == Some(t)
    ensures k < |t.calls| && ReturnedOk(t.conns, |t.log|, k, t.calls[k])
  {
    assert Busy(s, c);
    ReceiveEffect(cfg, s, k);
    if t.calls[k].phase.Returned? {
      ReceivePhase(cfg, s, k, c, t);
      FoundPhase(cfg, start, s.log, s.conns, c, k, s.calls[k].phase.slot);
    }
  }

  lemma ReceiveReturned<S, K>(cfg: Config<S, K>, start: S, s: State<S, K>, k: nat, t: State<S, K>)
    requires Counted(s) && InOrder(s.conns) && Evals(cfg, start, s.log, s.conns) && AllReturned(s)
    requires s.holder.Some? ==> s.holder.value < |s.calls| && ActiveOk(s, s.holder.value, s.calls[s.holder.value])
    requires Apply(cfg, s, Receive(k)) == Some(t)
    ensures AllReturned(t)
  {
    LaterConns(cfg, s, Receive(k));
    ReceiveEffect(cfg, s, k);
    NewReturned(cfg, start, s, k, Waits(s, k).value, t);
    OneReturned(s, t, k);
  }

  lemma OtherReturned<S, K>(cfg: Config<S, K>, s: State<S, K>, step: Step<K>, t: State<S, K>)
    requires AllReturned(s) && Apply(cfg, s, step) == Some(t) && !step.Receive?
    ensures AllReturned(t)
  {
    LaterConns(cfg, s, step);
    LaterCalls(cfg, s, step);
    if !step.Handle? && !step.HandleOther? { OtherCalls(cfg, s, step); }
    QuietReturned(s, t);
  }

  lemma ReturnedKept<S, K>(cfg: Config<S, K>, start: S, s: State<S, K>, step: Step<K>, t: State<S, K>)
    requires Control(cfg, s) && Counted(s) && InOrder(s.conns) && LogOk(cfg, start, s) && AllReturned(s)
    requires Apply(cfg, s, step) == Some(t)
    ensures AllReturned(t)
  {
    if step.Receive? {
      ReceiveReturned(cfg, start, s, step.k, t);
    } else {
      OtherReturned(cfg, s, step, t);
    }
  }

  // ---------------------------------------------------------------- order in time

  /** A call's requests are handled after the call was made. */
  ghost predicate SinceConn(calls: seq<Call>, conn: Conn) {
    forall i :: 0 <= i < |conn.evals| && i < |conn.sent| && conn.sent[i].call < |calls| ==>
      calls[conn.sent[i].call].since <= conn.evals[i].at
  }

  ghost predicate Since<S, K>(s: State<S, K>) {
    && (forall k :: 0 <= k < |s.calls| ==> s.calls[k].since <= |s.log|)
    && (forall c :: 0 <= c < |s.conns| ==> SinceConn(s.calls, s.conns[c]))
  }

  /** New replies carry the end of the log as their place. */
  ghost predicate NewEvalsAt(a: Conn, b: Conn, logged: nat) {
    forall i :: |a.evals| <= i < |b.evals| ==> b.evals[i].at == logged
  }

  lemma EvalsNow<S, K>(cfg: Config<S, K>, s: State<S, K>, step: Step<K>)
    requires Apply(cfg, s, step).Some?
    ensures var t := Apply(cfg, s, step).value;
            && |s.conns| <= |t.conns|
            && (forall c :: 0 <= c < |s.conns| ==> NewEvalsAt(s.conns[c], t.conns[c], |s.log|))
            && (forall c :: |s.conns| <= c < |t.conns| ==> t.conns[c] == OPENED)
  {
    var t := Apply(cfg, s, step).value;
    if step.Handle? {
      LaterConns(cfg, s, step);
    } else {
      EvalsUnlessHandle(cfg, s, step);
      forall c | 0 <= c < |s.conns| ensures NewEvalsAt(s.conns[c], t.conns[c], |s.log|) {
        assert SameEvals(s.conns[c], t.conns[c]);
      }
    }
  }

  lemma SinceFrom<S, K>(s: State<S, K>, t: State<S, K>)
    requires Since(s) && AllSent(s) && CallsFrom(s.calls, t.calls) && |s.log| <= |t.log|
    requires AllRelated(s.conns, t.conns, Later)
    requires NewCallsNow(t.calls, |s.calls|, |s.log|)
    requires forall c :: 0 <= c < |s.conns| ==> NewEvalsAt(s.conns[c], t.conns[c], |s.log|)
    requires forall c :: 0 <= c < |s.conns| ==> |s.conns[c].evals| <= |s.conns[c].sent| && |t.conns[c].evals| <= |s.conns[c].sent|
    ensures Since(t)
  {
    forall k | 0 <= k < |t.calls| ensures t.calls[k].since <= |t.log| {
      if k < |s.calls| { assert SameCall(s.calls[k], t.calls[k]); }
    }
    forall c | 0 <= c < |t.conns| ensures SinceConn(t.calls, t.conns[c]) {
      if c < |s.conns| { SinceOne(s, t, c); }
    }
  }

  lemma SinceOne<S, K>(s: State<S, K>, t: State<S, K>, c: nat)
    requires Since(s) && AllSent(s) && CallsFrom(s.calls, t.calls)
    requires c < |s.conns| && c < |t.conns| && Later(s.conns[c], t.conns[c])
    requires NewEvalsAt(s.conns[c], t.conns[c], |s.log|)
    requires |s.conns[c].evals| <= |s.conns[c].sent| && |t.conns[c].evals| <= |s.conns[c].sent|
    ensures SinceConn(t.calls, t.conns[c])
  {
    var a, b := s.conns[c], t.conns[c];
    assert SinceConn(s.calls, a) && ConnSent(s.calls, a);
    forall i | 0 <= i < |b.evals| ensures b.sent[i].call < |t.calls| && t.calls[b.sent[i].call].since <= b.evals[i].at {
      assert b.sent[i] == a.sent[i] && SentOk(s.calls, a.sent[i]);
      assert SameCall(s.calls[a.sent[i].call], t.calls[a.sent[i].call]);
    }
  }

  lemma SinceKept<S, K>(cfg: Config<S, K>, s: State<S, K>, step: Step<K>, t: State<S, K>)
    requires Since(s) && Wire(s) && InOrder(s.conns) && Control(cfg, s) && Apply(cfg, s, step) == Some(t)
    ensures Since(t)
  {
    LaterConns(cfg, s, step);
    LaterCalls(cfg, s, step);
    EvalsNow(cfg, s, step);
    StreamsKept(cfg, s, step);
    if step.Write? { EvalsUnlessHandle(cfg, s, step); } else { SentUnlessWrite(cfg, s, step); }
    forall c | 0 <= c < |s.conns| ensures |t.conns[c].evals| <= |s.conns[c].sent| {
      assert UpOk(s.conns[c]) && UpOk(t.conns[c]) && Later(s.conns[c], t.conns[c]);
      if step.Write? { assert SameEvals(s.conns[c], t.conns[c]); } else { assert SameSent(s.conns[c], t.conns[c]); }
    }
    SinceFrom(s, t);
  }

  // ---------------------------------------------------------------- all runs

  ghost predicate Invariant<S, K>(cfg: Config<S, K>, start: S, s: State<S, K>) {
    && InOrder(s.conns) && LogOk(cfg, start, s)
    && Control(cfg, s) && Wire(s) && Counted(s) && AllReturned(s) && Since(s)
  }

  lemma InvariantKept<S, K>(cfg: Config<S, K>, start: S, s: State<S, K>, step: Step<K>, t: State<S, K>)
    requires Invariant(cfg, start, s) && Apply(cfg, s, step) == Some(t)
    ensures Invariant(cfg, start, t)
  {
    StreamsKept(cfg, s, step);
    LogKept(cfg, start, s, step);
    ControlKept(cfg, s, step);
    WireKept(cfg, s, step);
    CountedKept(cfg, s, step);
    ReturnedKept(cfg, start, s, step, t);
    SinceKept(cfg, s, step, t);
  }

  lemma {:induction false} RunKeeps<S, K>(cfg: Config<S, K>, start: S, steps: seq<Step<K>>)
    requires Run(cfg, Start(start), steps).Some?
    ensures Invariant(cfg, start, Run(cfg, Start(start), steps).value)
    decreases |steps|
  {
    if |steps| > 0 {
      var before := steps[..|steps| - 1];
      RunKeeps(cfg, start, before);
      InvariantKept(cfg, start, Run(cfg, Start(start), before).value, steps[|steps| - 1],
                    Run(cfg, Start(start), steps).value);
    }
  }
}
