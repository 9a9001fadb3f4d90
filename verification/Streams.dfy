/** The byte streams of a session: whatever the network does, each side reads the frames the other wrote,
    in order and without error, as long as no read was given up between header and payload. */
module Streams {
  import opened Basics
  import opened Framing
  import opened Session

  // ---------------------------------------------------------------- byte streams

  function Payloads(rs: seq<Request>): (ps: seq<Bytes>)
    ensures |ps| == |rs| && forall i :: 0 <= i < |rs| ==> ps[i] == rs[i].payload
  { seq(|rs|, i requires 0 <= i < |rs| => rs[i].payload) }

  function Replies(es: seq<Evaluation>): (ps: seq<Bytes>)
    ensures |ps| == |es| && forall i :: 0 <= i < |es| ==> ps[i] == es[i].reply
  { seq(|es|, i requires 0 <= i < |es| => es[i].reply) }

  /** buffer and flight are the beginning of a stream of bytes; a lost tail never arrives. */
  ghost predicate Begins(buffer: Bytes, flight: Bytes, lost: bool, stream: Bytes) {
    exists more :: buffer + flight + more == stream && (!lost ==> more == [])
  }

  /** They are the beginning of these frames. */
  ghost predicate Carries(buffer: Bytes, flight: Bytes, lost: bool, ps: seq<Bytes>) {
    Fit(ps) && Begins(buffer, flight, lost, Frames(ps))
  }

  /** Towards the server: the requests not yet taken by it. */
  ghost predicate UpOk(conn: Conn) {
    && |conn.evals| <= |conn.sent|
    && Fit(Payloads(conn.sent))
    && (!conn.closed ==> Carries(conn.upBuffer, conn.upFlight, conn.upLost, Payloads(conn.sent)[|conn.evals|..]))
  }

  /** Towards the client: the bytes of the replies not yet taken; without a header taken alone, these are
      whole frames. */
  ghost predicate DownOk(conn: Conn) {
    && Fit(Replies(conn.evals))
    && conn.consumed <= |Frames(Replies(conn.evals))|
    && Begins(conn.downBuffer, conn.downFlight, conn.downLost, Frames(Replies(conn.evals))[conn.consumed..])
    && (conn.garbled ==> conn.abandoned > 0)
    && (!conn.garbled ==>
          && conn.read <= |conn.evals|
          && Frames(Replies(conn.evals))[conn.consumed..] == Frames(Replies(conn.evals)[conn.read..]))
  }

  lemma JoinedFrames(head: Bytes, frames: Bytes, frame: Bytes)
    ensures head + (frames + frame) == head + frames + frame
  {
  }

  lemma {:induction false} FramesAppend(ps: seq<Bytes>, p: Bytes)
    requires Fit(ps) && |p| <= MAX_MESSAGE_SIZE
    ensures Fit(ps + [p]) && Frames(ps + [p]) == Frames(ps) + (Header(|p|) + p)
  {
    var frame := Header(|p|) + p;
    if ps == [] {
      assert [p][1..] == [] && ps + [p] == [p];
      assert Frames([p]) == frame + [] == frame;
    } else {
      FramesAppend(ps[1..], p);
      assert (ps + [p])[1..] == ps[1..] + [p];
      assert (ps + [p])[0] == ps[0];
      JoinedFrames(Header(|ps[0]|) + ps[0], Frames(ps[1..]), frame);
    }
  }

  lemma JoinedBytes(buffer: Bytes, flight: Bytes, more: Bytes, frame: Bytes)
    ensures buffer + flight + (more + frame) == buffer + flight + more + frame
    ensures buffer + (flight + frame) + [] == buffer + flight + [] + frame
  {
  }

  lemma BeginsLonger(buffer: Bytes, flight: Bytes, lost: bool, stream: Bytes, frame: Bytes)
    requires Begins(buffer, flight, lost, stream)
    ensures Begins(buffer, if lost then flight else flight + frame, lost, stream + frame)
  {
    var more :| buffer + flight + more == stream && (!lost ==> more == []);
    JoinedBytes(buffer, flight, more, frame);
    if lost {
      assert buffer + flight + (more + frame) == stream + frame;
    } else {
      assert buffer + (flight + frame) + [] == stream + frame;
    }
  }

  lemma BeginsArrive(buffer: Bytes, flight: Bytes, lost: bool, stream: Bytes, n: nat)
    requires Begins(buffer, flight, lost, stream) && n <= |flight|
    ensures Begins(buffer + flight[..n], flight[n..], lost, stream)
  {
    var more :| buffer + flight + more == stream && (!lost ==> more == []);
    assert buffer + flight[..n] + flight[n..] + more == stream;
  }

  lemma BeginsCut(buffer: Bytes, flight: Bytes, lost: bool, stream: Bytes, n: nat)
    requires Begins(buffer, flight, lost, stream) && n <= |flight|
    ensures Begins(buffer, flight[..n], true, stream)
  {
    var more :| buffer + flight + more == stream && (!lost ==> more == []);
    assert buffer + flight[..n] + (flight[n..] + more) == stream;
  }

  lemma BeginsTaken(buffer: Bytes, flight: Bytes, lost: bool, stream: Bytes, n: nat)
    requires Begins(buffer, flight, lost, stream) && n <= |buffer|
    ensures n <= |stream| && stream[..n] == buffer[..n]
    ensures Begins(buffer[n..], flight, lost, stream[n..])
  {
    var more :| buffer + flight + more == stream && (!lost ==> more == []);
    assert buffer[n..] + flight + more == stream[n..];
  }

  lemma CarriesAppend(buffer: Bytes, flight: Bytes, lost: bool, ps: seq<Bytes>, p: Bytes)
    requires Carries(buffer, flight, lost, ps) && |p| <= MAX_MESSAGE_SIZE
    ensures Carries(buffer, if lost then flight else flight + (Header(|p|) + p), lost, ps + [p])
  {
    FramesAppend(ps, p);
    BeginsLonger(buffer, flight, lost, Frames(ps), Header(|p|) + p);
  }

  /** Reading from such a stream gives the first payload, never an error. */
  lemma CarriesFirst(buffer: Bytes, flight: Bytes, lost: bool, ps: seq<Bytes>)
    requires Carries(buffer, flight, lost, ps)
    ensures !DecodeFrame(buffer).TooLarge?
    ensures DecodeFrame(buffer).Frame? ==>
              ps != [] && DecodeFrame(buffer).payload == ps[0] && Carries(DecodeFrame(buffer).rest, flight, lost, ps[1..])
  {
    var more :| buffer + flight + more == Frames(ps) && (!lost ==> more == []);
    assert buffer + (flight + more) == Frames(ps);
    FirstOfFrames(ps, buffer, flight + more);
    if DecodeFrame(buffer).Frame? {
      var rest := DecodeFrame(buffer).rest;
      assert rest + flight + more == rest + (flight + more);
      assert Fit(ps[1..]);
    }
  }

  lemma OpenedStreams()
    ensures UpOk(OPENED) && DownOk(OPENED)
  {
    assert [] + [] + [] == Frames([]);
    assert Carries([], [], false, []);
    assert Payloads([])[0..] == [] && Replies([])[0..] == [];
  }

  lemma WrittenUp(conn: Conn, r: Request)
    requires UpOk(conn) && |r.payload| <= MAX_MESSAGE_SIZE
    ensures UpOk(Written(conn, r))
  {
    var next, n := Written(conn, r), |conn.evals|;
    assert Payloads(next.sent) == Payloads(conn.sent) + [r.payload];
    if !conn.closed {
      CarriesAppend(conn.upBuffer, conn.upFlight, conn.upLost, Payloads(conn.sent)[n..], r.payload);
      assert Payloads(next.sent)[n..] == Payloads(conn.sent)[n..] + [r.payload];
    }
  }

  ghost predicate CanAnswer(conn: Conn) { !conn.closed && DecodeFrame(conn.upBuffer).Frame? }

  /** The server takes exactly the next request off the stream. */
  lemma NextRequest(conn: Conn)
    requires UpOk(conn) && CanAnswer(conn)
    ensures |conn.evals| < |conn.sent|
    ensures DecodeFrame(conn.upBuffer).payload == conn.sent[|conn.evals|].payload
    ensures Carries(DecodeFrame(conn.upBuffer).rest, conn.upFlight, conn.upLost, Payloads(conn.sent)[|conn.evals| + 1..])
  {
    var waiting := Payloads(conn.sent)[|conn.evals|..];
    CarriesFirst(conn.upBuffer, conn.upFlight, conn.upLost, waiting);
    assert waiting[1..] == Payloads(conn.sent)[|conn.evals| + 1..];
  }

  /** The server never meets an oversized header. */
  lemma NoBadHeader(conn: Conn)
    requires UpOk(conn) && !conn.closed
    ensures !DecodeFrame(conn.upBuffer).TooLarge?
  {
    CarriesFirst(conn.upBuffer, conn.upFlight, conn.upLost, Payloads(conn.sent)[|conn.evals|..]);
  }

  lemma AnsweredUp(conn: Conn, at: nat, reply: Option<Bytes>)
    requires UpOk(conn) && CanAnswer(conn)
    ensures UpOk(Answered(conn, DecodeFrame(conn.upBuffer).rest, at, reply))
  {
    NextRequest(conn);
    RequestTaken(conn, DecodeFrame(conn.upBuffer).rest, at, reply);
  }

  lemma RequestTaken(conn: Conn, rest: Bytes, at: nat, reply: Option<Bytes>)
    requires |conn.evals| < |conn.sent| && Fit(Payloads(conn.sent))
    requires Carries(rest, conn.upFlight, conn.upLost, Payloads(conn.sent)[|conn.evals| + 1..])
    ensures UpOk(Answered(conn, rest, at, reply))
  {
    var next := Answered(conn, rest, at, reply);
    assert next.sent == conn.sent && (|next.evals| == |conn.evals| + 1 || (next.closed && next.evals == conn.evals));
    assert next.upBuffer == rest && next.upFlight == conn.upFlight && next.upLost == conn.upLost;
  }

  lemma TailLonger(stream: Bytes, frame: Bytes, n: nat)
    requires n <= |stream|
    ensures (stream + frame)[n..] == stream[n..] + frame
  {
  }

  /** One more reply at the end of the stream: what is left to take grows by its frame. */
  lemma LeftLonger(ps: seq<Bytes>, p: Bytes, consumed: nat)
    requires Fit(ps) && |p| <= MAX_MESSAGE_SIZE && consumed <= |Frames(ps)|
    ensures Fit(ps + [p]) && consumed <= |Frames(ps + [p])|
    ensures Frames(ps + [p])[consumed..] == Frames(ps)[consumed..] + (Header(|p|) + p)
  {
    FramesAppend(ps, p);
    TailLonger(Frames(ps), Header(|p|) + p, consumed);
  }

  lemma WholeLonger(ps: seq<Bytes>, p: Bytes, consumed: nat, read: nat)
    requires Fit(ps) && |p| <= MAX_MESSAGE_SIZE && consumed <= |Frames(ps)| && read <= |ps|
    requires Frames(ps)[consumed..] == Frames(ps[read..])
    ensures Fit(ps + [p]) && consumed <= |Frames(ps + [p])| && Frames(ps + [p])[consumed..] == Frames((ps + [p])[read..])
  {
    LeftLonger(ps, p, consumed);
    FramesAppend(ps[read..], p);
    assert (ps + [p])[read..] == ps[read..] + [p];
  }

  lemma AnsweredDown(conn: Conn, rest: Bytes, at: nat, reply: Option<Bytes>)
    requires DownOk(conn)
    ensures DownOk(Answered(conn, rest, at, reply))
  {
    if reply.Some? && |reply.value| <= MAX_MESSAGE_SIZE {
      var next, p, ps := Answered(conn, rest, at, reply), reply.value, Replies(conn.evals);
      assert Replies(next.evals) == ps + [p];
      LeftLonger(ps, p, conn.consumed);
      BeginsLonger(conn.downBuffer, conn.downFlight, conn.downLost, Frames(ps)[conn.consumed..], Header(|p|) + p);
      if !conn.garbled { WholeLonger(ps, p, conn.consumed, conn.read); }
    }
  }

  lemma RestIsTail(buffer: Bytes)
    requires DecodeFrame(buffer).Frame?
    ensures var r := DecodeFrame(buffer);
            r.rest == buffer[|buffer| - |r.rest|..] && |buffer| - |r.rest| == 4 + |r.payload|
  {
  }

  lemma TailOfTail(stream: Bytes, m: nat, n: nat)
    requires m + n <= |stream|
    ensures stream[m..][n..] == stream[m + n..]
  {
  }

  /** Taking n bytes off the buffer. */
  lemma TakenDown(conn: Conn, n: nat)
    requires DownOk(conn) && n <= |conn.downBuffer|
    ensures var all := Frames(Replies(conn.evals));
            && conn.consumed + n <= |all|
            && all[conn.consumed..conn.consumed + n] == conn.downBuffer[..n]
            && Begins(conn.downBuffer[n..], conn.downFlight, conn.downLost, all[conn.consumed + n..])
  {
    var all := Frames(Replies(conn.evals));
    BeginsTaken(conn.downBuffer, conn.downFlight, conn.downLost, all[conn.consumed..], n);
    TailOfTail(all, conn.consumed, n);
    assert all[conn.consumed..][..n] == all[conn.consumed..conn.consumed + n];
  }

  lemma HeaderGoneDown(conn: Conn)
    requires DownOk(conn) && |conn.downBuffer| >= 4
    ensures DownOk(HeaderGone(conn))
  {
    TakenDown(conn, 4);
  }

  /** The client reads exactly the next reply. */
  lemma NextReply(conn: Conn)
    requires DownOk(conn) && !conn.garbled && DecodeFrame(conn.downBuffer).Frame?
    ensures conn.read < |conn.evals| && DecodeFrame(conn.downBuffer).payload == conn.evals[conn.read].reply
  {
    CarriesFirst(conn.downBuffer, conn.downFlight, conn.downLost, Replies(conn.evals)[conn.read..]);
  }

  lemma WholeRead(ps: seq<Bytes>, consumed: nat, read: nat, n: nat)
    requires Fit(ps) && read < |ps| && n == 4 + |ps[read]| && consumed + n <= |Frames(ps)|
    requires Frames(ps)[consumed..] == Frames(ps[read..])
    ensures Frames(ps)[consumed + n..] == Frames(ps[read + 1..])
  {
    TailOfTail(Frames(ps), consumed, n);
    FrameDropped(ps[read..], n);
    assert ps[read..][1..] == ps[read + 1..];
  }

  lemma ReadDown(conn: Conn)
    requires DownOk(conn) && DecodeFrame(conn.downBuffer).Frame?
    ensures DownOk(ReadOne(conn, DecodeFrame(conn.downBuffer).rest))
  {
    RestIsTail(conn.downBuffer);
    var n := 4 + |DecodeFrame(conn.downBuffer).payload|;
    TakenDown(conn, n);
    if !conn.garbled {
      NextReply(conn);
      WholeRead(Replies(conn.evals), conn.consumed, conn.read, n);
    }
  }

  /** reply stands in a stream of bytes after four bytes that announce its length, from bytes in. */
  ghost predicate ReadAt(stream: Bytes, from: nat, reply: Bytes) {
    && |reply| <= MAX_MESSAGE_SIZE && from + 4 + |reply| <= |stream|
    && HeaderValue(stream[from..from + 4]) == |reply|
    && stream[from + 4..from + 4 + |reply|] == reply
  }

  lemma SlicesSame(stream: Bytes, from: nat, n: nat, b: Bytes)
    requires 4 <= n <= |b| && from + n <= |stream| && stream[from..from + n] == b[..n]
    ensures stream[from..from + 4] == b[..4] && stream[from + 4..from + n] == b[4..n]
  {
    assert stream[from..from + n][..4] == stream[from..from + 4] && b[..n][..4] == b[..4];
    assert stream[from..from + n][4..] == stream[from + 4..from + n] && b[..n][4..] == b[4..n];
  }

  lemma FrameShape(b: Bytes)
    requires DecodeFrame(b).Frame?
    ensures var p := DecodeFrame(b).payload;
            && |p| <= MAX_MESSAGE_SIZE && 4 + |p| <= |b| && HeaderValue(b[..4]) == |p| && b[4..4 + |p|] == p
  {
  }

  /** Whatever was taken off the stream before, a read finds a payload where the client has got to in it. */
  lemma FoundAt(conn: Conn)
    requires DownOk(conn) && DecodeFrame(conn.downBuffer).Frame?
    ensures ReadAt(Frames(Replies(conn.evals)), conn.consumed, DecodeFrame(conn.downBuffer).payload)
  {
    FrameShape(conn.downBuffer);
    var n := 4 + |DecodeFrame(conn.downBuffer).payload|;
    TakenDown(conn, n);
    SlicesSame(Frames(Replies(conn.evals)), conn.consumed, n, conn.downBuffer);
  }

  lemma {:induction false} FramesConcat(ps: seq<Bytes>, qs: seq<Bytes>)
    requires Fit(ps + qs)
    ensures Fit(ps) && Fit(qs) && Frames(ps + qs) == Frames(ps) + Frames(qs)
  {
    forall p | p in ps ensures |p| <= MAX_MESSAGE_SIZE { assert p in ps + qs; }
    forall q | q in qs ensures |q| <= MAX_MESSAGE_SIZE { assert q in ps + qs; }
    if ps == [] {
      assert ps + qs == qs;
    } else {
      assert (ps + qs)[1..] == ps[1..] + qs;
      FramesConcat(ps[1..], qs);
      JoinedFrames(Header(|ps[0]|) + ps[0], Frames(ps[1..]), Frames(qs));
    }
  }

  lemma FrameDropped(ps: seq<Bytes>, n: nat)
    requires Fit(ps) && ps != [] && n == 4 + |ps[0]|
    ensures n <= |Frames(ps)| && Frames(ps)[n..] == Frames(ps[1..])
  {
    var head := Header(|ps[0]|) + ps[0];
    assert Frames(ps) == head + Frames(ps[1..]);
    assert |head| == n;
  }

  lemma Arrive(conn: Conn, n: nat)
    ensures UpOk(conn) && n <= |conn.upFlight| ==> UpOk(ArriveUp(conn, n))
    ensures DownOk(conn) && n <= |conn.downFlight| ==> DownOk(ArriveDown(conn, n))
  {
    if UpOk(conn) && n <= |conn.upFlight| && !conn.closed {
      BeginsArrive(conn.upBuffer, conn.upFlight, conn.upLost, Frames(Payloads(conn.sent)[|conn.evals|..]), n);
    }
    if DownOk(conn) && n <= |conn.downFlight| {
      BeginsArrive(conn.downBuffer, conn.downFlight, conn.downLost, Frames(Replies(conn.evals))[conn.consumed..], n);
    }
  }

  lemma CutOff(conn: Conn, up: nat, down: nat)
    requires up <= |conn.upFlight| && down <= |conn.downFlight|
    ensures UpOk(conn) ==> UpOk(Cut(conn, up, down))
    ensures DownOk(conn) ==> DownOk(Cut(conn, up, down))
  {
    if UpOk(conn) && !conn.closed {
      BeginsCut(conn.upBuffer, conn.upFlight, conn.upLost, Frames(Payloads(conn.sent)[|conn.evals|..]), up);
    }
    if DownOk(conn) {
      BeginsCut(conn.downBuffer, conn.downFlight, conn.downLost, Frames(Replies(conn.evals))[conn.consumed..], down);
    }
  }

  // ---------------------------------------------------------------- steps and connections

  ghost predicate RelatesWrite(R: (Conn, Conn) -> bool) {
    forall conn: Conn, r: Request :: |r.payload| <= MAX_MESSAGE_SIZE ==> R(conn, Written(conn, r))
  }

  ghost predicate RelatesReads(R: (Conn, Conn) -> bool) {
    && (forall conn: Conn :: DecodeFrame(conn.downBuffer).Frame? ==> R(conn, ReadOne(conn, DecodeFrame(conn.downBuffer).rest)))
    && (forall conn: Conn :: DecodeFrame(conn.downBuffer).TooLarge? ==> R(conn, HeaderGone(conn)))
    && (forall conn: Conn, b :: R(conn, Abandoned(conn, b)))
    && (forall conn: Conn :: R(conn, Killed(conn)))
  }

  ghost predicate RelatesAnswer(R: (Conn, Conn) -> bool) {
    forall conn: Conn, at, reply :: CanAnswer(conn) ==> R(conn, Answered(conn, DecodeFrame(conn.upBuffer).rest, at, reply))
  }

  ghost predicate RelatesNetwork(R: (Conn, Conn) -> bool) {
    && (forall conn: Conn :: R(conn, conn) && R(conn, conn.(closed := true)))
    && (forall conn: Conn, n: nat :: n <= |conn.upFlight| ==> R(conn, ArriveUp(conn, n)))
    && (forall conn: Conn, n: nat :: n <= |conn.downFlight| ==> R(conn, ArriveDown(conn, n)))
    && (forall conn: Conn, up: nat, down: nat :: up <= |conn.upFlight| && down <= |conn.downFlight| ==>
          R(conn, Cut(conn, up, down)))
  }

  /** The steps that end the wait for a reply. */
  predicate IsRead<K>(step: Step<K>) {
    step.Receive? || step.Timeout? || step.ConnectionLost? || step.EndOfStream? || step.Cancel?
  }

  /** R holds between a connection and itself after a step of this kind. */
  ghost predicate Relates<K>(step: Step<K>, R: (Conn, Conn) -> bool) {
    && RelatesNetwork(R) && (IsRead(step) ==> RelatesReads(R))
    && (step.Write? ==> RelatesWrite(R)) && (step.Handle? ==> RelatesAnswer(R))
  }

  ghost predicate AllRelated(before: seq<Conn>, after: seq<Conn>, R: (Conn, Conn) -> bool) {
    && |before| <= |after|
    && (forall c :: 0 <= c < |before| ==> R(before[c], after[c]))
    && (forall c :: |before| <= c < |after| ==> after[c] == OPENED)
  }

  lemma SetRelates(conns: seq<Conn>, c: nat, conn: Conn, R: (Conn, Conn) -> bool)
    requires c < |conns| && R(conns[c], conn) && forall d :: 0 <= d < |conns| ==> R(conns[d], conns[d])
    ensures AllRelated(conns, conns[c := conn], R)
  {
  }

  lemma FailConns<S, K>(cfg: Config<S, K>, s: State<S, K>, k: nat)
    requires k < |s.calls|
    ensures Fail(cfg, s, k).conns == s.conns
  {
  }

  lemma WriteRelates<S, K>(cfg: Config<S, K>, s: State<S, K>, k: nat, R: (Conn, Conn) -> bool)
    requires RelatesNetwork(R) && RelatesWrite(R) && Apply(cfg, s, Write(k)).Some?
    ensures AllRelated(s.conns, Apply(cfg, s, Write(k)).value.conns, R)
  {
  }

  lemma ReceiveRelates<S, K>(cfg: Config<S, K>, s: State<S, K>, k: nat, R: (Conn, Conn) -> bool)
    requires RelatesNetwork(R) && RelatesReads(R) && Apply(cfg, s, Receive(k)).Some?
    ensures AllRelated(s.conns, Apply(cfg, s, Receive(k)).value.conns, R)
  {
  }

  lemma HandleRelates<S, K>(cfg: Config<S, K>, s: State<S, K>, c: nat, tick: K, R: (Conn, Conn) -> bool)
    requires RelatesNetwork(R) && RelatesAnswer(R) && Apply(cfg, s, Handle(c, tick)).Some?
    ensures AllRelated(s.conns, Apply(cfg, s, Handle(c, tick)).value.conns, R)
  {
    var found := DecodeFrame(s.conns[c].upBuffer);
    if found.Frame? {
      assert CanAnswer(s.conns[c]);
      var reply := cfg.handle(s.server, tick, found.payload).1;
      assert R(s.conns[c], Answered(s.conns[c], found.rest, |s.log|, reply));
    }
  }

  lemma TimeoutRelates<S, K>(cfg: Config<S, K>, s: State<S, K>, k: nat, tookHeader: bool, R: (Conn, Conn) -> bool)
    requires RelatesNetwork(R) && RelatesReads(R) && Apply(cfg, s, Timeout(k, tookHeader)).Some?
    ensures AllRelated(s.conns, Apply(cfg, s, Timeout(k, tookHeader)).value.conns, R)
  {
    var c := Waits(s, k).value;
    var t := SetConn(s, c, Abandoned(s.conns[c], tookHeader));
    FailConns(cfg, t, k);
    SetRelates(s.conns, c, t.conns[c], R);
  }

  lemma LostRelates<S, K>(cfg: Config<S, K>, s: State<S, K>, k: nat, R: (Conn, Conn) -> bool)
    requires RelatesNetwork(R) && RelatesReads(R) && Apply(cfg, s, ConnectionLost(k)).Some?
    ensures AllRelated(s.conns, Apply(cfg, s, ConnectionLost(k)).value.conns, R)
  {
    var c := Waits(s, k).value;
    var t := SetConn(s, c, Killed(s.conns[c]));
    FailConns(cfg, t, k);
    SetRelates(s.conns, c, t.conns[c], R);
  }

  lemma EndRelates<S, K>(cfg: Config<S, K>, s: State<S, K>, k: nat, R: (Conn, Conn) -> bool)
    requires RelatesNetwork(R) && RelatesReads(R) && Apply(cfg, s, EndOfStream(k)).Some?
    ensures AllRelated(s.conns, Apply(cfg, s, EndOfStream(k)).value.conns, R)
  {
  }

  lemma CancelRelates<S, K>(cfg: Config<S, K>, s: State<S, K>, k: nat, tookHeader: bool, R: (Conn, Conn) -> bool)
    requires RelatesNetwork(R) && RelatesReads(R) && Apply(cfg, s, Cancel(k, tookHeader)).Some?
    ensures AllRelated(s.conns, Apply(cfg, s, Cancel(k, tookHeader)).value.conns, R)
  {
  }

  lemma NetworkRelates<S, K>(cfg: Config<S, K>, s: State<S, K>, step: Step<K>, R: (Conn, Conn) -> bool)
    requires RelatesNetwork(R) && Apply(cfg, s, step).Some?
    requires step.DeliverUp? || step.DeliverDown? || step.Lose?
    ensures AllRelated(s.conns, Apply(cfg, s, step).value.conns, R)
  {
  }

  lemma StepRelates<S, K>(cfg: Config<S, K>, s: State<S, K>, step: Step<K>, R: (Conn, Conn) -> bool)
    requires Relates(step, R) && Apply(cfg, s, step).Some?
    ensures AllRelated(s.conns, Apply(cfg, s, step).value.conns, R)
  {
    match step {
      case Write(k) => WriteRelates(cfg, s, k, R);
      case Receive(k) => ReceiveRelates(cfg, s, k, R);
      case Handle(c, tick) => HandleRelates(cfg, s, c, tick, R);
      case Timeout(k, tookHeader) => TimeoutRelates(cfg, s, k, tookHeader, R);
      case ConnectionLost(k) => LostRelates(cfg, s, k, R);
      case EndOfStream(k) => EndRelates(cfg, s, k, R);
      case Cancel(k, tookHeader) => CancelRelates(cfg, s, k, tookHeader, R);
      case DeliverUp(_, _) => NetworkRelates(cfg, s, step, R);
      case DeliverDown(_, _) => NetworkRelates(cfg, s, step, R);
      case Lose(_, _, _) => NetworkRelates(cfg, s, step, R);
      case _ =>
    }
  }

  // ---------------------------------------------------------------- streams stay in order

  ghost predicate KeepsUp(a: Conn, b: Conn) { UpOk(a) ==> UpOk(b) }

  ghost predicate KeepsDown(a: Conn, b: Conn) { DownOk(a) ==> DownOk(b) }

  lemma KeepsUpWrite()
    ensures RelatesWrite(KeepsUp)
  {
    forall conn, r: Request | UpOk(conn) && |r.payload| <= MAX_MESSAGE_SIZE ensures UpOk(Written(conn, r)) {
      WrittenUp(conn, r);
    }
  }

  lemma KeepsUpAnswer()
    ensures RelatesAnswer(KeepsUp)
  {
    forall conn, at, reply | UpOk(conn) && CanAnswer(conn)
      ensures UpOk(Answered(conn, DecodeFrame(conn.upBuffer).rest, at, reply))
    {
      AnsweredUp(conn, at, reply);
    }
  }

  lemma KeepsUpOther()
    ensures RelatesNetwork(KeepsUp) && RelatesReads(KeepsUp)
  {
    forall conn: Conn, n: nat | UpOk(conn) && n <= |conn.upFlight| ensures UpOk(ArriveUp(conn, n)) {
      Arrive(conn, n);
    }
    forall conn: Conn, up: nat, down: nat | UpOk(conn) && up <= |conn.upFlight| && down <= |conn.downFlight|
      ensures UpOk(Cut(conn, up, down))
    {
      CutOff(conn, up, down);
    }
  }

  lemma KeepsDownReads()
    ensures RelatesReads(KeepsDown)
  {
    forall conn | DownOk(conn) && DecodeFrame(conn.downBuffer).Frame?
      ensures DownOk(ReadOne(conn, DecodeFrame(conn.downBuffer).rest))
    {
      ReadDown(conn);
    }
    forall conn | DownOk(conn) && |conn.downBuffer| >= 4 ensures DownOk(HeaderGone(conn)) {
      HeaderGoneDown(conn);
    }
  }

  lemma KeepsDownAnswer()
    ensures RelatesAnswer(KeepsDown)
  {
    forall conn, at, reply | DownOk(conn) && CanAnswer(conn)
      ensures DownOk(Answered(conn, DecodeFrame(conn.upBuffer).rest, at, reply))
    {
      AnsweredDown(conn, DecodeFrame(conn.upBuffer).rest, at, reply);
    }
  }

  lemma KeepsDownOther()
    ensures RelatesNetwork(KeepsDown) && RelatesWrite(KeepsDown)
  {
    forall conn: Conn, n: nat | DownOk(conn) && n <= |conn.downFlight| ensures DownOk(ArriveDown(conn, n)) {
      Arrive(conn, n);
    }
    forall conn: Conn, up: nat, down: nat | DownOk(conn) && up <= |conn.upFlight| && down <= |conn.downFlight|
      ensures DownOk(Cut(conn, up, down))
    {
      CutOff(conn, up, down);
    }
  }

  ghost predicate InOrder(conns: seq<Conn>) { forall c :: 0 <= c < |conns| ==> UpOk(conns[c]) && DownOk(conns[c]) }

  lemma StreamsAfter(before: seq<Conn>, after: seq<Conn>)
    requires InOrder(before) && AllRelated(before, after, KeepsUp) && AllRelated(before, after, KeepsDown)
    ensures InOrder(after)
  {
    OpenedStreams();
    forall c | 0 <= c < |after| ensures UpOk(after[c]) && DownOk(after[c]) {
      if c < |before| { assert KeepsUp(before[c], after[c]) && KeepsDown(before[c], after[c]); }
    }
  }

  /** In every reachable state what is under way on each connection is what the other end wrote. */
  lemma StreamsKept<S, K>(cfg: Config<S, K>, s: State<S, K>, step: Step<K>)
    requires InOrder(s.conns) && Apply(cfg, s, step).Some?
    ensures InOrder(Apply(cfg, s, step).value.conns)
  {
    KeepsUpWrite();
    KeepsUpAnswer();
    KeepsUpOther();
    StepRelates(cfg, s, step, KeepsUp);
    KeepsDownReads();
    KeepsDownAnswer();
    KeepsDownOther();
    StepRelates(cfg, s, step, KeepsDown);
    StreamsAfter(s.conns, Apply(cfg, s, step).value.conns);
  }
}
