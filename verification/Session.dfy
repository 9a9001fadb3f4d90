/** The retrying client and the server as a state machine over byte streams.

    One client object serves many concurrent calls through a lock; every call writes one request frame
    per attempt on the current connection and reads one reply frame. Bytes travel in arbitrary chunks,
    connections drop, time-outs strike, calls are cancelled, other clients talk to the same server.
    A step is one piece of code between two suspension points, or one event of the network. */
module Session {
  import opened Basics
  import opened Framing

  datatype Kind = Verify | Side

  /** handle is the server: state before, clock readings and request payload, to state after and reply
      payload (None where the connection handler fails). parses says which reply payloads the client
      can turn into a result. */
  datatype Config<!S, !K> = Config(
    handle: (S, K, Bytes) -> (S, Option<Bytes>),
    parses: (Kind, Bytes) -> bool,
    reconnect: bool,
    maxRetries: nat)

  /** A request on the wire, with the call and the attempt that wrote it. */
  datatype Request = Request(call: nat, attempt: nat, payload: Bytes)

  /** The reply to a request, and the place of its evaluation in the server's log. */
  datatype Evaluation = Evaluation(at: nat, reply: Bytes)

  /** One connection. sent, evals, read, abandoned and consumed remember its whole past: the requests
      written, the replies written, how many replies were read, how many reads were given up, and how many
      bytes the client took off the stream of replies. The four byte sequences are what is in flight and
      what has arrived in each direction; a lost direction delivers no later bytes. The client gets only
      errors from a dead connection. A connection is garbled once a header was taken without its payload. */
  datatype Conn = Conn(
    sent: seq<Request>,
    evals: seq<Evaluation>,
    read: nat,
    abandoned: nat,
    consumed: nat,
    upFlight: Bytes, upBuffer: Bytes, upLost: bool,
    downFlight: Bytes, downBuffer: Bytes, downLost: bool,
    closed: bool,
    dead: bool,
    garbled: bool)

  const OPENED := Conn([], [], 0, 0, 0, [], [], false, [], [], false, false, false, false)

  /** Where a call stands. Awaiting: its request is number slot of a connection. Returned: it read the
      reply that begins after from bytes of that connection's replies, where index replies had been read
      and missed reads given up before; done is the length of the server's log at that moment. */
  datatype Phase =
    | Queued
    | Connecting
    | Ready
    | Awaiting(conn: nat, slot: nat)
    | Sleeping
    | Returned(conn: nat, slot: nat, index: nat, missed: nat, from: nat, reply: Bytes, clean: bool, done: nat)
    | Raised

  /** since is the length of the server's log when the call was made; slept counts tenths of a second. */
  datatype Call = Call(kind: Kind, payload: Bytes, since: nat, phase: Phase, attempt: nat, slept: nat)

  /** A request number of a connection. */
  datatype Origin = Origin(conn: nat, slot: nat)

  /** One handling of a request by the server; origin is None for a request of another client. */
  datatype Handling<+K> = Handling(origin: Option<Origin>, payload: Bytes, tick: K)

  datatype State<+S, +K> = State(
    server: S,
    log: seq<Handling<K>>,
    conns: seq<Conn>,
    current: Option<nat>,
    connected: bool,
    holder: Option<nat>,
    calls: seq<Call>)

  datatype Step<+K> =
    | NewCall(kind: Kind, payload: Bytes)
    | Acquire(k: nat)
    | Reuse(k: nat)
    | Connect(k: nat, closing: bool)
    | ConnectFails(k: nat, closing: bool)
    | Write(k: nat)
    | Receive(k: nat)
    | Timeout(k: nat, tookHeader: bool)
    | ConnectionLost(k: nat)
    | EndOfStream(k: nat)
    | Cancel(k: nat, tookHeader: bool)
    | Wake(k: nat)
    | UserConnect
    | UserClose
    | DeliverUp(c: nat, n: nat)
    | DeliverDown(c: nat, n: nat)
    | Lose(c: nat, up: nat, down: nat)
    | Handle(c: nat, tick: K)
    | HandleOther(payload: Bytes, tick: K)
    | ServerCloses(c: nat)

  function Start<S, K>(server: S): State<S, K> { State(server, [], [], None, false, None, []) }

  // ---------------------------------------------------------------- connections

  function Written(conn: Conn, r: Request): Conn
    requires |r.payload| <= MAX_MESSAGE_SIZE
  {
    conn.(sent := conn.sent + [r],
          upFlight := if conn.upLost then conn.upFlight else conn.upFlight + (Header(|r.payload|) + r.payload))
  }

  /** The server has taken a request frame off its buffer and writes the reply, or its handler ends. */
  function Answered(conn: Conn, rest: Bytes, at: nat, reply: Option<Bytes>): Conn {
    if reply.Some? && |reply.value| <= MAX_MESSAGE_SIZE then
      conn.(upBuffer := rest, evals := conn.evals + [Evaluation(at, reply.value)],
            downFlight := if conn.downLost then conn.downFlight
                          else conn.downFlight + (Header(|reply.value|) + reply.value))
    else conn.(upBuffer := rest, closed := true)
  }

  function ReadOne(conn: Conn, rest: Bytes): Conn
    requires |rest| <= |conn.downBuffer|
  { conn.(downBuffer := rest, read := conn.read + 1, consumed := conn.consumed + (|conn.downBuffer| - |rest|)) }

  /** The header is gone from the buffer and nobody waits for its payload any more. */
  function HeaderGone(conn: Conn): Conn
    requires |conn.downBuffer| >= 4
  {
    conn.(abandoned := conn.abandoned + 1, downBuffer := conn.downBuffer[4..], consumed := conn.consumed + 4, garbled := true)
  }

  /** A read given up; it may already have taken a header off the buffer, even one whose payload has just
      arrived. */
  function Abandoned(conn: Conn, tookHeader: bool): Conn {
    if tookHeader && |conn.downBuffer| >= 4 && !DecodeFrame(conn.downBuffer).TooLarge? then HeaderGone(conn)
    else conn.(abandoned := conn.abandoned + 1)
  }

  function ArriveUp(conn: Conn, n: nat): Conn
    requires n <= |conn.upFlight|
  { conn.(upBuffer := conn.upBuffer + conn.upFlight[..n], upFlight := conn.upFlight[n..]) }

  function ArriveDown(conn: Conn, n: nat): Conn
    requires n <= |conn.downFlight|
  { conn.(downBuffer := conn.downBuffer + conn.downFlight[..n], downFlight := conn.downFlight[n..]) }

  /** The network fails: of the bytes in flight only the first up and down ones still arrive. */
  function Cut(conn: Conn, up: nat, down: nat): Conn
    requires up <= |conn.upFlight| && down <= |conn.downFlight|
  {
    conn.(upFlight := conn.upFlight[..up], upLost := true,
          downFlight := conn.downFlight[..down], downLost := true)
  }

  // ---------------------------------------------------------------- calls

  function SetConn<S, K>(s: State<S, K>, c: nat, conn: Conn): State<S, K>
    requires c < |s.conns|
  { s.(conns := s.conns[c := conn]) }

  function SetCall<S, K>(s: State<S, K>, k: nat, call: Call): State<S, K>
    requires k < |s.calls|
  { s.(calls := s.calls[k := call]) }

  function SetPhase<S, K>(s: State<S, K>, k: nat, p: Phase): State<S, K>
    requires k < |s.calls|
  { SetCall(s, k, s.calls[k].(phase := p)) }

  /** The call leaves the lock with its result or an exception. */
  function Finish<S, K>(s: State<S, K>, k: nat, p: Phase): State<S, K>
    requires k < |s.calls|
  { SetPhase(s, k, p).(holder := None) }

  /** A failure: verify marks the connection unusable and sleeps or gives up; the three other requests
      catch nothing and leave the connection as it is. */
  function Fail<S, K>(cfg: Config<S, K>, s: State<S, K>, k: nat): State<S, K>
    requires k < |s.calls|
  {
    var call := s.calls[k];
    if call.kind.Side? then Finish(s, k, Raised)
    else if call.attempt < cfg.maxRetries then
      SetCall(s.(connected := false), k, call.(phase := Sleeping, slept := call.slept + call.attempt + 1))
    else Finish(s.(connected := false), k, Raised)
  }

  predicate Holds<S, K>(s: State<S, K>, k: nat, p: Phase) {
    k < |s.calls| && s.holder == Some(k) && s.calls[k].phase == p
  }

  /** The connection whose reply call k waits for. */
  function Waits<S, K>(s: State<S, K>, k: nat): Option<nat> {
    if k < |s.calls| && s.holder == Some(k) && s.calls[k].phase.Awaiting? && s.calls[k].phase.conn < |s.conns|
    then Some(s.calls[k].phase.conn) else None
  }

  /** _ensure_connected goes on to connect. */
  predicate Connectable<S, K>(s: State<S, K>, closing: bool) { !s.connected || s.current.None? || closing }

  function Opened<S, K>(s: State<S, K>): State<S, K> {
    s.(conns := s.conns + [OPENED], current := Some(|s.conns|), connected := true)
  }

  function WriteRequest<S, K>(cfg: Config<S, K>, s: State<S, K>, k: nat, c: nat): State<S, K>
    requires k < |s.calls| && c < |s.conns|
  {
    var call := s.calls[k];
    if |call.payload| > MAX_MESSAGE_SIZE then Fail(cfg, s, k)
    else SetPhase(SetConn(s, c, Written(s.conns[c], Request(k, call.attempt, call.payload))),
                  k, Awaiting(c, |s.conns[c].sent|))
  }

  function Outcome<S, K>(cfg: Config<S, K>, s: State<S, K>, k: nat, c: nat, p: Bytes): Phase
    requires k < |s.calls| && s.calls[k].phase.Awaiting? && c < |s.conns|
  {
    if cfg.parses(s.calls[k].kind, p)
    then Returned(c, s.calls[k].phase.slot, s.conns[c].read, s.conns[c].abandoned, s.conns[c].consumed,
                  p, !s.conns[c].garbled, |s.log|)
    else Raised
  }

  function ReceiveReply<S, K>(cfg: Config<S, K>, s: State<S, K>, k: nat, c: nat): Option<State<S, K>>
    requires k < |s.calls| && s.calls[k].phase.Awaiting? && c < |s.conns|
  {
    match DecodeFrame(s.conns[c].downBuffer)
    case Waiting => None
    case TooLarge => Some(Fail(cfg, SetConn(s, c, HeaderGone(s.conns[c])), k))
    case Frame(p, rest) =>
      Some(Finish(SetConn(s, c, ReadOne(s.conns[c], rest)), k, Outcome(cfg, s, k, c, p)))
  }

  /** The stream has ended and the buffer holds no whole frame. */
  predicate AtEnd(conn: Conn) {
    (conn.closed || conn.downLost) && conn.downFlight == [] && DecodeFrame(conn.downBuffer).Waiting?
  }

  function Killed(conn: Conn): Conn { Abandoned(conn, false).(dead := true) }

  // ---------------------------------------------------------------- server

  function HandleRequest<S, K>(cfg: Config<S, K>, s: State<S, K>, c: nat, tick: K): Option<State<S, K>>
    requires c < |s.conns|
  {
    var conn := s.conns[c];
    match DecodeFrame(conn.upBuffer)
    case Waiting => None
    case TooLarge => Some(SetConn(s, c, conn.(closed := true)))
    case Frame(p, rest) =>
      var (after, reply) := cfg.handle(s.server, tick, p);
      var t := SetConn(s, c, Answered(conn, rest, |s.log|, reply));
      Some(t.(server := after, log := s.log + [Handling(Some(Origin(c, |conn.evals|)), p, tick)]))
  }

  /** The state after a step, or None where the step cannot happen. */
  function Apply<S, K>(cfg: Config<S, K>, s: State<S, K>, step: Step<K>): Option<State<S, K>> {
    match step
    case NewCall(kind, payload) => Some(s.(calls := s.calls + [Call(kind, payload, |s.log|, Queued, 0, 0)]))
    case Acquire(k) =>
      if k < |s.calls| && s.calls[k].phase.Queued? && s.holder.None?
      then Some(SetPhase(s, k, Connecting).(holder := Some(k))) else None
    case Reuse(k) =>
      if Holds(s, k, Connecting) && s.connected && s.current.Some? then Some(SetPhase(s, k, Ready)) else None
    case Connect(k, closing) =>
      if Holds(s, k, Connecting) && cfg.reconnect && Connectable(s, closing)
      then Some(SetPhase(Opened(s), k, Ready)) else None
    case ConnectFails(k, closing) =>
      if Holds(s, k, Connecting) && Connectable(s, closing) then Some(Fail(cfg, s, k)) else None
    case Write(k) =>
      if Holds(s, k, Ready) && s.current.Some? && s.current.value < |s.conns|
      then Some(WriteRequest(cfg, s, k, s.current.value)) else None
    case Receive(k) =>
      var c :- Waits(s, k);
      if s.conns[c].dead then None else ReceiveReply(cfg, s, k, c)
    case Timeout(k, tookHeader) =>
      var c :- Waits(s, k);
      Some(Fail(cfg, SetConn(s, c, Abandoned(s.conns[c], tookHeader)), k))
    case ConnectionLost(k) =>
      var c :- Waits(s, k);
      Some(Fail(cfg, SetConn(s, c, Killed(s.conns[c])), k))
    case EndOfStream(k) =>
      // IncompleteReadError is none of the exceptions verify catches
      var c :- Waits(s, k);
      if AtEnd(s.conns[c]) then Some(Finish(SetConn(s, c, Killed(s.conns[c])), k, Raised)) else None
    case Cancel(k, tookHeader) =>
      if Waits(s, k).Some? then
        var c := Waits(s, k).value;
        Some(Finish(SetConn(s, c, Abandoned(s.conns[c], tookHeader)), k, Raised))
      else if Holds(s, k, Connecting) || Holds(s, k, Ready) || Holds(s, k, Sleeping) then Some(Finish(s, k, Raised))
      else if k < |s.calls| && s.calls[k].phase.Queued? then Some(SetPhase(s, k, Raised))
      else None
    case Wake(k) =>
      if Holds(s, k, Sleeping)
      then Some(SetCall(s, k, s.calls[k].(phase := Connecting, attempt := s.calls[k].attempt + 1))) else None
    case UserConnect => if s.holder.None? then Some(Opened(s)) else None
    case UserClose => if s.holder.None? then Some(s.(connected := false, current := None)) else None
    case DeliverUp(c, n) =>
      if c < |s.conns| && n <= |s.conns[c].upFlight| then Some(SetConn(s, c, ArriveUp(s.conns[c], n))) else None
    case DeliverDown(c, n) =>
      if c < |s.conns| && n <= |s.conns[c].downFlight| then Some(SetConn(s, c, ArriveDown(s.conns[c], n))) else None
    case Lose(c, up, down) =>
      if c < |s.conns| && up <= |s.conns[c].upFlight| && down <= |s.conns[c].downFlight|
      then Some(SetConn(s, c, Cut(s.conns[c], up, down))) else None
    case Handle(c, tick) =>
      if c < |s.conns| && !s.conns[c].closed then HandleRequest(cfg, s, c, tick) else None
    case HandleOther(payload, tick) =>
      Some(s.(server := cfg.handle(s.server, tick, payload).0, log := s.log + [Handling(None, payload, tick)]))
    case ServerCloses(c) =>
      if c < |s.conns| then Some(SetConn(s, c, s.conns[c].(closed := true))) else None
  }

  /** The state after a run of steps. */
  function Run<S, K>(cfg: Config<S, K>, s: State<S, K>, steps: seq<Step<K>>): Option<State<S, K>> {
    if |steps| == 0 then Some(s)
    else
      var t :- Run(cfg, s, steps[..|steps| - 1]);
      Apply(cfg, t, steps[|steps| - 1])
  }
}
