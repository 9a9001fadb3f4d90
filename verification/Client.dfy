/** The client's retry loop as the object runs it. */
module Client {
  import opened Basics
  import opened Protocol
  import Alignment
  import PyValues
  import Messages
  import Remote
  import Session
  import Framing

  /** What an exchange of one attempt comes to: a reply, a time-out, a lost connection, the end of the
      stream, a message that cannot be sent. */
  datatype Exchange = Reply(payload: Bytes) | TimesOut | Breaks | Ends | Unsendable(error: Error)

  /** What one attempt meets: whether the transport is closing, whether connecting fails, the exchange. */
  datatype Attempt = Attempt(closing: bool, refused: bool, exchange: Exchange)

  datatype Outcome = Done(value: VerificationResult) | Caught | Fatal(error: Error)

  /** The exceptions verify does not catch: the end of the stream and everything that is no transport error. */
  function OutcomeOf(f: PyValues.Floats, x: Exchange, now: real): Outcome {
    match x
    case Reply(payload) =>
      (match Remote.ParseReply(f, payload, now)
       case Ok(v) => Done(v)
       case Err(TransportError) => Caught
       case Err(e) => Fatal(e))
    case TimesOut => Caught
    case Breaks => Caught
    case Ends => Fatal(IncompleteRead)
    case Unsendable(e) => if e.TransportError? then Caught else Fatal(e)
  }

  predicate Connects(connected: bool, reconnect: bool, a: Attempt) {
    (connected && !a.closing) || (reconnect && !a.refused)
  }

  function TryOnce(f: PyValues.Floats, connected: bool, reconnect: bool, a: Attempt, now: real): Outcome {
    if Connects(connected, reconnect, a) then OutcomeOf(f, a.exchange, now) else Caught
  }

  /** What verify catches: no connection, a time-out, a lost connection, a message too large for a frame. */
  predicate Retried(connected: bool, reconnect: bool, a: Attempt) {
    || !Connects(connected, reconnect, a)
    || a.exchange.TimesOut? || a.exchange.Breaks? || a.exchange == Unsendable(TransportError)
  }

  /** What every other exchange ends the call with: the result in the reply or the exception of reading it, the end of
      the stream, the exception of a message that cannot be written. */
  predicate Ended(f: PyValues.Floats, x: Exchange, now: real, r: Result<VerificationResult>) {
    match x
    case Reply(payload) => r == Remote.ParseReply(f, payload, now)
    case Ends => r == Err(IncompleteRead)
    case Unsendable(e) => r == Err(e)
    case _ => false
  }

  /** An outcome as the end of the call. */
  function EndOf(x: Outcome): Result<VerificationResult> {
    match x
    case Done(v) => Ok(v)
    case Fatal(e) => Err(e)
    case Caught => Err(TransportError)
  }

  lemma TryExact(f: PyValues.Floats, connected: bool, reconnect: bool, a: Attempt, now: real)
    ensures var x := TryOnce(f, connected, reconnect, a, now);
            && (x.Caught? <==> Retried(connected, reconnect, a))
            && (!x.Caught? ==> Ended(f, a.exchange, now, EndOf(x)))
  {
    if a.exchange.Reply? { ParseErrors(f, a.exchange.payload, now); }
  }

  /** An attempt that connects anew; only the first one can reuse a connection. */
  predicate Anew(connected: bool, reconnect: bool, a: Attempt) { !(connected && !a.closing) && reconnect && !a.refused }

  /** How many connections the first n attempts open. */
  function NewConnections(connected: bool, reconnect: bool, script: nat -> Attempt, n: nat): nat {
    if n == 0 then 0
    else
      NewConnections(connected, reconnect, script, n - 1) +
      (if Anew(connected && n == 1, reconnect, script(n - 1)) then 1 else 0)
  }

  class VerifierClient {
    const floats: PyValues.Floats
    const reconnect: bool
    const maxRetries: nat
    var connected: bool
    var connections: nat

    constructor (floats: PyValues.Floats, reconnect: bool, maxRetries: nat)
      ensures this.floats == floats && this.reconnect == reconnect && this.maxRetries == maxRetries
      ensures !connected && connections == 0
    {
      this.floats, this.reconnect, this.maxRetries := floats, reconnect, maxRetries;
      connected, connections := false, 0;
    }

    /** Keeps a usable connection or opens a new one. */
    method EnsureConnected(a: Attempt) returns (r: Result<bool>)
      modifies this
      ensures r.Ok? <==> Connects(old(connected), reconnect, a)
      ensures r.Err? ==> r.error.TransportError? && connected == old(connected)
      ensures r.Ok? ==> connected && r.value == Anew(old(connected), reconnect, a)
      ensures connections == old(connections) + (if Anew(old(connected), reconnect, a) then 1 else 0)
    {
      if connected && !a.closing {
        return Ok(false);
      }
      if !reconnect || a.refused {
        return Err(TransportError);
      }
      connected, connections := true, connections + 1;
      return Ok(true);
    }

    /** One attempt of verify; a failure it catches leaves the connection unusable. */
    method Once(a: Attempt, now: real) returns (x: Outcome)
      modifies this
      ensures x.Caught? <==> Retried(old(connected), reconnect, a)
      ensures !x.Caught? ==> Ended(floats, a.exchange, now, EndOf(x))
      ensures connected <==> !x.Caught?
      ensures connections == old(connections) + (if Anew(old(connected), reconnect, a) then 1 else 0)
    {
      TryExact(floats, connected, reconnect, a, now);
      var ready := EnsureConnected(a);
      x := if ready.Ok? then OutcomeOf(floats, a.exchange, now) else Caught;
      if x.Caught? {
        connected := false;
      }
    }

    /** verify: n + 1 attempts, of which the first n failed in a way it catches. It ends with what the last one
        comes to, at once with what it does not catch, has slept one more tenth of a second after each failure, and
        keeps no connection on which it gave up a reply; an attempt after the first never uses an old connection. */
    method Verify(script: nat -> Attempt, now: real) returns (r: Result<VerificationResult>, slept: nat, n: nat)
      modifies this
      ensures n <= maxRetries
      ensures forall i :: 0 <= i < n ==> Retried(old(connected) && i == 0, reconnect, script(i))
      ensures if Retried(old(connected) && n == 0, reconnect, script(n))
              then n == maxRetries && r == Err(TransportError) && !connected
              else Ended(floats, script(n).exchange, now, r) && connected
      ensures slept == Alignment.Triangle(n)
      ensures connections == old(connections) + NewConnections(old(connected), reconnect, script, n + 1)
    {
      var lastError: Option<Error> := None;
      slept, n := 0, 0;
      ghost var first := connected;
      for attempt := 0 to maxRetries + 1
        invariant attempt == 0 ==> connected == first
        invariant attempt > 0 ==> !connected && lastError == Some(TransportError) && n == attempt - 1
        invariant forall i :: 0 <= i < attempt ==> Retried(first && i == 0, reconnect, script(i))
        invariant slept == Alignment.Triangle(if attempt <= maxRetries then attempt else maxRetries)
        invariant connections == old(connections) + NewConnections(first, reconnect, script, attempt)
      {
        n := attempt;
        var x := Once(script(attempt), now);
        if !x.Caught? {
          return EndOf(x), slept, n;
        }
        lastError := Some(TransportError);
        if attempt < maxRetries {
          slept := slept + attempt + 1;
        }
      }
      r := Err(lastError.value);
    }

    /** health_check, list_rules and get_l1_public_key: one exchange, and whatever happens to it the
        connection stays in use. */
    method Ask(a: Attempt) returns (r: Result<Bytes>)
      modifies this
      ensures Connects(old(connected), reconnect, a) ==> connected
      ensures !Connects(old(connected), reconnect, a) ==> connected == old(connected) && r.Err?
      ensures r.Ok? <==> Connects(old(connected), reconnect, a) && a.exchange.Reply?
      ensures r.Ok? ==> r.value == a.exchange.payload
    {
      var ready := EnsureConnected(a);
      if ready.Err? {
        return Err(ready.error);
      }
      match a.exchange {
        case Reply(payload) => r := Ok(payload);
        case TimesOut => r := Err(TimeoutError);
        case Breaks => r := Err(ConnectionError);
        case Ends => r := Err(IncompleteRead);
        case Unsendable(e) => r := Err(e);
      }
    }
  }

  // ---------------------------------------------------------------- the loop and the session machine

  /** What a step that ends a wait is for the loop. A header above the limit is a transport error, like a
      message that cannot be sent. */
  function ExchangeOf<K>(step: Session.Step<K>, conn: Session.Conn): Option<Exchange> {
    match step
    case Receive(_) =>
      (match Framing.DecodeFrame(conn.downBuffer)
       case Frame(p, _) => Some(Reply(p))
       case TooLarge => Some(Unsendable(TransportError))
       case Waiting => None)
    case Timeout(_, _) => Some(TimesOut)
    case ConnectionLost(_) => Some(Breaks)
    case EndOfStream(_) => Some(Ends)
    case _ => None
  }

  /** The phase and the connection flag the loop is in after an outcome. */
  ghost predicate After<S, K>(m: Session.Config<S, K>, before: Session.Call, t: Session.State<S, K>, k: nat, x: Outcome) {
    && k < |t.calls|
    && match x
       case Done(_) => t.calls[k].phase.Returned? && t.connected && t.holder.None?
       case Fatal(_) => t.calls[k].phase.Raised? && t.connected && t.holder.None?
       case Caught =>
         && !t.connected
         && if before.attempt < m.maxRetries
            then t.calls[k].phase.Sleeping? && t.calls[k].slept == before.slept + before.attempt + 1
            else t.calls[k].phase.Raised? && t.holder.None?
  }

  /** The session machine treats each end of a wait as the loop does. */
  lemma SessionAgrees<S, K>(f: PyValues.Floats, m: Session.Config<S, K>, s: Session.State<S, K>, k: nat,
                            step: Session.Step<K>, t: Session.State<S, K>, now: real)
    requires forall p :: m.parses(Session.Verify, p) <==> Remote.ParseReply(f, p, now).Ok?
    requires Session.Waits(s, k).Some? && s.calls[k].kind.Verify? && s.connected
    requires step == Session.Receive(k) || step == Session.ConnectionLost(k) || step == Session.EndOfStream(k)
             || (step.Timeout? && step.k == k)
    requires Session.Apply(m, s, step) == Some(t)
    ensures var x := ExchangeOf(step, s.conns[Session.Waits(s, k).value]);
            x.Some? && After(m, s.calls[k], t, k, OutcomeOf(f, x.value, now))
  {
    if step.Receive? {
      var found := Framing.DecodeFrame(s.conns[Session.Waits(s, k).value].downBuffer);
      if found.Frame? { ParseErrors(f, found.payload, now); }
    }
  }

  /** A connection the client takes for usable. */
  predicate InUse<S, K>(s: Session.State<S, K>) { s.connected && s.current.Some? }

  /** It treats the steps before as the loop does: a usable connection is kept, a new one is opened where the loop opens
      one, and what keeps the request from being written is a failure the loop catches. */
  lemma StartAgrees<S, K>(m: Session.Config<S, K>, s: Session.State<S, K>, k: nat, step: Session.Step<K>, t: Session.State<S, K>)
    requires k < |s.calls| && s.calls[k].kind.Verify? && Session.Apply(m, s, step) == Some(t)
    ensures step == Session.Reuse(k) ==>
              InUse(s) && t.connected && t.conns == s.conns && t.current == s.current && t.calls[k].phase.Ready?
    ensures step.Connect? && step.k == k ==>
              && Anew(InUse(s), m.reconnect, Attempt(step.closing, false, TimesOut))
              && t.connected && t.conns == s.conns + [Session.OPENED] && t.current == Some(|s.conns|) && t.calls[k].phase.Ready?
    ensures step.ConnectFails? && step.k == k ==>
              !Connects(InUse(s), m.reconnect, Attempt(step.closing, true, TimesOut)) && After(m, s.calls[k], t, k, Caught)
    ensures step == Session.Write(k) ==>
              if |s.calls[k].payload| > Framing.MAX_MESSAGE_SIZE then After(m, s.calls[k], t, k, Caught) && t.conns == s.conns
              else t.connected == s.connected && t.calls[k].phase == Session.Awaiting(s.current.value, |s.conns[s.current.value].sent|)
  {
  }

  /** A request of the other kinds that fails raises at once and leaves the connection flag alone. */
  lemma SideAgrees<S, K>(m: Session.Config<S, K>, s: Session.State<S, K>, k: nat, step: Session.Step<K>, t: Session.State<S, K>)
    requires k < |s.calls| && s.calls[k].kind.Side? && Session.Apply(m, s, step) == Some(t)
    requires (step.ConnectFails? && step.k == k) || (step.Timeout? && step.k == k) || step == Session.ConnectionLost(k)
             || step == Session.EndOfStream(k) || (step == Session.Write(k) && |s.calls[k].payload| > Framing.MAX_MESSAGE_SIZE)
    ensures t.calls[k].phase.Raised? && t.holder.None? && t.connected == s.connected && t.current == s.current
  {
  }

  lemma {:induction false} RuleErrors(rs: seq<PyValues.PyValue>)
    ensures Messages.ParseRules(rs).Err? ==> !Messages.ParseRules(rs).error.TransportError?
  {
    if rs != [] { RuleErrors(rs[1..]); }
  }

  lemma ResultErrors(m: PyValues.PyValue, now: real)
    ensures Messages.ParseResult(m, now).Err? ==> !Messages.ParseResult(m, now).error.TransportError?
  {
    var items := Messages.GetOr(m, "rule_results", PyValues.PyList([]));
    if PyValues.IsSequence(items) { RuleErrors(items.items); }
  }

  /** Reading a reply raises no transport error. */
  lemma ParseErrors(f: PyValues.Floats, payload: Bytes, now: real)
    ensures Remote.ParseReply(f, payload, now).Err? ==> !Remote.ParseReply(f, payload, now).error.TransportError?
  {
    var m := Messages.DecodeMessage(f, payload);
    if m.Ok? { ResultErrors(m.value, now); }
  }
}
