/** The verifier recovers from every state of every session. */
module VerifierRecovery {
  import opened Basics
  import opened PyValues
  import opened Protocol
  import opened Messages
  import opened Session
  import opened StaleVerdict
  import opened WholeReplies
  import Recovery
  import Remote
  import Runs
  import Server

  /** Call k got what a direct call of verify answers in server state st, and the server went on from there as
      after that direct call. */
  ghost predicate GetsLocal(cfg: Server.Config, wire: Remote.Wire, st: Server.State, tick: Remote.Tick, cmd: Command, p: Bytes,
                            now: real, t: State<Server.State, Remote.Tick>, k: nat)
  {
    var e := Server.EndingOf(cfg, st.sequence, cmd, tick.clk);
    && k < |t.calls| && t.calls[k].phase.Returned? && Recovery.Gets(t, k, p, t.calls[k].phase.reply)
    && Remote.ReadAs(cfg, wire, e, t.calls[k].phase.reply, now)
    && t.server == Server.Advance(cfg.maxAuditLog, st, e)
  }

  /** From every state a session can be in, whatever was cancelled, timed out or lost before, it can go on so
      that a new call of verify with any command the server can answer returns its own result: that of a
      direct call in the server's present state. */
  lemma VerifierRecovers(cfg: Server.Config, wire: Remote.Wire, m: Machine, steps: seq<Step<Remote.Tick>>,
                         s: State<Server.State, Remote.Tick>, tick: Remote.Tick, cmd: Command, p: Bytes, now: real)
    requires m == Remote.Machine(cfg, wire, m.reconnect, m.maxRetries) && m.reconnect && FloatsSound(cfg.crypto.floats)
    requires Run(m, Start(Server.INITIAL), steps) == Some(s)
    requires Remote.Respectful(cfg) && Remote.ClockExact(cfg, wire, tick.clk)
    requires Sendable(cfg.crypto.floats, cmd) && EncodeMessage(cfg.crypto.floats, RequestMessage(cmd)) == Ok(p)
    requires Remote.HandlePayload(cfg, wire, s.server, tick, p).1.Some?
    ensures exists t, k: nat :: Runs.Reaches(m, s, t) && |s.calls| <= k && GetsLocal(cfg, wire, s.server, tick, cmd, p, now, t, k)
  {
    var after, r := CommandReply(cfg, wire, m, s.server, tick, cmd, p, now);
    Recovery.Recovers(m, Server.INITIAL, steps, s, tick, p, after, r);
    var t, k: nat :| Runs.Reaches(m, s, t) && |s.calls| <= k && Recovery.Gets(t, k, p, r) && t.server == after;
    assert GetsLocal(cfg, wire, s.server, tick, cmd, p, now, t, k);
  }
}
