/** The short-circuiting rule loop, and the join over the whole rule list that it computes. */
module Rules {
  import opened Basics
  import opened Protocol

  /** A rule answers a command or raises; it is taken to be deterministic. */
  datatype Rule = Rule(name: string, evaluate: Command -> Result<RuleResult>)

  datatype Scan = Scan(results: seq<RuleResult>, verdict: Verdict, blockReason: string, errorCode: int)

  type Answers = seq<Result<RuleResult>>

  /** What every rule would answer, including those the loop never reaches. */
  function AnswersOf(rules: seq<Rule>, cmd: Command): (a: Answers)
    ensures |a| == |rules| && forall i :: 0 <= i < |rules| ==> a[i] == rules[i].evaluate(cmd)
  {
    seq(|rules|, i requires 0 <= i < |rules| => rules[i].evaluate(cmd))
  }

  predicate Stops(a: Result<RuleResult>) { a.Err? || a.value.verdict == Deny }

  /** The first rule that raises or denies, or the number of rules. */
  function StopAt(answers: Answers): (n: nat)
    ensures n <= |answers|
    ensures n < |answers| ==> Stops(answers[n])
    ensures forall i :: 0 <= i < n ==> !Stops(answers[i])
  {
    if answers == [] || Stops(answers[0]) then 0 else 1 + StopAt(answers[1..])
  }

  /** The last of the first n answers that escalates. */
  function LastEscalation(answers: Answers, n: nat): Option<RuleResult>
    requires n <= StopAt(answers)
  {
    if n == 0 then None
    else if answers[n - 1].value.verdict == Escalate then Some(answers[n - 1].value)
    else LastEscalation(answers, n - 1)
  }

  function Timed(answers: Answers, n: nat, latency: nat -> real): seq<RuleResult>
    requires n <= |answers| && forall i :: 0 <= i < n ==> answers[i].Ok?
  {
    seq(n, i requires 0 <= i < n => answers[i].value.(latencyUs := latency(i)))
  }

  /** The results are the answers through the first denial; the reason is the denier's or else the last
      escalation's; the code is the denier's or else the default. */
  function Outcome(answers: Answers, latency: nat -> real): Result<Scan> {
    var n := StopAt(answers);
    if n < |answers| then
      if answers[n].Err? then Err(answers[n].error)
      else Ok(Scan(Timed(answers, n + 1, latency), Deny, answers[n].value.reason, answers[n].value.errorCode))
    else
      match LastEscalation(answers, n)
      case Some(e) => Ok(Scan(Timed(answers, n, latency), Escalate, e.reason, DEFAULT_ERROR_CODE))
      case None => Ok(Scan(Timed(answers, n, latency), Allow, "", DEFAULT_ERROR_CODE))
  }

  // ---------------------------------------------------------------- what the loop answers, rule by rule

  /** The first n rules answer, and none of them denies. */
  ghost predicate Passed(answers: Answers, n: nat) {
    n <= |answers| && forall i :: 0 <= i < n ==> answers[i].Ok? && answers[i].value.verdict != Deny
  }

  /** The results are the answers of the first n rules, each with its own latency. */
  ghost predicate Reports(answers: Answers, n: nat, latency: nat -> real, results: seq<RuleResult>) {
    && n <= |answers| && |results| == n
    && forall i: nat :: i < n ==> answers[i].Ok? && results[i] == answers[i].value.(latencyUs := latency(i))
  }

  /** Rule n is the first that denies: nothing after it is asked, and reason and code are its own. */
  ghost predicate DeniedBy(answers: Answers, n: nat, latency: nat -> real, scan: Scan) {
    && n < |answers| && Passed(answers, n) && answers[n].Ok? && answers[n].value.verdict == Deny
    && scan.blockReason == answers[n].value.reason && scan.errorCode == answers[n].value.errorCode
    && Reports(answers, n + 1, latency, scan.results)
  }

  /** Every rule is asked and none denies; rule i escalates and no later one does. The code is the default. */
  ghost predicate EscalatedBy(answers: Answers, i: nat, latency: nat -> real, scan: Scan) {
    && i < |answers| && Passed(answers, |answers|) && answers[i].value.verdict == Escalate
    && (forall j :: i < j < |answers| ==> answers[j].value.verdict == Allow)
    && scan.blockReason == answers[i].value.reason && scan.errorCode == -32000
    && Reports(answers, |answers|, latency, scan.results)
  }

  /** Every rule allows; there is no reason and the code is the default. */
  ghost predicate AllowedByAll(answers: Answers, latency: nat -> real, scan: Scan) {
    && (forall i :: 0 <= i < |answers| ==> answers[i].Ok? && answers[i].value.verdict == Allow)
    && scan.blockReason == "" && scan.errorCode == -32000
    && Reports(answers, |answers|, latency, scan.results)
  }

  /** What a scan says is what the rules answered. */
  ghost predicate Told(answers: Answers, latency: nat -> real, scan: Scan) {
    match scan.verdict
    case Deny => exists n: nat :: DeniedBy(answers, n, latency, scan)
    case Escalate => exists i: nat :: EscalatedBy(answers, i, latency, scan)
    case Allow => AllowedByAll(answers, latency, scan)
  }

  /** Rule n is the first that raises, and no rule before it denies. */
  ghost predicate RaisedBy(answers: Answers, n: nat, e: Error) { n < |answers| && Passed(answers, n) && answers[n] == Err(e) }

  /** The exception of the first rule that raises before any denies, and otherwise what the rules say. */
  ghost predicate Tells(answers: Answers, latency: nat -> real, r: Result<Scan>) {
    match r
    case Ok(scan) => Told(answers, latency, scan)
    case Err(e) => exists n: nat :: RaisedBy(answers, n, e)
  }

  lemma {:induction false} LastEscalates(answers: Answers, n: nat) returns (i: nat)
    requires n <= StopAt(answers) && LastEscalation(answers, n).Some?
    ensures i < n && answers[i].value.verdict == Escalate && LastEscalation(answers, n).value == answers[i].value
    ensures forall j :: i < j < n ==> answers[j].value.verdict == Allow
  {
    if answers[n - 1].value.verdict == Escalate { i := n - 1; } else { i := LastEscalates(answers, n - 1); }
  }

  lemma {:induction false} NoneEscalates(answers: Answers, n: nat)
    requires n <= StopAt(answers) && LastEscalation(answers, n).None?
    ensures forall j :: 0 <= j < n ==> answers[j].value.verdict == Allow
  {
    if n > 0 { NoneEscalates(answers, n - 1); }
  }

  lemma OutcomeTells(answers: Answers, latency: nat -> real)
    ensures Tells(answers, latency, Outcome(answers, latency))
  {
    var n, r := StopAt(answers), Outcome(answers, latency);
    assert Passed(answers, n);
    if n < |answers| {
      if r.Err? { assert RaisedBy(answers, n, r.error); } else { assert DeniedBy(answers, n, latency, r.value); }
    } else if LastEscalation(answers, n).Some? {
      var i := LastEscalates(answers, n);
      assert EscalatedBy(answers, i, latency, r.value);
    } else {
      NoneEscalates(answers, n);
    }
  }

  lemma {:induction false} LastEscalationSpec(answers: Answers, n: nat)
    requires n <= StopAt(answers)
    ensures LastEscalation(answers, n).Some? <==> exists i :: 0 <= i < n && answers[i].value.verdict == Escalate
  {
    if n > 0 { LastEscalationSpec(answers, n - 1); }
  }

  lemma ReportsTimed(answers: Answers, n: nat, latency: nat -> real, results: seq<RuleResult>)
    requires Reports(answers, n, latency, results)
    ensures results == Timed(answers, n, latency)
  {
  }

  lemma StopsAt(answers: Answers, n: nat)
    requires Passed(answers, n) && (n < |answers| ==> Stops(answers[n]))
    ensures StopAt(answers) == n
  {
    forall i | 0 <= i < n ensures !Stops(answers[i]) {
    }
  }

  lemma ToldExact(answers: Answers, latency: nat -> real, scan: Scan)
    requires Told(answers, latency, scan)
    ensures Ok(scan) == Outcome(answers, latency)
  {
    match scan.verdict
    case Deny =>
      var n: nat :| DeniedBy(answers, n, latency, scan);
      StopsAt(answers, n);
      ReportsTimed(answers, n + 1, latency, scan.results);
    case Escalate =>
      var i: nat :| EscalatedBy(answers, i, latency, scan);
      StopsAt(answers, |answers|);
      ReportsTimed(answers, |answers|, latency, scan.results);
      LastEscalationSpec(answers, |answers|);
      var k := LastEscalates(answers, |answers|);
      assert k == i;
    case Allow =>
      StopsAt(answers, |answers|);
      ReportsTimed(answers, |answers|, latency, scan.results);
      LastEscalationSpec(answers, |answers|);
  }

  /** Exactly one result is what the rules tell: the loop's. */
  lemma OutcomeExact(answers: Answers, latency: nat -> real, r: Result<Scan>)
    ensures Tells(answers, latency, r) <==> r == Outcome(answers, latency)
  {
    OutcomeTells(answers, latency);
    if Tells(answers, latency, r) {
      if r.Ok? {
        ToldExact(answers, latency, r.value);
      } else {
        var n: nat :| RaisedBy(answers, n, r.error);
        StopsAt(answers, n);
      }
    }
  }

  /** The rule loop of verify; latency(i) is what the performance counter says for the i-th rule. */
  method EvaluateRules(rules: seq<Rule>, cmd: Command, latency: nat -> real) returns (r: Result<Scan>)
    ensures Tells(AnswersOf(rules, cmd), latency, r)
    ensures r == Outcome(AnswersOf(rules, cmd), latency)
  {
    OutcomeExact(AnswersOf(rules, cmd), latency, Outcome(AnswersOf(rules, cmd), latency));
    ghost var answers := AnswersOf(rules, cmd);
    ghost var stop := StopAt(answers);
    var results: seq<RuleResult> := [];
    var verdict, blockReason, errorCode := Allow, "", DEFAULT_ERROR_CODE;
    var i: nat := 0;
    while i < |rules|
      invariant i <= stop <= |rules|
      invariant results == Timed(answers, i, latency)
      invariant errorCode == DEFAULT_ERROR_CODE
      invariant match LastEscalation(answers, i)
                case Some(e) => verdict == Escalate && blockReason == e.reason
                case None => verdict == Allow && blockReason == ""
    {
      var answer := rules[i].evaluate(cmd);
      assert answers[i] == answer;
      if answer.Err? {
        return Err(answer.error);
      }
      var result := answer.value.(latencyUs := latency(i));
      results := results + [result];
      assert results == Timed(answers, i + 1, latency);
      if result.verdict == Deny {
        verdict := Deny;
        blockReason := result.reason;
        errorCode := result.errorCode;
        return Ok(Scan(results, verdict, blockReason, errorCode));
      } else if result.verdict == Escalate && verdict != Deny {
        verdict := Escalate;
        blockReason := result.reason;
      }
      i := i + 1;
    }
    r := Ok(Scan(results, verdict, blockReason, errorCode));
  }

  // ---------------------------------------------------------------- the join

  function Rank(v: Verdict): nat {
    match v
    case Allow => 0
    case Escalate => 1
    case Deny => 2
  }

  function Max(v: Verdict, w: Verdict): Verdict { if Rank(v) >= Rank(w) then v else w }

  function Worst(vs: seq<Verdict>): Verdict {
    if vs == [] then Allow else Max(vs[0], Worst(vs[1..]))
  }

  function Verdicts(rs: seq<RuleResult>): seq<Verdict> {
    seq(|rs|, i requires 0 <= i < |rs| => rs[i].verdict)
  }

  function AllVerdicts(answers: Answers): seq<Verdict>
    requires forall i :: 0 <= i < |answers| ==> answers[i].Ok?
  {
    seq(|answers|, i requires 0 <= i < |answers| => answers[i].value.verdict)
  }

  lemma {:induction false} WorstSpec(vs: seq<Verdict>)
    ensures Worst(vs) == if Deny in vs then Deny else if Escalate in vs then Escalate else Allow
  {
    if vs != [] {
      WorstSpec(vs[1..]);
      assert vs == [vs[0]] + vs[1..];
    }
  }

  /** Stopping early does not change the verdict: it is the worst over the whole rule list. */
  lemma VerdictIsWorst(answers: Answers, latency: nat -> real)
    requires forall i :: 0 <= i < |answers| ==> answers[i].Ok?
    ensures Outcome(answers, latency).Ok?
    ensures Outcome(answers, latency).value.verdict == Worst(AllVerdicts(answers))
  {
    var vs, n := AllVerdicts(answers), StopAt(answers);
    WorstSpec(vs);
    LastEscalationSpec(answers, n);
    if n < |answers| {
      assert vs[n] == Deny;
    } else if LastEscalation(answers, n).Some? {
      var i :| 0 <= i < n && answers[i].value.verdict == Escalate;
      assert vs[i] == Escalate;
    }
  }

  predicate Allows(a: Result<RuleResult>) { a.Ok? && a.value.verdict == Allow }

  /** The verdict is allow exactly when every rule of the list answers allow. */
  lemma AllowExact(answers: Answers, latency: nat -> real)
    ensures Outcome(answers, latency).Ok? && Outcome(answers, latency).value.verdict == Allow <==>
              forall i :: 0 <= i < |answers| ==> Allows(answers[i])
  {
    var n := StopAt(answers);
    LastEscalationSpec(answers, n);
    if forall i :: 0 <= i < |answers| ==> Allows(answers[i]) {
      VerdictIsWorst(answers, latency);
      WorstSpec(AllVerdicts(answers));
      if Worst(AllVerdicts(answers)) != Allow { assert Worst(AllVerdicts(answers)) in AllVerdicts(answers); }
    }
  }

  /** The verdict can be recomputed from the results alone. */
  lemma VerdictFromResults(answers: Answers, latency: nat -> real)
    requires Outcome(answers, latency).Ok?
    ensures var scan := Outcome(answers, latency).value;
            scan.verdict == Worst(Verdicts(scan.results))
  {
    var scan, n := Outcome(answers, latency).value, StopAt(answers);
    var vs := Verdicts(scan.results);
    WorstSpec(vs);
    LastEscalationSpec(answers, n);
    if n < |answers| {
      assert vs[n] == Deny;
    } else if LastEscalation(answers, n).Some? {
      var i :| 0 <= i < n && answers[i].value.verdict == Escalate;
      assert vs[i] == Escalate;
    }
  }

  /** Rules that answer every command. */
  ghost predicate AnswerAll(rules: seq<Rule>, cmd: Command) {
    forall i :: 0 <= i < |rules| ==> rules[i].evaluate(cmd).Ok?
  }

  /** The verdict the loop reaches. */
  ghost function Judgement(rules: seq<Rule>, cmd: Command, latency: nat -> real): Verdict
    requires AnswerAll(rules, cmd)
  {
    VerdictIsWorst(AnswersOf(rules, cmd), latency);
    Outcome(AnswersOf(rules, cmd), latency).value.verdict
  }

  lemma VerdictsIncluded(rules: seq<Rule>, others: seq<Rule>, cmd: Command)
    requires AnswerAll(rules, cmd) && AnswerAll(others, cmd)
    requires forall r :: r in rules ==> r in others
    ensures forall v :: v in AllVerdicts(AnswersOf(rules, cmd)) ==> v in AllVerdicts(AnswersOf(others, cmd))
  {
    var vs, ws := AllVerdicts(AnswersOf(rules, cmd)), AllVerdicts(AnswersOf(others, cmd));
    forall v | v in vs ensures v in ws {
      var i :| 0 <= i < |vs| && vs[i] == v;
      assert rules[i] in others;
      var j :| 0 <= j < |others| && others[j] == rules[i];
      assert ws[j] == v;
    }
  }

  /** Reordering or repeating rules never changes the verdict, and adding rules never lowers it. */
  lemma OrderIrrelevantAndMonotone(rules: seq<Rule>, others: seq<Rule>, cmd: Command, t: nat -> real, u: nat -> real)
    requires AnswerAll(rules, cmd) && AnswerAll(others, cmd)
    requires forall r :: r in rules ==> r in others
    ensures Rank(Judgement(rules, cmd, t)) <= Rank(Judgement(others, cmd, u))
    ensures (forall r :: r in others ==> r in rules) ==> Judgement(rules, cmd, t) == Judgement(others, cmd, u)
  {
    var vs, ws := AllVerdicts(AnswersOf(rules, cmd)), AllVerdicts(AnswersOf(others, cmd));
    VerdictIsWorst(AnswersOf(rules, cmd), t);
    VerdictIsWorst(AnswersOf(others, cmd), u);
    VerdictsIncluded(rules, others, cmd);
    WorstSpec(vs);
    WorstSpec(ws);
    if forall r :: r in others ==> r in rules { VerdictsIncluded(others, rules, cmd); }
  }
}
