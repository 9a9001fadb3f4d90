/** Commands, rule results and verdicts, and the delimiter-joined payload of Level-0 receipts. */
module Protocol {
  import opened Basics
  import opened KeyOrder
  import opened PyValues
  import opened Texts
  import Canonical
  import JsonText
  import Utf8
  import Receipts

  datatype Verdict = Allow | Escalate | Deny

  /** Commands carry the field types the client gives them; params is any Python value. */
  datatype Command = Command(agentId: string, tool: string, params: PyValue, timestamp: real, traceId: string)

  datatype RuleResult = RuleResult(ruleName: string, verdict: Verdict, reason: string, latencyUs: real, errorCode: int)

  datatype VerificationResult = VerificationResult(
    traceId: string,
    verdict: Verdict,
    blockReason: string,
    ruleResults: seq<RuleResult>,
    receipt: string,
    verifiedAt: real,
    tool: string,
    paramsHash: string,
    errorCode: int,
    l1Receipt: Option<PyValue>)

  const DEFAULT_ERROR_CODE: int := -32000

  const LATENCY_ERROR_CODE: int := -32005

  /** VerificationResult.retryable */
  predicate Retryable(v: VerificationResult) { v.errorCode == LATENCY_ERROR_CODE }

  function VerdictText(v: Verdict): string {
    match v
    case Allow => "allow"
    case Escalate => "escalate"
    case Deny => "deny"
  }

  function VerdictOf(s: string): Option<Verdict> {
    if s == "allow" then Some(Allow)
    else if s == "escalate" then Some(Escalate)
    else if s == "deny" then Some(Deny)
    else None
  }

  lemma VerdictTexts(v: Verdict)
    ensures VerdictText(Allow) == "allow" && VerdictText(Escalate) == "escalate" && VerdictText(Deny) == "deny"
    ensures VerdictOf(VerdictText(v)) == Some(v)
    ensures ':' !in VerdictText(v) && '|' !in VerdictText(v) && '=' !in VerdictText(v)
  {
  }

  /** Command.params_hash: sixteen hexadecimal digits over the sorted JSON text of the parameters. */
  function ParamsHash(c: Receipts.Crypto, params: PyValue): Result<string> {
    var text :- Canonical.DumpsText(c.floats, params);
    Ok(Receipts.Prefix(c.sha256(Utf8.Encode(text)), 16))
  }

  // ---------------------------------------------------------------- rule summary

  function SummaryItem(r: RuleResult): string { r.ruleName + "=" + VerdictText(r.verdict) }

  function SummaryItems(rs: seq<RuleResult>): (items: seq<string>)
    ensures |items| == |rs|
  {
    seq(|rs|, i requires 0 <= i < |rs| => SummaryItem(rs[i]))
  }

  function RuleSummary(rs: seq<RuleResult>): string { Join(SummaryItems(rs), '|') }

  /** The results in their order, each as name=verdict, with bars between them. */
  lemma SummaryWritten(rs: seq<RuleResult>, r: RuleResult)
    ensures RuleSummary([]) == ""
    ensures RuleSummary(rs + [r]) == (if rs == [] then "" else RuleSummary(rs) + "|") + (r.ruleName + "=" + VerdictText(r.verdict))
  {
    assert SummaryItems([]) == [];
    assert SummaryItems(rs + [r]) == SummaryItems(rs) + [SummaryItem(r)];
    if rs == [] {
      assert SummaryItems(rs) == [];
    } else {
      JoinLast(SummaryItems(rs), SummaryItem(r), '|');
    }
  }

  /** name=verdict, cut at the last '='. */
  function ReadItem(item: string): Option<(string, Verdict)> {
    var parts := Split(item, '=');
    if |parts| < 2 then None
    else match VerdictOf(parts[|parts| - 1])
      case None => None
      case Some(v) => Some((Join(parts[..|parts| - 1], '='), v))
  }

  function ReadItems(items: seq<string>): Option<seq<(string, Verdict)>> {
    if items == [] then Some([])
    else
      var first :- ReadItem(items[0]);
      var rest :- ReadItems(items[1..]);
      Some([first] + rest)
  }

  /** The names and verdicts of a rule summary. */
  function ReadSummary(s: string): Option<seq<(string, Verdict)>> {
    if s == "" then Some([]) else ReadItems(Split(s, '|'))
  }

  function NamedVerdicts(rs: seq<RuleResult>): seq<(string, Verdict)> {
    seq(|rs|, i requires 0 <= i < |rs| => (rs[i].ruleName, rs[i].verdict))
  }

  lemma ReadItemWritten(r: RuleResult)
    ensures ReadItem(SummaryItem(r)) == Some((r.ruleName, r.verdict))
  {
    var v := VerdictText(r.verdict);
    VerdictTexts(r.verdict);
    SplitConcat(r.ruleName, v, '=');
    SplitPlain(v, '=');
    var name := Split(r.ruleName, '=');
    assert r.ruleName + ['='] + v == SummaryItem(r);
    assert Split(SummaryItem(r), '=') == name + [v];
    assert (name + [v])[..|name|] == name;
    JoinSplit(r.ruleName, '=');
  }

  lemma {:induction false} ReadItemsWritten(rs: seq<RuleResult>)
    ensures ReadItems(SummaryItems(rs)) == Some(NamedVerdicts(rs))
  {
    if rs == [] {
      assert SummaryItems(rs) == [] && NamedVerdicts(rs) == [];
    } else {
      ReadItemWritten(rs[0]);
      assert SummaryItems(rs)[1..] == SummaryItems(rs[1..]);
      ReadItemsWritten(rs[1..]);
      assert NamedVerdicts(rs) == [(rs[0].ruleName, rs[0].verdict)] + NamedVerdicts(rs[1..]);
    }
  }

  lemma SummaryNotEmpty(rs: seq<RuleResult>)
    ensures rs != [] ==> RuleSummary(rs) != ""
  {
    if rs != [] {
      assert '=' in SummaryItem(rs[0]);
      assert SummaryItems(rs)[0] == SummaryItem(rs[0]);
    }
  }

  /** The summary gives the rule names and verdicts back as long as no name contains '|'. */
  lemma SummaryRecovered(rs: seq<RuleResult>)
    requires forall i :: 0 <= i < |rs| ==> '|' !in rs[i].ruleName
    ensures ReadSummary(RuleSummary(rs)) == Some(NamedVerdicts(rs))
  {
    SummaryNotEmpty(rs);
    if rs == [] {
      assert SummaryItems(rs) == [] && NamedVerdicts(rs) == [];
    } else {
      var items := SummaryItems(rs);
      forall p | p in items ensures '|' !in p {
        var i :| 0 <= i < |rs| && SummaryItem(rs[i]) == p;
        VerdictTexts(rs[i].verdict);
      }
      SplitJoin(items, '|');
      ReadItemsWritten(rs);
    }
  }

  // ---------------------------------------------------------------- Level-0 payload

  datatype L0Fields = L0Fields(
    traceId: string, verdict: Verdict, timestamp: real, tool: string, paramsHash: string, ruleSummary: string)

  /** The text sign_receipt authenticates. */
  function L0Payload(f: Floats, x: L0Fields): string {
    x.traceId + ":" + VerdictText(x.verdict) + ":" + f.repr(x.timestamp) + ":" +
    x.tool + ":" + x.paramsHash + ":" + x.ruleSummary
  }

  /** sign_receipt: the first 32 hexadecimal digits of the HMAC. */
  function L0Receipt(c: Receipts.Crypto, secret: Bytes, x: L0Fields): string {
    Receipts.Prefix(c.hmac(secret, Utf8.Encode(L0Payload(c.floats, x))), 32)
  }

  /** Reads a payload from both ends: three fields before the tool name and two after it. */
  function ReadPayload(f: Floats, s: string): Option<L0Fields> {
    var parts := Split(s, ':');
    var n := |parts|;
    if n < 6 then None
    else
      var verdict :- VerdictOf(parts[1]);
      var timestamp :- f.read(parts[2]);
      Some(L0Fields(parts[0], verdict, timestamp, Join(parts[3..n - 2], ':'), parts[n - 2], parts[n - 1]))
  }

  lemma TokenHasNoColon(tok: string)
    requires JsonText.IsToken(tok)
    ensures ':' !in tok
  {
    assert !JsonText.IsTokenChar(':');
  }

  lemma SplitAround(head: seq<string>, tool: string, tail: seq<string>, sep: char)
    requires head != [] && tail != []
    requires forall p :: p in head + tail ==> sep !in p
    ensures Split(Join(head, sep) + [sep] + tool + [sep] + Join(tail, sep), sep) == head + Split(tool, sep) + tail
  {
    var a, z := Join(head, sep), Join(tail, sep);
    SplitConcat(a + [sep] + tool, z, sep);
    SplitConcat(a, tool, sep);
    SplitJoin(head, sep);
    SplitJoin(tail, sep);
  }

  /** All six fields come back from the joined payload, even when the tool name contains ':'. */
  lemma PayloadRecovered(f: Floats, x: L0Fields)
    requires FloatsSound(f) && IsDouble(x.timestamp)
    requires ':' !in x.traceId && ':' !in x.paramsHash && ':' !in x.ruleSummary
    ensures ReadPayload(f, L0Payload(f, x)) == Some(x)
  {
    var vt, ts := VerdictText(x.verdict), f.repr(x.timestamp);
    VerdictTexts(x.verdict);
    assert ReprSound(f, x.timestamp);
    TokenHasNoColon(ts);
    var head, tail := [x.traceId, vt, ts], [x.paramsHash, x.ruleSummary];
    SplitAround(head, x.tool, tail, ':');
    JoinThree(x.traceId, vt, ts);
    assert Join(tail, ':') == x.paramsHash + ":" + x.ruleSummary;
    PayloadShape(f, x);
    var mid := Split(x.tool, ':');
    var parts := head + mid + tail;
    assert parts[3..|parts| - 2] == mid;
    JoinSplit(x.tool, ':');
  }

  lemma JoinThree(a: string, b: string, c: string)
    ensures Join([a, b, c], ':') == a + ":" + b + ":" + c
  {
    assert [a, b, c][1..] == [b, c] && [b, c][1..] == [c];
    assert Join([b, c], ':') == b + [':'] + c;
    assert a + [':'] + (b + [':'] + c) == a + ":" + b + ":" + c;
  }

  lemma PayloadShape(f: Floats, x: L0Fields)
    ensures var vt, ts := VerdictText(x.verdict), f.repr(x.timestamp);
            L0Payload(f, x) ==
            (x.traceId + ":" + vt + ":" + ts) + [':'] + x.tool + [':'] + (x.paramsHash + ":" + x.ruleSummary)
  {
  }

  /** So two payloads are the same bytes only for the same six fields. */
  lemma PayloadInjective(f: Floats, x: L0Fields, y: L0Fields)
    requires FloatsSound(f) && IsDouble(x.timestamp) && IsDouble(y.timestamp)
    requires ':' !in x.traceId && ':' !in x.paramsHash && ':' !in x.ruleSummary
    requires ':' !in y.traceId && ':' !in y.paramsHash && ':' !in y.ruleSummary
    ensures Utf8.Encode(L0Payload(f, x)) == Utf8.Encode(L0Payload(f, y)) <==> x == y
  {
    PayloadRecovered(f, x);
    PayloadRecovered(f, y);
    if Utf8.Encode(L0Payload(f, x)) == Utf8.Encode(L0Payload(f, y)) {
      Utf8.EncodeInjective(L0Payload(f, x), L0Payload(f, y));
    }
  }
}
