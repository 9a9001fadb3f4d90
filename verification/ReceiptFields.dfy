/** The thirty fields of a Level-1 receipt, their names, and receipts as tables of field values. */
module ReceiptFields {
  import opened Basics
  import opened PyValues

  datatype Field =
    | TraceId | ReceiptVersion | Verdict | Timestamp | Tool
    | ToolCallId | ParamsHash | ArgsDigest | RuleSummary | RuleVersion
    | RequestHash | ResponseHash | RuntimeContextHash | ConfigHash | VerifierSourceClass
    | DeploymentMode | Issuer | Audience | Nonce | Sequence
    | IssuedAt | ExpiresAt | MaxClockSkew | Action | Signature
    | SigningAlgorithm | PublicKeyFingerprint | PublicKey | VerifiedAt | LatencyUs

  /** The fields in the order of their declaration. */
  const FIELDS: seq<Field> := [
    TraceId, ReceiptVersion, Verdict, Timestamp, Tool,
    ToolCallId, ParamsHash, ArgsDigest, RuleSummary, RuleVersion,
    RequestHash, ResponseHash, RuntimeContextHash, ConfigHash, VerifierSourceClass,
    DeploymentMode, Issuer, Audience, Nonce, Sequence,
    IssuedAt, ExpiresAt, MaxClockSkew, Action, Signature,
    SigningAlgorithm, PublicKeyFingerprint, PublicKey, VerifiedAt, LatencyUs
  ]

  function Name(f: Field): string {
    match f
    case TraceId => "trace_id"
    case ReceiptVersion => "receipt_version"
    case Verdict => "verdict"
    case Timestamp => "timestamp"
    case Tool => "tool"
    case ToolCallId => "tool_call_id"
    case ParamsHash => "params_hash"
    case ArgsDigest => "args_digest"
    case RuleSummary => "rule_summary"
    case RuleVersion => "rule_version"
    case RequestHash => "request_hash"
    case ResponseHash => "response_hash"
    case RuntimeContextHash => "runtime_context_hash"
    case ConfigHash => "config_hash"
    case VerifierSourceClass => "verifier_source_class"
    case DeploymentMode => "deployment_mode"
    case Issuer => "issuer"
    case Audience => "audience"
    case Nonce => "nonce"
    case Sequence => "sequence"
    case IssuedAt => "issued_at"
    case ExpiresAt => "expires_at"
    case MaxClockSkew => "max_clock_skew"
    case Action => "action"
    case Signature => "signature"
    case SigningAlgorithm => "signing_algorithm"
    case PublicKeyFingerprint => "public_key_fingerprint"
    case PublicKey => "public_key"
    case VerifiedAt => "verified_at"
    case LatencyUs => "latency_us"
  }

  /** Where a field stands in the declaration. */
  function Position(f: Field): (i: nat)
    ensures i < |FIELDS| && FIELDS[i] == f
  {
    match f
    case TraceId => 0
    case ReceiptVersion => 1
    case Verdict => 2
    case Timestamp => 3
    case Tool => 4
    case ToolCallId => 5
    case ParamsHash => 6
    case ArgsDigest => 7
    case RuleSummary => 8
    case RuleVersion => 9
    case RequestHash => 10
    case ResponseHash => 11
    case RuntimeContextHash => 12
    case ConfigHash => 13
    case VerifierSourceClass => 14
    case DeploymentMode => 15
    case Issuer => 16
    case Audience => 17
    case Nonce => 18
    case Sequence => 19
    case IssuedAt => 20
    case ExpiresAt => 21
    case MaxClockSkew => 22
    case Action => 23
    case Signature => 24
    case SigningAlgorithm => 25
    case PublicKeyFingerprint => 26
    case PublicKey => 27
    case VerifiedAt => 28
    case LatencyUs => 29
  }

  /** Length, first and last character: enough to tell the names apart. */
  function Shape(s: string): (nat, char, char)
    requires s != ""
  { (|s|, s[0], s[|s| - 1]) }

  function NameShape(f: Field): (nat, char, char) {
    match f
    case TraceId => (8, 't', 'd')
    case ReceiptVersion => (15, 'r', 'n')
    case Verdict => (7, 'v', 't')
    case Timestamp => (9, 't', 'p')
    case Tool => (4, 't', 'l')
    case ToolCallId => (12, 't', 'd')
    case ParamsHash => (11, 'p', 'h')
    case ArgsDigest => (11, 'a', 't')
    case RuleSummary => (12, 'r', 'y')
    case RuleVersion => (12, 'r', 'n')
    case RequestHash => (12, 'r', 'h')
    case ResponseHash => (13, 'r', 'h')
    case RuntimeContextHash => (20, 'r', 'h')
    case ConfigHash => (11, 'c', 'h')
    case VerifierSourceClass => (21, 'v', 's')
    case DeploymentMode => (15, 'd', 'e')
    case Issuer => (6, 'i', 'r')
    case Audience => (8, 'a', 'e')
    case Nonce => (5, 'n', 'e')
    case Sequence => (8, 's', 'e')
    case IssuedAt => (9, 'i', 't')
    case ExpiresAt => (10, 'e', 't')
    case MaxClockSkew => (14, 'm', 'w')
    case Action => (6, 'a', 'n')
    case Signature => (9, 's', 'e')
    case SigningAlgorithm => (17, 's', 'm')
    case PublicKeyFingerprint => (22, 'p', 't')
    case PublicKey => (10, 'p', 'y')
    case VerifiedAt => (11, 'v', 't')
    case LatencyUs => (10, 'l', 's')
  }

  lemma ShapeOfName(f: Field)
    ensures Name(f) != "" && Shape(Name(f)) == NameShape(f)
  {
    if Position(f) < 15 { ShapeLow(f); } else { ShapeHigh(f); }
  }

  lemma ShapeLow(f: Field)
    requires Position(f) < 15
    ensures Name(f) != "" && Shape(Name(f)) == NameShape(f)
  {
  }

  lemma ShapeHigh(f: Field)
    requires Position(f) >= 15
    ensures Name(f) != "" && Shape(Name(f)) == NameShape(f)
  {
  }

  /** The field whose name has this shape. */
  function FieldOf(shape: (nat, char, char)): Field {
    match shape.0
    case 4 => Tool
    case 5 => Nonce
    case 6 => if shape.1 == 'i' then Issuer else Action
    case 7 => Verdict
    case 8 => if shape.1 == 't' then TraceId else if shape.1 == 'a' then Audience else Sequence
    case 9 => if shape.1 == 't' then Timestamp else if shape.1 == 'i' then IssuedAt else Signature
    case 10 => if shape.1 == 'e' then ExpiresAt else if shape.1 == 'p' then PublicKey else LatencyUs
    case 11 =>
      if shape.1 == 'p' then ParamsHash else if shape.1 == 'a' then ArgsDigest
      else if shape.1 == 'c' then ConfigHash else VerifiedAt
    case 12 =>
      if shape.1 == 't' then ToolCallId else if shape.2 == 'y' then RuleSummary
      else if shape.2 == 'n' then RuleVersion else RequestHash
    case 13 => ResponseHash
    case 14 => MaxClockSkew
    case 15 => if shape.1 == 'r' then ReceiptVersion else DeploymentMode
    case 17 => SigningAlgorithm
    case 20 => RuntimeContextHash
    case 21 => VerifierSourceClass
    case _ => PublicKeyFingerprint
  }

  lemma FieldOfShape(f: Field)
    ensures FieldOf(NameShape(f)) == f
  {
  }

  lemma NameInjective(f: Field, g: Field)
    ensures Name(f) == Name(g) <==> f == g
  {
    ShapeOfName(f);
    ShapeOfName(g);
    FieldOfShape(f);
    FieldOfShape(g);
  }

  lemma PositionLow(i: nat)
    requires i < 8
    ensures Position(FIELDS[i]) == i
  {
  }

  lemma PositionMid(i: nat)
    requires 8 <= i < 16
    ensures Position(FIELDS[i]) == i
  {
  }

  lemma PositionHigh(i: nat)
    requires 16 <= i < 23
    ensures Position(FIELDS[i]) == i
  {
  }

  lemma PositionLast(i: nat)
    requires 23 <= i < 30
    ensures Position(FIELDS[i]) == i
  {
  }

  /** The declaration lists every field once. */
  lemma PositionAt(i: nat)
    requires i < |FIELDS|
    ensures Position(FIELDS[i]) == i
  {
    if i < 8 { PositionLow(i); } else if i < 16 { PositionMid(i); } else if i < 23 { PositionHigh(i); } else { PositionLast(i); }
  }

  // ---------------------------------------------------------------- receipts

  ghost predicate Total(fields: map<Field, PyValue>) { forall f: Field :: f in fields }

  lemma AllListed()
    ensures forall f: Field :: f in FIELDS
  {
    forall f: Field ensures f in FIELDS { assert FIELDS[Position(f)] == f; }
  }

  function Blank(): (r: map<Field, PyValue>)
    ensures Total(r)
  {
    AllListed();
    map f: Field | f in FIELDS :: PyNone
  }

  /** A receipt gives every field a value, of whatever Python type it was given. */
  type L1Receipt = r: map<Field, PyValue> | Total(r) witness Blank()
}
