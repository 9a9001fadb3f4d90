/** The fluent receipt builder: setters and build change one receipt in place. */
module Builder {
  import opened Basics
  import opened KeyOrder
  import opened PyValues
  import opened ReceiptFields
  import opened Receipts
  import Canonical
  import Utf8

  // ---------------------------------------------------------------- numbers as Python compares them

  datatype Num = Finite(x: real) | Special(kind: NonFinite)

  function NumOf(v: PyValue): Result<Num> {
    match v
    case PyInt(n) => Ok(Finite(n as real))
    case PyFloat(x) => Ok(Finite(x))
    case PyBool(b) => Ok(Finite(if b then 1.0 else 0.0))
    case PyNonFinite(k) => Ok(Special(k))
    case _ => Err(TypeError)
  }

  /** a < b; nothing is less than NaN nor NaN less than anything. */
  predicate Below(a: Num, b: Num) {
    match (a, b)
    case (Finite(x), Finite(y)) => x < y
    case (Finite(_), Special(k)) => k == Infinity
    case (Special(k), Finite(_)) => k == NegInfinity
    case (Special(k), Special(l)) => k == NegInfinity && l == Infinity
  }

  /** 0 < a - b < 1 */
  predicate JustAhead(a: Num, b: Num) {
    a.Finite? && b.Finite? && 0.0 < a.x - b.x < 1.0
  }

  const ZERO: Num := Finite(0.0)

  // ---------------------------------------------------------------- fields

  /** A receipt no setter has touched: what the constructor and the clock put into it. */
  function Fresh(traceId: PyValue, verdict: string, timestamp: real, nonce: string, verifiedAt: real): L1Receipt {
    AllListed();
    map f: Field | f in FIELDS ::
      match f
      case TraceId => traceId
      case ReceiptVersion => PyStr(RECEIPT_VERSION)
      case Verdict => PyStr(verdict)
      case Timestamp => PyFloat(timestamp)
      case Nonce => PyStr(nonce)
      case Sequence => PyInt(0)
      case IssuedAt => PyFloat(0.0)
      case ExpiresAt => PyFloat(0.0)
      case MaxClockSkew => PyFloat(0.0)
      case SigningAlgorithm => PyStr(SIGNING_ALGORITHM)
      case VerifiedAt => PyFloat(verifiedAt)
      case LatencyUs => PyFloat(0.0)
      case _ => PyStr("")
  }

  predicate GivenAtStart(f: Field) {
    f == TraceId || f == Verdict || f == Timestamp || f == Nonce || f == VerifiedAt || f == ReceiptVersion || f == SigningAlgorithm
  }

  /** What a new receipt gets from its maker and the clock, and its times. */
  lemma FreshSays(traceId: PyValue, verdict: string, timestamp: real, nonce: string, verifiedAt: real, f: Field)
    ensures var v := Fresh(traceId, verdict, timestamp, nonce, verifiedAt)[f];
            && (f == TraceId ==> v == traceId) && (f == Verdict ==> v == PyStr(verdict)) && (f == Nonce ==> v == PyStr(nonce))
            && (f == Timestamp ==> v == PyFloat(timestamp)) && (f == VerifiedAt ==> v == PyFloat(verifiedAt))
            && (f == ReceiptVersion ==> v == PyStr("1.1")) && (f == SigningAlgorithm ==> v == PyStr("Ed25519"))
            && (f == IssuedAt || f == ExpiresAt ==> v == PyFloat(0.0))
  {
  }

  /** All the rest counts as false: no tool, no issuer, no audience, no signature. */
  lemma FreshEmpty(traceId: PyValue, verdict: string, timestamp: real, nonce: string, verifiedAt: real, f: Field)
    requires !GivenAtStart(f)
    ensures !Truthy(Fresh(traceId, verdict, timestamp, nonce, verifiedAt)[f])
  {
  }

  /** compute_hash: text is hashed as UTF-8, other data as canonical JSON. */
  function ComputeHash(c: Crypto, data: PyValue): Result<string> {
    if data.PyStr? then Ok(c.sha256(Utf8.Encode(data.s)))
    else
      var bs :- Canonical.CanonicalJson(c.floats, data);
      Ok(c.sha256(bs))
  }

  /** One setter call: a plain field, a hashed one, or the three time bounds. */
  datatype Setter =
    | Put(f: Field, v: PyValue)
    | PutHash(f: Field, data: PyValue)
    | TimeBounds(issuedAt: PyValue, expiry: PyValue, clockSkew: PyValue)

  /** The receipt after a setter call; a hash that cannot be computed leaves it as it was. */
  function Applied(c: Crypto, r: L1Receipt, s: Setter): L1Receipt {
    match s
    case Put(f, v) => r[f := v]
    case PutHash(f, data) => if ComputeHash(c, data).Ok? then r[f := PyStr(ComputeHash(c, data).value)] else r
    case TimeBounds(i, e, k) => r[IssuedAt := i][ExpiresAt := e][MaxClockSkew := k]
  }

  /** One setter call: the receipt after it, or the exception of a hash that cannot be computed. */
  function Called(c: Crypto, r: L1Receipt, s: Setter): Result<L1Receipt> {
    match s
    case PutHash(f, data) =>
      var h :- ComputeHash(c, data);
      Ok(r[f := PyStr(h)])
    case _ => Ok(Applied(c, r, s))
  }

  /** A chain of setter calls, which ends at the first that raises. */
  function Chained(c: Crypto, r: L1Receipt, setters: seq<Setter>): Result<L1Receipt> {
    if setters == [] then Ok(r)
    else
      var next :- Called(c, r, setters[0]);
      Chained(c, next, setters[1..])
  }

  // ---------------------------------------------------------------- build

  /** The alignment at the start of build: a timestamp less than a second before issue is moved up to it. */
  function Aligned(r: L1Receipt): Result<L1Receipt> {
    var issued :- NumOf(r[IssuedAt]);
    if !Below(ZERO, issued) then Ok(r)
    else
      var stamp :- NumOf(r[Timestamp]);
      Ok(if JustAhead(issued, stamp) then r[Timestamp := r[IssuedAt]][VerifiedAt := r[IssuedAt]] else r)
  }

  /** Whether the timestamp precedes a positive issue time. */
  function TooEarly(r: L1Receipt): Result<bool> {
    var issued :- NumOf(r[IssuedAt]);
    if !Below(ZERO, issued) then Ok(false)
    else
      var stamp :- NumOf(r[Timestamp]);
      Ok(Below(stamp, issued))
  }

  /** Whether a binding that signing requires is missing. */
  function Unbound(r: L1Receipt): Result<bool> {
    var expires :- NumOf(r[ExpiresAt]);
    Ok(!Truthy(r[Issuer]) || !Truthy(r[Audience]) || !Truthy(r[Action]) || (Below(expires, ZERO) || expires == ZERO))
  }

  /** What build returns for an aligned receipt. */
  function Finished(c: Crypto, r: L1Receipt, seed: Option<Bytes>): Result<L1Receipt> {
    var unbound :- (if seed.Some? then Unbound(r) else Ok(false));
    if unbound then Err(ValueError)
    else
      var early :- TooEarly(r);
      if early then Err(ValueError)
      else if seed.Some? then Sign(c, r, seed.value)
      else Ok(r)
  }

  /** The receipt in the builder after build. */
  function BuiltState(r: L1Receipt): L1Receipt { if Aligned(r).Ok? then Aligned(r).value else r }

  /** What build returns. */
  function Built(c: Crypto, r: L1Receipt, seed: Option<Bytes>): Result<L1Receipt> {
    var aligned :- Aligned(r);
    Finished(c, aligned, seed)
  }

  /** A receipt as an object: whoever holds it sees what is later written into it. */
  class ReceiptObject {
    var fields: L1Receipt

    constructor (fields: L1Receipt)
      ensures this.fields == fields
    {
      this.fields := fields;
    }
  }

  class L1ReceiptBuilder {
    const receipt: ReceiptObject

    constructor (traceId: PyValue, verdict: string, timestamp: real, nonce: string, verifiedAt: real)
      ensures fresh(receipt) && receipt.fields == Fresh(traceId, verdict, timestamp, nonce, verifiedAt)
    {
      receipt := new ReceiptObject(Fresh(traceId, verdict, timestamp, nonce, verifiedAt));
    }

    method Call(c: Crypto, s: Setter) returns (r: Result<()>)
      modifies receipt
      ensures Called(c, old(receipt.fields), s) == if r.Ok? then Ok(receipt.fields) else Err(r.error)
      ensures r.Err? ==> receipt.fields == old(receipt.fields)
    {
      match s {
        case Put(f, v) =>
          receipt.fields := receipt.fields[f := v];
        case PutHash(f, data) =>
          var h := ComputeHash(c, data);
          if h.Err? {
            return Err(h.error);
          }
          receipt.fields := receipt.fields[f := PyStr(h.value)];
        case TimeBounds(i, e, k) =>
          receipt.fields := receipt.fields[IssuedAt := i];
          receipt.fields := receipt.fields[ExpiresAt := e];
          receipt.fields := receipt.fields[MaxClockSkew := k];
      }
      return Ok(());
    }

    /** Moves a time stamp up to the issue time if it lies less than a second before it. */
    method Align() returns (r: Result<()>)
      modifies receipt
      ensures receipt.fields == BuiltState(old(receipt.fields))
      ensures Aligned(old(receipt.fields)) == if r.Ok? then Ok(receipt.fields) else Err(r.error)
    {
      var issued := NumOf(receipt.fields[IssuedAt]);
      if issued.Err? {
        return Err(issued.error);
      }
      if Below(ZERO, issued.value) {
        var stamp := NumOf(receipt.fields[Timestamp]);
        if stamp.Err? {
          return Err(stamp.error);
        }
        if JustAhead(issued.value, stamp.value) {
          receipt.fields := receipt.fields[Timestamp := receipt.fields[IssuedAt]];
          receipt.fields := receipt.fields[VerifiedAt := receipt.fields[IssuedAt]];
        }
      }
      return Ok(());
    }

    /** A signed build hands out a new receipt, an unsigned one the builder's own. */
    method Build(c: Crypto, seed: Option<Bytes>) returns (r: Result<ReceiptObject>)
      modifies receipt
      ensures receipt.fields == BuiltState(old(receipt.fields))
      ensures Built(c, old(receipt.fields), seed) == if r.Ok? then Ok(r.value.fields) else Err(r.error)
      ensures r.Ok? ==> if seed.Some? then fresh(r.value) else r.value == receipt
    {
      var aligned := Align();
      if aligned.Err? {
        return Err(aligned.error);
      }
      if seed.Some? {
        var unbound := Unbound(receipt.fields);
        if unbound.Err? {
          return Err(unbound.error);
        }
        if unbound.value {
          return Err(ValueError);
        }
      }
      var early := TooEarly(receipt.fields);
      if early.Err? {
        return Err(early.error);
      }
      if early.value {
        return Err(ValueError);
      }
      if seed.None? {
        return Ok(receipt);
      }
      var signed := Sign(c, receipt.fields, seed.value);
      if signed.Err? {
        return Err(signed.error);
      }
      var handed := new ReceiptObject(signed.value);
      return Ok(handed);
    }
  }

  /** A setter called after build changes a receipt that was handed out unsigned, and none that was signed. */
  method BuildThenCall(b: L1ReceiptBuilder, c: Crypto, seed: Option<Bytes>, s: Setter) returns (r: Result<ReceiptObject>)
    modifies b.receipt
    ensures var built := Built(c, old(b.receipt.fields), seed);
            && (r.Ok? <==> built.Ok?)
            && (r.Ok? ==> r.value.fields == if seed.Some? then built.value else Applied(c, built.value, s))
  {
    r := b.Build(c, seed);
    var _ := b.Call(c, s);
  }

  // ---------------------------------------------------------------- what build returns and when it raises

  /** A positive issue time lies a second or more after the time stamp. */
  predicate Ahead(issued: real, stamp: real) { issued > 0.0 && issued - stamp >= 1.0 }

  /** Something that signing requires is missing. */
  predicate Missing(r: L1Receipt, expires: real) {
    !Truthy(r[Issuer]) || !Truthy(r[Audience]) || !Truthy(r[Action]) || expires <= 0.0
  }

  lemma AlignedExact(r: L1Receipt, issued: real, stamp: real)
    requires IsAmount(r[IssuedAt], issued) && IsAmount(r[Timestamp], stamp)
    ensures var moved := issued > 0.0 && 0.0 < issued - stamp < 1.0;
            Aligned(r) == Ok(if moved then r[Timestamp := r[IssuedAt]][VerifiedAt := r[IssuedAt]] else r)
  {
  }

  /** The check for a time stamp before the issue, on a receipt that has been aligned. */
  lemma EarlyExact(r: L1Receipt, issued: real, stamp: real)
    requires IsAmount(r[IssuedAt], issued) && IsAmount(r[Timestamp], stamp)
    ensures TooEarly(r) == Ok(issued > 0.0 && stamp < issued)
  {
  }

  lemma UnboundExact(r: L1Receipt, expires: real)
    requires IsAmount(r[ExpiresAt], expires)
    ensures Unbound(r) == Ok(Missing(r, expires))
  {
  }

  /** build moves a time stamp that lies less than a second before a positive issue time up to it, and then: a signed
      build raises when an issuer, an audience, an action or a positive expiry is missing; either raises when the issue
      time is a second or more ahead; otherwise the receipt is signed, or handed out as it is. */
  lemma BuildExact(c: Crypto, r: L1Receipt, key: Bytes, issued: real, stamp: real, expires: real)
    requires IsAmount(r[IssuedAt], issued) && IsAmount(r[Timestamp], stamp) && IsAmount(r[ExpiresAt], expires)
    ensures var moved := issued > 0.0 && 0.0 < issued - stamp < 1.0;
            var a: L1Receipt := if moved then r[Timestamp := r[IssuedAt]][VerifiedAt := r[IssuedAt]] else r;
            && Built(c, r, None) == (if Ahead(issued, stamp) then Err(ValueError) else Ok(a))
            && Built(c, r, Some(key)) == (if Missing(r, expires) || Ahead(issued, stamp) then Err(ValueError) else Sign(c, a, key))
  {
    var moved := issued > 0.0 && 0.0 < issued - stamp < 1.0;
    var a: L1Receipt := if moved then r[Timestamp := r[IssuedAt]][VerifiedAt := r[IssuedAt]] else r;
    AlignedExact(r, issued, stamp);
    EarlyExact(a, issued, if moved then issued else stamp);
    assert a[ExpiresAt] == r[ExpiresAt] && a[Issuer] == r[Issuer] && a[Audience] == r[Audience] && a[Action] == r[Action];
    UnboundExact(a, expires);
  }

  /** Without time bounds a new receipt is built as it is and cannot be signed, whatever else is put into it. */
  lemma FreshBuilds(c: Crypto, traceId: PyValue, verdict: string, timestamp: real, nonce: string, verifiedAt: real,
                    r: L1Receipt, key: Bytes)
    requires var n := Fresh(traceId, verdict, timestamp, nonce, verifiedAt);
             r[IssuedAt] == n[IssuedAt] && r[ExpiresAt] == n[ExpiresAt] && r[Timestamp] == n[Timestamp]
    ensures Built(c, r, None) == Ok(r) && Built(c, r, Some(key)) == Err(ValueError)
  {
    FreshSays(traceId, verdict, timestamp, nonce, verifiedAt, Timestamp);
    FreshSays(traceId, verdict, timestamp, nonce, verifiedAt, IssuedAt);
    FreshSays(traceId, verdict, timestamp, nonce, verifiedAt, ExpiresAt);
    Untimed(c, r, key, timestamp);
  }

  lemma Untimed(c: Crypto, r: L1Receipt, key: Bytes, timestamp: real)
    requires r[IssuedAt] == PyFloat(0.0) && r[ExpiresAt] == PyFloat(0.0) && r[Timestamp] == PyFloat(timestamp)
    ensures Built(c, r, None) == Ok(r) && Built(c, r, Some(key)) == Err(ValueError)
  {
    BuildExact(c, r, key, 0.0, timestamp, 0.0);
  }

  /** Without an amount to compare, build raises: any build for the issue time, and for the time stamp behind a positive
      issue time; a signed one for the expiry as well. */
  lemma BuildNeedsNumbers(c: Crypto, r: L1Receipt, key: Bytes)
    ensures NotComparable(r[IssuedAt]) ==> Built(c, r, None) == Err(TypeError) && Built(c, r, Some(key)) == Err(TypeError)
    ensures NotComparable(r[Timestamp]) && (exists x :: IsAmount(r[IssuedAt], x) && x > 0.0) ==>
              Built(c, r, None) == Err(TypeError) && Built(c, r, Some(key)) == Err(TypeError)
    ensures NotComparable(r[ExpiresAt]) ==> Built(c, r, Some(key)) == Err(TypeError)
  {
  }

  /** No number at all, not even an infinite one or NaN. */
  predicate NotComparable(v: PyValue) { !v.PyInt? && !v.PyFloat? && !v.PyBool? && !v.PyNonFinite? }

  /** NaN and the infinities never come to be signed; only a time of verification may still be replaced. */
  lemma NonFiniteUnsigned(c: Crypto, r: L1Receipt, key: Bytes, f: Field)
    requires r[f].PyNonFinite? && !SetBySigning(f) && f != VerifiedAt
    ensures Built(c, r, Some(key)).Err?
  {
    var a := BuiltState(r);
    assert a[f] == r[f];
    UnsafeUnsigned(c, a, key, f);
  }

  lemma UnsafeUnsigned(c: Crypto, r: L1Receipt, key: Bytes, f: Field)
    requires !SetBySigning(f) && !Validate(r[f]) && !r[f].PyEnum?
    ensures Sign(c, r, key).Err?
  {
    var p := Prepared(c, r, c.publicKey(key));
    PreparedKeeps(c, r, c.publicKey(key), f);
    var i := SignedIndex(f);
    assert SigningDict(p).entries[i].value == p[f];
    assert !Validate(SigningDict(p));
  }

  // ---------------------------------------------------------------- what build guarantees

  /** The receipt after a run of setter calls, with a build wherever the run says so. */
  datatype Event = Setting(s: Setter) | Building

  function Run(c: Crypto, r: L1Receipt, events: seq<Event>): L1Receipt {
    if events == [] then r
    else match events[0]
      case Setting(s) => Run(c, Applied(c, r, s), events[1..])
      case Building => Run(c, BuiltState(r), events[1..])
  }

  lemma FinishedKeeps(c: Crypto, r: L1Receipt, seed: Option<Bytes>, f: Field)
    requires Finished(c, r, seed).Ok?
    ensures TooEarly(r) == Ok(false)
    ensures !SetBySigning(f) ==> Finished(c, r, seed).value[f] == r[f]
  {
    if seed.Some? && !SetBySigning(f) { SignKeeps(c, r, seed.value, f); }
  }

  lemma SameTimes(r: L1Receipt, s: L1Receipt)
    requires r[IssuedAt] == s[IssuedAt] && r[Timestamp] == s[Timestamp]
    ensures TooEarly(r) == TooEarly(s)
  {
  }

  ghost predicate NotEarly(s: L1Receipt) {
    && TooEarly(s) == Ok(false)
    && (s[IssuedAt].PyFloat? && s[IssuedAt].x > 0.0 && s[Timestamp].PyFloat? ==> s[Timestamp].x >= s[IssuedAt].x)
  }

  lemma BuiltNotEarly(c: Crypto, r: L1Receipt, seed: Option<Bytes>)
    requires Built(c, r, seed).Ok?
    ensures NotEarly(Built(c, r, seed).value)
  {
    var aligned := Aligned(r).value;
    FinishedKeeps(c, aligned, seed, IssuedAt);
    FinishedKeeps(c, aligned, seed, Timestamp);
    InTime(aligned, Finished(c, aligned, seed).value);
  }

  lemma InTime(r: L1Receipt, s: L1Receipt)
    requires r[IssuedAt] == s[IssuedAt] && r[Timestamp] == s[Timestamp] && TooEarly(r) == Ok(false)
    ensures NotEarly(s)
  {
    SameTimes(r, s);
  }

  lemma BuiltKeeps(c: Crypto, r: L1Receipt, seed: Option<Bytes>, f: Field)
    requires Built(c, r, seed).Ok? && !IsStamp(f) && !SetBySigning(f)
    ensures Built(c, r, seed).value[f] == r[f]
  {
    AlignedKeeps(r, f);
    FinishedKeeps(c, Aligned(r).value, seed, f);
  }

  lemma AlignedKeeps(r: L1Receipt, f: Field)
    requires Aligned(r).Ok? && !IsStamp(f)
    ensures Aligned(r).value[f] == r[f]
  {
  }

  function Settings(setters: seq<Setter>): (events: seq<Event>)
    ensures |events| == |setters| && forall i :: 0 <= i < |setters| ==> events[i] == Setting(setters[i])
  { seq(|setters|, i requires 0 <= i < |setters| => Setting(setters[i])) }

  /** A chain that does not raise is a run of its setters. */
  lemma {:induction false} ChainIsRun(c: Crypto, r: L1Receipt, setters: seq<Setter>)
    requires Chained(c, r, setters).Ok?
    ensures Chained(c, r, setters).value == Run(c, r, Settings(setters))
  {
    if setters != [] {
      var next := Called(c, r, setters[0]).value;
      assert next == Applied(c, r, setters[0]);
      ChainIsRun(c, next, setters[1..]);
      assert Settings(setters)[1..] == Settings(setters[1..]);
    }
  }

  /** Two and three setter calls. */
  lemma ChainTwo(c: Crypto, r: L1Receipt, a: Setter, b: Setter)
    ensures Chained(c, r, [a, b]) == (match Called(c, r, a)
                                      case Ok(s) => Called(c, s, b)
                                      case Err(e) => Err(e))
  {
    assert [a, b][1..] == [b] && [b][1..] == [];
    if Called(c, r, a).Ok? { ChainOne(c, Called(c, r, a).value, b); }
  }

  lemma ChainOne(c: Crypto, r: L1Receipt, a: Setter)
    ensures Chained(c, r, [a]) == Called(c, r, a)
  {
    assert [a][1..] == [];
  }

  lemma ChainThree(c: Crypto, r: L1Receipt, a: Setter, b: Setter, d: Setter)
    ensures Chained(c, r, [a, b, d]) == (match Called(c, r, a)
                                         case Ok(s) => Chained(c, s, [b, d])
                                         case Err(e) => Err(e))
  {
    assert [a, b, d][1..] == [b, d];
  }

  lemma {:induction false} ChainOn(c: Crypto, r: L1Receipt, xs: seq<Setter>, ys: seq<Setter>)
    ensures Chained(c, r, xs + ys) == (match Chained(c, r, xs)
                                       case Ok(s) => Chained(c, s, ys)
                                       case Err(e) => Err(e))
  {
    if xs == [] {
      assert xs + ys == ys;
    } else {
      assert (xs + ys)[0] == xs[0] && (xs + ys)[1..] == xs[1..] + ys;
      if Called(c, r, xs[0]).Ok? { ChainOn(c, Called(c, r, xs[0]).value, xs[1..], ys); }
    }
  }

  /** What an event of the run writes into a field; build itself writes only the two stamps. */
  function Writes(c: Crypto, e: Event, f: Field): Option<PyValue> {
    if e.Building? then None
    else match e.s
      case Put(g, v) => if g == f then Some(v) else None
      case PutHash(g, data) => if g == f && ComputeHash(c, data).Ok? then Some(PyStr(ComputeHash(c, data).value)) else None
      case TimeBounds(i, x, k) =>
        if f == IssuedAt then Some(i) else if f == ExpiresAt then Some(x) else if f == MaxClockSkew then Some(k) else None
  }

  /** Event i is the last one that writes f, and writes v. */
  ghost predicate WritesLast(c: Crypto, events: seq<Event>, f: Field, i: nat, v: PyValue) {
    && i < |events| && Writes(c, events[i], f) == Some(v)
    && forall j :: i < j < |events| ==> Writes(c, events[j], f).None?
  }

  /** v is what the last event to write f wrote, or what f held before the run if none did. */
  ghost predicate LastSet(c: Crypto, start: L1Receipt, events: seq<Event>, f: Field, v: PyValue) {
    || (exists i: nat :: WritesLast(c, events, f, i, v))
    || ((forall j :: 0 <= j < |events| ==> Writes(c, events[j], f).None?) && v == start[f])
  }

  predicate IsStamp(f: Field) { f == Timestamp || f == VerifiedAt }

  function Next(c: Crypto, r: L1Receipt, e: Event): L1Receipt { if e.Setting? then Applied(c, r, e.s) else BuiltState(r) }

  lemma EventWrites(c: Crypto, r: L1Receipt, e: Event, f: Field)
    requires !IsStamp(f)
    ensures Next(c, r, e)[f] == if Writes(c, e, f).Some? then Writes(c, e, f).value else r[f]
  {
  }

  lemma LaterWrite(c: Crypto, events: seq<Event>, f: Field, i: nat, v: PyValue)
    requires events != [] && WritesLast(c, events[1..], f, i, v)
    ensures WritesLast(c, events, f, i + 1, v)
  {
    forall j | i + 1 < j < |events| ensures Writes(c, events[j], f).None? { assert events[j] == events[1..][j - 1]; }
  }

  lemma NoLaterWrite(c: Crypto, r: L1Receipt, next: L1Receipt, events: seq<Event>, f: Field)
    requires events != [] && forall j :: 0 <= j < |events[1..]| ==> Writes(c, events[1..][j], f).None?
    requires next[f] == if Writes(c, events[0], f).Some? then Writes(c, events[0], f).value else r[f]
    ensures LastSet(c, r, events, f, next[f])
  {
    forall j | 0 < j < |events| ensures Writes(c, events[j], f).None? { assert events[j] == events[1..][j - 1]; }
    if Writes(c, events[0], f).Some? { assert WritesLast(c, events, f, 0, next[f]); }
  }

  lemma SetBefore(c: Crypto, r: L1Receipt, next: L1Receipt, events: seq<Event>, f: Field, v: PyValue)
    requires events != [] && LastSet(c, next, events[1..], f, v)
    requires next[f] == if Writes(c, events[0], f).Some? then Writes(c, events[0], f).value else r[f]
    ensures LastSet(c, r, events, f, v)
  {
    if i: nat :| WritesLast(c, events[1..], f, i, v) {
      LaterWrite(c, events, f, i, v);
    } else {
      NoLaterWrite(c, r, next, events, f);
    }
  }

  lemma {:induction false} RunSets(c: Crypto, r: L1Receipt, events: seq<Event>, f: Field)
    requires !IsStamp(f)
    ensures LastSet(c, r, events, f, Run(c, r, events)[f])
  {
    if events != [] {
      var next := Next(c, r, events[0]);
      RunSets(c, next, events[1..], f);
      EventWrites(c, r, events[0], f);
      SetBefore(c, r, next, events, f, Run(c, next, events[1..])[f]);
    }
  }

  /** A receipt that build returns holds, in every field but the two stamps and the four of the signature,
      what was last set or what was there before; and it is never stamped before a positive issue time. */
  lemma BuiltAsSet(c: Crypto, start: L1Receipt, events: seq<Event>, seed: Option<Bytes>)
    requires Built(c, Run(c, start, events), seed).Ok?
    ensures var s := Built(c, Run(c, start, events), seed).value;
            && NotEarly(s)
            && forall f: Field :: !IsStamp(f) && !SetBySigning(f) ==> LastSet(c, start, events, f, s[f])
  {
    var r := Run(c, start, events);
    BuiltNotEarly(c, r, seed);
    forall f: Field | !IsStamp(f) && !SetBySigning(f) ensures LastSet(c, start, events, f, Built(c, r, seed).value[f]) {
      RunSets(c, start, events, f);
      BuiltKeeps(c, r, seed, f);
    }
  }

  /** Aligning an aligned receipt changes nothing. */
  lemma AlignedStable(r: L1Receipt)
    requires Aligned(r).Ok?
    ensures Aligned(Aligned(r).value) == Aligned(r)
  {
  }

  /** Building again without a setter call in between gives the same answer and the same state. */
  lemma BuildAgain(c: Crypto, r: L1Receipt, seed: Option<Bytes>)
    ensures Built(c, BuiltState(r), seed) == Built(c, r, seed)
    ensures BuiltState(BuiltState(r)) == BuiltState(r)
  {
    if Aligned(r).Ok? { AlignedStable(r); }
  }
}
