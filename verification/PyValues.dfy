/** The Python values that reach a JSON writer, and what makes two of them the same JSON. */
module PyValues {
  import opened Basics
  import opened KeyOrder
  import Decimal
  import JsonText

  datatype NonFinite = NaN | Infinity | NegInfinity

  /** PyEnum is an enum member with a text value; PyOther any object JSON has no form for. */
  datatype PyValue =
    | PyNone
    | PyBool(b: bool)
    | PyInt(n: int)
    | PyFloat(x: real)
    | PyNonFinite(kind: NonFinite)
    | PyStr(s: string)
    | PyList(items: seq<PyValue>)
    | PyTuple(items: seq<PyValue>)
    | PyDict(entries: seq<PyEntry>)
    | PyEnum(text: string)
    | PyOther

  /** One key of a dict and its value; a dict lists its entries in insertion order. */
  datatype PyEntry = PyEntry(key: PyValue, value: PyValue)

  // ---------------------------------------------------------------- numbers

  const TWO53: int := 0x20_0000_0000_0000
  const MAX_SAFE: int := TWO53 - 1

  predicate IsSafe(n: int) { -MAX_SAFE <= n <= MAX_SAFE }

  function Pow2(e: nat): nat { if e == 0 then 1 else 2 * Pow2(e - 1) }

  ghost predicate DoubleWith(x: real, m: int, e: nat) {
    -TWO53 < m < TWO53 && (x == (m * Pow2(e)) as real || (e <= 1074 && x * Pow2(e) as real == m as real))
  }

  /** x is one of the finite numbers a binary64 float can hold (exponents are not bounded above). */
  ghost predicate IsDouble(x: real) { exists m: int, e: nat :: DoubleWith(x, m, e) }

  predicate IsSafeIntegral(x: real) { x == x.Floor as real && IsSafe(x.Floor) }

  /** The three float conversions the code calls: Python's repr, the ECMAScript number text of
      section 3.2.2.3 of RFC 8785, and Python's float(text). */
  datatype Floats = Floats(repr: real -> string, es6: real -> string, read: string -> Option<real>)

  function KindText(k: NonFinite): string {
    match k
    case NaN => "NaN"
    case Infinity => "Infinity"
    case NegInfinity => "-Infinity"
  }

  predicate ReprSound(f: Floats, x: real) {
    var t := f.repr(x);
    && JsonText.IsToken(t) && Decimal.IsNumber(t)
    && Decimal.Read(t).None?
    && f.read(t) == Some(x)
    && t != KindText(NaN) && t != KindText(Infinity) && t != KindText(NegInfinity)
  }

  ghost predicate Es6Sound(f: Floats, x: real) {
    && JsonText.IsToken(f.es6(x))
    && (forall n :: IsSafe(n) ==> f.es6(x) != Decimal.Text(n))
    && (forall y :: IsDouble(y) && !IsSafeIntegral(y) && f.es6(x) == f.es6(y) ==> x == y)
  }

  /** What is assumed of float text: repr reads back, looks like no integer and no special value;
      the text of a double that is not a safe integer belongs to it alone. */
  ghost predicate FloatsSound(f: Floats) {
    && (forall x :: IsDouble(x) ==> ReprSound(f, x))
    && (forall x :: IsDouble(x) && !IsSafeIntegral(x) ==> Es6Sound(f, x))
  }

  function FloatText(f: Floats, style: Style, x: real): string {
    match style
    case Jcs => if IsSafeIntegral(x) then Decimal.Text(x.Floor) else f.es6(x)
    case Dumps => f.repr(x)
  }

  predicate IsNumber(v: PyValue) { v.PyInt? || v.PyFloat? || v.PyNonFinite? }

  function NumberText(f: Floats, style: Style, v: PyValue): string
    requires IsNumber(v)
  {
    match v
    case PyInt(n) => Decimal.Text(n)
    case PyFloat(x) => FloatText(f, style, x)
    case PyNonFinite(k) => KindText(k)
  }

  // ---------------------------------------------------------------- values

  /** What Python guarantees of a value: floats are doubles and a dict has no key twice. */
  ghost predicate WellFormed(v: PyValue) {
    match v
    case PyFloat(x) => IsDouble(x)
    case PyList(items) => forall i :: 0 <= i < |items| ==> WellFormed(items[i])
    case PyTuple(items) => forall i :: 0 <= i < |items| ==> WellFormed(items[i])
    case PyDict(entries) =>
      && (forall i, j :: 0 <= i < j < |entries| ==> entries[i].key != entries[j].key)
      && (forall i :: 0 <= i < |entries| ==> WellFormed(entries[i].value))
    case _ => true
  }

  /** Whether the recursive integer check lets v through: no unsafe integer and no non-finite float. */
  predicate Validate(v: PyValue) {
    match v
    case PyInt(n) => !(n > MAX_SAFE || n < -MAX_SAFE)
    case PyNonFinite(_) => false
    case PyList(items) => forall i :: 0 <= i < |items| ==> Validate(items[i])
    case PyTuple(items) => forall i :: 0 <= i < |items| ==> Validate(items[i])
    case PyDict(entries) =>
      forall i :: 0 <= i < |entries| ==> Validate(entries[i].key) && Validate(entries[i].value)
    case _ => true
  }

  /** v is a number Python compares with others, of amount x. */
  predicate IsAmount(v: PyValue, x: real) {
    match v
    case PyInt(n) => x == n as real
    case PyFloat(y) => x == y
    case PyBool(b) => x == if b then 1.0 else 0.0
    case _ => false
  }

  predicate IsSequence(v: PyValue) { v.PyList? || v.PyTuple? }

  function NumberValue(v: PyValue): real
    requires v.PyInt? || v.PyFloat?
  { if v.PyInt? then v.n as real else v.x }

  /** Jcs knows numbers by value, Dumps also by type. */
  predicate SameNumber(style: Style, v: PyValue, w: PyValue)
    requires IsNumber(v) && IsNumber(w)
  {
    if style.Jcs? && !v.PyNonFinite? && !w.PyNonFinite? then NumberValue(v) == NumberValue(w) else v == w
  }

  ghost predicate HasKey(entries: seq<PyEntry>, k: PyValue) {
    exists i :: 0 <= i < |entries| && entries[i].key == k
  }

  /** v and w are the same JSON: key order and the difference between lists and tuples do not matter. */
  ghost predicate SameJson(style: Style, v: PyValue, w: PyValue)
    decreases v, 1
  {
    match v
    case PyNone => w.PyNone?
    case PyBool(_) => v == w
    case PyStr(_) => v == w
    case PyInt(_) => IsNumber(w) && SameNumber(style, v, w)
    case PyFloat(_) => IsNumber(w) && SameNumber(style, v, w)
    case PyNonFinite(_) => IsNumber(w) && SameNumber(style, v, w)
    case PyList(items) => IsSequence(w) && SameItems(style, items, w.items)
    case PyTuple(items) => IsSequence(w) && SameItems(style, items, w.items)
    case PyDict(_) => w.PyDict? && SameDict(style, v, w)
    case _ => false
  }

  ghost predicate SameItems(style: Style, a: seq<PyValue>, b: seq<PyValue>)
    decreases a, 0
  {
    |a| == |b| && forall i :: 0 <= i < |a| ==> SameJson(style, a[i], b[i])
  }

  ghost predicate SameDict(style: Style, v: PyValue, w: PyValue)
    requires v.PyDict? && w.PyDict?
    decreases v, 0
  {
    && (forall k :: HasKey(v.entries, k) <==> HasKey(w.entries, k))
    && (forall i, j :: 0 <= i < |v.entries| && 0 <= j < |w.entries| && v.entries[i].key == w.entries[j].key ==>
          SameJson(style, v.entries[i].value, w.entries[j].value))
  }
}
