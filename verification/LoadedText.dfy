/** Which texts json.loads takes and which it refuses, with the duplicate-key hook and without; and which payloads go
    over the wire. */
module LoadedText {
  import opened Basics
  import opened KeyOrder
  import opened KeySort
  import opened PyValues
  import opened Canonical
  import opened Loading
  import Decimal
  import JsonReading
  import JsonText
  import Messages
  import ReceiptFields
  import RoundTrip
  import Utf8
  import WrittenForm

  /** At no depth does an object repeat a name. */
  ghost predicate NoRepeats(t: Tree) {
    match t
    case TArr(items) => forall i :: 0 <= i < |items| ==> NoRepeats(items[i])
    case TObj(members) =>
      && (forall i, j :: 0 <= i < j < |members| ==> members[i].key != members[j].key)
      && (forall i :: 0 <= i < |members| ==> NoRepeats(members[i].value))
    case _ => true
  }

  /** A number of section 6 of RFC 8259 that Python can read, or one of the three special names. */
  predicate IsNumeral(f: Floats, tok: string) {
    || Decimal.Read(tok).Some?
    || tok == "NaN" || tok == "Infinity" || tok == "-Infinity"
    || (Decimal.IsNumber(tok) && f.read(tok).Some?)
  }

  /** Every token is a number. */
  ghost predicate AllNumerals(f: Floats, t: Tree) {
    match t
    case TNum(tok) => IsNumeral(f, tok)
    case TArr(items) => forall i :: 0 <= i < |items| ==> AllNumerals(f, items[i])
    case TObj(members) => forall i :: 0 <= i < |members| ==> AllNumerals(f, members[i].value)
    case _ => true
  }

  lemma {:induction false} DocumentLoads(f: Floats, hook: bool, t: Tree)
    ensures FromTree(f, hook, t).Some? <==> AllNumerals(f, t) && (hook ==> NoRepeats(t))
    decreases t
  {
    match t
    case TArr(items) =>
      forall i | 0 <= i < |items|
        ensures FromTree(f, hook, items[i]).Some? <==> AllNumerals(f, items[i]) && (hook ==> NoRepeats(items[i]))
      {
        DocumentLoads(f, hook, items[i]);
      }
    case TObj(members) =>
      forall i | 0 <= i < |members|
        ensures FromTree(f, hook, members[i].value).Some? <==> AllNumerals(f, members[i].value) && (hook ==> NoRepeats(members[i].value))
      {
        DocumentLoads(f, hook, members[i].value);
      }
    case _ =>
  }

  /** A JSON document, space around it or not, whose numbers are numbers; with the hook also one in which no object
      repeats a name at any depth. */
  ghost predicate IsJson(f: Floats, hook: bool, text: string) {
    exists t :: JsonReading.Padded(t, text) && AllNumerals(f, t) && (hook ==> NoRepeats(t))
  }

  /** A text loads exactly if it is such a document. Everything else is a ValueError. */
  lemma LoadsExact(f: Floats, hook: bool, text: string)
    ensures LoadsText(f, hook, text).Ok? <==> IsJson(f, hook, text)
    ensures LoadsText(f, hook, text).Err? ==> LoadsText(f, hook, text) == Err(ValueError)
  {
    if LoadsText(f, hook, text).Ok? {
      var t := JsonText.Read(text).value;
      JsonReading.ReadExact(text, t);
      DocumentLoads(f, hook, t);
    }
    if IsJson(f, hook, text) {
      var t :| JsonReading.Padded(t, text) && AllNumerals(f, t) && (hook ==> NoRepeats(t));
      JsonReading.ReadExact(text, t);
      DocumentLoads(f, hook, t);
    }
  }

  lemma {:induction false} PutFinds(entries: seq<PyEntry>, k: string, v: PyValue, name: string)
    ensures Find(Put(entries, k, v), name) == if name == k then Some(v) else Find(entries, name)
  {
    if entries != [] && entries[0].key != PyStr(k) { PutFinds(entries[1..], k, v, name); }
  }

  /** Without the hook the last value of a repeated name counts. */
  lemma {:induction false} LastCounts(pairs: seq<Entry<PyValue>>, i: nat)
    requires i < |pairs| && forall j :: i < j < |pairs| ==> pairs[j].key != pairs[i].key
    ensures Get(PyDict(DictOf(pairs)), pairs[i].key) == Some(pairs[i].value)
  {
    var init, last := pairs[..|pairs| - 1], pairs[|pairs| - 1];
    PutFinds(DictOf(init), last.key, last.value, pairs[i].key);
    if i < |pairs| - 1 { LastCounts(init, i); }
  }

  /** from_json takes no text but that of one object in which no name is repeated at any depth, and whatever it refuses
      it refuses with a ValueError. */
  lemma FromJsonTakes(f: Floats, text: string, strict: bool, dflt: ReceiptFields.L1Receipt)
    ensures var r := RoundTrip.FromJson(f, text, strict, dflt);
            && (r.Ok? ==> exists members ::
                  JsonReading.Padded(JsonText.TObj(members), text) && AllNumerals(f, JsonText.TObj(members))
                  && NoRepeats(JsonText.TObj(members)))
            && (r.Err? ==> r == Err(ValueError))
  {
    LoadsExact(f, true, text);
    if RoundTrip.FromJson(f, text, strict, dflt).Ok? {
      var t := JsonText.Read(text).value;
      JsonReading.ReadExact(text, t);
      DocumentLoads(f, true, t);
      assert t == JsonText.TObj(t.members);
    }
  }

  // ---------------------------------------------------------------- payloads

  /** A payload is the UTF-8 of what json.dumps writes, up to a mebibyte. */
  lemma SentExact(f: Floats, msg: PyValue, payload: Bytes)
    ensures Messages.EncodeMessage(f, msg) == Ok(payload) <==>
              exists text :: WrittenForm.Writes(f, Dumps, msg, text) && payload == Utf8.Encode(text) && |payload| <= 0x10_0000
  {
    if Messages.EncodeMessage(f, msg) == Ok(payload) {
      assert WrittenForm.Writes(f, Dumps, msg, DumpsText(f, msg).value);
    }
  }

  /** A payload is read exactly if it is the UTF-8 of a JSON document; what is not is a ValueError. */
  lemma ReceivedExact(f: Floats, payload: Bytes)
    ensures Messages.DecodeMessage(f, payload).Ok? <==> exists text :: payload == Utf8.Encode(text) && IsJson(f, false, text)
    ensures Messages.DecodeMessage(f, payload).Err? ==> Messages.DecodeMessage(f, payload) == Err(ValueError)
  {
    var decoded := Utf8.Decode(payload);
    forall text ensures decoded == Some(text) <==> payload == Utf8.Encode(text) { Utf8.DecodeExact(payload, text); }
    if decoded.Some? { LoadsExact(f, false, decoded.value); }
  }
}
