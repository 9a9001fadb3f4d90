/** The assumptions about cryptography and float text can all hold at once. */
module Assumptions {
  import opened Basics
  import opened PyValues
  import opened Texts
  import F = ReceiptFields
  import Decimal
  import JsonText
  import Builder
  import Receipts
  import RoundTrip
  import Issuing
  import Server
  import Protocol
  import Trust
  import Rules
  import Base64
  import Canonical
  import KeyOrder
  import EndToEnd

  // ---------------------------------------------------------------- a float text

  /** m * 2^e written with E, or m / 2^e written with e. */
  function Mark(m: int, e: nat, divides: bool): string {
    Decimal.Text(m) + [if divides then 'e' else 'E'] + Decimal.Text(e)
  }

  lemma TextPlain(n: int)
    ensures Decimal.Text(n) != "" && (Decimal.IsDigit(Decimal.Text(n)[0]) || Decimal.Text(n)[0] == '-')
    ensures forall c :: c in Decimal.Text(n) ==> Decimal.IsDigit(c) || c == '-'
  {
    Decimal.DigitsRead(if n < 0 then -n else n);
  }

  lemma MarkParts(m: int, e: nat, divides: bool)
    ensures Split(Mark(m, e, divides), if divides then 'e' else 'E') == [Decimal.Text(m), Decimal.Text(e)]
    ensures (if divides then 'E' else 'e') !in Mark(m, e, divides)
  {
    var sep := if divides then 'e' else 'E';
    TextPlain(m);
    TextPlain(e);
    SplitConcat(Decimal.Text(m), Decimal.Text(e), sep);
    SplitPlain(Decimal.Text(m), sep);
    SplitPlain(Decimal.Text(e), sep);
  }

  lemma MarkInjective(m: int, e: nat, divides: bool, n: int, g: nat, other: bool)
    requires Mark(m, e, divides) == Mark(n, g, other)
    ensures m == n && e == g && divides == other
  {
    var t := Mark(m, e, divides);
    MarkParts(m, e, divides);
    MarkParts(n, g, other);
    assert (if divides then 'e' else 'E') in t;
    assert divides == other;
    assert [Decimal.Text(m), Decimal.Text(e)] == [Decimal.Text(n), Decimal.Text(g)];
    assert [Decimal.Text(m), Decimal.Text(e)][0] == Decimal.Text(m) && [Decimal.Text(m), Decimal.Text(e)][1] == Decimal.Text(e);
    assert [Decimal.Text(n), Decimal.Text(g)][0] == Decimal.Text(n) && [Decimal.Text(n), Decimal.Text(g)][1] == Decimal.Text(g);
    Decimal.ReadText(m);
    Decimal.ReadText(n);
    Decimal.ReadText(e);
    Decimal.ReadText(g);
  }

  lemma MarkChars(m: int, e: nat, divides: bool)
    ensures var t := Mark(m, e, divides);
            && t != "" && (Decimal.IsDigit(t[0]) || t[0] == '-')
            && (forall c :: c in t ==> Decimal.IsDigit(c) || c == '-' || c == 'e' || c == 'E')
            && Marked(t[1..])
  {
    var t, mark := Mark(m, e, divides), if divides then 'e' else 'E';
    TextPlain(m);
    TextPlain(e);
    assert t[0] == Decimal.Text(m)[0];
    assert t[1..][|Decimal.Text(m)| - 1] == mark;
    assert mark in t[1..];
  }

  lemma ExponentOf(mark: char, es: string)
    requires (mark == 'e' || mark == 'E') && es != "" && forall c :: c in es ==> Decimal.IsDigit(c)
    ensures Decimal.IsExponent([mark] + es) && Decimal.IsFraction([mark] + es)
  {
    Decimal.RunOfDigits(es, "");
    assert es + "" == es && ([mark] + es)[1..] == es;
    assert es[0] in es;
  }

  lemma NumberOf(ds: string, mark: char, es: string)
    requires Decimal.IsNumeral(ds) && (mark == 'e' || mark == 'E') && es != "" && forall c :: c in es ==> Decimal.IsDigit(c)
    ensures Decimal.IsNumber(ds + ([mark] + es)) && Decimal.IsNumber("-" + (ds + ([mark] + es)))
  {
    var t := ds + ([mark] + es);
    ExponentOf(mark, es);
    Decimal.RunOfDigits(ds, [mark] + es);
    assert t[|ds|..] == [mark] + es && t[0] == ds[0] && ds[0] in ds;
    assert ("-" + t)[1..] == t;
  }

  lemma MarkIsNumber(m: int, e: nat, divides: bool)
    ensures Decimal.IsNumber(Mark(m, e, divides))
  {
    var mark, es := if divides then 'e' else 'E', Decimal.Digits(e);
    var ds := Decimal.Digits(if m < 0 then -m else m);
    Decimal.DigitsRead(if m < 0 then -m else m);
    Decimal.DigitsRead(e);
    NumberOf(ds, mark, es);
    if m < 0 { SignedMark(ds, mark, es); } else { PlainMark(ds, mark, es); }
  }

  lemma PlainMark(ds: string, mark: char, es: string)
    ensures ds + [mark] + es == ds + ([mark] + es)
  {
  }

  lemma SignedMark(ds: string, mark: char, es: string)
    ensures "-" + ds + [mark] + es == "-" + (ds + ([mark] + es))
  {
  }

  lemma MarkIsToken(m: int, e: nat, divides: bool)
    ensures JsonText.IsToken(Mark(m, e, divides)) && Decimal.IsNumber(Mark(m, e, divides)) && Decimal.Read(Mark(m, e, divides)).None?
    ensures forall k :: Mark(m, e, divides) != KindText(k)
    ensures forall n :: Mark(m, e, divides) != Decimal.Text(n)
  {
    MarkChars(m, e, divides);
    MarkIsNumber(m, e, divides);
    MarkedToken(Mark(m, e, divides));
    MarkedIsNoOther(Mark(m, e, divides));
  }

  ghost predicate Marked(t: string) { exists c :: c in t && (c == 'e' || c == 'E') }

  lemma MarkedToken(t: string)
    requires t != "" && (Decimal.IsDigit(t[0]) || t[0] == '-')
    requires forall c :: c in t ==> Decimal.IsDigit(c) || c == '-' || c == 'e' || c == 'E'
    requires Marked(t[1..])
    ensures JsonText.IsToken(t) && Decimal.Read(t).None?
    ensures Marked(t)
  {
    var mark :| mark in t[1..] && (mark == 'e' || mark == 'E');
    assert mark in t;
    assert !Decimal.IsDigit(mark);
  }

  lemma MarkedIsNoOther(t: string)
    requires Marked(t)
    ensures forall k :: t != KindText(k)
    ensures forall n :: t != Decimal.Text(n)
  {
    var mark :| mark in t && (mark == 'e' || mark == 'E');
    forall n ensures t != Decimal.Text(n) { TextPlain(n); }
    KindsUnmarked(NaN, mark);
    KindsUnmarked(Infinity, mark);
    KindsUnmarked(NegInfinity, mark);
    forall k ensures t != KindText(k) {
      assert k == NaN || k == Infinity || k == NegInfinity;
    }
  }

  lemma KindsUnmarked(k: NonFinite, mark: char)
    requires mark == 'e' || mark == 'E'
    ensures mark !in KindText(k)
  {
  }

  ghost predicate Marks(x: real, m: int, e: nat, divides: bool) {
    if divides then x * Pow2(e) as real == m as real else x == (m * Pow2(e)) as real
  }

  lemma {:induction false} Pow2Positive(e: nat)
    ensures Pow2(e) > 0
  {
    if e > 0 { Pow2Positive(e - 1); }
  }

  lemma SameQuotient(x: real, y: real, p: real)
    requires x * p == y * p && p > 0.0
    ensures x == y
  {
    assert (x - y) * p == 0.0;
  }

  lemma MarksOne(x: real, y: real, m: int, e: nat, divides: bool)
    requires Marks(x, m, e, divides) && Marks(y, m, e, divides)
    ensures x == y
  {
    Pow2Positive(e);
    if divides { SameQuotient(x, y, Pow2(e) as real); }
  }

  ghost function TextOf(x: real): string {
    if x == 0.0 then Mark(0, 0, false)
    else if m: int, e: nat, divides: bool :| Marks(x, m, e, divides) then Mark(m, e, divides) else ""
  }

  lemma TextOfMarks(x: real) returns (m: int, e: nat, divides: bool)
    requires IsDouble(x)
    ensures Marks(x, m, e, divides) && TextOf(x) == Mark(m, e, divides)
  {
    if x == 0.0 {
      m, e, divides := 0, 0, false;
    } else {
      var n: int, g: nat :| DoubleWith(x, n, g);
      assert Marks(x, n, g, x != (n * Pow2(g)) as real);
      m, e, divides :| Marks(x, m, e, divides) && TextOf(x) == Mark(m, e, divides);
    }
  }

  lemma TextOfInjective(x: real, y: real)
    requires IsDouble(x) && IsDouble(y) && TextOf(x) == TextOf(y)
    ensures x == y
  {
    var m, e, divides := TextOfMarks(x);
    var n, g, other := TextOfMarks(y);
    MarkInjective(m, e, divides, n, g, other);
    MarksOne(x, y, m, e, divides);
  }

  ghost function ReadOf(t: string): Option<real> {
    if x: real :| IsDouble(x) && TextOf(x) == t then Some(x) else None
  }

  lemma ReadTextOf(x: real)
    requires IsDouble(x)
    ensures ReadOf(TextOf(x)) == Some(x)
  {
    var t := TextOf(x);
    assert IsDouble(x) && TextOf(x) == t;
    var y :| IsDouble(y) && TextOf(y) == t && ReadOf(t) == Some(y);
    TextOfInjective(x, y);
  }

  ghost function SomeFloats(): Floats { Floats(x => TextOf(x), x => TextOf(x), t => ReadOf(t)) }

  lemma SomeFloatsSound()
    ensures FloatsSound(SomeFloats())
  {
    var f := SomeFloats();
    forall x | IsDouble(x) ensures ReprSound(f, x) {
      var m, e, divides := TextOfMarks(x);
      MarkIsToken(m, e, divides);
      ReadTextOf(x);
    }
    forall x | IsDouble(x) && !IsSafeIntegral(x) ensures Es6Sound(f, x) {
      var m, e, divides := TextOfMarks(x);
      MarkIsToken(m, e, divides);
      forall y | IsDouble(y) && f.es6(x) == f.es6(y) ensures x == y { TextOfInjective(x, y); }
    }
  }

  // ---------------------------------------------------------------- a signature scheme

  function Filled(b: byte, n: nat): (bs: Bytes)
    ensures |bs| == n
  { seq(n, i => b) }

  /** Constant keys and hashes, and a signature scheme in which one payload has a signature of its own; the
      signature of every other payload is never in circulation. */
  ghost function Signing(c: Receipts.Crypto, signed: Bytes): Receipts.Crypto {
    c.(sign := (seed, msg) => Filled(if msg == signed then 2 else 3, 64),
       check := (pk, msg, sig) => sig == Filled(if msg == signed then 2 else 3, 64))
  }

  ghost function Hashing(f: Floats): Receipts.Crypto {
    Receipts.Crypto(
      seed => Filled(1, 32), (seed, msg) => Filled(3, 64), (pk, msg, sig) => true,
      bs => seq(64, i => '0'), (key, bs) => seq(64, i => '0'),
      f)
  }

  lemma SigningCorrect(f: Floats, signed: Bytes)
    ensures Receipts.Ed25519Correct(Signing(Hashing(f), signed)) && RoundTrip.HashesSized(Signing(Hashing(f), signed))
  {
  }

  lemma SigningUnforged(c: Receipts.Crypto, r: F.L1Receipt, signed: Bytes, pk: Bytes)
    requires Receipts.SigningPayload(Signing(c, signed), r) == Ok(signed)
    ensures Receipts.SignedOnly(Signing(c, signed), pk, {Filled(2, 64)}, {r})
  {
    var d := Signing(c, signed);
    forall msg, sig | sig in {Filled(2, 64)} && d.check(pk, msg, sig)
      ensures exists s :: s in {r} && Receipts.SigningPayload(d, s) == Ok(msg)
    {
      assert Filled(2, 64)[0] != Filled(3, 64)[0];
      assert r in {r};
    }
  }

  // ---------------------------------------------------------------- an answer

  /** Every assumption about a server and a relying party holds, and the server answers. */
  ghost predicate Answers(cfg: Server.Config, cmd: Protocol.Command, clk: Server.Clock, anchors: seq<Trust.TrustAnchor>) {
    && FloatsSound(cfg.crypto.floats) && Receipts.Ed25519Correct(cfg.crypto) && RoundTrip.HashesSized(cfg.crypto)
    && cfg.l1Key.Some? && Issuing.ClockExact(cfg, clk)
    && Issuing.Pinned(cfg.crypto, cfg.issuer, cfg.crypto.publicKey(cfg.l1Key.value), anchors)
    && Server.EndingOf(cfg, 0, cmd, clk).answer.Ok?
  }

  lemma EmptyCanonicalises(f: Floats)
    ensures EndToEnd.Canonicalises(f, PyDict([]))
  {
    assert Canonical.WritableDict(f, KeyOrder.Jcs, PyDict([]));
  }

  lemma NoRules(cfg: Server.Config, cmd: Protocol.Command, clk: Server.Clock)
    requires cfg.rules == []
    ensures Server.ScanOf(cfg, cmd, clk).Ok?
  {
    assert Rules.AnswersOf(cfg.rules, cmd) == [];
  }

  lemma Works(cfg: Server.Config, cmd: Protocol.Command, clk: Server.Clock, anchors: seq<Trust.TrustAnchor>)
    requires FloatsSound(cfg.crypto.floats) && Receipts.Ed25519Correct(cfg.crypto) && RoundTrip.HashesSized(cfg.crypto)
    requires cfg.l1Key.Some? && Issuing.ClockExact(cfg, clk) && cfg.rules == [] && cmd.params == PyDict([])
    requires Issuing.Pinned(cfg.crypto, cfg.issuer, cfg.crypto.publicKey(cfg.l1Key.value), anchors)
    requires EndToEnd.CanIssue(cfg, 1, cmd, clk)
    ensures exists g, m, k, a :: Answers(g, m, k, a)
  {
    NoRules(cfg, cmd, clk);
    EmptyCanonicalises(cfg.crypto.floats);
    EndToEnd.AnswerExact(cfg, 0, cmd, clk);
    assert Answers(cfg, cmd, clk, anchors);
  }

  lemma PinnedOne(c: Receipts.Crypto, issuer: string, pk: Bytes)
    ensures Issuing.Pinned(c, issuer, pk, [Trust.TrustAnchor(issuer, Base64.Encode(pk), Receipts.Fingerprint(c, pk))])
  {
    Base64.DecodeEncode(pk);
  }

  lemma DoublesHere()
    ensures IsDouble(0.0) && IsDouble(300.0)
  {
    Canonical.IntIsDouble(0);
    Canonical.IntIsDouble(300);
    assert 0 as real == 0.0 && 300 as real == 300.0;
  }

  function TheServer(c: Receipts.Crypto): Server.Config {
    Server.Config(c, [], [], Some(Filled(0, 32)), 10, "builtin", "standalone", "verifier", "agent", 0.0, "1", "rules")
  }

  const COMMAND: Protocol.Command := Protocol.Command("agent", "shell", PyDict([]), 0.0, "trace")

  function TheClock(): Server.Clock { Server.Clock(i => 0.0, 0.0, 0.0, 0.0, "nonce", 0.0) }

  function TheAnchor(c: Receipts.Crypto): Trust.TrustAnchor {
    var pk := c.publicKey(Filled(0, 32));
    Trust.TrustAnchor("verifier", Base64.Encode(pk), Receipts.Fingerprint(c, pk))
  }

  lemma TheClockExact(c: Receipts.Crypto)
    ensures Issuing.ClockExact(TheServer(c), TheClock())
  {
    DoublesHere();
  }

  lemma TheIssue(c: Receipts.Crypto, n: nat)
    requires n <= MAX_SAFE
    ensures EndToEnd.CanIssue(TheServer(c), n, COMMAND, TheClock())
  {
  }

  /** So the conditions under which an answer is accepted can be met. */
  lemma AnswerPossible()
    ensures exists cfg, cmd, clk, anchors :: Answers(cfg, cmd, clk, anchors)
  {
    var c := Signing(Hashing(SomeFloats()), []);
    SomeFloatsSound();
    SigningCorrect(SomeFloats(), []);
    TheClockExact(c);
    TheIssue(c, 1);
    PinnedOne(c, "verifier", c.publicKey(Filled(0, 32)));
    Works(TheServer(c), COMMAND, TheClock(), [TheAnchor(c)]);
  }

  // ---------------------------------------------------------------- an accepted receipt

  /** The two schemes differ only in how they sign and check. */
  ghost predicate Alike(c: Receipts.Crypto, d: Receipts.Crypto) {
    c.publicKey == d.publicKey && c.sha256 == d.sha256 && c.hmac == d.hmac && c.floats == d.floats
  }

  lemma SignAlike(c: Receipts.Crypto, d: Receipts.Crypto, r: F.L1Receipt, seed: Bytes)
    requires Alike(c, d) && Receipts.Sign(c, r, seed).Ok?
    ensures Receipts.Sign(d, r, seed).Ok?
    ensures Receipts.SigningPayload(d, Receipts.Sign(d, r, seed).value) == Receipts.SigningPayload(c, Receipts.Sign(c, r, seed).value)
  {
    var p := Receipts.Prepared(c, r, c.publicKey(seed));
    assert p == Receipts.Prepared(d, r, d.publicKey(seed));
    var payload := Receipts.SigningPayload(c, p).value;
    Receipts.PayloadIgnoresSignature(c, p, PyStr(Base64.Encode(c.sign(seed, payload))));
    Receipts.PayloadIgnoresSignature(d, p, PyStr(Base64.Encode(d.sign(seed, payload))));
  }

  lemma BuiltAlike(c: Receipts.Crypto, d: Receipts.Crypto, r: F.L1Receipt, seed: Bytes)
    requires Alike(c, d) && Builder.Built(c, r, Some(seed)).Ok?
    ensures Builder.Built(d, r, Some(seed)).Ok?
    ensures Receipts.SigningPayload(d, Builder.Built(d, r, Some(seed)).value)
         == Receipts.SigningPayload(c, Builder.Built(c, r, Some(seed)).value)
  {
    SignAlike(c, d, Builder.Aligned(r).value, seed);
  }

  lemma DigestsAlike(cfg: Server.Config, d: Receipts.Crypto, cmd: Protocol.Command, scan: Rules.Scan)
    requires Alike(cfg.crypto, d)
    ensures Server.DigestsOf(cfg.(crypto := d), cmd, scan) == Server.DigestsOf(cfg, cmd, scan)
  {
  }

  lemma DraftAlike(cfg: Server.Config, d: Receipts.Crypto, n: nat, cmd: Protocol.Command, scan: Rules.Scan, paramsHash: string,
                   digests: Result<Server.Digests>, clk: Server.Clock)
    ensures Server.DraftFrom(cfg.(crypto := d), n, cmd, scan, paramsHash, digests, clk)
         == Server.DraftFrom(cfg, n, cmd, scan, paramsHash, digests, clk)
  {
    if digests.Ok? {
      var a := Server.DraftFrom(cfg, n, cmd, scan, paramsHash, digests, clk).value;
      var b := Server.DraftFrom(cfg.(crypto := d), n, cmd, scan, paramsHash, digests, clk).value;
      forall f: F.Field ensures a[f] == b[f] {
        Server.DraftField(cfg, n, cmd, scan, paramsHash, digests, clk, f);
        Server.DraftField(cfg.(crypto := d), n, cmd, scan, paramsHash, digests, clk, f);
        ValueAlike(cfg, d, n, cmd, scan, paramsHash, digests.value, clk, f);
      }
      assert a == b;
    }
  }

  lemma ValueAlike(cfg: Server.Config, d: Receipts.Crypto, n: nat, cmd: Protocol.Command, scan: Rules.Scan, paramsHash: string,
                   digests: Server.Digests, clk: Server.Clock, f: F.Field)
    ensures Server.DraftValue(cfg.(crypto := d), n, cmd, scan, paramsHash, digests, clk, f)
         == Server.DraftValue(cfg, n, cmd, scan, paramsHash, digests, clk, f)
  {
  }

  lemma IssuedAlike(cfg: Server.Config, d: Receipts.Crypto, key: Bytes, n: nat, cmd: Protocol.Command, scan: Rules.Scan,
                    paramsHash: string, clk: Server.Clock)
    requires Alike(cfg.crypto, d) && Server.IssueReceipt(cfg, key, n, cmd, scan, paramsHash, clk).Ok?
    ensures var s := Server.IssueReceipt(cfg.(crypto := d), key, n, cmd, scan, paramsHash, clk);
            s.Ok? && Receipts.SigningPayload(d, s.value)
                  == Receipts.SigningPayload(cfg.crypto, Server.IssueReceipt(cfg, key, n, cmd, scan, paramsHash, clk).value)
  {
    var digests := Server.DigestsOf(cfg, cmd, scan);
    DigestsAlike(cfg, d, cmd, scan);
    DraftAlike(cfg, d, n, cmd, scan, paramsHash, digests, clk);
    BuiltAlike(cfg.crypto, d, Server.DraftFrom(cfg, n, cmd, scan, paramsHash, digests, clk).value, key);
  }

  lemma InputsAlike(cfg: Server.Config, d: Receipts.Crypto, cmd: Protocol.Command, clk: Server.Clock)
    requires Alike(cfg.crypto, d)
    ensures Server.ScanOf(cfg.(crypto := d), cmd, clk) == Server.ScanOf(cfg, cmd, clk)
    ensures Protocol.ParamsHash(d, cmd.params) == Protocol.ParamsHash(cfg.crypto, cmd.params)
  {
  }

  /** What is signed in the receipt of an answer does not depend on the scheme it is signed with. */
  lemma ReceiptAlike(cfg: Server.Config, d: Receipts.Crypto, n: nat, cmd: Protocol.Command, clk: Server.Clock)
    requires Alike(cfg.crypto, d) && EndToEnd.ReceiptOf(cfg, n, cmd, clk).Some?
    ensures var s := EndToEnd.ReceiptOf(cfg.(crypto := d), n, cmd, clk);
            s.Some? && Receipts.SigningPayload(d, s.value)
                    == Receipts.SigningPayload(cfg.crypto, EndToEnd.ReceiptOf(cfg, n, cmd, clk).value)
  {
    InputsAlike(cfg, d, cmd, clk);
    IssuedAlike(cfg, d, cfg.l1Key.value, n, cmd, Server.ScanOf(cfg, cmd, clk).value,
                Protocol.ParamsHash(cfg.crypto, cmd.params).value, clk);
  }

  /** The receipt of an answer is signed, and only that payload is, in this scheme. */
  lemma AnswerSigned(cfg: Server.Config, n: nat, cmd: Protocol.Command, clk: Server.Clock) returns (signed: Bytes)
    requires EndToEnd.ReceiptOf(cfg, n, cmd, clk).Some? && Receipts.Ed25519Correct(cfg.crypto)
    ensures var d := Signing(cfg.crypto, signed);
            var s := EndToEnd.ReceiptOf(cfg.(crypto := d), n, cmd, clk);
            s.Some? && Receipts.SigningPayload(d, s.value) == Ok(signed)
  {
    var r := EndToEnd.ReceiptOf(cfg, n, cmd, clk).value;
    ReceiptSigned(cfg, n, cmd, clk);
    signed := Receipts.SigningPayload(cfg.crypto, r).value;
    ReceiptAlike(cfg, Signing(cfg.crypto, signed), n, cmd, clk);
  }

  lemma ReceiptSigned(cfg: Server.Config, n: nat, cmd: Protocol.Command, clk: Server.Clock)
    requires EndToEnd.ReceiptOf(cfg, n, cmd, clk).Some?
    requires Receipts.Ed25519Correct(cfg.crypto)
    ensures var s := EndToEnd.ReceiptOf(cfg, n, cmd, clk).value;
            var payload := Receipts.SigningPayload(cfg.crypto, s);
            payload.Ok? && Receipts.SignatureOf(s) == Some(cfg.crypto.sign(cfg.l1Key.value, payload.value))
  {
    var scan, paramsHash := Server.ScanOf(cfg, cmd, clk).value, Protocol.ParamsHash(cfg.crypto, cmd.params).value;
    var draft := Server.DraftFrom(cfg, n, cmd, scan, paramsHash, Server.DigestsOf(cfg, cmd, scan), clk).value;
    BuiltSigned(cfg.crypto, draft, cfg.l1Key.value);
  }

  lemma BuiltSigned(c: Receipts.Crypto, r: F.L1Receipt, key: Bytes)
    requires Receipts.Ed25519Correct(c) && Builder.Built(c, r, Some(key)).Ok?
    ensures var s := Builder.Built(c, r, Some(key)).value;
            var payload := Receipts.SigningPayload(c, s);
            payload.Ok? && Receipts.SignatureOf(s) == Some(c.sign(key, payload.value))
  {
    BuiltIsSigned(c, r, key);
    SignedText(c, Builder.Aligned(r).value, key);
  }

  lemma BuiltIsSigned(c: Receipts.Crypto, r: F.L1Receipt, key: Bytes)
    requires Builder.Built(c, r, Some(key)).Ok?
    ensures Builder.Aligned(r).Ok? && Builder.Built(c, r, Some(key)) == Receipts.Sign(c, Builder.Aligned(r).value, key)
  {
  }

  lemma SignedText(c: Receipts.Crypto, r: F.L1Receipt, key: Bytes)
    requires Receipts.Ed25519Correct(c) && Receipts.Sign(c, r, key).Ok?
    ensures var s := Receipts.Sign(c, r, key).value;
            var payload := Receipts.SigningPayload(c, s);
            payload.Ok? && Receipts.SignatureOf(s) == Some(c.sign(key, payload.value))
  {
    Receipts.SignedShape(c, r, key);
    var s := Receipts.Sign(c, r, key).value;
    var sig := c.sign(key, Receipts.SigningPayload(c, s).value);
    assert |sig| == 64;
    Receipts.EncodedSignature(s, sig);
  }

  /** Everything AcceptedWasAnswered asks for, and AcceptedAllow. */
  ghost predicate Together(cfg: Server.Config, calls: seq<Server.Call>, r: F.L1Receipt, anchors: seq<Trust.TrustAnchor>,
                           circulating: set<Bytes>, log: set<F.L1Receipt>, t: real)
  {
    && FloatsSound(cfg.crypto.floats) && Receipts.Ed25519Correct(cfg.crypto) && RoundTrip.HashesSized(cfg.crypto)
    && cfg.l1Key.Some? && EndToEnd.ClocksExact(cfg, calls) && Receipts.FieldsWellFormed(r)
    && EndToEnd.FromAnswers(Server.Run(cfg, calls).answered, log) && Receipts.InCirculation(r, circulating)
    && Receipts.SignedOnly(cfg.crypto, cfg.crypto.publicKey(cfg.l1Key.value), circulating, log)
    && Trust.PinnedKey(r, anchors) == Some(cfg.crypto.publicKey(cfg.l1Key.value))
    && Trust.Accepts(cfg.crypto, r, anchors, t) && r[F.Verdict] == PyStr(Protocol.VerdictText(Protocol.Allow))
  }

  lemma OneAnswered(cfg: Server.Config, cmd: Protocol.Command, clk: Server.Clock)
    requires Server.EndingOf(cfg, 0, cmd, clk).answer.Ok?
    ensures Server.Run(cfg, [Server.Call(cmd, clk)]).answered == [Server.EndingOf(cfg, 0, cmd, clk).answer.value]
  {
    var calls := [Server.Call(cmd, clk)];
    assert calls[..0] == [];
    EndToEnd.LastAnswer(cfg, calls);
  }

  lemma ReceiptFromAnswer(cfg: Server.Config, cmd: Protocol.Command, clk: Server.Clock, s: F.L1Receipt)
    returns (v: Protocol.VerificationResult)
    requires cfg.l1Key.Some? && EndToEnd.ReceiptOf(cfg, 1, cmd, clk) == Some(s)
    ensures Server.Run(cfg, [Server.Call(cmd, clk)]).answered == [v] && EndToEnd.Carries(v, s)
  {
    EndToEnd.AnswerCarries(cfg, 0, cmd, clk);
    OneAnswered(cfg, cmd, clk);
    v := Server.EndingOf(cfg, 0, cmd, clk).answer.value;
  }

  lemma FromOneAnswer(v: Protocol.VerificationResult, s: F.L1Receipt)
    requires EndToEnd.Carries(v, s)
    ensures EndToEnd.FromAnswers([v], {s})
  {
    assert v in [v];
  }

  lemma HonestFields(cfg: Server.Config, calls: seq<Server.Call>, v: Protocol.VerificationResult, s: F.L1Receipt)
    requires Receipts.Ed25519Correct(cfg.crypto) && cfg.l1Key.Some? && EndToEnd.ClocksExact(cfg, calls)
    requires v in Server.Run(cfg, calls).answered && EndToEnd.Carries(v, s)
    ensures Receipts.FieldsWellFormed(s)
  {
    EndToEnd.AnswersHonest(cfg, calls, v);
    EndToEnd.CarriedHonest(v, s);
  }

  lemma AnsweredWell(cfg: Server.Config, cmd: Protocol.Command, clk: Server.Clock, s: F.L1Receipt) returns (calls: seq<Server.Call>)
    requires Receipts.Ed25519Correct(cfg.crypto) && cfg.l1Key.Some? && Issuing.ClockExact(cfg, clk) && cfg.rules == []
    requires EndToEnd.ReceiptOf(cfg, 1, cmd, clk) == Some(s)
    ensures EndToEnd.ClocksExact(cfg, calls) && Receipts.FieldsWellFormed(s)
    ensures s[F.Verdict] == PyStr(Protocol.VerdictText(Protocol.Allow))
    ensures EndToEnd.FromAnswers(Server.Run(cfg, calls).answered, {s})
  {
    calls := [Server.Call(cmd, clk)];
    var v := ReceiptFromAnswer(cfg, cmd, clk, s);
    FromOneAnswer(v, s);
    HonestFields(cfg, calls, v, s);
    SaysAllow(cfg, calls, v, s);
  }

  /** The receipt of an answer is accepted under the key it was signed with. */
  lemma AcceptedAtOnce(cfg: Server.Config, cmd: Protocol.Command, clk: Server.Clock, anchors: seq<Trust.TrustAnchor>, s: F.L1Receipt)
    requires Receipts.Ed25519Correct(cfg.crypto)
    requires cfg.l1Key.Some? && Issuing.ClockExact(cfg, clk) && cfg.clockSkew >= 0.0
    requires Issuing.Pinned(cfg.crypto, cfg.issuer, cfg.crypto.publicKey(cfg.l1Key.value), anchors)
    requires EndToEnd.ReceiptOf(cfg, 1, cmd, clk) == Some(s)
    ensures Trust.Accepts(cfg.crypto, s, anchors, clk.now)
  {
    var r, d := EndToEnd.ReceiptIssued(cfg, 1, cmd, clk);
    Issuing.AcceptanceWindow(cfg, cfg.l1Key.value, 1, cmd, clk, r, s, anchors, clk.now);
  }

  lemma AcceptedKey(cfg: Server.Config, cmd: Protocol.Command, clk: Server.Clock, anchors: seq<Trust.TrustAnchor>, s: F.L1Receipt)
    requires Receipts.Ed25519Correct(cfg.crypto) && cfg.l1Key.Some? && Issuing.ClockExact(cfg, clk)
    requires EndToEnd.ReceiptOf(cfg, 1, cmd, clk) == Some(s) && Trust.Accepts(cfg.crypto, s, anchors, clk.now)
    ensures Trust.PinnedKey(s, anchors) == Some(cfg.crypto.publicKey(cfg.l1Key.value))
  {
    var r, d := EndToEnd.ReceiptIssued(cfg, 1, cmd, clk);
    Issuing.IssuedShape(cfg.crypto, r, cfg.l1Key.value, s);
    Trust.AcceptsExact(cfg.crypto, s, anchors, clk.now);
  }

  lemma AcceptedWell(cfg: Server.Config, cmd: Protocol.Command, clk: Server.Clock, anchors: seq<Trust.TrustAnchor>, s: F.L1Receipt)
    requires Receipts.Ed25519Correct(cfg.crypto)
    requires cfg.l1Key.Some? && Issuing.ClockExact(cfg, clk) && cfg.clockSkew >= 0.0
    requires Issuing.Pinned(cfg.crypto, cfg.issuer, cfg.crypto.publicKey(cfg.l1Key.value), anchors)
    requires EndToEnd.ReceiptOf(cfg, 1, cmd, clk) == Some(s)
    ensures Trust.Accepts(cfg.crypto, s, anchors, clk.now)
    ensures Trust.PinnedKey(s, anchors) == Some(cfg.crypto.publicKey(cfg.l1Key.value))
  {
    AcceptedAtOnce(cfg, cmd, clk, anchors, s);
    AcceptedKey(cfg, cmd, clk, anchors, s);
  }

  /** Without rules the verdict is allow. */
  lemma NoRulesAllow(cfg: Server.Config, c: Server.Call, n: nat, v: Protocol.VerificationResult)
    requires cfg.rules == [] && EndToEnd.AnswerTo(cfg, c, n, v)
    ensures v.verdict == Protocol.Allow
  {
    EndToEnd.AnswerVerdict(cfg, c, n, v);
    Rules.AllowExact(Rules.AnswersOf(cfg.rules, c.cmd), c.clk.latency);
  }

  lemma SaysAllow(cfg: Server.Config, calls: seq<Server.Call>, v: Protocol.VerificationResult, s: F.L1Receipt)
    requires Receipts.Ed25519Correct(cfg.crypto) && cfg.l1Key.Some? && EndToEnd.ClocksExact(cfg, calls) && cfg.rules == []
    requires v in Server.Run(cfg, calls).answered && EndToEnd.Carries(v, s)
    ensures s[F.Verdict] == PyStr(Protocol.VerdictText(Protocol.Allow))
  {
    EndToEnd.AnswersHonest(cfg, calls, v);
    EndToEnd.CarriedHonest(v, s);
    var i, n := EndToEnd.AnsweredBy(cfg, calls, v);
    NoRulesAllow(cfg, calls[i], n, v);
  }

  ghost predicate SoundScheme(c: Receipts.Crypto) {
    FloatsSound(c.floats) && Receipts.Ed25519Correct(c) && RoundTrip.HashesSized(c)
  }

  lemma SigningSound(signed: Bytes)
    ensures SoundScheme(Signing(Hashing(SomeFloats()), signed))
  {
    SomeFloatsSound();
    SigningCorrect(SomeFloats(), signed);
  }

  /** The payload of an answer's receipt is the one that is signed in this scheme, and nothing else is. */
  lemma OnlyThatSigned(cfg: Server.Config, cmd: Protocol.Command, clk: Server.Clock, c: Receipts.Crypto, signed: Bytes, s: F.L1Receipt)
    requires cfg.crypto == Signing(c, signed) && Receipts.Ed25519Correct(cfg.crypto) && cfg.l1Key.Some?
    requires EndToEnd.ReceiptOf(cfg, 1, cmd, clk) == Some(s) && Receipts.SigningPayload(cfg.crypto, s) == Ok(signed)
    ensures Receipts.InCirculation(s, {Filled(2, 64)})
    ensures Receipts.SignedOnly(cfg.crypto, cfg.crypto.publicKey(cfg.l1Key.value), {Filled(2, 64)}, {s})
  {
    ReceiptSigned(cfg, 1, cmd, clk);
    SigningUnforged(c, s, signed, cfg.crypto.publicKey(cfg.l1Key.value));
  }

  lemma TogetherWith(cfg: Server.Config, cmd: Protocol.Command, clk: Server.Clock, anchors: seq<Trust.TrustAnchor>,
                     circulating: set<Bytes>, s: F.L1Receipt)
    requires SoundScheme(cfg.crypto) && cfg.l1Key.Some? && Issuing.ClockExact(cfg, clk) && cfg.clockSkew >= 0.0
    requires cfg.rules == []
    requires Issuing.Pinned(cfg.crypto, cfg.issuer, cfg.crypto.publicKey(cfg.l1Key.value), anchors)
    requires EndToEnd.ReceiptOf(cfg, 1, cmd, clk) == Some(s) && Receipts.InCirculation(s, circulating)
    requires Receipts.SignedOnly(cfg.crypto, cfg.crypto.publicKey(cfg.l1Key.value), circulating, {s})
    ensures exists calls, log, t :: Together(cfg, calls, s, anchors, circulating, log, t)
  {
    var calls := AnsweredWell(cfg, cmd, clk, s);
    AcceptedWell(cfg, cmd, clk, anchors, s);
    Collected(cfg, calls, s, anchors, circulating, {s}, clk.now);
  }

  lemma Collected(cfg: Server.Config, calls: seq<Server.Call>, r: F.L1Receipt, anchors: seq<Trust.TrustAnchor>,
                  circulating: set<Bytes>, log: set<F.L1Receipt>, t: real)
    requires SoundScheme(cfg.crypto)
    requires cfg.l1Key.Some? && EndToEnd.ClocksExact(cfg, calls) && Receipts.FieldsWellFormed(r)
    requires EndToEnd.FromAnswers(Server.Run(cfg, calls).answered, log) && Receipts.InCirculation(r, circulating)
    requires Receipts.SignedOnly(cfg.crypto, cfg.crypto.publicKey(cfg.l1Key.value), circulating, log)
    requires Trust.PinnedKey(r, anchors) == Some(cfg.crypto.publicKey(cfg.l1Key.value))
    requires Trust.Accepts(cfg.crypto, r, anchors, t) && r[F.Verdict] == PyStr(Protocol.VerdictText(Protocol.Allow))
    ensures exists calls, log, t :: Together(cfg, calls, r, anchors, circulating, log, t)
  {
    assert Together(cfg, calls, r, anchors, circulating, log, t);
  }

  /** Sound float text, a correct signature scheme, hash sizes, and unforgeability for a key that signs the
      receipts of the server's answers, together with such a receipt that is accepted: all at once. */
  lemma Consistent()
    ensures exists cfg, calls, r, anchors, circulating, log, t :: Together(cfg, calls, r, anchors, circulating, log, t)
  {
    var cfg, cmd, clk, anchors, circulating, s := UnforgedCase();
    TogetherWith(cfg, cmd, clk, anchors, circulating, s);
  }

  lemma UnforgedCase() returns (cfg: Server.Config, cmd: Protocol.Command, clk: Server.Clock, anchors: seq<Trust.TrustAnchor>,
                                circulating: set<Bytes>, s: F.L1Receipt)
    ensures SoundScheme(cfg.crypto) && cfg.l1Key.Some? && Issuing.ClockExact(cfg, clk) && cfg.clockSkew >= 0.0
    ensures cfg.rules == []
    ensures Issuing.Pinned(cfg.crypto, cfg.issuer, cfg.crypto.publicKey(cfg.l1Key.value), anchors)
    ensures EndToEnd.ReceiptOf(cfg, 1, cmd, clk) == Some(s) && Receipts.InCirculation(s, circulating)
    ensures Receipts.SignedOnly(cfg.crypto, cfg.crypto.publicKey(cfg.l1Key.value), circulating, {s})
  {
    var signed;
    cfg, cmd, clk, anchors, signed, s := TheCase();
    OnlyThatSigned(cfg, cmd, clk, Hashing(SomeFloats()), signed, s);
    circulating := {Filled(2, 64)};
  }

  lemma TheCase() returns (cfg: Server.Config, cmd: Protocol.Command, clk: Server.Clock, anchors: seq<Trust.TrustAnchor>,
                           signed: Bytes, s: F.L1Receipt)
    ensures cfg.crypto == Signing(Hashing(SomeFloats()), signed) && SoundScheme(cfg.crypto)
    ensures cfg.l1Key.Some? && Issuing.ClockExact(cfg, clk) && cfg.clockSkew >= 0.0 && cfg.rules == []
    ensures Issuing.Pinned(cfg.crypto, cfg.issuer, cfg.crypto.publicKey(cfg.l1Key.value), anchors)
    ensures EndToEnd.ReceiptOf(cfg, 1, cmd, clk) == Some(s) && Receipts.SigningPayload(cfg.crypto, s) == Ok(signed)
  {
    signed, s := SignedFirst(Hashing(SomeFloats()));
    var c := Signing(Hashing(SomeFloats()), signed);
    SigningSound(signed);
    TheClockExact(c);
    PinnedOne(c, "verifier", c.publicKey(Filled(0, 32)));
    cfg, cmd, clk, anchors := TheServer(c), COMMAND, TheClock(), [TheAnchor(c)];
  }

  lemma SignedFirst(c: Receipts.Crypto) returns (signed: Bytes, s: F.L1Receipt)
    requires c == Hashing(SomeFloats())
    ensures var d := Signing(c, signed);
            EndToEnd.ReceiptOf(TheServer(d), 1, COMMAND, TheClock()) == Some(s) && Receipts.SigningPayload(d, s) == Ok(signed)
  {
    FirstReceipt(c);
    signed := AnswerSigned(TheServer(c), 1, COMMAND, TheClock());
    var d := Signing(c, signed);
    assert TheServer(c).(crypto := d) == TheServer(d);
    s := EndToEnd.ReceiptOf(TheServer(d), 1, COMMAND, TheClock()).value;
  }

  lemma FirstReceipt(c: Receipts.Crypto)
    requires c == Hashing(SomeFloats())
    ensures Receipts.Ed25519Correct(c) && EndToEnd.ReceiptOf(TheServer(c), 1, COMMAND, TheClock()).Some?
  {
    TheClockExact(c);
    TheIssue(c, 1);
    FirstAnswer(TheServer(c), COMMAND, TheClock());
  }

  lemma FirstAnswer(cfg: Server.Config, cmd: Protocol.Command, clk: Server.Clock)
    requires cfg.l1Key.Some? && Issuing.ClockExact(cfg, clk) && cfg.rules == [] && cmd.params == PyDict([])
    requires EndToEnd.CanIssue(cfg, 1, cmd, clk)
    ensures EndToEnd.ReceiptOf(cfg, 1, cmd, clk).Some?
  {
    NoRules(cfg, cmd, clk);
    EmptyCanonicalises(cfg.crypto.floats);
    EndToEnd.AnswerExact(cfg, 0, cmd, clk);
    EndToEnd.AnswerCarries(cfg, 0, cmd, clk);
  }
}
