# CCS verifier: model and proofs

A Dafny model of the CCS runtime verifier: a server evaluates commands against rules and signs receipts, a
client asks it over a framed byte stream, and a relying party decides whether to trust a receipt. The proofs
follow a command all the way: over the wire, through the rule loop, into a signed receipt, back to the caller,
and to the decision that accepts the receipt.

Check everything with `dafny verify dfyconfig.toml` (Dafny 4.11).

## What is modelled

- **Sessions** (`Session`, `Streams`, `ServerLog`, `Alignment`, `Guarantees`, `Runs`, `LateReplies`, `Recovery`,
  `Resync`, `Client`): one client object with its lock, its connection flag and its retry loop; any number of
  concurrent calls; connections as byte streams in both directions that deliver in arbitrary chunks and drop; time-outs,
  cancellation, reconnects; the server's connection handlers, which interleave only around whole calls of
  `verify`; other clients of the same server. A state machine of twenty kinds of steps, and an invariant kept
  by every one. `Client.VerifierClient` is the retry loop as the object runs it.
- **Encodings** (`Framing`, `Utf8`, `Decimal`, `JsonText`, `JsonReading`, `KeyOrder`, `KeySort`, `PyValues`, `Canonical`,
  `WrittenForm`, `NulFree`, `Loading`, `LoadedText`, `SafeIntegers`, `Base64`, `Base64Text`, `Protocol`, `Messages`): frames,
  canonical JSON (sections 3.2.2 to 3.2.4 of RFC 8785), `json.dumps` with sorted keys and `json.loads`, canonical Base64
  (sections 3.5 and 4 of RFC 4648), the delimiter-joined Level-0 payload, and the request and result messages. Both JSON
  writers are proved unambiguous through one parser that reads them back; `WrittenForm` says what they write, and
  `JsonReading` what the parser takes. Base64 decoding is that of the standard library of Python
  3.10 or of later versions, which differ on superfluous padding; every result holds for both.
- **Receipts** (`ReceiptFields`, `Receipts`, `FromDict`, `RoundTrip`, `Builder`, `Trust`, `Issuing`): the thirty
  fields with the Python values they may hold, signing and verifying, `from_dict` with its legacy names, the
  builder object, and the trust decision.
- **The server** (`Rules`, `Server`, `Drafting`, `Contents`): the short-circuiting rule loop, the receipt it issues and every
  field of it, the trimmed audit log, the counters and the sequence number, over any run of calls, some of which raise.
- **Compositions** (`Remote`, `WholeReplies`, `StaleVerdict`, `VerifierRecovery`, `EndToEnd`): remote verification is local
  verification; what a client returns after reads were given up anywhere; what an answer is worth to a relying
  party; what an accepted receipt says about the server.
- **Instances** (`Assumptions`, `FailingRun`): concrete servers, keys and clocks for which the assumptions below
  hold, and a concrete run.

Objects that the source updates in place are classes with methods proved against specification functions
(`Framing.FrameReader`, `Builder.L1ReceiptBuilder`, `Server.VerifierServer`, `Client.VerifierClient`); loops over
local variables are methods with invariants (`Rules.EvaluateRules`, `Trust.FindAnchor`, `FromDict.FromDict`,
`Loading.CheckDuplicateKeys`).

## What is assumed

Nothing is axiomatised. Cryptography, hashing and float text are function parameters (`Receipts.Crypto`,
`PyValues.Floats`), and each lemma names what it needs of them: `Receipts.Ed25519Correct` (sizes, and a signature
checks under its own key, section 5.1 of RFC 8032; signing is a function, so it is deterministic as in section
5.1.6), `Receipts.SignedOnly` (the signatures in circulation check for nothing but payloads the key holder
signed), `RoundTrip.HashesSized`, and `PyValues.FloatsSound` (`repr` writes a JSON number that reads back and is no integer; the
number text of a double that is not a safe integer belongs to it alone). `Assumptions.Consistent` shows that all
of them can hold together, for a server that answers and a receipt of it that is accepted. Fingerprints and parameter hashes are never assumed injective. Clocks, latencies,
nonces, Python's `round(x, 2)` and the rules are parameters as well. `Remote.Respectful` says that a rule does
not tell a list from a tuple or one key order from another in the parameters, which is all the wire changes.
`WholeReplies.PlainWire` says of the messages that are no results what `ccs_verifier/server.py:313-353` shows: each is
an object whose names begin with lower-case letters, and none of them is `trace_id`.

Time is real-valued. `Issuing.ClockExact` says that floats can hold the clock readings and the two times computed
from them, so that no rounding is modelled.

## Where the code differs from its comments

The model follows the code.

- The expiry check accepts a receipt at the very last moment, and nothing checks that a receipt is not used before
  it was issued (`ccs_verifier/trust.py:138-145`).
- A receipt whose dict uses the legacy time names reads back as the same receipt, so its signature still verifies
  when the values are unchanged (`ccs_verifier/ccs_verifier_l1.py:439-447`).
- `max_audit_log = 0` trims nothing, because the last zero entries of a list are written as the whole list
  (`ccs_verifier/server.py:252-253`).
- The docstring of `verify` promises a `TransportError` when the verifier is unreachable. The end of the stream
  raises `IncompleteReadError`, which the loop does not catch: the call raises it, is not retried, and the connection
  stays in use (`ccs_verifier/client.py:146-165`).
- A timed-out `health_check`, `list_rules` or `get_l1_public_key`, and any cancelled call, leaves the connection in
  use with its reply still to come (`ccs_verifier/client.py:169-223`). What later calls on it get:
  - As long as no given-up read had taken a header without its payload, each reads the reply to the request as many
    places before its own as reads were given up, so its own only if none was (`Guarantees.ReplyAttribution`).
    `StaleVerdict` shows for every server, and `FailingRun` for a concrete one, how `verify` then returns the verdict
    on another command; nothing in the client compares the trace id of the reply with the one it sent.
  - If a given-up read took a header alone, the client goes on reading inside a frame. In that state the session
    machine by itself only says where the bytes were read. For the verifier's own messages, a `verify` call that reads
    next meets a length that is too large and drops the connection (`WholeReplies.NoResultAfterHeader`); and whatever a
    `verify` call returns in any run is a whole reply to some verify request written on its connection
    (`WholeReplies.NeverGarbage`).
  - Closing the connection is enough to recover (`VerifierRecovery.VerifierRecovers`).
- The signature pattern ends in `$`, which also matches before a final line break; the length and re-encoding checks
  that follow reject such text (`ccs_verifier/ccs_verifier_l1.py:377-387`).

## Model

| member | source | states |
|---|---|---|
| `Framing.HeaderOfHeaderValue` | ccs_verifier/transport/base.py:41-48 | Every four bytes are the big-endian header of the length they announce, and of no other. |
| `Framing.ChunkingIrrelevant` | ccs_verifier/transport/base.py:45-52 | However a byte stream is cut into chunks, repeated decoding ends with the same messages, the same unused bytes and the same failure. |
| `Framing.FramesRead` | ccs_verifier/transport/base.py:36-52 | A cut-off stream of frames yields a prefix of the messages and never an error, and all of them exactly when nothing is missing. |
| `Framing.FramesRoundTrip` | ccs_verifier/transport/base.py:36-52 | The frames of any list of payloads that fit, split anywhere, decode to exactly that list with no byte left over. |
| `Messages.MessagesRoundTrip` | ccs_verifier/transport/base.py:36-52 | The frames of any list of encodable messages, split anywhere, decode to exactly as many messages, each the same JSON as the one sent, with no byte left over. |
| `Framing.FrameReader.Poll` | ccs_verifier/transport/base.py:45-52 | The suspended decoder, which takes the header before it waits for the payload, finds what decoding all unread bytes at once would find. |
| `KeyOrder.StrictTotalOrder` | ccs_verifier/ccs_verifier_l1.py:190 | Order by UTF-16 code units, and order by code points, is a strict total order on texts. |
| `KeyOrder.PrefixFirst` | ccs_verifier/ccs_verifier_l1.py:190 | A text comes before every longer text it begins, in either order. |
| `KeyOrder.OrdersDisagree` | ccs_verifier/ccs_verifier_l1.py:190 | The two orders differ on two texts exactly when at the first difference one has a supplementary character and the other one at or above U+E000. |
| `KeySort.SortSorted` | ccs_verifier/ccs_verifier_l1.py:190 | The members of an object are written in strictly increasing order of their names. |
| `KeySort.SortCanonical` | ccs_verifier/ccs_verifier_l1.py:184-205 | Objects with the same members in any insertion order are written alike, and only those are. |
| `Utf8.DecodeEncode` | ccs_verifier/transport/base.py:38-52 | The strict UTF-8 decoder reads back every text the encoder wrote. |
| `Utf8.DecodeExact` | ccs_verifier/transport/base.py:52 | The strict decoder takes the encoding of each text and no other bytes: no overlong forms, no surrogates. |
| `Utf8.CharBits` | ccs_verifier/ccs_verifier_l1.py:192 | A character becomes one to four bytes with the top bits of section 3 of RFC 3629 and its code in the rest. |
| `JsonText.ReadText` | ccs_verifier/ccs_verifier_l1.py:184-205 | Every well-formed document, written in either style, is read back by one JSON parser: the output is uniquely parseable. |
| `JsonReading.ReadExact` | ccs_verifier/transport/base.py:52 | The JSON reader takes exactly the texts of the grammar of RFC 8259, with any space around tokens and any spelling of the characters of strings (and the three names of non-finite numbers), and reads each as the one document it is a text of. |
| `Canonical.CanonicalJsonExact` | ccs_verifier/ccs_verifier_l1.py:184-205 | Two values have equal canonical bytes exactly when they are the same JSON: equal up to key order, list or tuple, and numeric equality such as 1 and 1.0, at every depth. |
| `Canonical.DumpsExact` | ccs_verifier/protocol.py:75-79 | The sorted `json.dumps` text of two values is equal exactly when they are the same JSON with the same number types. |
| `WrittenForm.RawText` | ccs_verifier/ccs_verifier_l1.py:184-205 | Canonical JSON writes every character from U+0020 on but the quote and the backslash as raw UTF-8; `json.dumps` only up to '~'. |
| `WrittenForm.NamedEscapes` | ccs_verifier/ccs_verifier_l1.py:184-205 | Seven characters have an escape of two characters, in either style. |
| `WrittenForm.HexEscape` | ccs_verifier/ccs_verifier_l1.py:184-205 | Every other character of the Basic Multilingual Plane that is not written raw is `\u` and its code in four digits with small letters. |
| `WrittenForm.PairEscape` | ccs_verifier/protocol.py:75-79 | `json.dumps` writes a supplementary character as its two UTF-16 surrogates. |
| `WrittenForm.PiecesWritten` | ccs_verifier/ccs_verifier_l1.py:184-205 | The text of a string is the texts of its pieces one after the other, so the four rows above say what every string looks like. |
| `WrittenForm.ArrayWritten` | ccs_verifier/ccs_verifier_l1.py:184-205 | A list or tuple is written as its items in their order, between brackets and with bare commas. |
| `WrittenForm.ObjectWritten` | ccs_verifier/ccs_verifier_l1.py:184-205 | A dict is written as its members between braces, `name:value` with bare commas, in strictly ascending order of their names: by UTF-16 code units in canonical JSON, by code points in `json.dumps`. |
| `WrittenForm.OrderExists` | ccs_verifier/ccs_verifier_l1.py:190 | Such an order exists for every dict with text keys. |
| `WrittenForm.KeywordsWritten` | ccs_verifier/ccs_verifier_l1.py:184-205 | None, True and False are written null, true and false. |
| `WrittenForm.IntegerWritten` | ccs_verifier/ccs_verifier_l1.py:184-205 | An integer is written in decimal; canonical JSON refuses one that is not safe with a ValueError. |
| `WrittenForm.FloatWritten` | ccs_verifier/ccs_verifier_l1.py:191 | Canonical JSON writes a float that is a safe integer like the integer; `json.dumps` writes its repr. |
| `WrittenForm.NonFiniteWritten` | ccs_verifier/ccs_verifier_l1.py:157-170 | NaN and the infinities are a ValueError in canonical JSON and names in `json.dumps`. |
| `Loading.CheckDuplicateKeys` | ccs_verifier/ccs_verifier_l1.py:208-223 | The hook refuses an object exactly when a name occurs twice, and otherwise builds the dict of the pairs in their order. |
| `Loading.LoadsDumps` | ccs_verifier/transport/base.py:38-52 | `json.loads(json.dumps(v))` is v again as JSON, with or without the hook, and passes the integer check exactly when v does. |
| `LoadedText.LoadsExact` | ccs_verifier/ccs_verifier_l1.py:554-560 | `json.loads` returns exactly for a JSON document whose numbers are numbers and, with the hook, in which no object repeats a name at any depth; anything else is a ValueError. |
| `LoadedText.LastCounts` | ccs_verifier/transport/base.py:52 | Without the hook the last value of a repeated name counts. |
| `LoadedText.FromJsonTakes` | ccs_verifier/ccs_verifier_l1.py:539-560 | from_json takes no text but that of one object without a repeated name at any depth, and refuses everything else with a ValueError. |
| `LoadedText.SentExact` | ccs_verifier/transport/base.py:36-42 | The payload of a message is the UTF-8 of its sorted `json.dumps` text, if that is at most a mebibyte. |
| `LoadedText.ReceivedExact` | ccs_verifier/transport/base.py:52 | A payload is read exactly if it is the UTF-8 of a JSON document, and is a ValueError otherwise. |
| `SafeIntegers.RoundNearest` | ccs_verifier/ccs_verifier_l1.py:103-105 | The rounding used here is to nearest, ties to even: no other multiple of the unit is nearer to the integer, and one as near is odd. |
| `SafeIntegers.UnitIsSpacing` | ccs_verifier/ccs_verifier_l1.py:103-105 | The unit is a power of two of which the integer, from 2^53 on, has between 2^52 and 2^53: 53 significant bits are kept. |
| `SafeIntegers.RoundSmall` | ccs_verifier/ccs_verifier_l1.py:103-105 | Rounding to 53 significant bits, ties to even, changes no integer up to 2^53 - 1. |
| `SafeIntegers.BoundIsExact` | ccs_verifier/ccs_verifier_l1.py:103-105 | 2^53 - 1 is exactly the largest bound below which no integer becomes the same double as any other integer. |
| `SafeIntegers.Collision` | ccs_verifier/ccs_verifier_l1.py:103-105 | 2^53 and 2^53 + 1 become the same double. |
| `SafeIntegers.ValidateExact` | ccs_verifier/ccs_verifier_l1.py:141-181 | The recursive check lets a value through exactly when no unsafe integer and no non-finite float occurs anywhere in it, keys included. |
| `Base64.DecodeEncode` | ccs_verifier/ccs_verifier_l1.py:641-642 | Decoding gives back every byte string that was encoded. |
| `Base64Text.EncodeSpells` | ccs_verifier/ccs_verifier_l1.py:641-642 | The text of some bytes is letters of the standard alphabet, four for three bytes, two for one more and three for two more, that spell the bytes as one number to base 64, filled up with zero bits, and '=' up to a multiple of four. |
| `Base64.CanonicalIdempotent` | ccs_verifier/ccs_verifier_l1.py:619-642 | Canonicalising a canonical text changes nothing. |
| `Base64.CanonicalExact` | ccs_verifier/ccs_verifier_l1.py:619-642 | A text that decodes is its own canonical form exactly when the unused bits of its last symbol are zero, its length is a multiple of four and it ends in at most two '='. |
| `Base64.PaddingThatFillsNothing` | ccs_verifier/ccs_verifier_l1.py:379-381 | "YWJj=" decodes to the same bytes as "YWJj", which is its canonical form: unused bits are not all that a canonical text must get right. |
| `Base64.SignatureTextExact` | ccs_verifier/ccs_verifier_l1.py:373-389 | The pattern, length and re-encoding checks let exactly one text through for each byte string that is not empty: its encoding. |
| `Protocol.SummaryRecovered` | ccs_verifier/server.py:158-160 | When no rule name contains a bar, the rule summary gives the names and verdicts back. |
| `Protocol.SummaryWritten` | ccs_verifier/server.py:158-160 | The summary is `name=verdict` of each result in order, with bars between them. |
| `Protocol.PayloadRecovered` | ccs_verifier/protocol.py:159-160 | When trace id, parameter hash and summary contain no colon, the joined payload gives all six fields back, whatever the tool name contains. |
| `Protocol.PayloadInjective` | ccs_verifier/protocol.py:159-160 | So two payloads are the same bytes exactly for the same six fields. |
| `Receipts.PayloadExact` | ccs_verifier/ccs_verifier_l1.py:309-333 | Two receipts have the same signed bytes exactly when their twenty-nine fields other than the signature are the same JSON. |
| `Receipts.TamperEvidence` | ccs_verifier/ccs_verifier_l1.py:309-409 | If a receipt verifies under a key whose holder alone signs, the holder signed a receipt with the same twenty-nine fields. |
| `Receipts.SignatureTextUnique` | ccs_verifier/ccs_verifier_l1.py:373-389 | Two verifying receipts have the same signature bytes exactly when they have the same signature text. |
| `Receipts.VerifyExact` | ccs_verifier/ccs_verifier_l1.py:335-409 | A receipt verifies exactly when it names Ed25519 and the fingerprint of a 32-byte key, the supplied one or else the embedded one, and its signature is the Base64 text of bytes that check for its payload under that key. |
| `Receipts.EnumSigned` | ccs_verifier/ccs_verifier_l1.py:326-333 | An enum member in a field is signed as its text. |
| `Receipts.EmbeddedIsExplicit` | ccs_verifier/ccs_verifier_l1.py:352-367 | A receipt verifies without a key exactly when it embeds a valid one and verifies with that. |
| `Receipts.SignVerifies` | ccs_verifier/ccs_verifier_l1.py:649-702 | A signed receipt verifies with the embedded key and with the signer's key passed in. |
| `Receipts.SignKeeps` | ccs_verifier/ccs_verifier_l1.py:694-702 | Signing changes no field but the four it sets. |
| `Receipts.SignAgain` | ccs_verifier/ccs_verifier_l1.py:649-702 | Signing a signed receipt with another key is signing the original with it. |
| `FromDict.Remap` | ccs_verifier/ccs_verifier_l1.py:440-447 | The renaming loop computes the remapped table. |
| `FromDict.RemappedMeaning` | ccs_verifier/ccs_verifier_l1.py:440-447 | After it each field has the value under its own name or else the one under its legacy name, and no legacy name is left. |
| `FromDict.FromDict` | ccs_verifier/ccs_verifier_l1.py:436-536 | from_dict raises ValueError exactly for: no text as trace id, text over 4096 characters, None or emptiness where it is not allowed, a signature beside a key that is not the Base64 of 32 bytes; and in a strict call a name that is neither a field's nor an old one, another version, an unsigned "allow". Otherwise each field holds what the dict gives, under its name or else its old one, or the default. |
| `FromDict.UnknownIgnored` | ccs_verifier/ccs_verifier_l1.py:468 | A call that is not strict does not see a name it does not know. |
| `RoundTrip.DictRoundTrip` | ccs_verifier/ccs_verifier_l1.py:305-307 | from_dict(to_dict(r)) is r exactly for receipts with a trace id, version 1.1, no None, texts within 4096 characters, and a signature, fingerprint and canonical 32-byte key. |
| `RoundTrip.OldNamesSame` | ccs_verifier/ccs_verifier_l1.py:439-447 | Giving any of the three time fields under its legacy name makes no difference to from_dict. |
| `RoundTrip.JsonRoundTrip` | ccs_verifier/ccs_verifier_l1.py:539-560 | Through JSON text and from_json exactly the same receipts come back. |
| `RoundTrip.SignedRoundTrip` | ccs_verifier/ccs_verifier_l1.py:439-536 | A signed receipt comes back from its dict, under new names or legacy ones, as the same receipt, and verifies with and without an explicit key. |
| `Trust.FindAnchor` | ccs_verifier/trust.py:147-152 | The loop finds the first anchor of the receipt's issuer. |
| `Trust.EvaluateTrust` | ccs_verifier/trust.py:107-176 | A decision says verified exactly when the receipt verifies with its embedded key, and accepted exactly when its reason is "ok"; each reason has its exact condition on receipt, anchors and time (a non-positive expiry never expires). The times that cannot be compared raise a TypeError, a pinned key that is no Base64 a ValueError. |
| `Trust.DecideExact` | ccs_verifier/trust.py:107-176 | Those conditions leave one decision or exception for every receipt, list of anchors and time. |
| `Trust.AcceptsExact` | ccs_verifier/trust.py:128-176 | A receipt is accepted exactly when it verifies under the pinned key of its issuer, embeds that key, carries the pinned fingerprint, and its time has not run out. |
| `Trust.AcceptedIsAuthentic` | ccs_verifier/trust.py:128-176 | The signed fields of an accepted receipt are those of one the holder of the pinned key signed. |
| `Trust.AcceptanceAntitone` | ccs_verifier/trust.py:138-145 | A receipt accepted at one time is accepted at every earlier one. |
| `Trust.OnlyFirstAnchorCounts` | ccs_verifier/trust.py:147-152 | The decision depends on the first anchor of the receipt's issuer alone. |
| `Builder.L1ReceiptBuilder.Call` | ccs_verifier/ccs_verifier_l1.py:799-887 | Each setter changes its own fields of the builder's receipt object in place; a hash that cannot be computed raises and changes nothing. |
| `Builder.L1ReceiptBuilder.Build` | ccs_verifier/ccs_verifier_l1.py:889-962 | build returns or raises as specified and leaves the aligned receipt in the builder; a signed build hands out a new object, an unsigned one the builder's own. |
| `Builder.BuildExact` | ccs_verifier/ccs_verifier_l1.py:915-962 | A stamp less than a second before a positive issue time is moved up to it; a signed build raises ValueError exactly when issuer, audience, action or a positive expiry is missing or the issue lies a second or more ahead, an unsigned one only for the latter; else the receipt is signed or handed out as it is. |
| `Builder.BuildNeedsNumbers` | ccs_verifier/ccs_verifier_l1.py:919-955 | Times that are no numbers raise a TypeError wherever they are compared. |
| `Builder.NonFiniteUnsigned` | ccs_verifier/ccs_verifier_l1.py:157-170 | A receipt with NaN or an infinity in a signed field is never signed. |
| `Builder.FreshBuilds` | ccs_verifier/ccs_verifier_l1.py:934-945 | A receipt without time bounds is built as it is unsigned, and never signed. |
| `Builder.FreshEmpty` | ccs_verifier/ccs_verifier_l1.py:245-297 | A new receipt's other fields all count as false. |
| `Builder.BuildThenCall` | ccs_verifier/ccs_verifier_l1.py:911-962 | So a setter called after build changes a receipt that was handed out unsigned, and none that was signed. |
| `Builder.BuiltAsSet` | ccs_verifier/ccs_verifier_l1.py:799-962 | After any sequence of setter calls and builds, a receipt that build returns has in every field, but the two stamps and those of the signature, what the last setter of that field wrote or what was there before; and it is not stamped before a positive issue time. |
| `Builder.BuildAgain` | ccs_verifier/ccs_verifier_l1.py:889-962 | Building again with the same key and no setter in between gives the same answer and the same state. |
| `Rules.EvaluateRules` | ccs_verifier/server.py:126-154 | On deny there is a first rule that denies, after no exception: reason and code are its own and the results end with its. On escalate, the reason is that of the last rule that escalates and the code -32000; on allow every rule allows, there is no reason and the code is -32000; the results are then all the answers, each with its own latency. It raises exactly what the first rule raises that raises before any denies. |
| `Rules.OutcomeExact` | ccs_verifier/server.py:126-154 | Those conditions leave one result for every list of answers. |
| `Rules.VerdictIsWorst` | ccs_verifier/server.py:133-154 | Though it stops early, the verdict is the worst over the whole rule list. |
| `Rules.VerdictFromResults` | ccs_verifier/server.py:133-154 | The verdict is the worst over the results that were kept. |
| `Rules.OrderIrrelevantAndMonotone` | ccs_verifier/server.py:133-154 | Permuting or repeating rules does not change the verdict, and inserting rules never lowers it. |
| `Rules.AllowExact` | ccs_verifier/server.py:126-154 | The verdict is allow exactly when every rule of the list answers allow. |
| `Drafting.DraftIsChain` | ccs_verifier/server.py:201-228 | The receipt the server puts together is what its chain of setter calls makes of a new builder's receipt, or the exception of the first hash in the chain that cannot be computed. |
| `Drafting.IssuedIsBuilt` | ccs_verifier/server.py:201-230 | A receipt the server issues is what build returns, with the server's key, after that run of setter calls. |
| `Server.VerifierServer.Verify` | ccs_verifier/server.py:124-259 | A call changes the log, the counters and the sequence number as specified and returns or raises accordingly. |
| `Contents.AnswerContent` | ccs_verifier/server.py:124-248 | What verify returns has the verdict, reason, code and results the rules told, the command's trace id and tool, the clock's time, sixteen digits of the SHA-256 of the parameters' JSON text, and as receipt thirty-two digits of the HMAC over the six fields; what it raises comes from a rule, from unwritable parameters or from the Level-1 receipt. |
| `Contents.RetryableExact` | ccs_verifier/protocol.py:119-122 | An answer is retryable exactly when the rule that denied named the code -32005. |
| `Contents.ReceiptContent` | ccs_verifier/server.py:173-231 | All thirty fields of the receipt in an answer, among them the digests of the parameters and of the request, response, context and configuration dicts, the moved stamps, the nonce, and the signature of the server's key over the payload. |
| `Server.VerifierServer.Record` | ccs_verifier/server.py:250-257 | The log becomes the latest max_audit_log entries of the old log and the result (all of them if the limit is 0), the request count goes up by one, the denial count exactly for a denial, and nothing else changes. |
| `Server.RunInvariant` | ccs_verifier/server.py:175-259 | After any run the log has min(limit, results) entries, the last ones of all the results in order (all of them if the limit is 0), the counters count results and denials, issued sequence numbers strictly increase, and the sequence number exceeds the results by the calls that raised after taking one. |
| `Streams.NextRequest` | ccs_verifier/server.py:271-277 | What the handler reads off an open connection is the next request written on it. |
| `Streams.NextReply` | ccs_verifier/client.py:111-114 | What the client reads off a connection is the next reply written on it. |
| `Streams.StreamsKept` | ccs_verifier/transport/base.py:36-52 | Every step of a session keeps: what is under way on each connection is what the other end wrote and this end has not taken, in order; towards the client whole frames, unless a given-up read took a header alone. |
| `ServerLog.LogKept` | ccs_verifier/server.py:261-366 | Every step keeps: the server's state and each reply are those of handling the logged requests one by one, and no request is handled twice. |
| `Alignment.ControlKept` | ccs_verifier/client.py:75-167 | Every step keeps: one call holds the lock, a failed attempt leaves the connection unusable, and no call writes twice on one connection. |
| `Alignment.CountedKept` | ccs_verifier/client.py:93-167 | Every step keeps: each request on a connection has been read, given up, or is the one being waited for; at most one is outstanding. |
| `Alignment.RunKeeps` | ccs_verifier/client.py:75-223 | All of these invariants hold after every run. |
| `Guarantees.ReplyAttribution` | ccs_verifier/client.py:93-144 | In every run, with time-outs and cancellation anywhere, a returned reply was read where the client had got to in the stream of replies; if no read was given up on the connection before, it is the server's answer to the call's own request. If no given-up read took a header alone, it is the answer to the request as many places earlier as reads were given up, and the call's own only if none was. |
| `Guarantees.OwnIfNothingGivenUp` | ccs_verifier/client.py:93-144 | The same told before a request is written: if no read has been given up on the connection then, what the call returns from it is its own, whatever happens later; for replies read from whole frames only then. |
| `Guarantees.Linearizable` | ccs_verifier/client.py:83-167 | Without cancelled waits and timed-out side requests, every returned call has the server's answer to its own request, handled between its start and its end, each at a place of its own in one order of all requests. |
| `Guarantees.HandledAtMost` | ccs_verifier/client.py:95-165 | Over all schedules and counting late handling on abandoned connections, the server handles a call at most once per attempt, so at most R + 1 times, and at least once if it returned its own reply. |
| `Guarantees.SleepBounded` | ccs_verifier/client.py:146-165 | The retries of a call sleep at most 0.05 R (R + 1) seconds in all. |
| `Guarantees.CallsEnd` | ccs_verifier/client.py:93-167 | A call takes at most 4 R + 5 steps of its own and has then returned or raised. |
| `Guarantees.NeverStuck` | ccs_verifier/client.py:83-167 | While a call has neither returned nor raised, the holder of the lock has a step of its own that can happen, no cancellation, or the lock is free for the call. |
| `Recovery.Recovers` | ccs_verifier/client.py:70-167 | From every state of every session, with reconnecting on, the session can go on so that a new verify call returns the server's answer to its own request. |
| `VerifierRecovery.VerifierRecovers` | ccs_verifier/client.py:70-167 | So it is with the verifier: from every state the session can go on so that a new verify call with any command the server can answer returns the result of a direct call in the server's present state. |
| `LateReplies.LateReply` | ccs_verifier/client.py:169-223 | A reply left over on the connection in use becomes the result of the next verify call, whatever it asks for. |
| `LateReplies.TimedOutHealthCheck` | ccs_verifier/client.py:169-186 | For every server and any three requests of which the first has a reply that is no result and the second one that is: a run in which the first times out, the second raises, and the third returns the reply to the second. |
| `StaleVerdict.StaleVerdict` | ccs_verifier/client.py:116-144 | So it is with the verifier's own messages: whenever the server answers a health check and a command, there is a run in which a verify call with any other request returns the result for that command. |
| `FailingRun.WrongToolHappens` | ccs_verifier/client.py:116-144 | There is such a server, and such a run, in which a call about one tool returns the verdict on another. |
| `Resync.Landing` | ccs_verifier/transport/base.py:36-52 | Of a stream of frames whose payloads are JSON objects, a read from anywhere that finds bytes without a zero and without a leading letter starts at a frame and finds that frame's payload. |
| `NulFree.NulIsNoDocument` | ccs_verifier/transport/base.py:45-52 | A text with the character NUL is no JSON document. |
| `WholeReplies.SentIsObject` | ccs_verifier/transport/base.py:36-42 | The payload of every message with plain names begins with a brace, a quote and a letter and holds no zero byte. |
| `WholeReplies.NeverGarbage` | ccs_verifier/client.py:83-167 | In every run of the verifier, with time-outs and cancellation anywhere, a verify call that returns has a whole reply of the server to a verify request: its own, or one written before it on its connection, handled between its asker's start and the call's end. |
| `WholeReplies.GivenUpAfterHeader` | ccs_verifier/transport/base.py:45-52 | A read given up between header and payload leaves the client four bytes into the frame of the next reply. |
| `WholeReplies.NoResultAfterHeader` | ccs_verifier/client.py:111-151 | In every run, a verify call that reads next from there finds a length that is too large: it marks the connection unusable and sleeps before its next attempt, or raises after its last one. |
| `Client.VerifierClient.EnsureConnected` | ccs_verifier/client.py:70-81 | A usable connection is kept, otherwise a new one is opened unless reconnecting is off or fails. |
| `Client.VerifierClient.Verify` | ccs_verifier/client.py:83-167 | Exactly the failures to connect, time-outs, lost connections and messages too large are tried again, up to the limit; a reply's result or parse error, the end of the stream and an unwritable message end the call at once with the connection in use; it has slept 0.1 (1 + ... + n) seconds after n failures; after the last failure it raises TransportError and the connection is unusable; attempts after the first open new connections. |
| `Client.VerifierClient.Ask` | ccs_verifier/client.py:169-223 | The other requests leave the connection in use whatever happens to the exchange. |
| `Client.SessionAgrees` | ccs_verifier/client.py:111-165 | The session machine ends each wait as the loop does: with a result, with an exception that leaves the connection in use, or with a caught failure, a sleep and an unusable connection. |
| `Client.StartAgrees` | ccs_verifier/client.py:70-109 | So it does up to the request: it keeps a usable connection, opens a new one where the loop does, and treats a failure to connect and a request too large as caught failures. |
| `Client.SideAgrees` | ccs_verifier/client.py:169-223 | A health check, rule list or key request that fails raises at once and leaves the connection flag as it was. |
| `Alignment.TriangleClosed` | ccs_verifier/client.py:146-165 | 1 + ... + n is n (n + 1) / 2, for the sleeps above. |
| `Messages.RequestArrives` | ccs_verifier/server.py:279-286 | The server builds the command that was sent, its parameters being the same JSON. |
| `Messages.CommandRead` | ccs_verifier/server.py:279-286 | The server builds exactly the command a message states: agent, tool and parameters must be there (else KeyError), a missing time is the clock's, a missing trace id empty. |
| `Messages.ResultArrives` | ccs_verifier/client.py:116-144 | The client builds the result that was sent: every field equal, latencies as rounded by the server, the Level-1 receipt as the same JSON. |
| `Messages.ResultRead` | ccs_verifier/client.py:116-144 | The client builds exactly the result a reply states, with the defaults for what is missing; a Level-1 receipt that counts as false is none. |
| `Remote.SameEnding` | ccs_verifier/server.py:124-259 | verify returns or raises the same for parameters that are the same JSON: same verdict, hashes, digests and receipt. |
| `Remote.RemoteIsLocal` | ccs_verifier/server.py:279-311 | Encode, decode, dispatch, verify, respond and parse give the result of a direct call in the same state with the same clock readings, up to rounded latencies, and change the server as that call does; there is a reply exactly when the direct call returns and its result fits a frame. |
| `Remote.OnlyRequestsChange` | ccs_verifier/server.py:271-353 | No message changes the server but a verify request with an agent, a tool and parameters. |
| `Remote.UnsendableRaises` | ccs_verifier/transport/base.py:36-42 | Parameters `json.dumps` cannot write raise on either way. |
| `Remote.SessionInvariant` | ccs_verifier/server.py:261-366 | Over every session, with requests of any number of connections interleaved, the server's state is that of a run of verify calls one after another, with all the invariants of such runs. |
| `Remote.VerifyIsLocal` | ccs_verifier/client.py:83-167 | In any run without cancelled waits and timed-out side requests, whatever the network does, every verify call that returns has the result a direct call would have had at some moment between its start and its end. |
| `Remote.LocalIfNothingGivenUp` | ccs_verifier/client.py:83-167 | In every run, also with cancelled waits and timed-out side requests, a verify call that returns has such a result if no read had been given up on its connection. |
| `Issuing.IssueExact` | ccs_verifier/server.py:191-231 | A receipt is issued exactly when the key has 32 bytes, issuer and audience are named, the expiry is positive, the clock stepped back by less than skew + 1 seconds (for a positive issue time), and the sequence number is safe. |
| `Issuing.AcceptanceWindow` | ccs_verifier/trust.py:128-176 | A receipt issued at now is accepted under its pinned key for exactly the times up to now + 300 + skew. |
| `EndToEnd.DigestsExact` | ccs_verifier/ccs_verifier_l1.py:728-771 | The digests in a receipt can be computed exactly when the parameters have a canonical form. |
| `EndToEnd.AnswerExact` | ccs_verifier/server.py:124-259 | In Level-1 mode verify returns exactly when no rule it reaches raises, the parameters have a canonical form, and the receipt can be issued. |
| `EndToEnd.RaisesValueError` | ccs_verifier/server.py:173-231 | Once the rules have answered and the parameters were written, verify raises nothing but a ValueError, only in Level-1 mode, and has then taken a sequence number. |
| `EndToEnd.RequestBound` | ccs_verifier/server.py:177-208 | Two receipts of the server have the same request hash exactly when they answer the same request, as long as SHA-256 tells the two requests apart. |
| `EndToEnd.AnswerAccepted` | ccs_verifier/server.py:173-259 | Every Level-1 answer carries a receipt that repeats its verdict, tool, hashes and number and is accepted for exactly that window. |
| `EndToEnd.RemoteReceiptAccepted` | ccs_verifier/client.py:225-239 | The receipt a remote client received, read with from_dict, is the server's own: it verifies under the server's key and is accepted for the same window. |
| `EndToEnd.AnswersHonest` | ccs_verifier/server.py:173-248 | In Level-1 mode every answer of a run carries a receipt that repeats it. |
| `EndToEnd.AcceptedWasAnswered` | ccs_verifier/trust.py:107-176 | An accepted receipt has the signed fields, and the verdict, of an answer the server gave. |
| `EndToEnd.AcceptedAllow` | ccs_verifier/trust.py:107-176 | An accepted receipt that says "allow" comes from a call on which every rule of the configuration answered allow, and carries that call's tool, trace id and request hash. |
| `EndToEnd.RequestAllowed` | ccs_verifier/server.py:124-259 | Whoever holds a request that such a receipt names knows that every rule answered allow to that same request, as long as SHA-256 tells it from the other requests of the run. |
| `EndToEnd.L0Recomputable` | ccs_verifier/server.py:158-171 | The Level-0 payload of an answer gives its fields back and the verdict can be recomputed from the rule summary in it. |
| `EndToEnd.ReturnedReceiptAccepted` | ccs_verifier/client.py:116-144 | What a returned remote call brings home: a receipt that names its verdict, trace id, tool and parameter hash and is accepted for the window of the server's clock. |
| `Assumptions.Consistent` | ccs_verifier/ccs_verifier_l1.py:583-612 | The assumptions about signatures, hashes, float text and clocks can hold together, with a run of the server and an accepted receipt that says "allow": everything `EndToEnd.AcceptedWasAnswered` and `EndToEnd.AcceptedAllow` ask for. |
| `Assumptions.AnswerPossible` | ccs_verifier/server.py:124-259 | There is a configuration, a command and a clock for which all of them hold and verify returns. |

## Left out

- Built-in rules, and anything a rule does but answer a command: a rule is a function that returns a result or raises.
- Ed25519, SHA-256 and HMAC inside; shortest-double printing; floating-point rounding of times.
- Real sockets, asyncio scheduling, file permissions, port discovery, start and stop of the server.
- CLI, signals, logging, telemetry, the license gate, packaging, the reference key file, the `Verifier` front with its automatic mode.
- Contents of the health, rule list and public key replies: any function of the server's state; they count as exchanges on the connection.
- Calling `connect()` or `close()` while another call holds the lock; between calls both are steps of the session.
- Write buffers: a request is on the wire in one step, and a failure of `drain` is a failure while waiting for the reply.
- How much work the requests of abandoned connections cost; only how often they are handled is bounded.
- Command and result fields of the wrong JSON type: the model raises a TypeError where Python would go on with the value it got.
- Keys that are no text in `json.dumps` (Python turns some into text): a TypeError in the model, as `jcs` has it.
- Lone surrogates in texts: characters are Unicode scalar values.
- Negative zero, which canonical JSON writes as 0 and the model does not tell from zero.
- Exponents of doubles are not bounded above, so a few more numbers count as doubles than binary64 has.
- Foreign objects inside receipt fields count as true; non-text keys of the data given to from_dict are not modelled.
- The exception classes inside from_dict's key check: every rejection is a ValueError.
- `compute_hash` of raw bytes: no caller passes any.
- Rules that answer the same command differently each time.
- Draft features the code does not have: replay cache, audience check by the consumer, not-before check, key rotation.
