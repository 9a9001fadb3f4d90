/** What a reader finds that is no longer at the start of a frame, where every payload is a JSON object: either
    an announced length that no frame may have, or bytes that are no JSON object. */
module Resync {
  import opened Basics
  import opened Framing
  import opened Streams

  const OPEN_BRACE: byte := 0x7B
  const QUOTE: byte := 0x22

  predicate IsLetter(b: byte) { 0x61 <= b <= 0x7A }

  ghost predicate ZeroFree(bs: Bytes) { forall i :: 0 <= i < |bs| ==> bs[i] != 0 }

  /** The payload of a JSON object whose first name begins with a lower-case letter. */
  ghost predicate ObjectPayload(p: Bytes) {
    && 3 <= |p| <= MAX_MESSAGE_SIZE && p[0] == OPEN_BRACE && p[1] == QUOTE && IsLetter(p[2]) && ZeroFree(p)
  }

  /** Bytes that a JSON object can be read from: they hold no zero byte and begin with no letter. */
  ghost predicate MaybeObject(q: Bytes) { q != [] && ZeroFree(q) && !IsLetter(q[0]) }

  ghost predicate ObjectPayloads(ps: seq<Bytes>) { forall i :: 0 <= i < |ps| ==> ObjectPayload(ps[i]) }

  /** No header of a frame begins with a nonzero byte, or with a zero byte and then a large one. */
  lemma HeaderBytes(h: Bytes)
    requires |h| == 4 && HeaderValue(h) <= MAX_MESSAGE_SIZE
    ensures h[0] == 0 && h[1] <= 16
  {
  }

  /** The bytes of a frame, by position. */
  lemma FrameBytes(p: Bytes, rest: Bytes)
    requires ObjectPayload(p)
    ensures var s := Header(|p|) + p + rest;
            && ReadAt(s, 0, p) && s[0] == 0
            && (forall i :: 0 <= i < |p| ==> s[4 + i] == p[i])
            && (forall i :: 0 <= i < |rest| ==> s[4 + |p| + i] == rest[i])
  {
    HeaderValueOfHeader(|p|);
    var s := Header(|p|) + p + rest;
    assert s[..4] == Header(|p|) && s[4..4 + |p|] == p;
    HeaderBytes(Header(|p|));
  }

  /** Frames begin with a zero byte. */
  lemma FramesBegin(ps: seq<Bytes>)
    requires ObjectPayloads(ps) && ps != []
    ensures Frames(ps) != [] && Frames(ps)[0] == 0
  {
    FrameBytes(ps[0], Frames(ps[1..]));
  }

  /** Where the reader can be within the first of several frames, if it finds what may be an object. */
  lemma WithinFirst(ps: seq<Bytes>, from: nat, q: Bytes)
    requires ObjectPayloads(ps) && ps != [] && from < 4 + |ps[0]|
    requires ReadAt(Frames(ps), from, q) && MaybeObject(q)
    ensures from == 0 && q == ps[0]
  {
    var p, rest := ps[0], Frames(ps[1..]);
    var s := Frames(ps);
    assert s == Header(|p|) + p + rest;
    FrameBytes(p, rest);
    HeaderAt(s, from, q);
    if from == 0 {
      assert s[4..4 + |p|] == p;
    } else if from == 1 {
      OneOff(ps, q);
    }
  }

  /** What is read as a header. */
  lemma HeaderAt(s: Bytes, from: nat, q: Bytes)
    requires ReadAt(s, from, q)
    ensures from + 4 + |q| <= |s| && s[from] == 0 && s[from + 1] <= 16
    ensures |q| == (s[from + 1] as int * 256 + s[from + 2]) * 256 + s[from + 3]
    ensures q != [] ==> q[0] == s[from + 4]
  {
    var h := s[from..from + 4];
    assert h[0] == s[from] && h[1] == s[from + 1] && h[2] == s[from + 2] && h[3] == s[from + 3];
    HeaderBytes(h);
  }

  /** One byte late, the length read is 256 times too long and reaches into the next header. */
  lemma OneOff(ps: seq<Bytes>, q: Bytes)
    requires ObjectPayloads(ps) && ps != [] && ReadAt(Frames(ps), 1, q)
    ensures !ZeroFree(q)
  {
    var p, rest := ps[0], Frames(ps[1..]);
    var s := Frames(ps);
    assert s == Header(|p|) + p + rest;
    FrameBytes(p, rest);
    HeaderAt(s, 1, q);
    HeaderAt(s, 0, p);
    assert |p| == s[2] as int * 256 + s[3] && s[4] == OPEN_BRACE;
    assert |q| == 256 * |p| + OPEN_BRACE as int;
    if ps[1..] != [] { FramesBegin(ps[1..]); }
    assert |s| > 4 + |p|;
    assert q[|p| - 1] == s[4 + |p|] == rest[0];
  }

  /** Whoever finds what may be an object in a stream of frames is at the start of one, and has its payload. */
  lemma {:induction false} Landing(ps: seq<Bytes>, from: nat, q: Bytes)
    requires ObjectPayloads(ps) && ReadAt(Frames(ps), from, q) && MaybeObject(q)
    ensures exists i: nat :: AtFrame(ps, i, from, q)
    decreases |ps|
  {
    if ps != [] {
      var n := 4 + |ps[0]|;
      if from < n {
        WithinFirst(ps, from, q);
        assert ps[..0] == [];
        assert AtFrame(ps, 0, from, q);
      } else {
        FrameDropped(ps, n);
        ShiftedRead(Frames(ps), n, from, q);
        Landing(ps[1..], from - n, q);
        var i: nat :| AtFrame(ps[1..], i, from - n, q);
        AtLaterFrame(ps, i, from, q);
      }
    }
  }

  /** from is the start of frame number i, and q its payload. */
  ghost predicate AtFrame(ps: seq<Bytes>, i: nat, from: nat, q: Bytes)
    requires Fit(ps)
  {
    i < |ps| && from == |Frames(ps[..i])| && q == ps[i]
  }

  lemma ShiftedRead(stream: Bytes, n: nat, from: nat, q: Bytes)
    requires n <= from && ReadAt(stream, from, q)
    ensures ReadAt(stream[n..], from - n, q)
  {
    var tail := stream[n..];
    assert tail[from - n..from - n + 4] == stream[from..from + 4];
    assert tail[from - n + 4..from - n + 4 + |q|] == stream[from + 4..from + 4 + |q|];
  }

  lemma AtLaterFrame(ps: seq<Bytes>, i: nat, from: nat, q: Bytes)
    requires Fit(ps) && ps != [] && from >= 4 + |ps[0]| && AtFrame(ps[1..], i, from - (4 + |ps[0]|), q)
    ensures AtFrame(ps, i + 1, from, q)
  {
    var front := ps[..i + 1];
    assert front[0] == ps[0] && front[1..] == ps[1..][..i];
    assert Fit(front);
    assert |Frames(front)| == 4 + |ps[0]| + |Frames(ps[1..][..i])|;
  }

  /** Four bytes into a frame, where its header has been taken alone, the next four announce a length that no
      frame may have. */
  lemma AfterHeader(ps: seq<Bytes>, i: nat)
    requires ObjectPayloads(ps) && i < |ps|
    ensures var from := |Frames(ps[..i])| + 4;
            from + 4 <= |Frames(ps)| ==> HeaderValue(Frames(ps)[from..from + 4]) > MAX_MESSAGE_SIZE
  {
    var front, tail := ps[..i], ps[i..];
    assert ps == front + tail;
    FramesConcat(front, tail);
    var from := |Frames(front)| + 4;
    FrameBytes(tail[0], Frames(tail[1..]));
    assert Frames(tail)[4] == tail[0][0] == OPEN_BRACE;
    if from + 4 <= |Frames(ps)| {
      var h := Frames(ps)[from..from + 4];
      assert h[0] == Frames(ps)[from] == OPEN_BRACE;
    }
  }
}
