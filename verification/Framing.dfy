/** Length-prefixed frames on a byte stream: a four-byte big-endian length and then the payload. */
module Framing {
  import opened Basics

  const MAX_MESSAGE_SIZE: nat := 1024 * 1024

  function Header(n: nat): (h: Bytes)
    requires n < 0x1_0000_0000
    ensures |h| == 4
  {
    var n1 := n / 256;
    var n2 := n1 / 256;
    [n2 / 256, n2 % 256, n1 % 256, n % 256]
  }

  function HeaderValue(h: Bytes): nat
    requires |h| == 4
  { ((h[0] as int * 256 + h[1]) * 256 + h[2]) * 256 + h[3] }

  lemma HeaderValueOfHeader(n: nat)
    requires n < 0x1_0000_0000
    ensures HeaderValue(Header(n)) == n
    ensures Header(n)[0] as int * 0x100_0000 + Header(n)[1] as int * 0x1_0000 + Header(n)[2] as int * 0x100 + Header(n)[3] as int == n
  {
  }

  lemma HeaderOfHeaderValue(h: Bytes)
    requires |h| == 4
    ensures HeaderValue(h) < 0x1_0000_0000 && Header(HeaderValue(h)) == h
  {
    var n := HeaderValue(h);
    assert n / 256 == (h[0] as int * 256 + h[1]) * 256 + h[2];
    assert n / 256 / 256 == h[0] as int * 256 + h[1];
    assert n / 256 / 256 / 256 == h[0];
  }

  /** What one attempt to read a frame off the front of a buffer finds. */
  datatype Found = Waiting | TooLarge | Frame(payload: Bytes, rest: Bytes)

  function DecodeFrame(buffer: Bytes): (r: Found)
    ensures r.Frame? ==> |r.rest| < |buffer|
    ensures r.TooLarge? ==> |buffer| >= 4
  {
    if |buffer| < 4 then Waiting
    else
      var n := HeaderValue(buffer[..4]);
      if n > MAX_MESSAGE_SIZE then TooLarge
      else if |buffer| < 4 + n then Waiting
      else Frame(buffer[4..4 + n], buffer[4 + n..])
  }

  /** The payloads read so far, the bytes not yet used, and whether reading has failed for good. */
  datatype Stream = Stream(payloads: seq<Bytes>, rest: Bytes, failed: bool)

  function After(done: seq<Bytes>, s: Stream): Stream { s.(payloads := done + s.payloads) }

  function DecodeAll(buffer: Bytes): Stream {
    match DecodeFrame(buffer)
    case Waiting => Stream([], buffer, false)
    case TooLarge => Stream([], [], true)
    case Frame(p, rest) => After([p], DecodeAll(rest))
  }

  /** A reader that got another chunk reads every frame it can; a failed one reads no more. */
  function Feed(s: Stream, chunk: Bytes): Stream {
    if s.failed then s else After(s.payloads, DecodeAll(s.rest + chunk))
  }

  function FeedAll(s: Stream, chunks: seq<Bytes>): Stream
    decreases |chunks|
  {
    if chunks == [] then s else FeedAll(Feed(s, chunks[0]), chunks[1..])
  }

  function Concat(chunks: seq<Bytes>): Bytes {
    if chunks == [] then [] else chunks[0] + Concat(chunks[1..])
  }

  const START := Stream([], [], false)

  lemma FrameGrows(buffer: Bytes, more: Bytes)
    ensures DecodeFrame(buffer).TooLarge? ==> DecodeFrame(buffer + more).TooLarge?
    ensures DecodeFrame(buffer).Frame? ==>
              DecodeFrame(buffer + more) == Frame(DecodeFrame(buffer).payload, DecodeFrame(buffer).rest + more)
  {
    var whole := buffer + more;
    if |buffer| >= 4 {
      assert whole[..4] == buffer[..4];
      var n := HeaderValue(buffer[..4]);
      if |buffer| >= 4 + n {
        assert whole[4..4 + n] == buffer[4..4 + n];
        assert whole[4 + n..] == buffer[4 + n..] + more;
      }
    }
  }

  lemma AfterAfter(a: seq<Bytes>, b: seq<Bytes>, s: Stream)
    ensures After(a, After(b, s)) == After(a + b, s)
    ensures After([], s) == s
  {
    assert a + (b + s.payloads) == a + b + s.payloads;
  }

  lemma FeedAfter(a: seq<Bytes>, s: Stream, chunk: Bytes)
    ensures Feed(After(a, s), chunk) == After(a, Feed(s, chunk))
  {
    AfterAfter(a, s.payloads, DecodeAll(s.rest + chunk));
  }

  /** Reading in two goes is reading at once. */
  lemma {:induction false} DecodeAllGrows(buffer: Bytes, more: Bytes)
    ensures DecodeAll(buffer + more) == Feed(DecodeAll(buffer), more)
    decreases |buffer|
  {
    FrameGrows(buffer, more);
    match DecodeFrame(buffer)
    case Waiting => AfterAfter([], [], DecodeAll(buffer + more));
    case TooLarge =>
    case Frame(p, rest) =>
      DecodeAllGrows(rest, more);
      FeedAfter([p], DecodeAll(rest), more);
  }

  /** However a stream is cut into chunks, the reader ends up as if it had got it whole. */
  lemma {:induction false} ChunkingIrrelevant(sofar: Bytes, chunks: seq<Bytes>)
    ensures FeedAll(DecodeAll(sofar), chunks) == DecodeAll(sofar + Concat(chunks))
    decreases |chunks|
  {
    if chunks == [] {
      assert sofar + Concat(chunks) == sofar;
    } else {
      var c, rest := chunks[0], chunks[1..];
      assert sofar + c + Concat(rest) == sofar + Concat(chunks);
      DecodeAllGrows(sofar, c);
      ChunkingIrrelevant(sofar + c, rest);
    }
  }

  /** The bytes of a list of frames. */
  function Frames(ps: seq<Bytes>): Bytes
    requires forall p :: p in ps ==> |p| <= MAX_MESSAGE_SIZE
  {
    if ps == [] then [] else Header(|ps[0]|) + ps[0] + Frames(ps[1..])
  }

  ghost predicate Fit(ps: seq<Bytes>) { forall p :: p in ps ==> |p| <= MAX_MESSAGE_SIZE }

  /** A buffer that begins a frame holds all of it or not enough of it. */
  lemma FrontFrame(p: Bytes, tail: Bytes, buffer: Bytes, more: Bytes)
    requires |p| <= MAX_MESSAGE_SIZE && buffer + more == Header(|p|) + (p + tail)
    ensures if |buffer| < 4 + |p| then DecodeFrame(buffer).Waiting?
            else DecodeFrame(buffer) == Frame(p, buffer[4 + |p|..]) && buffer[4 + |p|..] + more == tail
  {
    var all := buffer + more;
    if |buffer| >= 4 {
      assert buffer[..4] == all[..4] == Header(|p|);
      HeaderValueOfHeader(|p|);
      if |buffer| >= 4 + |p| {
        assert buffer[4..4 + |p|] == all[4..4 + |p|] == p;
        assert buffer[4 + |p|..] + more == all[4 + |p|..] == tail;
      }
    }
  }

  /** buffer and more together are frames: what is read is the first of them, and the rest remains. */
  lemma FirstOfFrames(ps: seq<Bytes>, buffer: Bytes, more: Bytes)
    requires Fit(ps) && buffer + more == Frames(ps)
    ensures !DecodeFrame(buffer).TooLarge?
    ensures DecodeFrame(buffer).Frame? ==>
              && ps != [] && DecodeFrame(buffer).payload == ps[0]
              && DecodeFrame(buffer).rest + more == Frames(ps[1..])
    ensures more == [] && ps != [] ==> DecodeFrame(buffer).Frame?
  {
    if ps != [] {
      var p, tail := ps[0], Frames(ps[1..]);
      assert Header(|p|) + p + tail == Header(|p|) + (p + tail);
      FrontFrame(p, tail, buffer, more);
      if more == [] { assert |buffer| == |buffer + more| == |Frames(ps)| == 4 + |p| + |tail|; }
    }
  }

  /** Of a cut-off stream of frames the reader gets the leading payloads and never an error;
      it gets them all only when nothing is missing. */
  lemma {:induction false} FramesRead(ps: seq<Bytes>, buffer: Bytes, more: Bytes)
    requires Fit(ps) && buffer + more == Frames(ps)
    ensures var s := DecodeAll(buffer);
            && !s.failed && s.payloads <= ps
            && (s.payloads == ps <==> more == [])
            && (more == [] ==> s.rest == [])
    decreases |ps|
  {
    FirstOfFrames(ps, buffer, more);
    match DecodeFrame(buffer)
    case Waiting =>
      if ps == [] { assert more == []; }
    case Frame(p, rest) =>
      FramesRead(ps[1..], rest, more);
      assert ps == [p] + ps[1..];
      var s := DecodeAll(rest);
      assert DecodeAll(buffer).payloads == [p] + s.payloads;
      assert ([p] + s.payloads)[1..] == s.payloads;
  }

  /** Frames cut into chunks anywhere come back as exactly the payloads sent, with nothing left over. */
  lemma FramesRoundTrip(ps: seq<Bytes>, chunks: seq<Bytes>)
    requires Fit(ps) && Concat(chunks) == Frames(ps)
    ensures FeedAll(START, chunks) == Stream(ps, [], false)
  {
    ChunkingIrrelevant([], chunks);
    assert DecodeAll([]) == START;
    assert [] + Concat(chunks) == Frames(ps);
    assert Frames(ps) + [] == Frames(ps);
    FramesRead(ps, Frames(ps), []);
  }

  /** The stream reader of asyncio with the decode coroutine suspended in it: decode first takes the
      header off the buffer and then waits until the announced payload is there. */
  class FrameReader {
    var buffer: Bytes
    var announced: Option<nat>

    ghost predicate Valid()
      reads this
    { announced.Some? ==> announced.value <= MAX_MESSAGE_SIZE }

    /** The bytes received and not yet returned as a frame. */
    ghost function Unread(): Bytes
      requires Valid()
      reads this
    { (if announced.Some? then Header(announced.value) else []) + buffer }

    constructor ()
      ensures Valid() && Unread() == []
    {
      buffer, announced := [], None;
    }

    method Receive(chunk: Bytes)
      requires Valid()
      modifies this
      ensures Valid() && Unread() == old(Unread()) + chunk
    {
      buffer := buffer + chunk;
    }

    /** Resumes decode once: it returns a frame, fails, or goes on waiting. */
    method Poll() returns (r: Found)
      requires Valid()
      modifies this
      ensures r == DecodeFrame(old(Unread()))
      ensures Valid()
      ensures r.Waiting? ==> Unread() == old(Unread())
      ensures r.Frame? ==> Unread() == r.rest
    {
      ghost var all := Unread();
      if announced.None? {
        assert all == buffer;
        if |buffer| < 4 {
          return Waiting;
        }
        var h := buffer[..4];
        var n := HeaderValue(h);
        HeaderOfHeaderValue(h);
        assert all[..4] == h;
        assert h + buffer[4..] == buffer;
        buffer := buffer[4..];
        if n > MAX_MESSAGE_SIZE {
          return TooLarge;
        }
        announced := Some(n);
      }
      var n := announced.value;
      assert all == Header(n) + buffer;
      HeaderValueOfHeader(n);
      assert all[..4] == Header(n);
      if |buffer| < n {
        return Waiting;
      }
      var payload := buffer[..n];
      buffer := buffer[n..];
      announced := None;
      assert payload == all[4..4 + n] && buffer == all[4 + n..];
      return Frame(payload, buffer);
    }
  }
}
