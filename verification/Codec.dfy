/** Tagged-message framing (src/protocol/codec.rs).

    `ParseOne` and `ParseAll` say what a byte stream means. The three readers of the codec are methods
    over a `Transport` that hands out bytes in arbitrary pieces; each is proved to compute that meaning. */
module Codec {
  import opened Bytes

  const READY_FOR_QUERY: byte := 90
  const ERROR_RESPONSE: byte := 69
  const AUTHENTICATION: byte := 82
  const BACKEND_KEY_DATA: byte := 75
  const PASSWORD_MESSAGE: byte := 112
  const QUERY: byte := 81
  const TERMINATE: byte := 88
  const ROW_DESCRIPTION: byte := 84
  const DATA_ROW: byte := 68
  const COMMAND_COMPLETE: byte := 67
  const PARAMETER_STATUS: byte := 83

  const MAX_MESSAGE_LEN := 0x4000_0000
  const MAX_AUTH_MESSAGE_LEN := 0x1_0000

  datatype ErrorKind = InvalidData | UnexpectedEof | InvalidInput | Broken

  /** What the front of a byte stream is, under a cap on the encoded length. */
  datatype Parsed =
    | Complete(frame: seq<byte>, rest: seq<byte>)
    | CleanEnd
    | Truncated
    | Rejected(rest: seq<byte>)

  /** The length check of `MessageHeader::parse`, on the first five bytes of `s`. */
  predicate GoodHeader(s: seq<byte>, cap: int)
    requires |s| >= 5
  {
    4 <= ReadI32(s[1..5]) <= cap
  }

  /** Tag, length field and body together: the encoded length excludes only the tag. */
  function FrameLength(s: seq<byte>, cap: int): (n: nat)
    requires |s| >= 5 && GoodHeader(s, cap)
    ensures n >= 5
  {
    1 + ReadI32(s[1..5])
  }

  function ParseOne(s: seq<byte>, cap: int): (p: Parsed) {
    if s == [] then CleanEnd
    else if |s| < 5 then Truncated
    else if !GoodHeader(s, cap) then Rejected(s[5..])
    else if |s| < FrameLength(s, cap) then Truncated
    else Complete(s[..FrameLength(s, cap)], s[FrameLength(s, cap)..])
  }

  /** What a reader leaves unread when the stream has no whole frame: all that follows a rejected header, else nothing. */
  function AfterFailedRead(p: Parsed): seq<byte>
    requires !p.Complete?
  {
    if p.Rejected? then p.rest else []
  }

  /** Every frame of a stream, and why parsing stopped. */
  function ParseAll(s: seq<byte>, cap: int): (r: (seq<seq<byte>>, Parsed))
    ensures !r.1.Complete?
    decreases |s|
  {
    match ParseOne(s, cap)
    case Complete(frame, rest) =>
      var (more, end) := ParseAll(rest, cap);
      ([frame] + more, end)
    case p => ([], p)
  }

  function Concat(frames: seq<seq<byte>>): seq<byte> {
    if frames == [] then [] else frames[0] + Concat(frames[1..])
  }

  lemma {:induction false} ConcatSnoc(frames: seq<seq<byte>>, f: seq<byte>)
    ensures Concat(frames + [f]) == Concat(frames) + f
  {
    if frames == [] {
      assert Concat([f]) == f + Concat([]);
    } else {
      assert (frames + [f])[1..] == frames[1..] + [f];
      ConcatSnoc(frames[1..], f);
    }
  }

  /** Parsing is incremental: after some whole frames, what is left parses to the remaining frames. */
  lemma {:induction false} ParseAllSplit(s: seq<byte>, cap: int, k: nat)
    requires k <= |ParseAll(s, cap).0|
    ensures var n := |Concat(ParseAll(s, cap).0[..k])|;
      n <= |s| && ParseAll(s[n..], cap) == (ParseAll(s, cap).0[k..], ParseAll(s, cap).1)
    decreases k
  {
    var frames := ParseAll(s, cap).0;
    if k == 0 {
      assert s[0..] == s && frames[0..] == frames;
    } else {
      var p := ParseOne(s, cap);
      var more := ParseAll(p.rest, cap).0;
      assert frames == [p.frame] + more;
      ParseAllSplit(p.rest, cap, k - 1);
      ConcatCons(p.frame, more, k - 1);
      DropTwice(p.frame, p.rest, |Concat(more[..k - 1])|);
      ParsedSplits(s, cap);
    }
  }

  lemma ParsedSplits(s: seq<byte>, cap: int)
    ensures var p := ParseOne(s, cap); p.Complete? ==> s == p.frame + p.rest
  {
  }

  lemma ConcatCons(f: seq<byte>, more: seq<seq<byte>>, k: nat)
    requires k <= |more|
    ensures Concat(([f] + more)[..k + 1]) == f + Concat(more[..k]) && ([f] + more)[k + 1..] == more[k..]
  {
    var head := ([f] + more)[..k + 1];
    assert head[0] == f && head[1..] == more[..k];
  }

  lemma DropTwice(a: seq<byte>, b: seq<byte>, n: nat)
    requires n <= |b|
    ensures (a + b)[|a| + n..] == b[n..]
  {
  }

  /** Exactly one well-formed frame. */
  predicate WholeFrame(frame: seq<byte>, cap: int) {
    |frame| >= 5 && GoodHeader(frame, cap) && |frame| == FrameLength(frame, cap)
  }

  /** Whole frames sent back to back parse to themselves. */
  lemma {:induction false} ParseAllConcat(frames: seq<seq<byte>>, cap: int)
    requires forall i :: 0 <= i < |frames| ==> WholeFrame(frames[i], cap)
    ensures ParseAll(Concat(frames), cap) == (frames, CleanEnd)
    decreases |frames|
  {
    if frames != [] {
      ParseOneFrame(frames[0], Concat(frames[1..]), cap);
      ParseAllConcat(frames[1..], cap);
      assert [frames[0]] + frames[1..] == frames;
    }
  }

  lemma ParseOneFrame(frame: seq<byte>, rest: seq<byte>, cap: int)
    requires WholeFrame(frame, cap)
    ensures ParseOne(frame + rest, cap) == Complete(frame, rest)
  {
    assert (frame + rest)[1..5] == frame[1..5];
  }

  // ---------------------------------------------------------------------------------------------
  // Building a frame

  /** `frame(tag, body)`: the length field is `(body.len() + 4) as i32`, so it wraps. */
  function Frame(tag: byte, body: seq<byte>): (f: seq<byte>)
    ensures |f| == 5 + |body|
  {
    [tag] + PutI32(|body| + 4) + body
  }

  function Tag(frame: seq<byte>): byte
    requires |frame| >= 5
  {
    frame[0]
  }

  function Payload(frame: seq<byte>): seq<byte>
    requires |frame| >= 5
  {
    frame[5..]
  }

  /** Reading inverts building exactly for the bodies whose encoded length is within the cap; a larger body
      is rejected, read short, or left waiting for bytes that never come. */
  lemma FrameRoundTrip(tag: byte, body: seq<byte>, rest: seq<byte>, cap: int)
    requires 0 <= cap < TWO31
    ensures Tag(Frame(tag, body)) == tag && Payload(Frame(tag, body)) == body
    ensures ParseOne(Frame(tag, body) + rest, cap) == Complete(Frame(tag, body), rest) <==> |body| + 4 <= cap
  {
    var f := Frame(tag, body);
    var len := |body| + 4;
    assert f[5..] == body;
    assert (f + rest)[1..5] == PutI32(len);
    if len < TWO31 {
      I32RoundTrip(len, []);
      assert PutI32(len) + [] == PutI32(len);
      assert f[1..5] == PutI32(len);
      if len <= cap {
        ParseOneFrame(f, rest, cap);
      }
    }
  }

  /** A frame is at the front exactly when a tag is, its own length without the tag, no more than the cap, and that many
      bytes. */
  lemma FramesExactly(s: seq<byte>, frame: seq<byte>, rest: seq<byte>, cap: int)
    requires 0 <= cap < TWO31
    ensures ParseOne(s, cap) == Complete(frame, rest) <==>
              s == frame + rest && |frame| >= 5 && |frame| - 1 <= cap && frame[1..5] == PutI32(|frame| - 1)
  {
    if |frame| >= 5 && |frame| - 1 <= cap {
      LengthField(frame[1..5], |frame| - 1);
    }
    if ParseOne(s, cap) == Complete(frame, rest) {
      assert s[1..5] == frame[1..5];
    } else if s == frame + rest && |frame| >= 5 && |frame| - 1 <= cap && ReadI32(frame[1..5]) == |frame| - 1 {
      ParseOneFrame(frame, rest, cap);
    }
  }

  lemma LengthField(b: seq<byte>, n: nat)
    requires |b| == 4 && n < TWO31
    ensures b == PutI32(n) <==> ReadI32(b) == n
  {
    I32RoundTripBack(b);
    I32RoundTrip(n, []);
    assert PutI32(n) + [] == PutI32(n);
  }

  /** The tags are the protocol's letters, and the caps its powers of two. */
  lemma TagsAndCaps()
    ensures READY_FOR_QUERY == 'Z' as int && ERROR_RESPONSE == 'E' as int && AUTHENTICATION == 'R' as int
    ensures BACKEND_KEY_DATA == 'K' as int && PASSWORD_MESSAGE == 'p' as int && QUERY == 'Q' as int && TERMINATE == 'X' as int
    ensures ROW_DESCRIPTION == 'T' as int && DATA_ROW == 'D' as int && COMMAND_COMPLETE == 'C' as int
    ensures PARAMETER_STATUS == 'S' as int
    ensures MAX_MESSAGE_LEN == 1024 * 1024 * 1024 && MAX_AUTH_MESSAGE_LEN == 64 * 1024
  {
  }

  // ---------------------------------------------------------------------------------------------
  // The byte stream under the readers

  /** The outcome of polling a read: some bytes arrive (how many is up to the peer and the kernel), or
      the connection breaks. Running out of polls is the future being dropped. */
  datatype Poll = Ready(amount: nat) | Break

  datatype Read<T> = Got(value: T) | Failed(kind: ErrorKind) | Dropped

  /** Bytes not yet read from a peer that will close the stream after sending them, or whose connection will break. */
  class Transport {
    var unread: seq<byte>
    const broken: bool

    constructor (bytes: seq<byte>, broken: bool)
      ensures unread == bytes && this.broken == broken
    {
      unread, this.broken := bytes, broken;
    }

    /** How a read past the last byte fails. */
    function AtEnd(): ErrorKind {
      if broken then Broken else UnexpectedEof
    }

    /** `take(limit).read_buf`: at least one byte unless there are no more, never more than `limit`. */
    method ReadBuf(limit: nat, amount: nat) returns (chunk: seq<byte>)
      requires limit > 0
      modifies this
      ensures old(unread) == chunk + unread
      ensures |chunk| <= limit
      ensures chunk == [] <==> old(unread) == []
    {
      var n := if amount == 0 then 1 else amount;
      n := if n > limit then limit else n;
      n := if n > |unread| then |unread| else n;
      chunk := unread[..n];
      unread := unread[n..];
    }

    /** `read_exact`: on a short stream everything is consumed and the read fails. */
    method ReadExact(count: nat) returns (r: Read<seq<byte>>)
      modifies this
      ensures !r.Dropped?
      ensures |old(unread)| >= count ==> r == Got(old(unread)[..count]) && unread == old(unread)[count..]
      ensures |old(unread)| < count ==> r == Failed(AtEnd()) && unread == []
    {
      if |unread| < count {
        unread := [];
        return Failed(AtEnd());
      }
      r := Got(unread[..count]);
      unread := unread[count..];
    }
  }

  /** The write half of a connection. */
  class Sink {
    var written: seq<byte>

    method Write(bytes: seq<byte>)
      modifies this
      ensures written == old(written) + bytes
    {
      written := written + bytes;
    }
  }

  // ---------------------------------------------------------------------------------------------
  // Reader 1: the cancel-safe buffered reader

  /** A partial header, a rejected header, or a valid header with part of its body. */
  predicate PartialFrame(buf: seq<byte>, cap: int) {
    |buf| <= 5 || (GoodHeader(buf, cap) && |buf| < FrameLength(buf, cap))
  }

  class FramedReader {
    const inner: Transport
    const maxLen: int
    var buf: seq<byte>

    constructor (inner: Transport, maxLen: int)
      ensures this.inner == inner && this.maxLen == maxLen && buf == []
    {
      this.inner := inner;
      this.maxLen := maxLen;
      buf := [];
    }

    /** One call of `read_frame`, polled against `polls` and dropped when they run out.

        Whatever happens, no byte is lost: buffered plus unread bytes only change by the returned frame.
        A returned frame is the first frame of that stream and leaves the buffer empty; a failure says what
        is wrong with the stream and not how it was cut into pieces. */
    method ReadFrame(polls: seq<Poll>) returns (r: Read<Option<seq<byte>>>)
      requires PartialFrame(buf, maxLen)
      modifies this, inner
      ensures PartialFrame(buf, maxLen)
      ensures r.Got? && r.value.Some? ==> old(buf + inner.unread) == r.value.value + inner.unread && buf == []
      ensures !(r.Got? && r.value.Some?) ==> old(buf + inner.unread) == buf + inner.unread
      ensures r.Got? && r.value.Some? ==>
                ParseOne(old(buf + inner.unread), maxLen) == Complete(r.value.value, inner.unread)
      ensures r.Got? && r.value.None? ==>
                ParseOne(old(buf + inner.unread), maxLen) == CleanEnd && inner.unread == [] && !inner.broken
      ensures r == Failed(InvalidData) ==>
                ParseOne(old(buf + inner.unread), maxLen) == Rejected(inner.unread) && |buf| == 5
      ensures r == Failed(UnexpectedEof) ==>
                ParseOne(old(buf + inner.unread), maxLen) == Truncated && inner.unread == [] && !inner.broken
      ensures r == Failed(Broken) ==>
                Break in polls || (inner.broken && ParseOne(old(buf + inner.unread), maxLen) in {CleanEnd, Truncated})
      ensures r == Failed(Broken) && Break !in polls ==> inner.unread == []
      ensures r.Failed? ==> r.kind != InvalidInput
      ensures r.Dropped? ==> |buf| >= |old(buf)| + |polls|
    {
      ghost var stream := buf + inner.unread;
      var i := 0;
      while true
        invariant 0 <= i <= |polls|
        invariant buf + inner.unread == stream
        invariant PartialFrame(buf, maxLen) || WholeFrame(buf, maxLen)
        invariant |buf| >= |old(buf)| + i
        decreases |polls| - i
      {
        var missing: nat;
        if |buf| < 5 {
          missing := 5 - |buf|;
        } else {
          assert stream[1..5] == buf[1..5];
          if !GoodHeader(buf, maxLen) {
            assert stream[5..] == inner.unread;
            return Failed(InvalidData);
          }
          var total := FrameLength(buf, maxLen);
          if |buf| == total {
            r := Got(Some(buf));
            assert stream[..total] == buf && stream[total..] == inner.unread;
            buf := [];
            return;
          }
          missing := total - |buf|;
        }
        if i == |polls| {
          return Dropped;
        }
        if polls[i].Break? {
          return Failed(Broken);
        }
        var chunk := inner.ReadBuf(missing, polls[i].amount);
        if chunk == [] {
          assert stream == buf;
          if inner.broken {
            return Failed(Broken);
          }
          return if buf == [] then Got(None) else Failed(UnexpectedEof);
        }
        GrowKeepsFrame(buf, chunk, maxLen);
        buf := buf + chunk;
        i := i + 1;
      }
    }
  }

  lemma GrowKeepsFrame(buf: seq<byte>, chunk: seq<byte>, cap: int)
    requires |buf| < 5 ==> |chunk| <= 5 - |buf|
    requires |buf| >= 5 ==> GoodHeader(buf, cap) && |buf| + |chunk| <= FrameLength(buf, cap)
    ensures PartialFrame(buf + chunk, cap) || WholeFrame(buf + chunk, cap)
  {
    if |buf| >= 5 {
      assert (buf + chunk)[1..5] == buf[1..5];
    }
  }

  /** A whole session of `read_frame` calls, one poll list per call. For every stream, every way of cutting it
      into reads and every set of calls dropped midway, the frames returned are the first frames of
      the stream's own parse; returned, buffered and unread bytes together are the stream. */
  method ReadAll(stream: seq<byte>, cap: int, calls: seq<seq<Poll>>)
    returns (frames: seq<seq<byte>>, last: Read<Option<seq<byte>>>, buffered: seq<byte>, unread: seq<byte>)
    requires calls != []
    ensures frames <= ParseAll(stream, cap).0
    ensures Concat(frames) + (buffered + unread) == stream
    ensures last.Got? && last.value.Some? ==> frames != [] && frames[|frames| - 1] == last.value.value && buffered == []
    ensures SaysEnding(last, frames, buffered, unread, ParseAll(stream, cap))
  {
    var inner := new Transport(stream, false);
    var reader := new FramedReader(inner, cap);
    frames, last := [], Dropped;
    ghost var all := ParseAll(stream, cap);
    assert Concat([]) + ([] + stream) == stream;
    for i := 0 to |calls|
      invariant PartialFrame(reader.buf, cap)
      invariant frames <= all.0
      invariant Concat(frames) + (reader.buf + inner.unread) == stream
      invariant last.Got? && last.value.Some? ==>
                  frames != [] && frames[|frames| - 1] == last.value.value && reader.buf == []
      invariant SaysEnding(last, frames, reader.buf, inner.unread, all)
    {
      ghost var here := reader.buf + inner.unread;
      last := reader.ReadFrame(calls[i]);
      NextParse(stream, cap, frames, here);
      if last.Got? && last.value.Some? {
        ConcatSnoc(frames, last.value.value);
        AppendThenRest(Concat(frames), last.value.value, inner.unread);
        frames := frames + [last.value.value];
        assert reader.buf + inner.unread == inner.unread;
      }
    }
    buffered, unread := reader.buf, inner.unread;
  }

  lemma AppendThenRest(a: seq<byte>, b: seq<byte>, c: seq<byte>)
    ensures a + (b + c) == (a + b) + c
  {
  }

  /** A last call that found no frame says how the stream's own parse ends. */
  ghost predicate SaysEnding(last: Read<Option<seq<byte>>>, frames: seq<seq<byte>>, buffered: seq<byte>,
                             unread: seq<byte>, all: (seq<seq<byte>>, Parsed))
  {
    && (last.Got? && last.value.None? ==> all == (frames, CleanEnd))
    && (last == Failed(UnexpectedEof) ==> all == (frames, Truncated))
    && (last == Failed(InvalidData) ==> all == (frames, Rejected(unread)) && |buffered| == 5)
  }

  /** After `done` frames, the next thing in the stream is the next frame of its parse, or its ending. */
  lemma NextParse(stream: seq<byte>, cap: int, done: seq<seq<byte>>, here: seq<byte>)
    requires done <= ParseAll(stream, cap).0
    requires Concat(done) + here == stream
    ensures var p := ParseOne(here, cap);
      if p.Complete? then done + [p.frame] <= ParseAll(stream, cap).0 else ParseAll(stream, cap) == (done, p)
  {
    ParseAllSplit(stream, cap, |done|);
    var (all, end) := ParseAll(stream, cap);
    assert stream[|Concat(done)|..] == here;
    assert all[..|done|] == done;
    var p := ParseOne(here, cap);
    assert all == done + all[|done|..];
    if p.Complete? {
      assert all[|done|..][0] == p.frame;
    } else {
      assert ParseAll(here, cap) == ([], p);
      assert all == done + [] == done;
    }
  }

  // ---------------------------------------------------------------------------------------------
  // Readers 2 and 3: a whole message, and a header whose body is streamed

  /** `read_header` */
  method ReadHeader(reader: Transport, cap: int) returns (r: Read<seq<byte>>)
    modifies reader
    ensures !r.Dropped?
    ensures var s := old(reader.unread);
      if |s| < 5 then r == Failed(reader.AtEnd()) && reader.unread == []
      else reader.unread == s[5..] && r == (if GoodHeader(s, cap) then Got(s[..5]) else Failed(InvalidData))
  {
    ghost var s := reader.unread;
    r := reader.ReadExact(5);
    if r.Got? {
      assert s[..5][1..5] == s[1..5];
      if !GoodHeader(r.value, cap) {
        r := Failed(InvalidData);
      }
    }
  }

  /** `read_message_capped`; `pace(i)` is how much the i-th body read happens to yield. */
  method ReadMessageCapped(reader: Transport, cap: int, pace: nat -> nat) returns (r: Read<seq<byte>>)
    modifies reader
    ensures match ParseOne(old(reader.unread), cap)
      case Complete(frame, rest) => r == Got(frame) && reader.unread == rest
      case Rejected(rest) => r == Failed(InvalidData) && reader.unread == rest
      case CleanEnd => r == Failed(reader.AtEnd()) && reader.unread == []
      case Truncated => r == Failed(reader.AtEnd()) && reader.unread == []
  {
    ghost var s := reader.unread;
    r := ReadHeader(reader, cap);
    if r.Failed? {
      return;
    }
    var frame := r.value;
    assert frame[1..5] == s[1..5];
    var total := FrameLength(frame, cap);
    var i := 0;
    while |frame| < total
      invariant frame + reader.unread == s
      invariant 5 <= |frame| <= total
      decreases total - |frame|
    {
      var chunk := reader.ReadBuf(total - |frame|, pace(i));
      if chunk == [] {
        assert frame == s;
        return Failed(reader.AtEnd());
      }
      frame := frame + chunk;
      i := i + 1;
    }
    assert s[..total] == frame && s[total..] == reader.unread;
    r := Got(frame);
  }

  predicate WholeBuffers(n: nat, scratch: nat)
    requires scratch > 0
  {
    n == 0 || (n >= scratch && WholeBuffers(n - scratch, scratch))
  }

  /** `copy_body_to`: the body goes to `copied` through a scratch buffer of `scratch` bytes. Of a body cut short, exactly the
      whole buffers that were there are copied. */
  method CopyBodyTo(header: seq<byte>, ghost cap: int, reader: Transport, scratch: nat)
    returns (r: Read<()>, copied: seq<byte>)
    requires |header| == 5 && GoodHeader(header, cap)
    modifies reader
    ensures !r.Dropped?
    ensures var n := FrameLength(header, cap) - 5; var s := old(reader.unread);
      if n > 0 && scratch == 0 then r == Failed(InvalidInput) && reader.unread == s && copied == []
      else if n <= |s| then r == Got(()) && copied == s[..n] && reader.unread == s[n..]
      else r == Failed(reader.AtEnd()) && reader.unread == [] && copied <= s
           && WholeBuffers(|copied|, scratch) && |s| - |copied| < scratch
  {
    ghost var s := reader.unread;
    copied := [];
    var remaining := ReadI32(header[1..5]) - 4;
    ghost var n := remaining;
    if remaining != 0 && scratch == 0 {
      return Failed(InvalidInput), [];
    }
    while remaining != 0
      invariant 0 <= remaining <= n
      invariant |copied| == n - remaining
      invariant copied + reader.unread == s
      invariant remaining != 0 ==> WholeBuffers(|copied|, scratch)
      decreases remaining
    {
      var chunk := if remaining < scratch then remaining else scratch;
      var piece := reader.ReadExact(chunk);
      if piece.Failed? {
        return Failed(piece.kind), copied;
      }
      copied := copied + piece.value;
      remaining := remaining - chunk;
    }
    assert s[..n] == copied && s[n..] == reader.unread;
    r := Got(());
  }

  /** `read_header`, then `copy_body_to` a buffer that already holds the header. */
  method ReadStreamed(reader: Transport, cap: int, scratch: nat) returns (r: Read<seq<byte>>)
    requires scratch > 0
    modifies reader
    ensures match ParseOne(old(reader.unread), cap)
      case Complete(frame, rest) => r == Got(frame) && reader.unread == rest
      case Rejected(rest) => r == Failed(InvalidData) && reader.unread == rest
      case CleanEnd => r == Failed(reader.AtEnd()) && reader.unread == []
      case Truncated => r == Failed(reader.AtEnd()) && reader.unread == []
  {
    ghost var s := reader.unread;
    r := ReadHeader(reader, cap);
    if r.Failed? {
      return;
    }
    var header := r.value;
    assert header[1..5] == s[1..5];
    var copy, body := CopyBodyTo(header, cap, reader, scratch);
    if copy.Failed? {
      return Failed(copy.kind);
    }
    ghost var n := FrameLength(s, cap);
    assert header + body == s[..n] && s[5..][n - 5..] == s[n..];
    r := Got(header + body);
  }

  /** The three paths over the same stream give the same frame and leave the same bytes, whatever the read
      sizes and scratch size; at a clean end the buffered reader alone reports no frame instead of an error. */
  method ReadThreeWays(stream: seq<byte>, broken: bool, cap: int, pace: nat -> nat, scratch: nat, polls: seq<Poll>)
    returns (whole: Read<seq<byte>>, streamed: Read<seq<byte>>, buffered: Read<Option<seq<byte>>>,
             rest1: seq<byte>, rest2: seq<byte>, rest3: seq<byte>)
    requires scratch > 0 && Break !in polls && |polls| > |stream|
    ensures whole == streamed && rest1 == rest2 == rest3
    ensures stream == [] ==> whole == Failed(if broken then Broken else UnexpectedEof)
    ensures stream == [] ==> buffered == if broken then Failed(Broken) else Got(None)
    ensures stream != [] ==> whole.Got? ==> buffered == Got(Some(whole.value)) && stream == whole.value + rest1
    ensures stream != [] ==> whole.Failed? ==> buffered == Failed(whole.kind)
    ensures whole == Failed(InvalidData) ==> |stream| >= 5 && rest1 == stream[5..]
  {
    var t1 := new Transport(stream, broken);
    whole := ReadMessageCapped(t1, cap, pace);

    var t2 := new Transport(stream, broken);
    streamed := ReadStreamed(t2, cap, scratch);

    var t3 := new Transport(stream, broken);
    var reader := new FramedReader(t3, cap);
    assert [] + stream == stream;
    buffered := reader.ReadFrame(polls);
    assert |reader.buf + t3.unread| <= |stream|;
    rest1, rest2, rest3 := t1.unread, t2.unread, t3.unread;
  }
}
