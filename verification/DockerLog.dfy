/** Docker's multiplexed log stream: frames of an eight-byte header and a payload, decoded from a
    whole buffer and read one by one from a stream. */
module DockerLog {

  type Byte = b: int | 0 <= b < 256

  const HEADER := 8
  const MAX_FRAME := 1024 * 1024 // the largest payload the stream reader accepts

  // `padding` stands for the three header bytes nobody reads.
  datatype Frame = Frame(stream: Byte, padding: (Byte, Byte, Byte), payload: seq<Byte>)

  // ---------------------------------------------------------------- encoding

  function SizeBytes(n: nat): (r: seq<Byte>)
    requires n < 0x1_0000_0000
    ensures |r| == 4
  {
    [n / 0x100_0000, n / 0x1_0000 % 256, n / 256 % 256, n % 256]
  }

  predicate Encodable(f: Frame) {
    |f.payload| < 0x1_0000_0000
  }

  function EncodeFrame(f: Frame): (r: seq<Byte>)
    requires Encodable(f)
    ensures |r| == HEADER + |f.payload|
  {
    [f.stream, f.padding.0, f.padding.1, f.padding.2] + SizeBytes(|f.payload|) + f.payload
  }

  function Encode(frames: seq<Frame>): seq<Byte>
    requires forall f | f in frames :: Encodable(f)
  {
    if frames == [] then [] else EncodeFrame(frames[0]) + Encode(frames[1..])
  }

  function Payloads(frames: seq<Frame>): seq<Byte> {
    if frames == [] then [] else frames[0].payload + Payloads(frames[1..])
  }

  // ---------------------------------------------------------------- whole frames

  function BigEndian(a: int, b: int, c: int, d: int): int {
    a * 0x100_0000 + b * 0x1_0000 + c * 0x100 + d
  }

  function SizeAt(data: seq<Byte>): nat
    requires |data| >= HEADER
  {
    BigEndian(data[4], data[5], data[6], data[7])
  }

  predicate StartsWhole(data: seq<Byte>) {
    |data| >= HEADER && HEADER + SizeAt(data) <= |data|
  }

  function FrameAt(data: seq<Byte>): Frame
    requires StartsWhole(data)
  {
    Frame(data[0], (data[1], data[2], data[3]), data[HEADER..HEADER + SizeAt(data)])
  }

  // The whole frames at the start of the data, and what follows them.
  function Whole(data: seq<Byte>): (seq<Frame>, seq<Byte>)
    decreases |data|
  {
    if !StartsWhole(data) then ([], data)
    else
      var (frames, rest) := Whole(data[HEADER + SizeAt(data)..]);
      ([FrameAt(data)] + frames, rest)
  }

  // The batch decoder: the payloads of the whole frames and the rest verbatim, or the raw data
  // if there is no whole frame.
  function Decode(data: seq<Byte>): seq<Byte> {
    var (frames, rest) := Whole(data);
    if frames == [] then data else Payloads(frames) + rest
  }

  // The decoded text once `text` is written and `rest` is still to be read.
  function Finish(text: seq<Byte>, rest: seq<Byte>): seq<Byte> {
    text + Payloads(Whole(rest).0) + Whole(rest).1
  }

  lemma FinishStep(text: seq<Byte>, rest: seq<Byte>)
    requires StartsWhole(rest)
    ensures Finish(text, rest) == Finish(text + rest[HEADER..HEADER + SizeAt(rest)], rest[HEADER + SizeAt(rest)..])
  {
    var f, frames := FrameAt(rest), Whole(rest[HEADER + SizeAt(rest)..]).0;
    assert ([f] + frames)[1..] == frames;
    assert text + (f.payload + Payloads(frames)) == (text + f.payload) + Payloads(frames);
  }

  lemma FinishEnds(text: seq<Byte>, rest: seq<Byte>)
    requires !StartsWhole(rest)
    ensures Finish(text, rest) == text + rest
  {
    assert text + [] + rest == text + rest;
  }

  lemma DecodeFinishes(data: seq<Byte>)
    ensures Decode(data) == if StartsWhole(data) then Finish([], data) else data
  {
    hide FrameAt, SizeAt, Payloads;
    if StartsWhole(data) { assert [] + Payloads(Whole(data).0) == Payloads(Whole(data).0); }
  }

  lemma SameSize(header: seq<Byte>, data: seq<Byte>)
    requires |header| >= HEADER && |data| >= HEADER && header[..HEADER] == data[..HEADER]
    ensures SizeAt(header) == SizeAt(data)
  {
    assert header[4] == data[..HEADER][4] && header[5] == data[..HEADER][5];
    assert header[6] == data[..HEADER][6] && header[7] == data[..HEADER][7];
  }

  method DecodeDockerLogStream(data: seq<Byte>) returns (text: seq<Byte>)
    ensures text == Decode(data)
  {
    hide Whole, FrameAt, SizeAt, Finish, Decode;
    DecodeFinishes(data);
    if |data| < HEADER { return data; }
    text := [];
    var offset, framed := 0, false;
    assert data[0..] == data;
    while offset + HEADER <= |data|
      invariant 0 <= offset <= |data|
      invariant if framed then StartsWhole(data) else offset == 0
      invariant Finish(text, data[offset..]) == Finish([], data)
    {
      var size := SizeAt(data[offset..offset + HEADER]);
      ghost var rest := data[offset..];
      SameSize(data[offset..offset + HEADER], rest);
      var next := offset + HEADER + size;
      if next > |data| { break; }
      FinishStep(text, rest);
      assert rest[HEADER..HEADER + size] == data[offset + HEADER..next] && rest[HEADER + size..] == data[next..];
      text := text + data[offset + HEADER..next];
      offset := next;
      framed := true;
    }
    FinishEnds(text, data[offset..]);
    if !framed { return data; }
    if offset < |data| { text := text + data[offset..]; }
  }

  // ---------------------------------------------------------------- reading a stream

  datatype Read = Got(payload: seq<Byte>, stderr: bool) | EndOfStream | Truncated | TooLarge

  // What the next read returns and what it leaves unread.
  function ReadFrame(data: seq<Byte>): (Read, seq<Byte>) {
    if |data| == 0 then (EndOfStream, [])
    else if |data| < HEADER then (Truncated, [])
    else if SizeAt(data) > MAX_FRAME then (TooLarge, data[HEADER..])
    else if HEADER + SizeAt(data) <= |data| then
      (Got(FrameAt(data).payload, data[0] == 2), data[HEADER + SizeAt(data)..])
    else (if |data| == HEADER then EndOfStream else Truncated, [])
  }

  class LogReader {
    const data: seq<Byte>
    var pos: nat

    ghost predicate Valid()
      reads this
    {
      pos <= |data|
    }

    ghost function Unread(): seq<Byte>
      requires Valid()
      reads this
    {
      data[pos..]
    }

    constructor (data: seq<Byte>)
      ensures Valid() && Unread() == data
    {
      this.data, pos := data, 0;
    }

    // Fills n bytes or takes what there is.
    method ReadFull(n: nat) returns (bytes: seq<Byte>)
      requires Valid()
      modifies this`pos
      ensures Valid()
      ensures if n <= |old(Unread())| then bytes == old(Unread())[..n] && Unread() == old(Unread())[n..]
              else bytes == old(Unread()) && Unread() == []
    {
      var end := if pos + n <= |data| then pos + n else |data|;
      bytes := data[pos..end];
      pos := end;
    }

    method ReadDockerLogFrame() returns (r: Read)
      requires Valid()
      modifies this`pos
      ensures Valid() && (r, Unread()) == ReadFrame(old(Unread()))
    {
      ghost var before := Unread();
      var header := ReadFull(HEADER);
      if |header| == 0 { return EndOfStream; }
      if |header| < HEADER { return Truncated; }
      var size := SizeAt(header);
      assert size == SizeAt(before);
      if size > MAX_FRAME { return TooLarge; }
      var payload := ReadFull(size);
      if |payload| < size { return if |payload| == 0 then EndOfStream else Truncated; }
      assert payload == FrameAt(before).payload;
      return Got(payload, header[0] == 2);
    }

    // The reads of the client's loop, up to the one that ends it.
    method ReadAll() returns (taken: seq<Read>)
      requires Valid()
      modifies this`pos
      ensures Valid() && taken == AllReads(old(Unread()))
    {
      hide ReadFrame, AllReads;
      taken := [];
      while true
        invariant Valid() && taken + AllReads(Unread()) == AllReads(old(Unread()))
        decreases |data| - pos
      {
        ghost var done := taken;
        NextRead(Unread());
        var r := ReadDockerLogFrame();
        taken := taken + [r];
        assert r.Got? ==> done + ([r] + AllReads(Unread())) == taken + AllReads(Unread());
        if !r.Got? { return; }
      }
    }
  }

  function AllReads(data: seq<Byte>): seq<Read>
    decreases |data|
  {
    var (r, rest) := ReadFrame(data);
    if r.Got? then [r] + AllReads(rest) else [r]
  }

  lemma NextRead(data: seq<Byte>)
    ensures var (r, rest) := ReadFrame(data);
      && AllReads(data) == (if r.Got? then [r] + AllReads(rest) else [r])
      && (r.Got? ==> |rest| < |data|)
  {
  }

  // ---------------------------------------------------------------- round trips

  lemma {:induction false} SizeRoundTrip(n: nat)
    requires n < 0x1_0000_0000
    ensures var b := SizeBytes(n); BigEndian(b[0], b[1], b[2], b[3]) == n
  {
    assert n / 256 / 256 == n / 0x1_0000 && n / 0x1_0000 / 256 == n / 0x100_0000;
    assert n == n / 256 * 256 + n % 256;
    assert n / 256 == n / 0x1_0000 * 256 + n / 256 % 256;
    assert n / 0x1_0000 == n / 0x100_0000 * 256 + n / 0x1_0000 % 256;
  }

  lemma EncodedFrame(f: Frame, tail: seq<Byte>)
    requires Encodable(f)
    ensures var data := EncodeFrame(f) + tail;
      StartsWhole(data) && SizeAt(data) == |f.payload| && FrameAt(data) == f && data[HEADER + SizeAt(data)..] == tail
  {
    var data := EncodeFrame(f) + tail;
    SizeRoundTrip(|f.payload|);
    hide SizeBytes;
    assert data[4..8] == SizeBytes(|f.payload|);
    assert data[4] == SizeBytes(|f.payload|)[0] && data[5] == SizeBytes(|f.payload|)[1];
    assert data[6] == SizeBytes(|f.payload|)[2] && data[7] == SizeBytes(|f.payload|)[3];
    assert data[HEADER..HEADER + |f.payload|] == f.payload;
  }

  // Splitting off the whole frames undoes encoding; a tail that holds no whole frame is left over.
  lemma {:induction false} WholeOfEncoded(frames: seq<Frame>, tail: seq<Byte>)
    requires (forall f | f in frames :: Encodable(f)) && !StartsWhole(tail)
    ensures Whole(Encode(frames) + tail) == (frames, tail)
  {
    if frames == [] {
      assert Encode(frames) + tail == tail;
    } else {
      var later := Encode(frames[1..]) + tail;
      assert Encode(frames) + tail == EncodeFrame(frames[0]) + later;
      hide EncodeFrame;
      EncodedFrame(frames[0], later);
      WholeOfEncoded(frames[1..], tail);
      assert [frames[0]] + frames[1..] == frames;
    }
  }

  lemma {:induction false} EncodeCons(f: Frame, frames: seq<Frame>, rest: seq<Byte>)
    requires Encodable(f) && forall g | g in frames :: Encodable(g)
    ensures (forall g | g in [f] + frames :: Encodable(g))
    ensures Encode([f] + frames) + rest == EncodeFrame(f) + (Encode(frames) + rest)
  {
    hide EncodeFrame;
    assert ([f] + frames)[1..] == frames;
  }

  // On any bytes: the data are the encoding of the whole frames found, and the rest.
  lemma {:induction false} EncodedOfWhole(data: seq<Byte>)
    ensures var (frames, rest) := Whole(data);
      && (forall f | f in frames :: Encodable(f)) && !StartsWhole(rest)
      && Encode(frames) + rest == data
    decreases |data|
  {
    hide FrameAt, SizeAt, EncodeFrame, Encodable;
    if StartsWhole(data) {
      var later := data[HEADER + SizeAt(data)..];
      EncodedOfWhole(later);
      var (frames, rest) := Whole(later);
      FrameBytes(data);
      EncodeCons(FrameAt(data), frames, rest);
    } else {
      assert Encode([]) + data == data;
    }
  }

  lemma {:induction false} BytesOf(a: int, b: int, c: int, d: int)
    requires 0 <= a < 256 && 0 <= b < 256 && 0 <= c < 256 && 0 <= d < 256
    ensures var n := BigEndian(a, b, c, d);
      n / 0x100_0000 == a && n / 0x1_0000 % 256 == b && n / 256 % 256 == c && n % 256 == d && 0 <= n < 0x1_0000_0000
  {
    var n := BigEndian(a, b, c, d);
    assert n / 0x1_0000 == a * 256 + b;
    assert n / 256 == (a * 256 + b) * 256 + c;
  }

  lemma {:induction false} SizeBytesAt(data: seq<Byte>)
    requires |data| >= HEADER
    ensures SizeAt(data) < 0x1_0000_0000 && SizeBytes(SizeAt(data)) == data[4..8]
  {
    BytesOf(data[4], data[5], data[6], data[7]);
    hide BigEndian;
  }

  lemma FrameBytes(data: seq<Byte>)
    requires StartsWhole(data)
    ensures Encodable(FrameAt(data))
    ensures data == EncodeFrame(FrameAt(data)) + data[HEADER + SizeAt(data)..]
  {
    SizeBytesAt(data);
    hide SizeBytes;
    assert data == data[..4] + data[4..8] + data[HEADER..HEADER + SizeAt(data)] + data[HEADER + SizeAt(data)..];
  }

  // Decoding whole frames gives their payloads in order; a partial frame after at least one whole
  // one is kept as it is, and data without a whole frame are returned unchanged.
  lemma DecodeOfEncoded(frames: seq<Frame>, tail: seq<Byte>)
    requires (forall f | f in frames :: Encodable(f)) && !StartsWhole(tail)
    ensures Decode(Encode(frames) + tail) == Payloads(frames) + tail
  {
    WholeOfEncoded(frames, tail);
    if frames == [] { assert Encode(frames) + tail == tail == [] + tail; }
  }

  // ---------------------------------------------------------------- the decoders agree

  function Reads(frames: seq<Frame>): seq<Read> {
    if frames == [] then [] else [Got(frames[0].payload, frames[0].stream == 2)] + Reads(frames[1..])
  }

  predicate Small(frames: seq<Frame>) {
    forall f | f in frames :: |f.payload| <= MAX_FRAME
  }

  function ReadPayloads(taken: seq<Read>): seq<Byte> {
    if taken == [] then []
    else (if taken[0].Got? then taken[0].payload else []) + ReadPayloads(taken[1..])
  }

  // The size of a payload stands in the bytes 4 to 7 of its header, the highest first.
  lemma SizeIs(data: seq<Byte>)
    requires |data| >= 8
    ensures var a: int, b: int, c: int, d: int := data[4], data[5], data[6], data[7];
      SizeAt(data) == 16777216 * a + 65536 * b + 256 * c + d
  {
  }

  // How a stream ends that holds no further whole frame: cleanly at a frame's start or right after a
  // header, with a payload announced above a mebibyte, or cut off.
  function Ending(tail: seq<Byte>): Read {
    if |tail| == 0 then EndOfStream
    else if |tail| < 8 then Truncated
    else
      var a: int, b: int, c: int, d: int := tail[4], tail[5], tail[6], tail[7];
      if 16777216 * a + 65536 * b + 256 * c + d > 1048576 then TooLarge
      else if |tail| == 8 then EndOfStream
      else Truncated
  }

  // Streaming reads the whole frames one by one, then reports how the rest ends.
  lemma {:induction false} StreamOfEncoded(frames: seq<Frame>, tail: seq<Byte>)
    requires Small(frames) && !StartsWhole(tail)
    ensures AllReads(Encode(frames) + tail) == Reads(frames) + [Ending(tail)]
  {
    hide AllReads, EncodeFrame, StartsWhole, Ending;
    if frames == [] {
      assert Encode(frames) + tail == tail;
      EndsSo(tail);
      assert [] + [Ending(tail)] == [Ending(tail)];
    } else {
      var f, later := frames[0], Encode(frames[1..]) + tail;
      assert Encode(frames) + tail == EncodeFrame(f) + later;
      FrameIsRead(f, later);
      StreamOfEncoded(frames[1..], tail);
      assert [Got(f.payload, f.stream == 2)] + (Reads(frames[1..]) + [Ending(tail)]) == Reads(frames) + [Ending(tail)];
    }
  }

  lemma EndsSo(tail: seq<Byte>)
    requires !StartsWhole(tail)
    ensures AllReads(tail) == [Ending(tail)]
  {
    if |tail| >= 8 { SizeIs(tail); }
    hide SizeAt;
  }

  lemma FrameIsRead(f: Frame, later: seq<Byte>)
    requires |f.payload| <= MAX_FRAME
    ensures AllReads(EncodeFrame(f) + later) == [Got(f.payload, f.stream == 2)] + AllReads(later)
  {
    var data := EncodeFrame(f) + later;
    assert data[0] == f.stream;
    EncodedFrame(f, later);
    hide EncodeFrame, SizeAt, FrameAt;
    NextRead(data);
    hide AllReads;
  }

  lemma {:induction false} PayloadsRead(frames: seq<Frame>, last: Read)
    requires !last.Got?
    ensures ReadPayloads(Reads(frames) + [last]) == Payloads(frames)
  {
    if frames == [] {
      assert [last][1..] == [] && Reads(frames) + [last] == [last];
    } else {
      var all := Reads(frames) + [last];
      assert all[1..] == Reads(frames[1..]) + [last];
      PayloadsRead(frames[1..], last);
    }
  }

  // A frame above the limit ends the stream, so whatever follows its header is not read.
  lemma {:induction false} LargeFrameCutsShort(frames: seq<Frame>, tail: seq<Byte>)
    requires (forall f | f in frames :: Encodable(f)) && !Small(frames)
    ensures |ReadPayloads(AllReads(Encode(frames) + tail))| < |Payloads(frames)|
  {
    var f, rest := frames[0], frames[1..];
    var later := Encode(rest) + tail;
    var data := Encode(frames) + tail;
    assert data == EncodeFrame(f) + later;
    hide EncodeFrame;
    EncodedFrame(f, later);
    if |f.payload| > MAX_FRAME {
      assert AllReads(data) == [TooLarge];
      assert ReadPayloads([TooLarge]) == [] by { assert [TooLarge][1..] == []; }
    } else {
      assert !Small(rest) by { NotSmallRest(frames); }
      LargeFrameCutsShort(rest, tail);
      var got := Got(f.payload, data[0] == 2);
      assert AllReads(data) == [got] + AllReads(later);
      assert ([got] + AllReads(later))[1..] == AllReads(later);
    }
  }

  lemma NotSmallRest(frames: seq<Frame>)
    requires !Small(frames) && |frames[0].payload| <= MAX_FRAME
    ensures !Small(frames[1..])
  {
    var f :| f in frames && |f.payload| > MAX_FRAME;
    assert f in frames[1..];
  }

  // On every byte string, the batch result is what streaming reads followed by what follows the
  // whole frames if and only if every whole frame fits the reader.
  lemma DecodersAgree(data: seq<Byte>)
    ensures Decode(data) == ReadPayloads(AllReads(data)) + Whole(data).1 <==> Small(Whole(data).0)
    ensures Small(Whole(data).0) && Whole(data).1 == [] ==> AllReads(data) == Reads(Whole(data).0) + [EndOfStream]
  {
    var (frames, rest) := Whole(data);
    EncodedOfWhole(data);
    DecodeOfEncoded(frames, rest);
    hide Decode, AllReads, Payloads;
    if Small(frames) {
      StreamOfEncoded(frames, rest);
      PayloadsRead(frames, ReadFrame(rest).0);
    } else {
      LargeFrameCutsShort(frames, rest);
    }
  }

  // A larger frame ends the stream, while the batch decoder takes it like any other.
  lemma LargeFrameDisagrees(f: Frame)
    requires Encodable(f) && |f.payload| > MAX_FRAME
    ensures AllReads(EncodeFrame(f)) == [TooLarge] && Decode(EncodeFrame(f)) == f.payload
  {
    EncodedFrame(f, []);
    assert EncodeFrame(f) + [] == EncodeFrame(f);
    assert Encode([f]) == EncodeFrame(f) by { assert [f][1..] == []; }
    DecodeOfEncoded([f], []);
    assert Payloads([f]) == f.payload by { assert [f][1..] == []; }
    assert f.payload + [] == f.payload;
  }
}
