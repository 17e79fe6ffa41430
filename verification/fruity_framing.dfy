/** usbmux messages: 16 bytes of little-endian header and a body, over a stream that delivers any chunks. */
module FruityFraming {
  import opened Outcomes
  import opened Sequences

  const MAX_MESSAGE_SIZE := 2048

  datatype Frame = Frame(messageType: uint32, tag: uint32, body: seq<byte>)

  datatype ReadError = Closed | InvalidSize

  function Le32(x: uint32): (bs: seq<byte>)
    ensures |bs| == 4
  {
    [x % 256, x / 256 % 256, x / 65536 % 256, x / 16777216]
  }

  function FromLe32(bs: seq<byte>): uint32
    requires |bs| == 4
  {
    var b0: int, b1: int, b2: int, b3: int := bs[0], bs[1], bs[2], bs[3];
    b0 + 256 * b1 + 65536 * b2 + 16777216 * b3
  }

  lemma {:induction false} Le32RoundTrip(x: uint32)
    ensures FromLe32(Le32(x)) == x
  {
    var n: int := x;
    Digits(n);
  }

  /** `create_message`. */
  function CreateMessage(protocolVersion: uint32, f: Frame): seq<byte>
    requires 16 + |f.body| < 0x1_0000_0000
  {
    Le32(16 + |f.body|) + Le32(protocolVersion) + Le32(f.messageType) + Le32(f.tag) + f.body
  }

  /** The number that the four bytes at a position hold, the lowest first. */
  ghost function Word(bs: seq<byte>, at: nat): int
    requires at + 4 <= |bs|
  {
    bs[at] as int + 0x100 * bs[at + 1] as int + 0x1_0000 * bs[at + 2] as int + 0x100_0000 * bs[at + 3] as int
  }

  /** The bytes of a message: its size, the protocol version, its type and its tag, and then the body. */
  ghost predicate IsMessage(bytes: seq<byte>, protocolVersion: uint32, f: Frame) {
    && |bytes| == 16 + |f.body|
    && Word(bytes, 0) == |bytes| && Word(bytes, 4) == protocolVersion
    && Word(bytes, 8) == f.messageType && Word(bytes, 12) == f.tag
    && bytes[16..] == f.body
  }

  lemma CreatedIsMessage(protocolVersion: uint32, f: Frame)
    requires 16 + |f.body| < 0x1_0000_0000
    ensures IsMessage(CreateMessage(protocolVersion, f), protocolVersion, f)
  {
    Le32RoundTrip(16 + |f.body|);
    Le32RoundTrip(protocolVersion);
    Le32RoundTrip(f.messageType);
    Le32RoundTrip(f.tag);
    WordAfter([], Le32(16 + |f.body|), Le32(protocolVersion) + Le32(f.messageType) + Le32(f.tag) + f.body);
    WordAfter(Le32(16 + |f.body|), Le32(protocolVersion), Le32(f.messageType) + Le32(f.tag) + f.body);
    WordAfter(Le32(16 + |f.body|) + Le32(protocolVersion), Le32(f.messageType), Le32(f.tag) + f.body);
    WordAfter(Le32(16 + |f.body|) + Le32(protocolVersion) + Le32(f.messageType), Le32(f.tag), f.body);
    hide Le32, FromLe32, Word;
    Parts(Le32(16 + |f.body|), Le32(protocolVersion), Le32(f.messageType), Le32(f.tag), f.body);
  }

  lemma WordAfter(before: seq<byte>, word: seq<byte>, after: seq<byte>)
    requires |word| == 4
    ensures Word(before + word + after, |before|) == FromLe32(word)
  {
  }

  lemma Parts(a: seq<byte>, b: seq<byte>, c: seq<byte>, d: seq<byte>, e: seq<byte>)
    requires |a| == |b| == |c| == |d| == 4
    ensures var bytes := a + b + c + d + e;
            && bytes == [] + a + (b + c + d + e) && bytes == a + b + (c + d + e) && bytes == a + b + c + (d + e)
            && bytes[16..] == e
  {
  }

  /** What `read_message` makes of the bytes to come: the message and the bytes after it. */
  function Decode(stream: seq<byte>): (r: Result<(Frame, seq<byte>), ReadError>)
    ensures r.Ok? ==> 16 <= |stream| - |r.value.1| <= MAX_MESSAGE_SIZE
  {
    if |stream| < 4 then Err(Closed)
    else
      var size := FromLe32(stream[..4]);
      if size < 16 || size > MAX_MESSAGE_SIZE then Err(InvalidSize)
      else if |stream| < size then Err(Closed)
      else Ok((Frame(FromLe32(stream[8..12]), FromLe32(stream[12..16]), stream[16..size]), stream[size..]))
  }

  /** A message is taken exactly if its size is one from 16 to 2048 and all of it is there. Its type and tag are
      the third and fourth word, its body what is behind them. */
  lemma DecodedLayout(stream: seq<byte>)
    ensures match Decode(stream)
            case Ok((f, rest)) =>
              && |stream| >= 16 && 16 <= Word(stream, 0) <= 2048 && Word(stream, 0) == |stream| - |rest|
              && f.messageType == Word(stream, 8) && f.tag == Word(stream, 12)
              && stream == stream[..16] + f.body + rest
            case Err(InvalidSize) => |stream| >= 4 && !(16 <= Word(stream, 0) <= 2048)
            case Err(Closed) => |stream| < 4 || (16 <= Word(stream, 0) <= 2048 && |stream| < Word(stream, 0))
  {
  }

  /** `count` messages in a row. */
  function DecodeMany(stream: seq<byte>, count: nat): Result<(seq<Frame>, seq<byte>), ReadError>
    decreases count
  {
    if count == 0 then Ok(([], stream))
    else
      match Decode(stream)
      case Err(e) => Err(e)
      case Ok((f, rest)) =>
        match DecodeMany(rest, count - 1)
        case Err(e) => Err(e)
        case Ok((fs, end)) => Ok(([f] + fs, end))
  }

  predicate Sendable(f: Frame) {
    |f.body| <= MAX_MESSAGE_SIZE - 16
  }

  function EncodeMany(protocolVersion: uint32, fs: seq<Frame>): seq<byte>
    requires forall f <- fs :: Sendable(f)
  {
    if fs == [] then [] else
      assert Sendable(fs[0]);
      CreateMessage(protocolVersion, fs[0]) + EncodeMany(protocolVersion, fs[1..])
  }

  lemma MessageLayout(protocolVersion: uint32, f: Frame, rest: seq<byte>)
    requires 16 + |f.body| < 0x1_0000_0000
    ensures var stream := CreateMessage(protocolVersion, f) + rest;
            && |stream| == 16 + |f.body| + |rest|
            && stream[..4] == Le32(16 + |f.body|)
            && stream[8..12] == Le32(f.messageType) && stream[12..16] == Le32(f.tag)
            && stream[16..16 + |f.body|] == f.body && stream[16 + |f.body|..] == rest
  {
    hide Le32;
    var a, b, c, d := Le32(16 + |f.body|), Le32(protocolVersion), Le32(f.messageType), Le32(f.tag);
    assert CreateMessage(protocolVersion, f) + rest == a + b + c + d + (f.body + rest);
    assert (f.body + rest)[..|f.body|] == f.body && (f.body + rest)[|f.body|..] == rest;
  }

  /** A written message is read back, and the bytes after it left alone, exactly if it fits in 2048 bytes. */
  lemma {:induction false} DecodeCreated(protocolVersion: uint32, f: Frame, rest: seq<byte>)
    requires 16 + |f.body| < 0x1_0000_0000
    ensures Decode(CreateMessage(protocolVersion, f) + rest)
         == if 16 + |f.body| <= 2048 then Ok((f, rest)) else Err(InvalidSize)
  {
    MessageLayout(protocolVersion, f, rest);
    Le32RoundTrip(16 + |f.body|);
    Le32RoundTrip(f.messageType);
    Le32RoundTrip(f.tag);
    hide Le32, FromLe32, CreateMessage;
  }

  /** Any sequence of messages survives concatenation. */
  lemma {:induction false} DecodeEncoded(protocolVersion: uint32, fs: seq<Frame>, rest: seq<byte>)
    requires forall f <- fs :: Sendable(f)
    ensures DecodeMany(EncodeMany(protocolVersion, fs) + rest, |fs|) == Ok((fs, rest))
  {
    hide CreateMessage, Decode, Sendable;
    if fs == [] {
      assert [] + rest == rest;
    } else {
      hide EncodeMany, DecodeMany;
      var first, others := fs[0], fs[1..];
      EncodeFirst(protocolVersion, fs);
      var message, tail := CreateMessage(protocolVersion, first), EncodeMany(protocolVersion, others);
      DecodeEncoded(protocolVersion, others, rest);
      FirstDecoded(protocolVersion, first, tail + rest);
      assert message + tail + rest == message + (tail + rest);
      DecodeFirst(message + tail + rest, |fs|, first, tail + rest, others, rest);
      assert fs == [first] + others;
    }
  }

  lemma FirstDecoded(protocolVersion: uint32, f: Frame, rest: seq<byte>)
    requires Sendable(f)
    ensures Decode(CreateMessage(protocolVersion, f) + rest) == Ok((f, rest))
  {
    DecodeCreated(protocolVersion, f, rest);
    hide Decode, CreateMessage;
  }

  lemma EncodeFirst(protocolVersion: uint32, fs: seq<Frame>)
    requires fs != [] && forall f <- fs :: Sendable(f)
    ensures Sendable(fs[0]) && forall f <- fs[1..] :: Sendable(f)
    ensures EncodeMany(protocolVersion, fs)
         == CreateMessage(protocolVersion, fs[0]) + EncodeMany(protocolVersion, fs[1..])
  {
    assert fs[0] in fs && forall f <- fs[1..] :: f in fs;
  }

  lemma DecodeFirst(stream: seq<byte>, count: nat, first: Frame, after: seq<byte>, others: seq<Frame>, rest: seq<byte>)
    requires count > 0 && Decode(stream) == Ok((first, after)) && DecodeMany(after, count - 1) == Ok((others, rest))
    ensures DecodeMany(stream, count) == Ok(([first] + others, rest))
  {
    hide Decode;
  }

  /** Messages decoded in two goes are the messages decoded at once. */
  lemma {:induction false} DecodeOneMore(stream: seq<byte>, count: nat)
    requires DecodeMany(stream, count).Ok?
    ensures DecodeMany(stream, count + 1) ==
      match Decode(DecodeMany(stream, count).value.1)
      case Err(e) => Err(e)
      case Ok((f, rest)) => Ok((DecodeMany(stream, count).value.0 + [f], rest))
    decreases count
  {
    hide Decode;
    if count > 0 {
      var (f, rest) := Decode(stream).value;
      DecodeOneMore(rest, count - 1);
      if Decode(DecodeMany(stream, count).value.1).Ok? {
        var g := Decode(DecodeMany(stream, count).value.1).value.0;
        assert [f] + (DecodeMany(rest, count - 1).value.0 + [g]) == [f] + DecodeMany(rest, count - 1).value.0 + [g];
      }
    } else {
      assert DecodeMany(stream, 0) == Ok(([], stream));
      if Decode(stream).Ok? {
        var (f, rest) := Decode(stream).value;
        assert DecodeMany(rest, 0) == Ok(([], rest)) && [f] + [] == [] + [f];
      }
    }
  }

  lemma Slices(stream: seq<byte>, size: nat, read: seq<byte>)
    requires 16 <= size <= |stream| && read == stream[4..][4..][..size - 8]
    ensures read[..4] == stream[8..12] && read[4..8] == stream[12..16] && read[8..] == stream[16..size]
    ensures stream[4..][4..][size - 8..] == stream[size..]
  {
    assert read == stream[8..size];
  }

  /** The contents of a buffer with the start of `stream` put in from `offset` to `dst`. */
  ghost function Filled(start: seq<byte>, offset: nat, dst: nat, stream: seq<byte>): (s: seq<byte>)
    requires offset <= dst <= |start| && dst - offset <= |stream|
    ensures |s| == |start|
  {
    start[..offset] + stream[..dst - offset] + start[dst..]
  }

  lemma FilledParts(start: seq<byte>, offset: nat, dst: nat, stream: seq<byte>)
    requires offset <= dst <= |start| && dst - offset <= |stream|
    ensures var s := Filled(start, offset, dst, stream);
            s[..offset] == start[..offset] && s[offset..dst] == stream[..dst - offset] && s[dst..] == start[dst..]
  {
  }

  lemma NothingFilled(start: seq<byte>, offset: nat, stream: seq<byte>)
    requires offset <= |start|
    ensures Filled(start, offset, offset, stream) == start && stream[0..] == stream
  {
  }

  lemma FilledRegions(s: seq<byte>, start: seq<byte>, offset: nat, dst: nat, count: nat, stream: seq<byte>)
    requires offset <= dst <= offset + count <= |start| && dst - offset <= |stream|
    requires s == Filled(start, offset, dst, stream)
    ensures s[..offset] == start[..offset] && s[offset + count..] == start[offset + count..]
    ensures s[offset..dst] == stream[..dst - offset]
  {
    FilledParts(start, offset, dst, stream);
    hide Filled;
    assert s[offset + count..] == s[dst..][offset + count - dst..];
  }

  lemma FillMore(start: seq<byte>, offset: nat, dst: nat, stream: seq<byte>, slice: seq<byte>, rest: seq<byte>)
    requires offset <= dst && dst + |slice| <= |start| && dst - offset <= |stream|
    requires stream[dst - offset..] == slice + rest
    ensures dst + |slice| - offset <= |stream| && stream[dst + |slice| - offset..] == rest
    ensures var before, end := Filled(start, offset, dst, stream), dst + |slice|;
            before[..dst] + slice + before[end..] == Filled(start, offset, end, stream)
  {
    var n := dst - offset;
    assert stream == stream[..n] + (slice + rest);
    assert stream[..n + |slice|] == stream[..n] + slice;
    FilledParts(start, offset, dst, stream);
    var before := Filled(start, offset, dst, stream);
    assert before[..dst] == start[..offset] + stream[..n];
    assert before[dst + |slice|..] == start[dst + |slice|..];
  }

  /** The receiving end of a socket: the chunks it will deliver, then end of stream. */
  class SocketInput {
    var chunks: seq<seq<byte>>

    ghost predicate Valid()
      reads this
    {
      forall c <- chunks :: c != []
    }

    /** The bytes still to be read, however they are cut up. */
    ghost function Remaining(): seq<byte>
      reads this
    {
      Flatten(chunks)
    }

    constructor (chunks: seq<seq<byte>>)
      requires forall c <- chunks :: c != []
      ensures Valid() && Remaining() == Flatten(chunks)
    {
      this.chunks := chunks;
    }

    /** `read_async`: at least one byte and at most `count`, or none at the end of the stream. */
    method ReadAsync(count: nat) returns (slice: seq<byte>)
      requires Valid() && count > 0
      modifies this
      ensures Valid() && |slice| <= count
      ensures old(Remaining()) == slice + Remaining()
      ensures slice == [] <==> old(Remaining()) == []
    {
      if chunks == [] {
        return [];
      }
      var chunk, others := chunks[0], chunks[1..];
      assert chunk in chunks && forall c <- others :: c in chunks;
      if |chunk| <= count {
        slice := chunk;
        chunks := others;
      } else {
        slice := chunk[..count];
        chunks := [chunk[count..]] + others;
        assert chunks[1..] == others;
        assert chunk + Flatten(others) == chunk[..count] + (chunk[count..] + Flatten(others));
      }
    }

    /** Fills `buffer[offset..offset + count]` from the stream, or fails at its end. */
    method Read(buffer: array<byte>, offset: nat, count: nat) returns (ok: bool)
      requires Valid() && offset + count <= buffer.Length
      modifies this, buffer
      ensures Valid() && (ok <==> count <= |old(Remaining())|)
      ensures ok ==> buffer[..][offset..offset + count] == old(Remaining())[..count]
      ensures ok ==> Remaining() == old(Remaining())[count..]
      ensures buffer[..][..offset] == old(buffer[..])[..offset]
      ensures buffer[..][offset + count..] == old(buffer[..])[offset + count..]
    {
      ghost var start, stream := buffer[..], Remaining();
      var dst := ReadUpTo(buffer, offset, count);
      FilledRegions(buffer[..], start, offset, dst, count, stream);
      hide Filled, Flatten;
      ok := dst == offset + count;
    }

    /** The loop: reads until the region is full or the stream has ended. */
    method ReadUpTo(buffer: array<byte>, offset: nat, count: nat) returns (dst: nat)
      requires Valid() && offset + count <= buffer.Length
      modifies this, buffer
      ensures Valid() && offset <= dst <= offset + count && dst - offset <= |old(Remaining())|
      ensures dst < offset + count ==> dst - offset == |old(Remaining())|
      ensures Remaining() == old(Remaining())[dst - offset..]
      ensures buffer[..] == Filled(old(buffer[..]), offset, dst, old(Remaining()))
    {
      ghost var start, stream := buffer[..], Remaining();
      NothingFilled(start, offset, stream);
      hide Filled, Flatten;
      dst := offset;
      var remaining := count;
      while remaining != 0
        invariant Valid() && 0 <= remaining && dst + remaining == offset + count && 0 <= dst - offset <= |stream|
        invariant Remaining() == stream[dst - offset..]
        invariant buffer[..] == Filled(start, offset, dst, stream)
      {
        var len := ReadSome(buffer, dst, remaining, start, offset, stream);
        if len == 0 {
          return;
        }
        dst := dst + len;
        remaining := remaining - len;
      }
    }

    /** One turn of the loop: as much as one `read_async` delivers. */
    method ReadSome(buffer: array<byte>, dst: nat, remaining: nat, ghost start: seq<byte>, ghost offset: nat,
                    ghost stream: seq<byte>)
      returns (len: nat)
      requires Valid() && 0 < remaining && dst + remaining <= buffer.Length == |start|
      requires offset <= dst && dst - offset <= |stream|
      requires Remaining() == stream[dst - offset..] && buffer[..] == Filled(start, offset, dst, stream)
      modifies this, buffer
      ensures Valid() && len <= remaining && dst + len - offset <= |stream|
      ensures Remaining() == stream[dst + len - offset..] && buffer[..] == Filled(start, offset, dst + len, stream)
      ensures len == 0 ==> dst - offset == |stream|
    {
      hide Filled, Flatten;
      var slice := ReadAsync(remaining);
      FillMore(start, offset, dst, stream, slice, Remaining());
      Copy(buffer, dst, slice);
      len := |slice|;
    }

    /** `Memory.copy`. */
    method Copy(buffer: array<byte>, dst: nat, slice: seq<byte>)
      requires dst + |slice| <= buffer.Length
      modifies buffer
      ensures buffer[..] == old(buffer[..])[..dst] + slice + old(buffer[..])[dst + |slice|..]
    {
      forall i | 0 <= i < |slice| {
        buffer[dst + i] := slice[i];
      }
    }

    method ReadMessage() returns (r: Result<Frame, ReadError>)
      requires Valid()
      modifies this
      ensures Valid()
      ensures match Decode(old(Remaining()))
              case Ok((f, rest)) => r == Ok(f) && Remaining() == rest
              case Err(e) => r == Err(e)
    {
      var word := new byte[4];
      var ok := Read(word, 0, 4);
      if !ok {
        return Err(Closed);
      }
      ghost var stream := old(Remaining());
      assert word[..] == word[..][0..4] == stream[..4];
      var size := FromLe32(word[..]);
      if size < 16 || size > MAX_MESSAGE_SIZE {
        return Err(InvalidSize);
      }

      ok := Read(word, 0, 4);
      if !ok {
        return Err(Closed);
      }

      var data := new byte[size - 8];
      ok := Read(data, 0, size - 8);
      if !ok {
        return Err(Closed);
      }
      assert data[..] == data[..][0..size - 8] == stream[4..][4..][..size - 8];
      ghost var read := data[..];
      Slices(stream, size, read);
      assert data[..4] == read[..4] && data[4..8] == read[4..8] && data[8..] == read[8..];
      return Ok(Frame(FromLe32(data[..4]), FromLe32(data[4..8]), data[8..]));
    }

    /** Repeated `read_message`. */
    method ReadMessages(count: nat) returns (r: Result<seq<Frame>, ReadError>)
      requires Valid()
      modifies this
      ensures Valid()
      ensures match DecodeMany(old(Remaining()), count)
              case Ok((fs, rest)) => r == Ok(fs) && Remaining() == rest
              case Err(e) => r == Err(e)
      decreases count
    {
      if count == 0 {
        return Ok([]);
      }
      var first := ReadMessage();
      if first.Err? {
        return Err(first.error);
      }
      var others := ReadMessages(count - 1);
      if others.Err? {
        return Err(others.error);
      }
      return Ok([first.value] + others.value);
    }
  }

  /** Messages sent back to back and delivered in whatever non-empty chunks are received as they were sent,
      and what follows them is still in the stream. */
  method SendAndReceive(protocolVersion: uint32, fs: seq<Frame>, rest: seq<byte>, chunks: seq<seq<byte>>)
    returns (r: Result<seq<Frame>, ReadError>, ghost left: seq<byte>)
    requires forall f <- fs :: Sendable(f)
    requires (forall c <- chunks :: c != []) && Flatten(chunks) == EncodeMany(protocolVersion, fs) + rest
    ensures r == Ok(fs) && left == rest
  {
    DecodeEncoded(protocolVersion, fs, rest);
    var input := new SocketInput(chunks);
    r := input.ReadMessages(|fs|);
    left := input.Remaining();
  }
}
