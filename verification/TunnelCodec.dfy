/** The frames of the tunnel: magic, version, command, stream id, length, payload. */
module TunnelCodec {
  import opened Basics

  type uint32 = n: int | 0 <= n < 0x1_0000_0000

  const MAGIC: seq<byte> := [0xAC, 0xE5, 0x07, 0x13]
  const VERSION: byte := 1

  datatype Frame = Frame(cmd: byte, sid: uint32, payload: seq<byte>)

  /** The length field holds 32 bits. */
  predicate Fits(f: Frame) { |f.payload| < 0x1_0000_0000 }

  /** Network byte order. */
  function Pack(n: uint32): seq<byte> {
    var high, low := n / 0x1_0000, n % 0x1_0000;
    [high / 0x100, high % 0x100, low / 0x100, low % 0x100]
  }

  function Unpack(b: seq<byte>): uint32
    requires |b| == 4
  {
    var high: int := b[0] as int * 0x100 + b[1] as int;
    var low: int := b[2] as int * 0x100 + b[3] as int;
    high * 0x1_0000 + low
  }

  function MakeFrame(f: Frame): seq<byte>
    requires Fits(f)
  {
    MAGIC + [VERSION, f.cmd] + Pack(f.sid) + Pack(|f.payload|) + f.payload
  }

  datatype ReadResult = Read(frame: Frame, rest: seq<byte>) | BadMagic | EndOfStream

  /** Reads exactly the bytes of one frame; the version is not looked at. */
  function ReadFrame(stream: seq<byte>): ReadResult {
    if |stream| < 4 then EndOfStream
    else if stream[..4] != MAGIC then BadMagic
    else if |stream| < 14 then EndOfStream
    else
      var len := Unpack(stream[10..14]);
      if |stream| - 14 < len then EndOfStream
      else Read(Frame(stream[5], Unpack(stream[6..10]), stream[14..14 + len]), stream[14 + len..])
  }

  /** Reads frames until the stream ends or is not one of frames. */
  function ReadAll(stream: seq<byte>): seq<Frame>
    decreases |stream|
  {
    match ReadFrame(stream)
    case Read(frame, rest) => [frame] + ReadAll(rest)
    case _ => []
  }

  function MakeAll(frames: seq<Frame>): seq<byte>
    requires forall f | f in frames :: Fits(f)
  {
    if frames == [] then [] else MakeFrame(frames[0]) + MakeAll(frames[1..])
  }

  lemma PackUnpack(n: uint32)
    ensures Unpack(Pack(n)) == n
  {
  }

  /** Network byte order puts the most significant byte first. */
  ghost predicate BigEndian(b: seq<byte>, n: int)
    requires |b| == 4
  {
    n == b[0] as int * 0x100_0000 + b[1] as int * 0x1_0000 + b[2] as int * 0x100 + b[3] as int
  }

  /** Where each field of a frame is. */
  lemma FrameBytes(f: Frame)
    requires Fits(f)
    ensures var b := MakeFrame(f);
            && |b| == 14 + |f.payload| && b[..5] == [0xAC, 0xE5, 0x07, 0x13, 1] && b[5] == f.cmd
            && BigEndian(b[6..10], f.sid) && BigEndian(b[10..14], |f.payload|) && b[14..] == f.payload
  {
    var b := MakeFrame(f);
    assert b[6..10] == Pack(f.sid) && b[10..14] == Pack(|f.payload|);
  }

  /** A frame at the head of a stream is read back, and nothing after it is touched. */
  lemma ReadMade(f: Frame, rest: seq<byte>)
    requires Fits(f)
    ensures ReadFrame(MakeFrame(f) + rest) == Read(f, rest)
  {
    var s := MakeFrame(f) + rest;
    PackUnpack(f.sid);
    PackUnpack(|f.payload|);
    assert s[..4] == MAGIC;
    assert s[6..10] == Pack(f.sid);
    assert s[10..14] == Pack(|f.payload|);
    assert s[14..14 + |f.payload|] == f.payload;
    assert s[14 + |f.payload|..] == rest;
  }

  /** A stream is refused exactly for its first four bytes. */
  lemma RefusedIff(stream: seq<byte>)
    ensures ReadFrame(stream) == BadMagic <==> |stream| >= 4 && stream[..4] != [0xAC, 0xE5, 0x07, 0x13]
  {
  }

  /** An incomplete frame is the end of the stream, never another frame or an error. */
  lemma ReadPartial(f: Frame, n: nat)
    requires Fits(f) && n < |MakeFrame(f)|
    ensures ReadFrame(MakeFrame(f)[..n]) == EndOfStream
  {
    var s, full := MakeFrame(f)[..n], MakeFrame(f);
    PackUnpack(|f.payload|);
    if n >= 4 {
      assert s[..4] == full[..4] == MAGIC;
      if n >= 14 { assert s[10..14] == full[10..14] == Pack(|f.payload|); }
    }
  }

  lemma ReadOneMore(f: Frame, later: seq<byte>, n: nat)
    requires Fits(f) && |MakeFrame(f)| <= n <= |MakeFrame(f)| + |later|
    ensures ReadAll((MakeFrame(f) + later)[..n]) == [f] + ReadAll(later[..n - |MakeFrame(f)|])
  {
    var part := later[..n - |MakeFrame(f)|];
    assert (MakeFrame(f) + later)[..n] == MakeFrame(f) + part;
    ReadMade(f, part);
  }

  /** Reading what was made gives the frames back; and whatever part of it has arrived, the frames
      read from it are the first ones made. */
  lemma {:induction false} ReadAllMade(frames: seq<Frame>, n: nat)
    requires (forall f | f in frames :: Fits(f)) && n <= |MakeAll(frames)|
    ensures ReadAll(MakeAll(frames)[..n]) <= frames
    ensures n == |MakeAll(frames)| ==> ReadAll(MakeAll(frames)[..n]) == frames
    decreases frames
  {
    if frames != [] {
      var first, later := MakeFrame(frames[0]), MakeAll(frames[1..]);
      if n < |first| {
        assert MakeAll(frames)[..n] == first[..n];
        ReadPartial(frames[0], n);
      } else {
        ReadOneMore(frames[0], later, n);
        ReadAllMade(frames[1..], n - |first|);
        assert frames == [frames[0]] + frames[1..];
      }
    }
  }
}
