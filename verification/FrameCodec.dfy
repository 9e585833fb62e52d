/** The agent's frame protocol: encoder, one-shot decoder with v2 fallback, incremental decoder. */
module FrameCodec {
  import opened Options
  import opened Bytes

  const MAGIC: seq<Byte> := [0x48, 0x54]
  const HEADER_SIZE := 21
  const V2_HEADER_SIZE := 20
  const MAX_FRAME_SIZE := 0x10_0000

  datatype FrameType = Handshake | Data | Heartbeat | Close | KeyUpdate | Wakeup | Sleep

  function TypeByte(t: FrameType): Byte {
    match t
    case Handshake => 1
    case Data => 2
    case Heartbeat => 3
    case Close => 4
    case KeyUpdate => 5
    case Wakeup => 6
    case Sleep => 7
  }

  function TypeOfByte(b: Byte): Option<FrameType> {
    match b
    case 1 => Some(Handshake)
    case 2 => Some(Data)
    case 3 => Some(Heartbeat)
    case 4 => Some(Close)
    case 5 => Some(KeyUpdate)
    case 6 => Some(Wakeup)
    case 7 => Some(Sleep)
    case _ => None
  }

  datatype Frame = Frame(version: Byte, frameType: FrameType, flags: Byte, seqNum: U32, originTs: U64,
                         payload: seq<Byte>)

  datatype Error = InvalidMagic(b0: Byte, b1: Byte) | InvalidFrameType(b: Byte) | PayloadTooLarge(n: nat)

  /** Ok(None), Ok(Some(frame, consumed)) and Err of the original. */
  datatype Decoded = NeedMore | Got(frame: Frame, consumed: nat) | Failed(error: Error)

  /** Type, flags, sequence number, timestamp and payload length, as v2 and v3 both lay them out. */
  function Fields(typeByte: Byte, flags: Byte, seqNum: U32, originTs: U64, len: nat): (h: seq<Byte>)
    ensures |h| == 18
  {
    [typeByte, flags] + ToBE(seqNum, 4) + ToBE(originTs, 8) + ToBE(len, 4)
  }

  function Encoded(f: Frame): (w: seq<Byte>)
    ensures |w| == HEADER_SIZE + |f.payload|
  {
    MAGIC + [f.version]
    + Fields(TypeByte(f.frameType), f.flags, f.seqNum, f.originTs, |f.payload| % 0x1_0000_0000)
    + f.payload
  }

  method Encode(f: Frame) returns (buf: seq<Byte>)
    ensures buf == Encoded(f)
  {
    hide ToBE;
    U32Truncation(|f.payload|);
    buf := MAGIC;
    buf := buf + [f.version];
    buf := buf + [TypeByte(f.frameType)];
    buf := buf + [f.flags];
    buf := buf + ToBE(f.seqNum, 4);
    buf := buf + ToBE(f.originTs, 8);
    buf := buf + ToBE(|f.payload| % 0x1_0000_0000, 4);
    buf := buf + f.payload;
  }

  /** The part of the decoder that v2 and v3 share, from the frame type at `at` on. */
  function DecodeFields(data: seq<Byte>, at: nat, version: Byte): (d: Decoded)
    requires at + 18 <= |data|
    ensures d.Got? ==> d.consumed == at + 18 + |d.frame.payload| <= |data|
  {
    match TypeOfByte(data[at])
    case None => Failed(InvalidFrameType(data[at]))
    case Some(t) =>
      var len := FromBE(data[at + 14..at + 18]);
      var total := at + 18 + len;
      if len > MAX_FRAME_SIZE then Failed(PayloadTooLarge(len))
      else if |data| < total then NeedMore
      else
        FieldRanges(data[at + 2..at + 6], data[at + 6..at + 14]);
        Got(Frame(version, t, data[at + 1], FromBE(data[at + 2..at + 6]), FromBE(data[at + 6..at + 14]),
                  data[at + 18..total]), total)
  }

  lemma FieldRanges(s4: seq<Byte>, s8: seq<Byte>)
    requires |s4| == 4 && |s8| == 8
    ensures FromBE(s4) < 0x1_0000_0000
    ensures FromBE(s8) < 0x1_0000_0000_0000_0000
  {
    ToFromBE(s4);
    ToFromBE(s8);
    Pow256Values();
  }

  /** Needs 21 bytes before it looks at anything, even when a 20-byte v2 frame is complete. */
  function Decode(data: seq<Byte>): (d: Decoded)
    ensures d.Got? ==> V2_HEADER_SIZE <= d.consumed <= |data|
  {
    if |data| < HEADER_SIZE then NeedMore
    else if data[0] != MAGIC[0] || data[1] != MAGIC[1] then Failed(InvalidMagic(data[0], data[1]))
    else if data[2] < 3 then DecodeFields(data, 2, 2)
    else DecodeFields(data, 3, data[2])
  }

  const TYPES := [Handshake, Data, Heartbeat, Close, KeyUpdate, Wakeup, Sleep]

  /** The frame types are numbered from 1. */
  lemma TypesAreNumbered(b: Byte)
    ensures TypeOfByte(b) == if 1 <= b <= 7 then Some(TYPES[b - 1]) else None
    ensures forall k | 0 <= k < 7 :: TypeByte(TYPES[k]) == k + 1
  {
  }

  // ----- the verdict, read off the bytes -----

  /** Decoding waits for 21 bytes; then it fails exactly on a wrong magic, an unknown type or a length above 2^20,
      and otherwise waits for the payload. */
  lemma DecodeVerdict(data: seq<Byte>)
    ensures |data| < 21 ==> Decode(data) == NeedMore
    ensures |data| >= 21 ==>
              var at := if data[2] < 3 then 2 else 3;
              var len := FromBE(data[at + 14..at + 18]);
              && (Decode(data).Failed?
                  <==> data[0] != 'H' as int || data[1] != 'T' as int || data[at] == 0 || data[at] > 7 || len > 0x10_0000)
              && (Decode(data).Got? <==> !Decode(data).Failed? && |data| >= at + 18 + len)
              && (Decode(data).Got? ==>
                    && Decode(data).consumed == at + 18 + len
                    && Decode(data).frame.version == if data[2] < 3 then 2 else data[2])
  {
    hide FromBE;
    if |data| >= 21 {
      var at := if data[2] < 3 then 2 else 3;
      TypesAreNumbered(data[at]);
    }
  }

  /** The three errors, in the order in which they are found. */
  lemma DecodeErrors(data: seq<Byte>)
    requires Decode(data).Failed?
    ensures |data| >= 21
    ensures var at := if data[2] < 3 then 2 else 3;
            Decode(data).error
            == if data[..2] != [0x48, 0x54] then InvalidMagic(data[0], data[1])
               else if data[at] == 0 || data[at] > 7 then InvalidFrameType(data[at])
               else PayloadTooLarge(FromBE(data[at + 14..at + 18]))
  {
    hide FromBE;
    var at := if data[2] < 3 then 2 else 3;
    TypesAreNumbered(data[at]);
    assert data[..2] == [data[0], data[1]];
  }

  // ----- prefix stability -----

  /** A frame or an error, once decided, is not changed by the bytes that follow. */
  lemma DecodeStable(p: seq<Byte>, q: seq<Byte>)
    requires Decode(p) != NeedMore
    ensures Decode(p + q) == Decode(p)
  {
    hide TypeOfByte, FromBE;
    var at := if p[2] < 3 then 2 else 3;
    assert (p + q)[at + 2..at + 6] == p[at + 2..at + 6];
    assert (p + q)[at + 6..at + 14] == p[at + 6..at + 14];
    assert (p + q)[at + 14..at + 18] == p[at + 14..at + 18];
    if Decode(p).Got? {
      var total := Decode(p).consumed;
      assert (p + q)[at + 18..total] == p[at + 18..total];
    }
  }

  // ----- round trip of one frame -----

  /** Versions below 3 are read back as v2; the size limit is the decoder's. */
  predicate Streamable(f: Frame) {
    f.version >= 3 && |f.payload| <= MAX_FRAME_SIZE
  }

  lemma FieldsAt(pre: seq<Byte>, typeByte: Byte, flags: Byte, seqNum: U32, originTs: U64, len: nat, post: seq<Byte>)
    ensures var data := pre + Fields(typeByte, flags, seqNum, originTs, len) + post;
            var at := |pre|;
            && data[at] == typeByte
            && data[at + 1] == flags
            && FromBE(data[at + 2..at + 6]) == seqNum
            && FromBE(data[at + 6..at + 14]) == originTs
            && FromBE(data[at + 14..at + 18]) == len % 0x1_0000_0000
            && data[at + 18..] == post
  {
    hide ToBE, FromBE;
    var data, at := pre + Fields(typeByte, flags, seqNum, originTs, len) + post, |pre|;
    U32RoundTrip(seqNum);
    U64RoundTrip(originTs);
    U32RoundTrip(len);
    assert data[at + 2..at + 6] == ToBE(seqNum, 4);
    assert data[at + 6..at + 14] == ToBE(originTs, 8);
    assert data[at + 14..at + 18] == ToBE(len, 4);
  }

  lemma TypeRoundTrip(t: FrameType)
    ensures TypeOfByte(TypeByte(t)) == Some(t)
  {
  }

  lemma EncodedFields(f: Frame, rest: seq<Byte>)
    ensures var data := Encoded(f) + rest;
            && data[..3] == MAGIC + [f.version]
            && data[3] == TypeByte(f.frameType)
            && data[4] == f.flags
            && FromBE(data[5..9]) == f.seqNum
            && FromBE(data[9..17]) == f.originTs
            && FromBE(data[17..21]) == |f.payload| % 0x1_0000_0000
            && data[21..] == f.payload + rest
  {
    hide FromBE, Fields, TypeByte;
    var len := |f.payload| % 0x1_0000_0000;
    var pre := MAGIC + [f.version];
    var fields := Fields(TypeByte(f.frameType), f.flags, f.seqNum, f.originTs, len);
    FieldsAt(pre, TypeByte(f.frameType), f.flags, f.seqNum, f.originTs, len, f.payload + rest);
    assert Encoded(f) + rest == pre + fields + (f.payload + rest);
  }

  lemma DecodeEncoded(f: Frame, rest: seq<Byte>)
    requires Streamable(f)
    ensures Decode(Encoded(f) + rest) == Got(f, |Encoded(f)|)
  {
    hide FromBE, TypeByte, TypeOfByte, Encoded;
    EncodedFields(f, rest);
    var data := Encoded(f) + rest;
    assert data[0] == data[..3][0] && data[1] == data[..3][1] && data[2] == data[..3][2];
    TypeRoundTrip(f.frameType);
    assert data[21..21 + |f.payload|] == data[21..][..|f.payload|] == f.payload;
  }

  /** The encoder's output decodes to the frame, all of it consumed, for exactly the streamable frames. */
  lemma FrameRoundTrip(f: Frame, rest: seq<Byte>)
    ensures Decode(Encoded(f) + rest) == Got(f, |Encoded(f)|) <==> Streamable(f)
  {
    hide Encoded, FromBE, TypeByte, TypeOfByte;
    if Streamable(f) {
      DecodeEncoded(f, rest);
    } else {
      EncodedFields(f, rest);
      var data := Encoded(f) + rest;
      assert data[2] == data[..3][2];
    }
  }

  lemma U32Truncation(n: nat)
    ensures n % 0x1_0000_0000 < 0x1_0000_0000
  {
  }

  lemma DecodeNeedsWholeFrame(f: Frame, k: nat)
    requires Streamable(f) && k < |Encoded(f)|
    ensures Decode(Encoded(f)[..k]) == NeedMore
  {
    hide Encoded;
    DecodeEncoded(f, []);
    assert Encoded(f) + [] == Encoded(f);
    var p, q := Encoded(f)[..k], Encoded(f)[k..];
    assert p + q == Encoded(f);
    if Decode(p) != NeedMore {
      DecodeStable(p, q);
    }
  }

  // ----- the incremental decoder -----

  datatype Output = Nothing | Whole(frame: Frame) | Err(error: Error)

  class FrameDecoder {
    var buffer: seq<Byte>

    constructor ()
      ensures buffer == []
    {
      buffer := [];
    }

    method Feed(data: seq<Byte>)
      modifies this
      ensures Decoder(buffer, []) == Step(Decoder(old(buffer), []), Fed(data))
    {
      buffer := buffer + data;
    }

    /** Takes one frame off the buffer if a whole one is there. */
    method TryDecode() returns (r: Output)
      modifies this
      ensures Decoder(buffer, [r]) == Step(Decoder(old(buffer), []), Pull)
    {
      var d := Decode(buffer);
      match d {
        case Got(frame, consumed) =>
          buffer := buffer[consumed..];
          return Whole(frame);
        case NeedMore =>
          return Nothing;
        case Failed(error) =>
          return Err(error);
      }
    }
  }

  datatype Op = Fed(data: seq<Byte>) | Pull

  /** The decoder's buffer and everything its decode calls have returned. */
  datatype Decoder = Decoder(buffer: seq<Byte>, returned: seq<Output>)

  function Step(s: Decoder, op: Op): Decoder {
    match op
    case Fed(data) => s.(buffer := s.buffer + data)
    case Pull =>
      match Decode(s.buffer)
      case NeedMore => s.(returned := s.returned + [Nothing])
      case Got(frame, consumed) => Decoder(s.buffer[consumed..], s.returned + [Whole(frame)])
      case Failed(error) => s.(returned := s.returned + [Err(error)])
  }

  function Run(ops: seq<Op>): Decoder {
    if ops == [] then Decoder([], []) else Step(Run(ops[..|ops| - 1]), ops[|ops| - 1])
  }

  function BytesFed(ops: seq<Op>): seq<Byte> {
    if ops == [] then []
    else BytesFed(ops[..|ops| - 1]) + if ops[|ops| - 1].Fed? then ops[|ops| - 1].data else []
  }

  /** The frames among the results. */
  function FramesOf(outs: seq<Output>): seq<Frame> {
    if outs == [] then []
    else
      var front := FramesOf(outs[..|outs| - 1]);
      if outs[|outs| - 1].Whole? then front + [outs[|outs| - 1].frame] else front
  }

  function EncodedAll(fs: seq<Frame>): seq<Byte> {
    if fs == [] then [] else Encoded(fs[0]) + EncodedAll(fs[1..])
  }

  ghost predicate NoError(outs: seq<Output>) {
    forall i | 0 <= i < |outs| :: !outs[i].Err?
  }

  ghost predicate AllStreamable(fs: seq<Frame>) {
    forall i | 0 <= i < |fs| :: Streamable(fs[i])
  }

  lemma {:induction false} EncodedAllSplit(fs: seq<Frame>, n: nat)
    requires n <= |fs|
    ensures EncodedAll(fs) == EncodedAll(fs[..n]) + EncodedAll(fs[n..])
  {
    hide Encoded;
    if n == 0 {
      assert fs[..0] == [] && fs[0..] == fs;
    } else {
      EncodedAllSplit(fs[1..], n - 1);
      assert fs[..n][1..] == fs[1..][..n - 1];
      assert fs[n..] == fs[1..][n - 1..];
    }
  }

  /** Where a run over a prefix of an encoded frame list stands. */
  ghost predicate OnTrack(fs: seq<Frame>, ops: seq<Op>) {
    var out := FramesOf(Run(ops).returned);
    && NoError(Run(ops).returned)
    && out <= fs
    && EncodedAll(out) + Run(ops).buffer == BytesFed(ops)
  }

  /** At every moment the decoded frames are a prefix of those sent, no call has failed, and the bytes
      consumed with those buffered are the bytes fed. */
  lemma {:induction false} RunOnTrack(fs: seq<Frame>, ops: seq<Op>)
    requires AllStreamable(fs)
    requires BytesFed(ops) <= EncodedAll(fs)
    ensures OnTrack(fs, ops)
  {
    hide Decode, Encoded;
    if ops != [] {
      var front, op := ops[..|ops| - 1], ops[|ops| - 1];
      assert BytesFed(front) <= BytesFed(ops);
      RunOnTrack(fs, front);
      if op.Fed? {
        var out := EncodedAll(FramesOf(Run(front).returned));
        assert out + (Run(front).buffer + op.data) == out + Run(front).buffer + op.data;
      } else {
        PullOnTrack(fs, front);
      }
    }
  }

  /** What one decode call does to a decoder that is on track. */
  lemma PullStep(fs: seq<Frame>, ops: seq<Op>)
    requires AllStreamable(fs)
    requires BytesFed(ops) <= EncodedAll(fs)
    requires OnTrack(fs, ops)
    ensures var s, n := Run(ops), |FramesOf(Run(ops).returned)|;
            Run(ops + [Pull]) ==
            if n == |fs| || |s.buffer| < |Encoded(fs[n])| then s.(returned := s.returned + [Nothing])
            else Decoder(s.buffer[|Encoded(fs[n])|..], s.returned + [Whole(fs[n])])
    ensures var s, n := Run(ops), |FramesOf(Run(ops).returned)|;
            && s.buffer <= EncodedAll(fs[n..])
            && (n < |fs| && |Encoded(fs[n])| <= |s.buffer| ==> Encoded(fs[n]) <= s.buffer)
  {
    hide Encoded, Decode;
    var s, out := Run(ops), FramesOf(Run(ops).returned);
    assert (ops + [Pull])[..|ops|] == ops;
    EncodedAllSplit(fs, |out|);
    assert fs[..|out|] == out;
    PrefixOfRest(EncodedAll(out), s.buffer, EncodedAll(fs[|out|..]));
    DecodeOfPrefix(fs[|out|..], s.buffer);
  }

  lemma PullOnTrack(fs: seq<Frame>, ops: seq<Op>)
    requires AllStreamable(fs)
    requires BytesFed(ops) <= EncodedAll(fs)
    requires OnTrack(fs, ops)
    ensures OnTrack(fs, ops + [Pull])
  {
    hide Encoded, Decode, Step, Run, Streamable, EncodedAll;
    PullStep(fs, ops);
    assert (ops + [Pull])[..|ops|] == ops;
    assert BytesFed(ops + [Pull]) == BytesFed(ops);
    var s, s', out := Run(ops), Run(ops + [Pull]), FramesOf(Run(ops).returned);
    FramesOfSnoc(s.returned, s'.returned[|s.returned|]);
    if s'.buffer != s.buffer || s'.returned[|s.returned|] != Nothing {
      var f := fs[|out|];
      EncodedAllSnoc(out, f);
      assert s.buffer == Encoded(f) + s'.buffer;
      assert EncodedAll(out) + (Encoded(f) + s'.buffer) == EncodedAll(out) + Encoded(f) + s'.buffer;
    }
  }

  lemma FramesOfSnoc(outs: seq<Output>, o: Output)
    ensures FramesOf(outs + [o]) == FramesOf(outs) + if o.Whole? then [o.frame] else []
  {
    assert (outs + [o])[..|outs|] == outs;
  }

  lemma EncodedAllSnoc(fs: seq<Frame>, f: Frame)
    ensures EncodedAll(fs + [f]) == EncodedAll(fs) + Encoded(f)
  {
    hide Encoded;
    EncodedAllSplit(fs + [f], |fs|);
    assert (fs + [f])[..|fs|] == fs && (fs + [f])[|fs|..] == [f];
    assert EncodedAll([f]) == Encoded(f) + EncodedAll([]);
  }

  lemma PrefixOfRest(a: seq<Byte>, b: seq<Byte>, c: seq<Byte>)
    requires a + b <= a + c
    ensures b <= c
  {
    assert forall i | 0 <= i < |b| :: b[i] == (a + b)[|a| + i] == (a + c)[|a| + i];
  }

  /** On a prefix of encoded frames the decoder returns the first frame as soon as it is whole. */
  lemma DecodeOfPrefix(fs: seq<Frame>, buffer: seq<Byte>)
    requires AllStreamable(fs)
    requires buffer <= EncodedAll(fs)
    ensures if fs == [] || |buffer| < |Encoded(fs[0])| then Decode(buffer) == NeedMore
            else Encoded(fs[0]) <= buffer && Decode(buffer) == Got(fs[0], |Encoded(fs[0])|)
  {
    hide Encoded;
    if fs != [] {
      var w := Encoded(fs[0]);
      if |buffer| < |w| {
        assert buffer == w[..|buffer|];
        DecodeNeedsWholeFrame(fs[0], |buffer|);
      } else {
        assert buffer == w + buffer[|w|..];
        DecodeEncoded(fs[0], buffer[|w|..]);
      }
    }
  }

  function Pulls(n: nat): seq<Op> {
    if n == 0 then [] else Pulls(n - 1) + [Pull]
  }

  /** Once everything is fed, as many decode calls as there are frames return all of them. */
  lemma {:induction false} DrainYieldsAll(fs: seq<Frame>, ops: seq<Op>, n: nat)
    requires AllStreamable(fs)
    requires BytesFed(ops) == EncodedAll(fs)
    requires |FramesOf(Run(ops).returned)| + n >= |fs|
    ensures FramesOf(Run(ops + Pulls(n)).returned) == fs
    ensures Run(ops + Pulls(n)).buffer == []
    decreases n
  {
    hide Encoded, Decode, Step, FramesOf, EncodedAll, Run;
    RunOnTrack(fs, ops);
    if n == 0 {
      assert ops + [] == ops;
    } else {
      ProgressOfPull(fs, ops);
      assert (ops + [Pull])[..|ops|] == ops;
      DrainYieldsAll(fs, ops + [Pull], n - 1);
      PullsCons(n);
      assert ops + [Pull] + Pulls(n - 1) == ops + ([Pull] + Pulls(n - 1));
    }
  }

  lemma {:induction false} PullsCons(n: nat)
    requires n > 0
    ensures Pulls(n) == [Pull] + Pulls(n - 1)
  {
    if n > 1 {
      PullsCons(n - 1);
    }
  }

  /** With all bytes fed, a decode call returns a further frame as long as one is outstanding. */
  lemma ProgressOfPull(fs: seq<Frame>, ops: seq<Op>)
    requires AllStreamable(fs)
    requires BytesFed(ops) == EncodedAll(fs)
    requires OnTrack(fs, ops)
    ensures var n := |FramesOf(Run(ops).returned)|;
            |FramesOf(Run(ops + [Pull]).returned)| == if n < |fs| then n + 1 else n
  {
    hide Encoded, Decode, Step, Run, FramesOf, BytesFed, Streamable;
    PullStep(fs, ops);
    var s, s', n := Run(ops), Run(ops + [Pull]), |FramesOf(Run(ops).returned)|;
    FramesOfSnoc(s.returned, s'.returned[|s.returned|]);
    EncodedAllSplit(fs, n);
    assert fs[..n] == FramesOf(s.returned);
    assert |s.buffer| == |EncodedAll(fs[n..])|;
    if n < |fs| {
      assert EncodedAll(fs[n..]) == Encoded(fs[n]) + EncodedAll(fs[n..][1..]);
    }
  }

  // ----- failure is permanent -----

  /** A decoder that has failed once fails the same way on every later call, whatever is fed. */
  lemma {:induction false} FailureIsPermanent(ops: seq<Op>, more: seq<Op>, error: Error)
    requires Decode(Run(ops).buffer) == Failed(error)
    ensures Decode(Run(ops + more).buffer) == Failed(error)
    ensures Run(ops).returned <= Run(ops + more).returned
    ensures forall i | |Run(ops).returned| <= i < |Run(ops + more).returned| ::
              Run(ops + more).returned[i] == Err(error)
  {
    hide Decode;
    if more == [] {
      assert ops + more == ops;
    } else {
      var front, op := more[..|more| - 1], more[|more| - 1];
      assert ops + more == ops + front + [op];
      assert (ops + more)[..|ops + more| - 1] == ops + front;
      FailureIsPermanent(ops, front, error);
      if op.Fed? {
        DecodeStable(Run(ops + front).buffer, op.data);
      }
    }
  }

  // ----- the v2 fallback -----

  /** A frame as a v2 sender lays it out: no version byte. */
  function EncodedV2(f: Frame): (w: seq<Byte>)
    ensures |w| == V2_HEADER_SIZE + |f.payload|
  {
    MAGIC + Fields(TypeByte(f.frameType), f.flags, f.seqNum, f.originTs, |f.payload| % 0x1_0000_0000) + f.payload
  }

  /** v2 frames are understood for the two types whose byte is below 3, within the size limit, and only
      once a 21st byte is there. */
  lemma V2RoundTrip(f: Frame, rest: seq<Byte>)
    requires f.version == 2
    ensures Decode(EncodedV2(f) + rest) == Got(f, |EncodedV2(f)|) <==>
            TypeByte(f.frameType) < 3 && |f.payload| <= MAX_FRAME_SIZE && |f.payload| + |rest| >= 1
  {
    hide FromBE, Fields, TypeOfByte;
    var len := |f.payload| % 0x1_0000_0000;
    FieldsAt(MAGIC, TypeByte(f.frameType), f.flags, f.seqNum, f.originTs, len, f.payload + rest);
    TypeRoundTrip(f.frameType);
    var data := EncodedV2(f) + rest;
    var fields := Fields(TypeByte(f.frameType), f.flags, f.seqNum, f.originTs, len);
    assert data == MAGIC + fields + (f.payload + rest);
    assert data[0] == MAGIC[0] && data[1] == MAGIC[1];
    if |f.payload| <= MAX_FRAME_SIZE {
      assert data[20..20 + |f.payload|] == data[20..][..|f.payload|] == f.payload;
    }
  }
}
