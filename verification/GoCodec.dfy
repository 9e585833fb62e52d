/** The controller's own frame codec, and where it agrees with the agent's. */
module GoCodec {
  import opened Bytes
  import Rust = FrameCodec

  const PROTO_VERSION: Byte := 3
  const V3_HEADER_SIZE := 21
  const V2_HEADER_SIZE := 20
  const V1_HEADER_SIZE := 12
  const MAX_FRAME_SIZE := 0x10_0000

  /** The controller keeps the type as a raw byte. */
  datatype Frame = Frame(version: Byte, frameType: Byte, flags: Byte, seqNum: U32, originTs: U64,
                         payload: seq<Byte>)

  datatype Error = TooLarge | TooShort | BadMagic | Incomplete

  datatype Result<+T> = Ok(value: T) | Err(error: Error)

  /** Version 0 stands for the current version. */
  function WireVersion(version: Byte): Byte {
    if version == 0 then PROTO_VERSION else version
  }

  /** The wire form, laid out as in the agent's protocol. */
  function Marshalled(f: Frame): (w: seq<Byte>)
    requires |f.payload| <= MAX_FRAME_SIZE
    ensures |w| == V3_HEADER_SIZE + |f.payload|
  {
    Rust.MAGIC + [WireVersion(f.version)]
    + Rust.Fields(f.frameType, f.flags, f.seqNum, f.originTs, |f.payload|) + f.payload
  }

  /** Copies `s` into the buffer from `at` on, touching nothing else. */
  method Put(buf: array<Byte>, at: nat, s: seq<Byte>)
    requires at + |s| <= buf.Length
    modifies buf
    ensures buf[..at + |s|] == old(buf[..at]) + s
    ensures buf[at + |s|..] == old(buf[at + |s|..])
  {
    for i := 0 to |s|
      invariant forall j | 0 <= j < at :: buf[j] == old(buf[j])
      invariant forall j | 0 <= j < i :: buf[at + j] == s[j]
      invariant forall j | at + |s| <= j < buf.Length :: buf[j] == old(buf[j])
    {
      buf[at + i] := s[i];
    }
  }

  method MarshalFrame(f: Frame) returns (r: Result<seq<Byte>>)
    ensures r == if |f.payload| > MAX_FRAME_SIZE then Err(TooLarge) else Ok(Marshalled(f))
  {
    hide ToBE;
    if |f.payload| > MAX_FRAME_SIZE {
      return Err(TooLarge);
    }
    var buf := new Byte[V3_HEADER_SIZE + |f.payload|](_ => 0);
    buf[0] := 0x48;
    buf[1] := 0x54;
    buf[2] := f.version;
    if buf[2] == 0 {
      buf[2] := PROTO_VERSION;
    }
    buf[3] := f.frameType;
    buf[4] := f.flags;
    ghost var pre := Rust.MAGIC + [WireVersion(f.version), f.frameType, f.flags];
    assert buf[..5] == pre;
    Put(buf, 5, ToBE(f.seqNum, 4));
    Put(buf, 9, ToBE(f.originTs, 8));
    Put(buf, 17, ToBE(|f.payload|, 4));
    assert buf[..21] == pre + ToBE(f.seqNum, 4) + ToBE(f.originTs, 8) + ToBE(|f.payload|, 4);
    Put(buf, 21, f.payload);
    assert buf[..] == buf[..21 + |f.payload|];
    MarshalledInOrder(f);
    return Ok(buf[..]);
  }

  lemma MarshalledInOrder(f: Frame)
    requires |f.payload| <= MAX_FRAME_SIZE
    ensures Marshalled(f) == Rust.MAGIC + [WireVersion(f.version), f.frameType, f.flags]
                             + ToBE(f.seqNum, 4) + ToBE(f.originTs, 8) + ToBE(|f.payload|, 4) + f.payload
  {
    hide ToBE, WireVersion;
  }

  /** Branch for branch as written; the length comparison is made in 32 bits. */
  function Unmarshal(data: seq<Byte>): (r: Result<Frame>)
  {
    if |data| < V1_HEADER_SIZE then Err(TooShort)
    else if data[0] != 0x48 || data[1] != 0x54 then Err(BadMagic)
    else if data[2] >= 3 then
      if |data| < V3_HEADER_SIZE then Err(TooShort)
      else Body(data, data[2], data[3], data[4], data[5..9], data[9..17], data[17..21], V3_HEADER_SIZE)
    else if |data| < V2_HEADER_SIZE then
      Body(data, 1, data[2], data[3], data[4..8], ToBE(0, 8), data[8..12], V1_HEADER_SIZE)
    else
      Body(data, 2, data[2], data[3], data[4..8], data[8..16], data[16..20], V2_HEADER_SIZE)
  }

  function Body(data: seq<Byte>, version: Byte, frameType: Byte, flags: Byte, seqBytes: seq<Byte>,
                tsBytes: seq<Byte>, lenBytes: seq<Byte>, header: nat): Result<Frame>
    requires |seqBytes| == 4 && |tsBytes| == 8 && |lenBytes| == 4
    requires header <= |data|
  {
    var len := FromBE(lenBytes);
    if len > MAX_FRAME_SIZE then Err(TooLarge)
    else if (|data| - header) % 0x1_0000_0000 < len then Err(Incomplete)
    else
      Rust.FieldRanges(seqBytes, tsBytes);
      ModAtMost(|data| - header);
      Ok(Frame(version, frameType, flags, FromBE(seqBytes), FromBE(tsBytes), data[header..header + len]))
  }

  lemma ModAtMost(n: nat)
    ensures n % 0x1_0000_0000 <= n
  {
  }

  // ----- agreement on received bytes -----

  /** The agent's frame as the controller would hold it. */
  function AsGo(f: Rust.Frame): Frame {
    Frame(f.version, Rust.TypeByte(f.frameType), f.flags, f.seqNum, f.originTs, f.payload)
  }

  /** The header the agent uses: 20 bytes for what it reads as v2, 21 otherwise. */
  function HeaderOf(data: seq<Byte>): nat
    requires |data| > 2
  {
    if data[2] < 3 then V2_HEADER_SIZE else V3_HEADER_SIZE
  }

  lemma TypeByteOf(b: Byte)
    ensures Rust.TypeOfByte(b).Some? ==> Rust.TypeByte(Rust.TypeOfByte(b).value) == b
    ensures Rust.TypeOfByte(b).Some? <==> 1 <= b <= 7
  {
  }

  /** What the agent accepts the controller reads as the same frame, except that its 32-bit length
      comparison can wrongly reject a buffer of 4 GiB or more. */
  lemma AgentAcceptsControllerAgrees(data: seq<Byte>)
    requires Rust.Decode(data).Got?
    ensures var f := Rust.Decode(data).frame;
            Unmarshal(data) ==
            if (|data| - HeaderOf(data)) % 0x1_0000_0000 < |f.payload| then Err(Incomplete) else Ok(AsGo(f))
  {
    hide FromBE, Rust.TypeOfByte, Rust.TypeByte;
    TypeByteOf(if data[2] < 3 then data[2] else data[3]);
  }

  /** Cut to the frame, nothing is in the way: the two codecs read every agent frame alike. */
  lemma FrameSlicesAgree(data: seq<Byte>)
    requires Rust.Decode(data).Got?
    ensures Unmarshal(data[..Rust.Decode(data).consumed]) == Ok(AsGo(Rust.Decode(data).frame))
  {
    hide FromBE, Rust.TypeOfByte, Rust.TypeByte;
    TypeByteOf(if data[2] < 3 then data[2] else data[3]);
    var n := Rust.Decode(data).consumed;
    var p := data[..n];
    var at := if data[2] < 3 then 2 else 3;
    assert n >= at + 18;
    assert p[at + 2..at + 6] == data[at + 2..at + 6];
    assert p[at + 6..at + 14] == data[at + 6..at + 14];
    assert p[at + 14..at + 18] == data[at + 14..at + 18];
    assert p[at + 18..n] == data[at + 18..n];
  }

  /** On any buffer of at least 21 bytes and below 4 GiB the agent yields a frame exactly when the
      controller does and the frame's type is a known one. */
  lemma SameFramesAccepted(data: seq<Byte>)
    requires V3_HEADER_SIZE <= |data| < 0x1_0000_0000
    ensures Rust.Decode(data).Got? <==> Unmarshal(data).Ok? && 1 <= Unmarshal(data).value.frameType <= 7
    ensures Rust.Decode(data).Got? ==> Unmarshal(data) == Ok(AsGo(Rust.Decode(data).frame))
  {
    hide FromBE, Rust.TypeOfByte, Rust.TypeByte;
    TypeByteOf(if data[2] < 3 then data[2] else data[3]);
  }

  /** Between 12 and 20 bytes only the controller decodes, as v1 or as an empty v2 frame. */
  lemma ShortBuffersDisagree(data: seq<Byte>)
    requires |data| < V3_HEADER_SIZE
    ensures Rust.Decode(data) == Rust.NeedMore
    ensures Unmarshal(data).Ok? ==> V1_HEADER_SIZE <= |data| && Unmarshal(data).value.version in {1, 2}
  {
    hide FromBE;
  }

  // ----- agreement on sent frames -----

  lemma MarshalledFields(f: Frame)
    requires |f.payload| <= MAX_FRAME_SIZE
    ensures var data := Marshalled(f);
            && data[..3] == Rust.MAGIC + [WireVersion(f.version)]
            && data[3] == f.frameType
            && data[4] == f.flags
            && FromBE(data[5..9]) == f.seqNum
            && FromBE(data[9..17]) == f.originTs
            && FromBE(data[17..21]) == |f.payload|
            && data[21..] == f.payload
  {
    hide FromBE, Rust.Fields;
    var pre := Rust.MAGIC + [WireVersion(f.version)];
    var fields := Rust.Fields(f.frameType, f.flags, f.seqNum, f.originTs, |f.payload|);
    Rust.FieldsAt(pre, f.frameType, f.flags, f.seqNum, f.originTs, |f.payload|, f.payload);
    assert Marshalled(f) == pre + fields + f.payload;
  }

  /** The agent reads back a marshalled frame, version 0 as 3, exactly when its type is known and its
      version is not 1 or 2. */
  lemma AgentReadsController(f: Frame)
    requires |f.payload| <= MAX_FRAME_SIZE
    ensures var d := Rust.Decode(Marshalled(f));
            (d.Got? && d.consumed == |Marshalled(f)| && AsGo(d.frame) == f.(version := WireVersion(f.version)))
            <==> 1 <= f.frameType <= 7 && f.version != 1 && f.version != 2
  {
    hide FromBE, Rust.TypeOfByte, Rust.TypeByte, Marshalled;
    MarshalledFields(f);
    var data := Marshalled(f);
    assert data[0] == data[..3][0] && data[1] == data[..3][1] && data[2] == data[..3][2];
    TypeByteOf(f.frameType);
  }

  lemma SameNumberSameBytes(s: seq<Byte>, t: seq<Byte>)
    requires |s| == |t| && FromBE(s) == FromBE(t)
    ensures s == t
  {
    ToFromBE(s);
    ToFromBE(t);
  }

  lemma {:induction false} ShiftedRunIsConstant(data: seq<Byte>, at: nat, n: nat)
    requires at + n < |data|
    requires data[at..at + n] == data[at + 1..at + n + 1]
    ensures data[at] == data[at + n]
    decreases n
  {
    if n > 0 {
      assert data[at + n - 1] == data[at..at + n][n - 1] == data[at + 1..at + n + 1][n - 1] == data[at + n];
      assert data[at..at + n - 1] == data[at..at + n][..n - 1];
      assert data[at + 1..at + n] == data[at + 1..at + n + 1][..n - 1];
      ShiftedRunIsConstant(data, at, n - 1);
    }
  }

  lemma TopByteCounts(s: seq<Byte>)
    requires |s| == 4
    ensures FromBE(s) >= s[0] as int * 0x100_0000
  {
    assert s[..3][..2][..1] == [s[0]];
    assert FromBE(s[..3][..2]) >= s[0] as int * 0x100;
  }

  /** A frame sent with version 1 or 2 never comes back: read as v2, every field is off by one byte, and
      the bytes would all have to be 2, which makes the length too large. */
  lemma OldVersionsDoNotReturn(f: Frame)
    requires |f.payload| <= MAX_FRAME_SIZE
    requires f.version == 1 || f.version == 2
    ensures Unmarshal(Marshalled(f)) != Ok(f)
  {
    hide FromBE, Marshalled;
    MarshalledFields(f);
    var data := Marshalled(f);
    assert data[0] == data[..3][0] && data[1] == data[..3][1] && data[2] == data[..3][2];
    if Unmarshal(data) == Ok(f) {
      SameNumberSameBytes(data[4..8], data[5..9]);
      SameNumberSameBytes(data[8..16], data[9..17]);
      ShiftedRunIsConstant(data, 4, 4);
      ShiftedRunIsConstant(data, 8, 8);
      assert data[16] == data[4] == data[3] == 2;
      TopByteCounts(data[16..20]);
    }
  }

  /** The controller reads back its own frames, version 0 as 3, exactly when the version is not 1 or 2. */
  lemma ControllerRoundTrip(f: Frame)
    requires |f.payload| <= MAX_FRAME_SIZE
    ensures Unmarshal(Marshalled(f)) == Ok(f.(version := WireVersion(f.version))) <==>
            f.version != 1 && f.version != 2
  {
    hide FromBE, Marshalled;
    if f.version == 1 || f.version == 2 {
      OldVersionsDoNotReturn(f);
    } else {
      MarshalledFields(f);
      var data := Marshalled(f);
      assert data[0] == data[..3][0] && data[1] == data[..3][1] && data[2] == data[..3][2];
      assert data[21..21 + |f.payload|] == data[21..];
    }
  }

  /** The controller reads every streamable frame that the agent encodes. */
  lemma ControllerReadsAgent(f: Rust.Frame)
    requires Rust.Streamable(f)
    ensures Unmarshal(Rust.Encoded(f)) == Ok(AsGo(f))
  {
    hide Rust.Encoded, Unmarshal, Rust.Decode;
    Rust.DecodeEncoded(f, []);
    assert Rust.Encoded(f) + [] == Rust.Encoded(f);
    FrameSlicesAgree(Rust.Encoded(f));
    assert Rust.Encoded(f)[..|Rust.Encoded(f)|] == Rust.Encoded(f);
  }

  // ----- the v1 fallback -----

  /** A frame as a v1 sender lays it out: neither version byte nor timestamp. */
  function EncodedV1(f: Frame): (w: seq<Byte>)
    ensures |w| == V1_HEADER_SIZE + |f.payload|
  {
    Rust.MAGIC + [f.frameType, f.flags] + ToBE(f.seqNum, 4) + ToBE(|f.payload|, 4) + f.payload
  }

  lemma V1Fields(f: Frame)
    ensures var data := EncodedV1(f);
            && data[0] == 0x48 && data[1] == 0x54 && data[2] == f.frameType && data[3] == f.flags
            && FromBE(data[4..8]) == f.seqNum
            && FromBE(data[8..12]) == |f.payload| % 0x1_0000_0000
            && data[12..] == f.payload
  {
    hide ToBE, FromBE;
    var data := EncodedV1(f);
    U32RoundTrip(f.seqNum);
    U32RoundTrip(|f.payload|);
    assert data[4..8] == ToBE(f.seqNum, 4);
    assert data[8..12] == ToBE(|f.payload|, 4);
  }

  /** A v1 frame comes back if and only if its type byte is below 3 and it is shorter than 20 bytes; a
      longer one is taken for v2, one of a higher type for v3. */
  lemma V1RoundTrip(f: Frame)
    requires f.version == 1 && f.originTs == 0
    ensures Unmarshal(EncodedV1(f)) == Ok(f) <==> f.frameType < 3 && |EncodedV1(f)| < V2_HEADER_SIZE
  {
    hide EncodedV1, FromBE, ToBE;
    V1Fields(f);
    U64RoundTrip(0);
    var data := EncodedV1(f);
    if |data| < V2_HEADER_SIZE {
      assert data[12..12 + |f.payload|] == data[12..];
    }
  }
}
