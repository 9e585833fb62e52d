/** FLV tags and how the relay classifies their payload. */
module FlvTag {
  import opened Options
  import opened Bytes

  datatype TagType = Audio | Video | Script

  /** One tag as the relay broadcasts it; the wall-clock origin stamp is left out. */
  datatype Tag = Tag(tagType: TagType, timestamp: U32, data: seq<Byte>)

  function TypeByte(t: TagType): Byte {
    match t
    case Audio => 0x08
    case Video => 0x09
    case Script => 0x12
  }

  function TypeOfByte(b: Byte): Option<TagType> {
    match b
    case 0x08 => Some(Audio)
    case 0x09 => Some(Video)
    case 0x12 => Some(Script)
    case _ => None
  }

  datatype VideoFrameType = Keyframe | InterFrame | VideoSeqHeader | OtherVideo

  datatype AudioFrameType = AudioSeqHeader | RawData | OtherAudio

  function ParseVideoFrameType(tag: Tag): VideoFrameType {
    if tag.tagType != Video || tag.data == [] then OtherVideo
    else
      var frameType, codecId := tag.data[0] / 16, tag.data[0] % 16;
      if (codecId == 7 || codecId == 12) && |tag.data| < 2 then OtherVideo
      else if (codecId == 7 || codecId == 12) && tag.data[1] == 0 then VideoSeqHeader
      else match frameType
        case 1 => Keyframe
        case 2 => InterFrame
        case _ => OtherVideo
  }

  function ParseAudioFrameType(tag: Tag): AudioFrameType {
    if tag.tagType != Audio || tag.data == [] then OtherAudio
    else if tag.data[0] / 16 != 10 || |tag.data| < 2 then OtherAudio
    else if tag.data[1] == 0 then AudioSeqHeader
    else RawData
  }

  /** What the GOP cache does with a tag: three header slots, a group opener, or group content. */
  datatype Kind = Metadata | AacHeader | VideoHeader | GroupStart | GroupContent

  function KindOf(tag: Tag): Kind {
    match tag.tagType
    case Script => Metadata
    case Audio => if ParseAudioFrameType(tag) == AudioSeqHeader then AacHeader else GroupContent
    case Video =>
      match ParseVideoFrameType(tag)
      case VideoSeqHeader => VideoHeader
      case Keyframe => GroupStart
      case _ => GroupContent
  }

  datatype Priority = Low | Medium | High

  function PacketPriority(tag: Tag): Priority {
    match tag.tagType
    case Script => High
    case Video => (
      match ParseVideoFrameType(tag)
      case VideoSeqHeader => High
      case Keyframe => High
      case InterFrame => Low
      case OtherVideo => Medium)
    case Audio => if ParseAudioFrameType(tag) == AudioSeqHeader then High else Medium
  }

  // ----- the same, read off the bytes -----

  /** AVC (7) and HEVC (12) video has a packet type in its second byte, where 0 marks a sequence header. */
  predicate IsVideoHeader(tag: Tag) {
    tag.tagType == Video && |tag.data| >= 2 && tag.data[0] % 16 in {7, 12} && tag.data[1] == 0
  }

  predicate IsAacHeader(tag: Tag) {
    tag.tagType == Audio && |tag.data| >= 2 && tag.data[0] / 16 == 10 && tag.data[1] == 0
  }

  /** A picture whose high nibble is `frameType`: no sequence header, nor too short to tell. */
  predicate IsPicture(tag: Tag, frameType: int) {
    && tag.tagType == Video && tag.data != [] && tag.data[0] / 16 == frameType
    && (tag.data[0] % 16 in {7, 12} ==> |tag.data| >= 2 && tag.data[1] != 0)
  }

  predicate IsKeyframe(tag: Tag) {
    IsPicture(tag, 1)
  }

  predicate IsInterFrame(tag: Tag) {
    IsPicture(tag, 2)
  }

  /** What the cache does with a tag is told by its bytes. */
  lemma KindFromBytes(tag: Tag)
    ensures KindOf(tag) == Metadata <==> tag.tagType == Script
    ensures KindOf(tag) == AacHeader <==> IsAacHeader(tag)
    ensures KindOf(tag) == VideoHeader <==> IsVideoHeader(tag)
    ensures KindOf(tag) == GroupStart <==> IsKeyframe(tag)
  {
  }

  /** So is whether it may be dropped. */
  lemma PriorityFromBytes(tag: Tag)
    ensures PacketPriority(tag).High?
       <==> tag.tagType == Script || IsAacHeader(tag) || IsVideoHeader(tag) || IsKeyframe(tag)
    ensures PacketPriority(tag).Low? <==> IsInterFrame(tag)
  {
  }

  /** The wire bytes are 8, 9 and 18 (Annex E.4.1), and each is the only byte read back as its type. */
  lemma TypeByteIsExact(b: Byte, t: TagType)
    ensures TypeOfByte(b) == Some(t) <==> b == TypeByte(t)
    ensures TypeOfByte(b) == Some(t) <==> (t == Audio && b == 8) || (t == Video && b == 9) || (t == Script && b == 18)
  {
  }

  /** The drop policy and the cache agree: what is never dropped is exactly what fills a header slot or
      opens a group. */
  lemma PriorityMatchesKind(tag: Tag)
    ensures PacketPriority(tag).High? <==> KindOf(tag) != GroupContent
  {
  }
}
