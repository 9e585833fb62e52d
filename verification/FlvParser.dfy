/** The incremental FLV parser of the origin puller, as a function of the bytes received. */
module FlvParser {
  import opened Options
  import opened Bytes
  import opened FlvTag

  const FLV_HEADER_LEN := 9
  const TAG_HEADER_LEN := 11
  const PREV_TAG_SIZE_LEN := 4

  /** The parser between two chunks: unread bytes, header flag, tags emitted so far. */
  datatype ParseState =
    | Parsing(buffer: seq<Byte>, headerParsed: bool, out: seq<Tag>)
    | Rejected(out: seq<Tag>)

  const INITIAL := Parsing([], false, [])

  /** What one turn of the parse loop decides. */
  datatype Step =
    | Wait
    | NotFlv
    | SkipHeader(skip: nat)
    | SkipUnknown
    | Emit(tag: Tag, size: nat)

  function U24(buffer: seq<Byte>, at: nat): (n: nat)
    requires at + 3 <= |buffer|
    ensures n < 0x100_0000
  {
    buffer[at] as int * 0x1_0000 + buffer[at + 1] as int * 0x100 + buffer[at + 2]
  }

  /** The parser reads bytes 5 to 7 of the header, not the 4-byte DataOffset at 5 to 8. */
  function HeaderStep(buffer: seq<Byte>): Step {
    if |buffer| < FLV_HEADER_LEN then Wait
    else if buffer[..3] != [0x46, 0x4C, 0x56] then NotFlv
    else
      var skip := U24(buffer, 5) + PREV_TAG_SIZE_LEN;
      if |buffer| < skip then Wait else SkipHeader(skip)
  }

  function TagStep(buffer: seq<Byte>): Step {
    if |buffer| < TAG_HEADER_LEN then Wait
    else
      match TypeOfByte(buffer[0])
      case None => SkipUnknown
      case Some(tagType) =>
        var size := U24(buffer, 1);
        var timestamp := U24(buffer, 4) + buffer[7] as int * 0x100_0000;
        var total := TAG_HEADER_LEN + size + PREV_TAG_SIZE_LEN;
        if |buffer| < total then Wait
        else Emit(Tag(tagType, timestamp, buffer[TAG_HEADER_LEN..TAG_HEADER_LEN + size]), total)
  }

  function NextStep(buffer: seq<Byte>, headerParsed: bool): (step: Step)
    ensures step.SkipHeader? ==> 0 < step.skip <= |buffer|
    ensures step.SkipUnknown? ==> TAG_HEADER_LEN <= |buffer|
    ensures step.Emit? ==> step.size == 15 + |step.tag.data| <= |buffer|
  {
    if headerParsed then TagStep(buffer) else HeaderStep(buffer)
  }

  /** One turn of the loop applied to the state; `Wait` leaves it as it is. */
  function Advance(s: ParseState): ParseState
    requires s.Parsing?
  {
    match NextStep(s.buffer, s.headerParsed)
    case Wait => s
    case NotFlv => Rejected(s.out)
    case SkipHeader(skip) => Parsing(s.buffer[skip..], true, s.out)
    case SkipUnknown => s.(buffer := s.buffer[TAG_HEADER_LEN..])
    case Emit(tag, size) => s.(buffer := s.buffer[size..], out := s.out + [tag])
  }

  predicate Settled(s: ParseState) {
    s.Parsing? ==> NextStep(s.buffer, s.headerParsed).Wait?
  }

  /** The parse loop run until it waits for more bytes or rejects the stream. */
  function Drain(s: ParseState): (r: ParseState)
    ensures Settled(r)
    ensures s.out <= r.out
    decreases if s.Parsing? then |s.buffer| + 1 else 0
  {
    if Settled(s) then s else Drain(Advance(s))
  }

  function Feed(s: ParseState, chunk: seq<Byte>): ParseState {
    if s.Parsing? then Drain(s.(buffer := s.buffer + chunk)) else s
  }

  function FeedAll(s: ParseState, chunks: seq<seq<Byte>>): ParseState {
    if chunks == [] then s
    else Feed(FeedAll(s, chunks[..|chunks| - 1]), chunks[|chunks| - 1])
  }

  function Concat(chunks: seq<seq<Byte>>): seq<Byte> {
    if chunks == [] then []
    else Concat(chunks[..|chunks| - 1]) + chunks[|chunks| - 1]
  }

  // ----- chunk invariance -----

  /** A decision taken on some bytes is not changed by the bytes that follow. */
  lemma StepStable(buffer: seq<Byte>, more: seq<Byte>, headerParsed: bool)
    requires !NextStep(buffer, headerParsed).Wait?
    ensures NextStep(buffer + more, headerParsed) == NextStep(buffer, headerParsed)
  {
    if headerParsed {
      var step := TagStep(buffer);
      if step.Emit? {
        assert (buffer + more)[11..step.size - 4] == buffer[11..step.size - 4];
      }
    } else {
      assert (buffer + more)[..3] == buffer[..3];
    }
  }

  /** Draining early and then appending is the same as appending and then draining. */
  lemma {:induction false} DrainThenFeed(s: ParseState, more: seq<Byte>)
    requires s.Parsing?
    ensures Feed(Drain(s), more) == Drain(s.(buffer := s.buffer + more))
    decreases |s.buffer|
  {
    if !Settled(s) {
      StepStable(s.buffer, more, s.headerParsed);
      var longer := s.(buffer := s.buffer + more);
      var next := Advance(s);
      match NextStep(s.buffer, s.headerParsed)
      case NotFlv =>
        assert Advance(longer) == next;
      case SkipHeader(skip) =>
        assert (s.buffer + more)[skip..] == s.buffer[skip..] + more;
        DrainThenFeed(next, more);
      case SkipUnknown =>
        assert (s.buffer + more)[TAG_HEADER_LEN..] == s.buffer[TAG_HEADER_LEN..] + more;
        DrainThenFeed(next, more);
      case Emit(tag, size) =>
        assert (s.buffer + more)[size..] == s.buffer[size..] + more;
        DrainThenFeed(next, more);
    }
  }

  /** Feeding chunk by chunk ends in the state of feeding all the bytes at once. */
  lemma {:induction false} FeedAllIsDrain(s: ParseState, chunks: seq<seq<Byte>>)
    requires s.Parsing? && Settled(s)
    ensures FeedAll(s, chunks) == Drain(s.(buffer := s.buffer + Concat(chunks)))
  {
    if chunks == [] {
      assert s.(buffer := s.buffer + []) == s;
    } else {
      var front, last := chunks[..|chunks| - 1], chunks[|chunks| - 1];
      FeedAllIsDrain(s, front);
      var joined := s.(buffer := s.buffer + Concat(front));
      DrainThenFeed(joined, last);
      assert joined.buffer + last == s.buffer + Concat(chunks);
    }
  }

  /** The same bytes give the same tags, leftover, header flag and failure, however they are cut. */
  lemma ChunkInvariance(chunks: seq<seq<Byte>>, chunks': seq<seq<Byte>>)
    requires Concat(chunks) == Concat(chunks')
    ensures FeedAll(INITIAL, chunks) == FeedAll(INITIAL, chunks')
  {
    FeedAllIsDrain(INITIAL, chunks);
    FeedAllIsDrain(INITIAL, chunks');
  }

  // ----- the header -----

  /** A stream is rejected exactly if its first nine bytes are there and do not start with FLV; nothing after
      the header ever rejects it. */
  lemma RejectedExactly(chunks: seq<seq<Byte>>)
    ensures FeedAll(INITIAL, chunks).Rejected?
       <==> var b := Concat(chunks); |b| >= 9 && !(b[0] == 'F' as int && b[1] == 'L' as int && b[2] == 'V' as int)
  {
    hide Drain, TagStep, FeedAll, Concat;
    FeedAllIsDrain(INITIAL, chunks);
    var b := Concat(chunks);
    assert [] + b == b;
    HeaderThenTags(b);
    if |b| >= 9 {
      assert b[..3] == [b[0], b[1], b[2]];
      var skip := b[5] as int * 0x1_0000 + b[6] as int * 0x100 + b[7] as int + 4;
      if |b| >= skip {
        DrainConserves(Parsing(b[skip..], true, []));
      }
    }
  }

  /** What is skipped ahead of the first tag: the number at bytes 5 to 7, and four bytes more. */
  lemma HeaderThenTags(b: seq<Byte>)
    ensures Drain(Parsing(b, false, []))
         == if |b| < 9 then Parsing(b, false, [])
            else if b[..3] != [0x46, 0x4C, 0x56] then Rejected([])
            else
              var skip := b[5] as int * 0x1_0000 + b[6] as int * 0x100 + b[7] as int + 4;
              if |b| < skip then Parsing(b, false, []) else Drain(Parsing(b[skip..], true, []))
  {
    hide TagStep;
    var s := Parsing(b, false, []);
    if !Settled(s) {
      assert Drain(s) == Drain(Advance(s));
    }
  }

  // ----- conservation -----

  /** Bytes of wire that a list of tags takes up. */
  function WireSize(tags: seq<Tag>): nat {
    if tags == [] then 0 else 15 + |tags[0].data| + WireSize(tags[1..])
  }

  lemma {:induction false} WireSizeAppend(tags: seq<Tag>, tag: Tag)
    ensures WireSize(tags + [tag]) == WireSize(tags) + 15 + |tag.data|
  {
    if tags != [] {
      WireSizeAppend(tags[1..], tag);
      assert (tags + [tag])[1..] == tags[1..] + [tag];
    }
  }

  /** No byte is parsed twice: the emitted tags and the leftover share the bytes received. */
  lemma {:induction false} DrainConserves(s: ParseState)
    requires s.Parsing? && s.headerParsed
    ensures var r := Drain(s);
            && r.Parsing? && r.headerParsed
            && WireSize(r.out) + |r.buffer| <= WireSize(s.out) + |s.buffer|
    decreases |s.buffer|
  {
    if !Settled(s) {
      var next := Advance(s);
      if next.out != s.out {
        WireSizeAppend(s.out, NextStep(s.buffer, true).tag);
      }
      DrainConserves(next);
    }
  }
}
