/** The pull loop: chunks from the origin go through the parser to the broadcast, then to the cache. */
module FlvPuller {
  import opened Options
  import opened Bytes
  import opened FlvTag
  import opened FlvParser
  import GopCache

  /** The broadcast channel as the append-only log of everything sent on it. */
  class Broadcast {
    var log: seq<Tag>

    constructor ()
      ensures log == []
    {
      log := [];
    }

    method Send(tag: Tag)
      modifies this
      ensures log == old(log) + [tag]
    {
      log := log + [tag];
    }
  }

  /** One turn of the outer loop: the running flag as read, and the chunk or a read error. */
  datatype StreamItem = StreamItem(running: bool, chunk: Option<seq<Byte>>)

  datatype PullResult = Ended | ReadFailed | NotFlvStream

  /** How far a connection gets, and how it ends. */
  function Pull(s: ParseState, items: seq<StreamItem>): (r: (ParseState, PullResult))
    decreases |items|
  {
    if items == [] || !items[0].running then (s, Ended)
    else if items[0].chunk == None then (s, ReadFailed)
    else
      var s' := Feed(s, items[0].chunk.value);
      if s'.Rejected? then (s', NotFlvStream) else Pull(s', items[1..])
  }

  method PullFlvStream(items: seq<StreamItem>, broadcast: Broadcast, gopCache: GopCache.GopCache)
    returns (r: PullResult)
    requires gopCache.Valid()
    modifies broadcast, gopCache
    ensures gopCache.Valid()
    ensures var (end, result) := Pull(INITIAL, items);
            && r == result
            && broadcast.log == old(broadcast.log) + end.out
            && gopCache.history == old(gopCache.history) + end.out
  {
    hide Drain, NextStep, Settled, GopCache.Tracks;
    var buffer: seq<Byte>, flvHeaderParsed := [], false;
    ghost var out: seq<Tag> := [];
    for i := 0 to |items|
      invariant gopCache.Valid()
      invariant Pull(Parsing(buffer, flvHeaderParsed, out), items[i..]) == Pull(INITIAL, items)
      invariant broadcast.log == old(broadcast.log) + out
      invariant gopCache.history == old(gopCache.history) + out
    {
      assert items[i..][0] == items[i] && items[i..][1..] == items[i + 1..];
      if !items[i].running {
        return Ended;
      }
      if items[i].chunk == None {
        return ReadFailed;
      }
      buffer := buffer + items[i].chunk.value;
      ghost var fed := Drain(Parsing(buffer, flvHeaderParsed, out));
      var accepted;
      accepted, buffer, flvHeaderParsed, out := ParseBuffer(buffer, flvHeaderParsed, out, broadcast, gopCache);
      assert fed == if accepted then Parsing(buffer, flvHeaderParsed, out) else Rejected(out);
      if !accepted {
        return NotFlvStream;
      }
    }
    assert items[|items|..] == [];
    return Ended;
  }

  /** The inner parse loop: drains the buffer until it must wait, broadcasting before caching. */
  method ParseBuffer(input: seq<Byte>, headerParsed: bool, ghost sent: seq<Tag>,
                     broadcast: Broadcast, gopCache: GopCache.GopCache)
    returns (accepted: bool, buffer: seq<Byte>, flvHeaderParsed: bool, ghost out: seq<Tag>)
    requires gopCache.Valid()
    modifies broadcast, gopCache
    ensures gopCache.Valid()
    ensures Drain(Parsing(input, headerParsed, sent))
            == if accepted then Parsing(buffer, flvHeaderParsed, out) else Rejected(out)
    ensures sent <= out
    ensures broadcast.log == old(broadcast.log) + out[|sent|..]
    ensures gopCache.history == old(gopCache.history) + out[|sent|..]
  {
    hide NextStep, GopCache.Tracks;
    buffer, flvHeaderParsed, out := input, headerParsed, sent;
    while true
      invariant gopCache.Valid()
      invariant Drain(Parsing(buffer, flvHeaderParsed, out)) == Drain(Parsing(input, headerParsed, sent))
      invariant sent <= out
      invariant broadcast.log == old(broadcast.log) + out[|sent|..]
      invariant gopCache.history == old(gopCache.history) + out[|sent|..]
      decreases |buffer|
    {
      var step := NextStep(buffer, flvHeaderParsed);
      match step {
        case Wait =>
          return true, buffer, flvHeaderParsed, out;
        case NotFlv =>
          return false, buffer, flvHeaderParsed, out;
        case SkipHeader(skip) =>
          buffer, flvHeaderParsed := buffer[skip..], true;
        case SkipUnknown =>
          buffer := buffer[TAG_HEADER_LEN..];
        case Emit(tag, size) =>
          buffer := buffer[size..];
          broadcast.Send(tag);
          gopCache.AddTag(tag);
          out := out + [tag];
      }
    }
  }

  // ----- a connection, whatever its chunks -----

  /** The bytes of the chunks that are read before the flag drops, an error or the end. */
  function BytesRead(items: seq<StreamItem>): seq<Byte> {
    if items == [] || !items[0].running || items[0].chunk == None then []
    else items[0].chunk.value + BytesRead(items[1..])
  }

  /** The tags of a connection depend only on the bytes it read, not on how they were chunked. */
  lemma {:induction false} PullDependsOnBytes(s: ParseState, items: seq<StreamItem>)
    requires s.Parsing? && Settled(s)
    ensures Pull(s, items).0 == Drain(s.(buffer := s.buffer + BytesRead(items)))
    decreases |items|
  {
    hide NextStep;
    if items == [] || !items[0].running || items[0].chunk == None {
      assert s.(buffer := s.buffer + []) == s;
    } else {
      var chunk, rest := items[0].chunk.value, BytesRead(items[1..]);
      var joined := s.(buffer := s.buffer + chunk);
      DrainThenFeed(joined, rest);
      assert joined.buffer + rest == s.buffer + BytesRead(items);
      var s' := Drain(joined);
      if s'.Parsing? {
        PullDependsOnBytes(s', items[1..]);
      }
    }
  }

  /** Two connections that read the same bytes broadcast and cache the same tags. */
  lemma SameBytesSameTags(items: seq<StreamItem>, items': seq<StreamItem>)
    requires BytesRead(items) == BytesRead(items')
    ensures Pull(INITIAL, items).0 == Pull(INITIAL, items').0
  {
    PullDependsOnBytes(INITIAL, items);
    PullDependsOnBytes(INITIAL, items');
  }
}
