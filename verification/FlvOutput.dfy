/** The FLV printer that feeds players and downstream agents, against the parser that reads it. */
module FlvOutput {
  import opened Options
  import opened Bytes
  import opened FlvTag
  import opened FlvParser

  const FLV_HEADER: seq<Byte> := [0x46, 0x4C, 0x56, 1, 5, 0, 0, 0, 9, 0, 0, 0, 0]

  /** The 24-bit size field of the tag header holds this many data bytes at most. */
  const SIZE_LIMIT := 0x100_0000

  function TagHeader(tag: Tag): (h: seq<Byte>)
    ensures |h| == TAG_HEADER_LEN
  {
    var n, ts := |tag.data|, tag.timestamp;
    [TypeByte(tag.tagType),
     n / 0x1_0000 % 0x100, n / 0x100 % 0x100, n % 0x100,
     ts / 0x1_0000 % 0x100, ts / 0x100 % 0x100, ts % 0x100,
     ts / 0x100_0000, 0, 0, 0]
  }

  function Wire(tag: Tag): (w: seq<Byte>)
    ensures |w| == 15 + |tag.data|
  {
    TagHeader(tag) + tag.data + ToBE((11 + |tag.data|) % 0x1_0000_0000, 4)
  }

  function WireAll(tags: seq<Tag>): seq<Byte> {
    if tags == [] then [] else Wire(tags[0]) + WireAll(tags[1..])
  }

  method BuildFlvHeader() returns (buf: seq<Byte>)
    ensures buf == FLV_HEADER
  {
    var size, prev := ToBE(9, 4), ToBE(0, 4);
    SmallBE(9);
    SmallBE(0);
    hide ToBE;
    buf := [0x46, 0x4C, 0x56];
    buf := buf + [0x01];
    buf := buf + [0x05];
    buf := buf + size;
    buf := buf + prev;
  }

  lemma SmallBE(n: Byte)
    ensures ToBE(n, 4) == [0, 0, 0, n]
  {
    assert ToBE(0, 2) == [0, 0];
    assert ToBE(0, 3) == [0, 0, 0];
  }

  method BuildFlvTagWire(tag: Tag) returns (buf: seq<Byte>)
    ensures buf == Wire(tag)
  {
    var dataSize := |tag.data| % 0x1_0000_0000;
    var ts := tag.timestamp;
    TruncationKeepsLowBytes(|tag.data|);
    hide ToBE, TypeByte;
    buf := [TypeByte(tag.tagType)];
    buf := buf + [dataSize / 0x1_0000 % 0x100, dataSize / 0x100 % 0x100, dataSize % 0x100];
    buf := buf + [ts / 0x1_0000 % 0x100, ts / 0x100 % 0x100, ts % 0x100];
    buf := buf + [ts / 0x100_0000];
    buf := buf + [0, 0, 0];
    assert buf == TagHeader(tag);
    hide TagHeader;
    buf := buf + tag.data;
    var prev := (11 + dataSize) % 0x1_0000_0000;
    buf := buf + ToBE(prev, 4);
  }

  /** Casting the length to 32 bits does not change the bytes that the header keeps of it. */
  lemma TruncationKeepsLowBytes(n: nat)
    ensures var d := n % 0x1_0000_0000;
            && d / 0x1_0000 % 0x100 == n / 0x1_0000 % 0x100
            && d / 0x100 % 0x100 == n / 0x100 % 0x100
            && d % 0x100 == n % 0x100
            && (11 + d) % 0x1_0000_0000 == (11 + n) % 0x1_0000_0000
  {
    var q, d := n / 0x1_0000_0000, n % 0x1_0000_0000;
    DivModUnique(n, 0x1_0000, q * 0x1_0000 + d / 0x1_0000, d % 0x1_0000);
    DivModUnique(n / 0x1_0000, 0x100, q * 0x100 + d / 0x1_0000 / 0x100, d / 0x1_0000 % 0x100);
    DivModUnique(n, 0x100, q * 0x100_0000 + d / 0x100, d % 0x100);
    DivModUnique(n / 0x100, 0x100, q * 0x1_0000 + d / 0x100 / 0x100, d / 0x100 % 0x100);
    DivModUnique(11 + n, 0x1_0000_0000, q + (11 + d) / 0x1_0000_0000, (11 + d) % 0x1_0000_0000);
  }

  /** The startup burst: the wire forms of the tags, one after another. */
  method BuildAll(tags: seq<Tag>) returns (buf: seq<Byte>)
    ensures buf == WireAll(tags)
  {
    buf := [];
    for i := 0 to |tags|
      invariant buf + WireAll(tags[i..]) == WireAll(tags)
    {
      var wire := BuildFlvTagWire(tags[i]);
      assert tags[i..][1..] == tags[i + 1..];
      assert buf + (wire + WireAll(tags[i + 1..])) == buf + wire + WireAll(tags[i + 1..]);
      buf := buf + wire;
    }
  }

  lemma {:induction false} WireAllSize(tags: seq<Tag>)
    ensures |WireAll(tags)| == WireSize(tags)
  {
    if tags != [] {
      WireAllSize(tags[1..]);
    }
  }

  // ----- one tag -----

  lemma U24Split(n: nat)
    ensures n % SIZE_LIMIT == n / 0x1_0000 % 0x100 * 0x1_0000 + n / 0x100 % 0x100 * 0x100 + n % 0x100
  {
    var high := n / 0x1_0000;
    assert n / 0x100 == high * 0x100 + n / 0x100 % 0x100;
    assert n == high / 0x100 * SIZE_LIMIT + n % SIZE_LIMIT;
  }

  /** The parser reads the size modulo 2^24 and the 32-bit timestamp exactly. */
  lemma HeaderFields(tag: Tag, buffer: seq<Byte>)
    requires TagHeader(tag) <= buffer
    ensures TypeOfByte(buffer[0]) == Some(tag.tagType)
    ensures U24(buffer, 1) == |tag.data| % SIZE_LIMIT
    ensures U24(buffer, 4) + buffer[7] as int * 0x100_0000 == tag.timestamp
  {
    var h := TagHeader(tag);
    assert forall i | 0 <= i < 8 :: buffer[i] == h[i];
    U24Split(|tag.data|);
    U24Split(tag.timestamp);
  }

  /** The wire form field by field (Annex E.3 and E.4.1): type, 24-bit size, timestamp with its high byte last,
      stream 0, data, and the size of all that in the last four bytes. */
  lemma WireLayout(tag: Tag)
    ensures var w, n := Wire(tag), |tag.data|;
            && w[0] == (match tag.tagType case Audio => 8 case Video => 9 case Script => 18)
            && FromBE(w[1..4]) == n % SIZE_LIMIT
            && FromBE([w[7]] + w[4..7]) == tag.timestamp
            && w[8..11] == [0, 0, 0]
            && w[11..11 + n] == tag.data
            && FromBE(w[11 + n..]) == (11 + n) % 0x1_0000_0000
  {
    hide FromBE, ToBE;
    var w, n := Wire(tag), |tag.data|;
    assert w[1..4] == [w[1], w[2], w[3]] && [w[7]] + w[4..7] == [w[7], w[4], w[5], w[6]];
    FromBE3(w[1], w[2], w[3]);
    FromBE4(w[7], w[4], w[5], w[6]);
    U24Split(n);
    U24Split(tag.timestamp);
    U32RoundTrip((11 + n) % 0x1_0000_0000);
    assert w[11 + n..] == ToBE((11 + n) % 0x1_0000_0000, 4);
  }

  /** So a stream of tags can be walked from its end: the last four bytes tell where the last tag begins. */
  lemma LastTagFromEnd(tags: seq<Tag>)
    requires tags != [] && |tags[|tags| - 1].data| < SIZE_LIMIT
    ensures var b := WireAll(tags);
            && |b| >= 15
            && var size := FromBE(b[|b| - 4..]) + 4;
               size <= |b| && b[|b| - size..] == Wire(tags[|tags| - 1]) && b[..|b| - size] == WireAll(tags[..|tags| - 1])
  {
    hide FromBE, Wire, WireAll;
    var b, last := WireAll(tags), tags[|tags| - 1];
    WireAllSnoc(tags);
    WireLayout(last);
    var w := Wire(last);
    assert b[|b| - 4..] == w[11 + |last.data|..];
  }

  lemma {:induction false} WireAllSnoc(tags: seq<Tag>)
    requires tags != []
    ensures WireAll(tags) == WireAll(tags[..|tags| - 1]) + Wire(tags[|tags| - 1])
  {
    hide Wire;
    if |tags| > 1 {
      WireAllSnoc(tags[1..]);
      assert tags[..|tags| - 1][1..] == tags[1..][..|tags| - 2];
    } else {
      assert tags[..0] == [] && tags[1..] == [];
    }
  }

  lemma StepOnWire(tag: Tag, rest: seq<Byte>)
    ensures var step := NextStep(Wire(tag) + rest, true);
            && step.Emit?
            && |step.tag.data| == |tag.data| % SIZE_LIMIT
            && (|tag.data| < SIZE_LIMIT ==> step == Emit(tag, |Wire(tag)|))
  {
    hide TagHeader, ToBE, U24;
    var buffer := Wire(tag) + rest;
    HeaderFields(tag, buffer);
    assert U24(buffer, 1) <= |tag.data|;
    assert buffer[11..11 + |tag.data|] == tag.data;
  }

  lemma StepOnPartialWire(tag: Tag, k: nat)
    requires |tag.data| < SIZE_LIMIT
    requires k < |Wire(tag)|
    ensures NextStep(Wire(tag)[..k], true) == Wait
  {
    hide TagHeader, ToBE, U24;
    var buffer := Wire(tag)[..k];
    if k >= TAG_HEADER_LEN {
      assert TagHeader(tag) <= buffer;
      HeaderFields(tag, buffer);
      assert U24(buffer, 1) == |tag.data|;
    }
  }

  lemma ConsumeTag(tag: Tag, rest: seq<Byte>, out: seq<Tag>)
    requires |tag.data| < SIZE_LIMIT
    ensures Drain(Parsing(Wire(tag) + rest, true, out)) == Drain(Parsing(rest, true, out + [tag]))
  {
    StepOnWire(tag, rest);
    assert (Wire(tag) + rest)[|Wire(tag)|..] == rest;
  }

  // ----- any prefix of a stream of tags -----

  ghost predicate AllFit(tags: seq<Tag>) {
    forall i | 0 <= i < |tags| :: |tags[i].data| < SIZE_LIMIT
  }

  /** How many tags lie wholly within the first `k` bytes. */
  function WholeTags(tags: seq<Tag>, k: nat): (w: nat)
    ensures w <= |tags|
  {
    if tags == [] || k < |Wire(tags[0])| then 0
    else 1 + WholeTags(tags[1..], k - |Wire(tags[0])|)
  }

  lemma {:induction false} WholeTagsIsGreatest(tags: seq<Tag>, k: nat)
    requires k <= |WireAll(tags)|
    ensures var w := WholeTags(tags, k);
            && |WireAll(tags[..w])| <= k
            && (w < |tags| ==> k < |WireAll(tags[..w + 1])|)
  {
    if tags == [] {
    } else if k < |Wire(tags[0])| {
      assert tags[..1][1..] == [];
    } else {
      WholeTagsIsGreatest(tags[1..], k - |Wire(tags[0])|);
      var w := WholeTags(tags[1..], k - |Wire(tags[0])|);
      assert tags[..w + 1][1..] == tags[1..][..w];
      if w + 1 < |tags| {
        assert tags[..w + 2][1..] == tags[1..][..w + 1];
      }
    }
  }

  /** Parsing a prefix yields the tags wholly in it and keeps exactly the partial tail. */
  lemma {:induction false} PrefixRoundTrip(tags: seq<Tag>, k: nat, out: seq<Tag>)
    requires AllFit(tags)
    requires k <= |WireAll(tags)|
    ensures var w := WholeTags(tags, k);
            && |WireAll(tags[..w])| <= k
            && Drain(Parsing(WireAll(tags)[..k], true, out))
               == Parsing(WireAll(tags)[|WireAll(tags[..w])|..k], true, out + tags[..w])
  {
    hide Wire, Drain, NextStep;
    if tags == [] || k < |Wire(tags[0])| {
      PartialTagWaits(tags, k, out);
    } else {
      var m, rest := |Wire(tags[0])|, WireAll(tags[1..]);
      assert WireAll(tags)[..k] == Wire(tags[0]) + rest[..k - m];
      ConsumeTag(tags[0], rest[..k - m], out);
      PrefixRoundTrip(tags[1..], k - m, out + [tags[0]]);
      var w := WholeTags(tags[1..], k - m);
      var done := WireAll(tags[1..][..w]);
      assert WireAll(tags[..w + 1]) == Wire(tags[0]) + done by {
        assert tags[..w + 1][1..] == tags[1..][..w];
      }
      assert out + [tags[0]] + tags[1..][..w] == out + tags[..w + 1];
      DropSplit(Wire(tags[0]), rest, |done|, k);
      hide WireAll;
    }
  }

  lemma PartialTagWaits(tags: seq<Tag>, k: nat, out: seq<Tag>)
    requires AllFit(tags)
    requires k <= |WireAll(tags)|
    requires tags == [] || k < |Wire(tags[0])|
    ensures Drain(Parsing(WireAll(tags)[..k], true, out))
            == Parsing(WireAll(tags)[..k], true, out + tags[..0])
  {
    hide Wire, Drain;
    assert out + tags[..0] == out;
    if tags != [] {
      assert WireAll(tags)[..k] == Wire(tags[0])[..k];
      StepOnPartialWire(tags[0], k);
    }
    DrainSettled(Parsing(WireAll(tags)[..k], true, out));
  }

  lemma DrainSettled(s: ParseState)
    requires Settled(s)
    ensures Drain(s) == s
  {
  }

  lemma DropSplit(a: seq<Byte>, b: seq<Byte>, cut: nat, k: nat)
    requires |a| + cut <= k <= |a| + |b|
    ensures (a + b)[|a| + cut..k] == b[cut..k - |a|]
  {
  }

  lemma {:induction false} OversizedTagCorrupts(tags: seq<Tag>, out: seq<Tag>)
    requires !AllFit(tags)
    ensures !(out + tags <= Drain(Parsing(WireAll(tags), true, out)).out)
  {
    hide Wire, NextStep;
    var s := Parsing(WireAll(tags), true, out);
    var rest := WireAll(tags[1..]);
    StepOnWire(tags[0], rest);
    if |tags[0].data| < SIZE_LIMIT {
      ConsumeTag(tags[0], rest, out);
      assert out + [tags[0]] + tags[1..] == out + tags;
      OversizedTagCorrupts(tags[1..], out + [tags[0]]);
    } else {
      var bad := NextStep(s.buffer, true).tag;
      assert Advance(s).out == out + [bad];
      assert out + [bad] <= Drain(s).out;
      assert (out + tags)[|out|] == tags[0] != bad;
    }
  }

  lemma {:induction false} ConsumeAll(tags: seq<Tag>, out: seq<Tag>)
    requires AllFit(tags)
    ensures Drain(Parsing(WireAll(tags), true, out)) == Parsing([], true, out + tags)
  {
    hide Wire, NextStep, Drain;
    if tags == [] {
      assert out + [] == out;
      DrainSettled(Parsing([], true, out)) by { NineBytesWait([]); }
    } else {
      ConsumeTag(tags[0], WireAll(tags[1..]), out);
      ConsumeAll(tags[1..], out + [tags[0]]);
      assert out + [tags[0]] + tags[1..] == out + tags;
    }
  }

  /** The body round trip holds for exactly those tag lists whose sizes fit the 24-bit field. */
  lemma BodyRoundTrip(tags: seq<Tag>)
    ensures Drain(Parsing(WireAll(tags), true, [])) == Parsing([], true, tags) <==> AllFit(tags)
  {
    assert [] + tags == tags;
    if AllFit(tags) {
      ConsumeAll(tags, []);
    } else {
      OversizedTagCorrupts(tags, []);
    }
  }

  // ----- chains of relays -----

  /** What an agent past its header has parsed out of the chunks it was sent. */
  function Received(chunks: seq<seq<Byte>>): seq<Tag> {
    FeedAll(Parsing([], true, []), chunks).out
  }

  /** Hop by hop, each agent is sent some cutting of the wire form of what the one before received. */
  ghost predicate RelayChain(tags: seq<Tag>, hops: seq<seq<seq<Byte>>>)
    decreases |hops|
  {
    hops != [] ==>
      && Concat(hops[0]) == WireAll(tags)
      && RelayChain(Received(hops[0]), hops[1..])
  }

  /** Every agent along a chain of any length, past its header, receives type, timestamp and data of every
      tag intact. */
  lemma {:induction false} ChainPreservesTags(tags: seq<Tag>, hops: seq<seq<seq<Byte>>>, hop: nat)
    requires AllFit(tags)
    requires RelayChain(tags, hops)
    requires hop < |hops|
    ensures Received(hops[hop]) == tags
    decreases hop
  {
    FeedAllIsDrain(Parsing([], true, []), hops[0]);
    assert [] + Concat(hops[0]) == WireAll(tags);
    BodyRoundTrip(tags);
    if hop > 0 {
      ChainPreservesTags(tags, hops[1..], hop - 1);
    }
  }

  /** A parsed tag always fits: its size was read from the 24-bit field. */
  lemma {:induction false} ParsedTagsFit(s: ParseState)
    requires AllFit(s.out)
    ensures AllFit(Drain(s).out)
    decreases if s.Parsing? then |s.buffer| + 1 else 0
  {
    if !Settled(s) {
      var step := NextStep(s.buffer, s.headerParsed);
      if step.Emit? {
        assert |step.tag.data| == U24(s.buffer, 1);
      }
      ParsedTagsFit(Advance(s));
    }
  }

  /** So whatever the first agent parses, out of any bytes in any chunks, every agent behind it that is past
      its header receives intact; the oversized tag is out of reach, for every tag there is comes from a
      parser. */
  lemma RelayedTagsSurvive(chunks: seq<seq<Byte>>, hops: seq<seq<seq<Byte>>>, hop: nat)
    requires RelayChain(FeedAll(INITIAL, chunks).out, hops)
    requires hop < |hops|
    ensures Received(hops[hop]) == FeedAll(INITIAL, chunks).out
  {
    hide Drain, AllFit;
    FeedAllIsDrain(INITIAL, chunks);
    var s := INITIAL.(buffer := INITIAL.buffer + Concat(chunks));
    assert AllFit(s.out) by { NoTagsFit(); }
    ParsedTagsFit(s);
    ChainPreservesTags(FeedAll(INITIAL, chunks).out, hops, hop);
  }

  lemma NoTagsFit()
    ensures AllFit([])
  {
  }

  // ----- the header defect -----

  /** The header parser takes DataOffset to be 0, so it drops four of the thirteen bytes. */
  lemma HeaderSkipsFour(body: seq<Byte>)
    ensures NextStep(FLV_HEADER + body, false) == SkipHeader(4)
    ensures (FLV_HEADER + body)[4..] == FLV_HEADER[4..] + body
  {
    assert (FLV_HEADER + body)[..3] == FLV_HEADER[..3];
  }

  /** The nine bytes left over are taken for an unknown tag, along with two bytes of the body. */
  lemma LeftoverIsUnknownTag(body: seq<Byte>)
    requires |body| >= 2
    ensures NextStep(FLV_HEADER[4..] + body, true) == SkipUnknown
  {
    assert (FLV_HEADER[4..] + body)[0] == 5;
  }

  /** Behind the header this relay itself prints, the parser never recovers a non-empty tag list. */
  lemma FreshConnectionLosesTags(tags: seq<Tag>)
    ensures Drain(Parsing(FLV_HEADER + WireAll(tags), false, [])).out == tags <==> tags == []
  {
    hide NextStep, Wire;
    var body := WireAll(tags);
    HeaderSkipsFour(body);
    var s := Parsing(FLV_HEADER[4..] + body, true, []);
    assert Drain(Parsing(FLV_HEADER + body, false, [])) == Drain(s);
    WireAllSize(tags);
    if tags == [] {
      NineBytesWait(s.buffer);
      DrainSettled(s);
    } else {
      LeftoverIsUnknownTag(body);
      DrainConserves(Advance(s));
    }
  }

  lemma NineBytesWait(buffer: seq<Byte>)
    requires |buffer| <= 9
    ensures NextStep(buffer, true) == Wait
  {
  }
}
