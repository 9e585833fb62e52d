/** The GOP cache: a ring of groups and three header slots that always agree with the history. */
module GopCache {
  import opened Options
  import opened FlvTag
  import opened GopHistory

  datatype Gop = Gop(keyframe: Tag, frames: seq<Tag>) {
    function AllTags(): (tags: seq<Tag>)
      ensures |tags| == 1 + |frames|
    {
      [keyframe] + frames
    }
  }

  datatype Stats = Stats(cachedGops: nat, cachedFrames: nat, hasMetadata: bool,
                         hasVideoSeqHeader: bool, hasAacSeqHeader: bool, totalTags: nat)

  /** The tag a header slot holds after history `h`. */
  function Slot(h: seq<Tag>, k: Kind): Option<Tag> {
    var ixs := LastOfKind(h, k);
    if ixs == [] then None else Some(h[ixs[0]])
  }

  /** What an added tag does to the groups, oldest first, the open one last. */
  function AddToGops(c: Config, gops: seq<Gop>, tag: Tag): seq<Gop> {
    match KindOf(tag)
    case GroupStart => Last(gops, c.gopCount) + [Gop(tag, [])]
    case GroupContent => AddContent(c, gops, tag)
    case _ => gops
  }

  function AddContent(c: Config, gops: seq<Gop>, tag: Tag): seq<Gop> {
    if gops == [] || |gops[|gops| - 1].AllTags()| >= c.maxFramesPerGop then gops
    else
      var gop := gops[|gops| - 1];
      gops[..|gops| - 1] + [gop.(frames := gop.frames + [tag])]
  }

  class GopCache {
    const config: Config
    var gopRing: seq<Gop>
    var currentGop: Option<Gop>
    var metadata: Option<Tag>
    var videoSeqHeader: Option<Tag>
    var aacSeqHeader: Option<Tag>
    var totalTags: nat
    ghost var history: seq<Tag>  // every tag added since the last clear

    ghost function Gops(): seq<Gop>
      reads this
    {
      gopRing + (if currentGop.Some? then [currentGop.value] else [])
    }

    ghost predicate Valid()
      reads this
    {
      && (currentGop == None ==> gopRing == [])
      && Tracks(config, history, metadata, aacSeqHeader, videoSeqHeader, Gops())
    }

    constructor (config: Config)
      ensures Valid()
      ensures this.config == config && history == [] && totalTags == 0
    {
      this.config := config;
      gopRing, currentGop := [], None;
      metadata, videoSeqHeader, aacSeqHeader := None, None, None;
      totalTags := 0;
      history := [];
    }

    method AddTag(tag: Tag)
      requires Valid()
      modifies this
      ensures Valid()
      ensures history == old(history) + [tag]
      ensures totalTags == old(totalTags) + 1
    {
      hide Tracks, KindOf, AddContent, ParseAudioFrameType, ParseVideoFrameType;
      KindCases(tag);
      TracksStep(config, history, tag, metadata, aacSeqHeader, videoSeqHeader, Gops());
      totalTags := totalTags + 1;
      match tag.tagType {
        case Script =>
          metadata := Some(tag);
        case Audio =>
          if ParseAudioFrameType(tag) == AudioSeqHeader {
            aacSeqHeader := Some(tag);
          } else {
            AddToCurrentGop(tag);
          }
        case Video =>
          match ParseVideoFrameType(tag) {
            case VideoSeqHeader =>
              videoSeqHeader := Some(tag);
            case Keyframe =>
              FinalizeCurrentGop();
              currentGop := Some(Gop(tag, []));
            case _ =>
              AddToCurrentGop(tag);
          }
      }
      history := history + [tag];
    }

    /** Adds to the open group unless it is full; without an open group the tag is dropped. */
    method AddToCurrentGop(tag: Tag)
      requires currentGop == None ==> gopRing == []
      modifies this`currentGop
      ensures currentGop.Some? <==> old(currentGop).Some?
      ensures Gops() == AddContent(config, old(Gops()), tag)
    {
      if currentGop.Some? {
        var gop := currentGop.value;
        if |gop.AllTags()| < config.maxFramesPerGop {
          currentGop := Some(gop.(frames := gop.frames + [tag]));
        }
      }
    }

    /** Moves the open group into the ring and evicts the oldest groups beyond gopCount. */
    method FinalizeCurrentGop()
      requires currentGop == None ==> gopRing == []
      modifies this`gopRing, this`currentGop
      ensures currentGop == None
      ensures gopRing == Last(old(Gops()), config.gopCount)
    {
      if currentGop.Some? {
        gopRing := gopRing + [currentGop.value];
        currentGop := None;
        ghost var all := gopRing;
        assert all == old(Gops());
        while |gopRing| > config.gopCount
          invariant |gopRing| <= |all| && gopRing == all[|all| - |gopRing|..]
          invariant |gopRing| >= config.gopCount || gopRing == all
          modifies this`gopRing
        {
          gopRing := gopRing[1..];
        }
      }
    }

    method Clear()
      requires Valid()
      modifies this
      ensures Valid()
      ensures history == [] && totalTags == old(totalTags)
    {
      gopRing, currentGop := [], None;
      metadata, videoSeqHeader, aacSeqHeader := None, None, None;
      history := [];
      assert KeptGroups(config, []) == [];
    }

    /** What a new viewer is sent is the function `StartupTags` of the whole history. */
    method GetStartupTags() returns (tags: seq<Tag>)
      requires Valid()
      ensures tags == StartupTags(config, history)
    {
      hide StartupTags, Slot, KeptGroups, Agree;
      StartupTagsSplit(config, history, Gops());
      tags := [];
      if metadata.Some? {
        tags := tags + [metadata.value];
      }
      assert tags == SlotTags(metadata);
      if aacSeqHeader.Some? {
        tags := tags + [aacSeqHeader.value];
      }
      assert tags == SlotTags(metadata) + SlotTags(aacSeqHeader);
      if videoSeqHeader.Some? {
        tags := tags + [videoSeqHeader.value];
      }
      assert tags == SlotTags(metadata) + SlotTags(aacSeqHeader) + SlotTags(videoSeqHeader);
      tags := AppendGops(tags);
    }

    /** The ring from oldest to newest, then the open group. */
    method AppendGops(headers: seq<Tag>) returns (tags: seq<Tag>)
      ensures tags == headers + FlattenGops(Gops())
    {
      tags := headers;
      for i := 0 to |gopRing|
        invariant tags == headers + FlattenGops(gopRing[..i])
      {
        FlattenGopsTake(gopRing, i);
        tags := tags + gopRing[i].AllTags();
      }
      assert gopRing[..|gopRing|] == gopRing;
      if currentGop.Some? {
        FlattenGopsSnoc(gopRing, currentGop.value);
        tags := tags + currentGop.value.AllTags();
      } else {
        assert Gops() == gopRing;
      }
    }

    method GetStats() returns (s: Stats)
      requires Valid()
      ensures s.cachedGops == |gopRing| <= config.gopCount
      ensures s.cachedFrames == |StartupMedia(config, history)|
      ensures s.hasMetadata <==> LastOfKind(history, Metadata) != []
      ensures s.hasAacSeqHeader <==> LastOfKind(history, AacHeader) != []
      ensures s.hasVideoSeqHeader <==> LastOfKind(history, VideoHeader) != []
      ensures s.totalTags == totalTags
    {
      var frames := 0;
      for i := 0 to |gopRing|
        invariant frames == |FlattenGops(gopRing[..i])|
      {
        FlattenGopsTake(gopRing, i);
        frames := frames + |gopRing[i].AllTags()|;
      }
      assert gopRing[..|gopRing|] == gopRing;
      if currentGop.Some? {
        FlattenGopsSnoc(gopRing, currentGop.value);
        frames := frames + |currentGop.value.AllTags()|;
      }
      FlattenAgrees(history, KeptGroups(config, history), Gops());
      s := Stats(|gopRing|, frames, metadata.Some?, videoSeqHeader.Some?, aacSeqHeader.Some?, totalTags);
    }
  }

  // ----- agreement of the stored groups with the history -----

  ghost predicate Tracks(c: Config, h: seq<Tag>, metadata: Option<Tag>, aac: Option<Tag>, video: Option<Tag>,
                         gops: seq<Gop>)
  {
    && metadata == Slot(h, Metadata)
    && aac == Slot(h, AacHeader)
    && video == Slot(h, VideoHeader)
    && Agree(h, KeptGroups(c, h), gops)
  }

  lemma TracksStep(c: Config, h: seq<Tag>, tag: Tag, metadata: Option<Tag>, aac: Option<Tag>, video: Option<Tag>,
                   gops: seq<Gop>)
    requires Tracks(c, h, metadata, aac, video, gops)
    ensures var k := KindOf(tag);
            Tracks(c, h + [tag],
                   if k == Metadata then Some(tag) else metadata,
                   if k == AacHeader then Some(tag) else aac,
                   if k == VideoHeader then Some(tag) else video,
                   AddToGops(c, gops, tag))
  {
    hide KindOf, Slot, KeptGroups, Agree, AddToGops;
    SlotStep(h, tag, Metadata);
    SlotStep(h, tag, AacHeader);
    SlotStep(h, tag, VideoHeader);
    GopsStep(c, h, tag, gops);
  }

  lemma KindCases(tag: Tag)
    ensures KindOf(tag) ==
            match tag.tagType
            case Script => Metadata
            case Audio => if ParseAudioFrameType(tag) == AudioSeqHeader then AacHeader else GroupContent
            case Video =>
              if ParseVideoFrameType(tag) == VideoSeqHeader then VideoHeader
              else if ParseVideoFrameType(tag) == Keyframe then GroupStart
              else GroupContent
  {
  }

  /** Group by group, the stored tags are those at the kept positions of the history. */
  ghost predicate Agree(h: seq<Tag>, kept: seq<seq<nat>>, gops: seq<Gop>) {
    && |gops| == |kept|
    && forall g | 0 <= g < |kept| :: Below(kept[g], |h|) && gops[g].AllTags() == Pick(h, kept[g])
  }

  /** What an added tag does to the kept positions. */
  function AddToKept(c: Config, kept: seq<seq<nat>>, n: nat, kind: Kind): seq<seq<nat>> {
    match kind
    case GroupStart => Last(kept, c.gopCount) + [[n]]
    case GroupContent =>
      if kept == [] || |kept[|kept| - 1]| >= GroupLimit(c) then kept
      else kept[..|kept| - 1] + [kept[|kept| - 1] + [n]]
    case _ => kept
  }

  lemma KeptStep(c: Config, h: seq<Tag>, tag: Tag)
    ensures KeptGroups(c, h + [tag]) == AddToKept(c, KeptGroups(c, h), |h|, KindOf(tag))
  {
    hide KindOf, Groups, AddToGroups, AddToKept, FirstOfEach, Last;
    GroupsSnoc(h, tag);
    KeptStepGroups(c, Groups(h), |h|, KindOf(tag));
  }

  lemma KeptStepGroups(c: Config, gs: seq<seq<nat>>, n: nat, kind: Kind)
    ensures FirstOfEach(Last(AddToGroups(gs, n, kind), c.gopCount + 1), GroupLimit(c))
            == AddToKept(c, FirstOfEach(Last(gs, c.gopCount + 1), GroupLimit(c)), n, kind)
  {
    hide FirstOfEach, First, Last;
    var limit, k := GroupLimit(c), c.gopCount;
    match kind
    case GroupStart =>
      KeptStepOpen(gs, n, limit, k);
    case GroupContent =>
      if gs != [] {
        KeptStepContent(gs, n, limit, k);
      }
    case _ =>
  }

  lemma LastSnoc<T>(s: seq<T>, x: T, k: nat)
    ensures Last(s + [x], k + 1) == Last(s, k) + [x]
  {
  }

  lemma CutSnoc(gs: seq<seq<nat>>, g: seq<nat>, limit: nat)
    ensures FirstOfEach(gs + [g], limit) == FirstOfEach(gs, limit) + [First(g, limit)]
  {
    hide First;
  }

  lemma CutOfLast(gs: seq<seq<nat>>, limit: nat, k: nat)
    ensures Last(FirstOfEach(Last(gs, k + 1), limit), k) == FirstOfEach(Last(gs, k), limit)
  {
    hide First;
  }

  lemma KeptStepOpen(gs: seq<seq<nat>>, n: nat, limit: nat, k: nat)
    requires limit >= 1
    ensures FirstOfEach(Last(gs + [[n]], k + 1), limit)
            == Last(FirstOfEach(Last(gs, k + 1), limit), k) + [[n]]
  {
    assert First([n], limit) == [n];
    hide First, FirstOfEach, Last;
    LastSnoc(gs, [n], k);
    CutSnoc(Last(gs, k), [n], limit);
    CutOfLast(gs, limit, k);
  }

  lemma KeptStepContent(gs: seq<seq<nat>>, n: nat, limit: nat, k: nat)
    requires gs != []
    ensures var kept := FirstOfEach(Last(gs, k + 1), limit);
            var open := kept[|kept| - 1];
            FirstOfEach(Last(gs[..|gs| - 1] + [gs[|gs| - 1] + [n]], k + 1), limit)
            == if |open| >= limit then kept else kept[..|kept| - 1] + [open + [n]]
  {
    hide FirstOfEach, Last;
    var init, open := gs[..|gs| - 1], gs[|gs| - 1];
    assert gs == init + [open];
    LastSnoc(init, open, k);
    LastSnoc(init, open + [n], k);
    CutSnoc(Last(init, k), open, limit);
    CutSnoc(Last(init, k), open + [n], limit);
    assert First(open + [n], limit) == if |open| < limit then First(open, limit) + [n] else First(open, limit);
  }

  lemma SlotStep(h: seq<Tag>, tag: Tag, k: Kind)
    ensures Slot(h + [tag], k) == if KindOf(tag) == k then Some(tag) else Slot(h, k)
  {
    hide KindOf;
    assert (h + [tag])[..|h|] == h;
  }

  lemma PickStep(h: seq<Tag>, tag: Tag, ixs: seq<nat>)
    requires Below(ixs, |h|)
    ensures Below(ixs, |h| + 1)
    ensures Pick(h + [tag], ixs) == Pick(h, ixs)
    ensures Pick(h + [tag], ixs + [|h|]) == Pick(h, ixs) + [tag]
  {
  }

  lemma GopsStep(c: Config, h: seq<Tag>, tag: Tag, gops: seq<Gop>)
    requires Agree(h, KeptGroups(c, h), gops)
    ensures Agree(h + [tag], KeptGroups(c, h + [tag]), AddToGops(c, gops, tag))
  {
    hide KindOf, KeptGroups;
    KeptStep(c, h, tag);
    var kept := KeptGroups(c, h);
    AgreeFrame(h, tag, kept, gops);
    match KindOf(tag)
    case GroupStart =>
      PickStep(h, tag, []);
    case GroupContent =>
      if gops != [] {
        PickStep(h, tag, kept[|kept| - 1]);
      }
    case _ =>
  }

  lemma AgreeFrame(h: seq<Tag>, tag: Tag, kept: seq<seq<nat>>, gops: seq<Gop>)
    requires Agree(h, kept, gops)
    ensures Agree(h + [tag], kept, gops)
  {
    forall g | 0 <= g < |kept|
      ensures Below(kept[g], |h| + 1) && gops[g].AllTags() == Pick(h + [tag], kept[g])
    {
      PickStep(h, tag, kept[g]);
    }
  }

  // ----- the startup burst -----

  function FlattenGops(gops: seq<Gop>): seq<Tag> {
    if gops == [] then [] else gops[0].AllTags() + FlattenGops(gops[1..])
  }

  lemma {:induction false} FlattenGopsSnoc(gops: seq<Gop>, gop: Gop)
    ensures FlattenGops(gops + [gop]) == FlattenGops(gops) + gop.AllTags()
  {
    if gops == [] {
      assert [gop][1..] == [];
      assert [] + [gop] == [gop];
    } else {
      FlattenGopsSnoc(gops[1..], gop);
      assert (gops + [gop])[1..] == gops[1..] + [gop];
    }
  }

  lemma FlattenGopsTake(gops: seq<Gop>, i: nat)
    requires i < |gops|
    ensures FlattenGops(gops[..i + 1]) == FlattenGops(gops[..i]) + gops[i].AllTags()
  {
    assert gops[..i + 1] == gops[..i] + [gops[i]];
    FlattenGopsSnoc(gops[..i], gops[i]);
  }

  lemma {:induction false} FlattenAgrees(h: seq<Tag>, kept: seq<seq<nat>>, gops: seq<Gop>)
    requires Agree(h, kept, gops)
    ensures Below(Flatten(kept), |h|)
    ensures FlattenGops(gops) == Pick(h, Flatten(kept))
  {
    if kept != [] {
      FlattenAgrees(h, kept[1..], gops[1..]);
    }
  }

  lemma StartupTagsSplit(c: Config, h: seq<Tag>, gops: seq<Gop>)
    requires Agree(h, KeptGroups(c, h), gops)
    ensures StartupTags(c, h)
            == SlotTags(Slot(h, Metadata)) + SlotTags(Slot(h, AacHeader)) + SlotTags(Slot(h, VideoHeader))
               + FlattenGops(gops)
  {
    hide Slot, LastOfKind, KeptGroups, FlattenGops, SlotTags;
    var a, b, v := LastOfKind(h, Metadata), LastOfKind(h, AacHeader), LastOfKind(h, VideoHeader);
    var media := StartupMedia(c, h);
    FlattenAgrees(h, KeptGroups(c, h), gops);
    StartupPositionsDistinct(c, h);
    SlotIsPick(h, Metadata);
    SlotIsPick(h, AacHeader);
    SlotIsPick(h, VideoHeader);
    PickAppend(h, a, b);
    PickAppend(h, a + b, v);
    PickAppend(h, a + b + v, media);
  }

  lemma SlotIsPick(h: seq<Tag>, k: Kind)
    ensures SlotTags(Slot(h, k)) == Pick(h, LastOfKind(h, k))
  {
  }

  lemma PickAppend(h: seq<Tag>, a: seq<nat>, b: seq<nat>)
    requires Below(a, |h|) && Below(b, |h|)
    ensures Below(a + b, |h|)
    ensures Pick(h, a + b) == Pick(h, a) + Pick(h, b)
  {
  }

  function SlotTags(slot: Option<Tag>): seq<Tag> {
    if slot.Some? then [slot.value] else []
  }
}
