/** What a new viewer should be sent, as a function of the whole tag history. */
module GopHistory {
  import opened Options
  import opened FlvTag

  datatype Config = Config(gopCount: nat, maxFramesPerGop: nat)

  /** A group always keeps its keyframe, so a limit of 0 acts as 1. */
  function GroupLimit(c: Config): (n: nat)
    ensures n >= 1
  {
    if c.maxFramesPerGop == 0 then 1 else c.maxFramesPerGop
  }

  // ----- selections of positions -----

  ghost predicate Below(ixs: seq<nat>, n: nat) {
    forall j | 0 <= j < |ixs| :: ixs[j] < n
  }

  ghost predicate Increasing(ixs: seq<nat>) {
    forall j, k | 0 <= j < k < |ixs| :: ixs[j] < ixs[k]
  }

  function Pick(h: seq<Tag>, ixs: seq<nat>): (tags: seq<Tag>)
    requires Below(ixs, |h|)
    ensures |tags| == |ixs|
    ensures forall j | 0 <= j < |ixs| :: tags[j] == h[ixs[j]]
  {
    seq(|ixs|, j requires 0 <= j < |ixs| => h[ixs[j]])
  }

  function Flatten(gs: seq<seq<nat>>): seq<nat> {
    if gs == [] then [] else gs[0] + Flatten(gs[1..])
  }

  // ----- groups -----

  /** Sound and pictures, but no sequence header. */
  predicate IsMedia(tag: Tag) {
    tag.tagType != Script && !IsAacHeader(tag) && !IsVideoHeader(tag)
  }

  lemma MediaKinds(tag: Tag)
    ensures IsKeyframe(tag) <==> KindOf(tag).GroupStart?
    ensures IsMedia(tag) <==> KindOf(tag).GroupStart? || KindOf(tag).GroupContent?
  {
    hide KindOf, IsAacHeader, IsVideoHeader, IsKeyframe;
    KindFromBytes(tag);
  }

  /** A keyframe opens a group, other media joins the open one, anything else leaves the groups. */
  function AddToGroups(gs: seq<seq<nat>>, n: nat, kind: Kind): seq<seq<nat>> {
    match kind
    case GroupStart => gs + [[n]]
    case GroupContent => if gs == [] then [] else gs[..|gs| - 1] + [gs[|gs| - 1] + [n]]
    case _ => gs
  }

  /** Positions of the media tags, cut into groups at every keyframe; tags before the first are lost. */
  function Groups(h: seq<Tag>): (gs: seq<seq<nat>>)
    ensures forall g | 0 <= g < |gs| :: gs[g] != []
  {
    if h == [] then []
    else AddToGroups(Groups(h[..|h| - 1]), |h| - 1, KindOf(h[|h| - 1]))
  }

  lemma GroupsSnoc(h: seq<Tag>, tag: Tag)
    ensures Groups(h + [tag]) == AddToGroups(Groups(h), |h|, KindOf(tag))
  {
    assert (h + [tag])[..|h|] == h;
  }

  function Last<T>(s: seq<T>, n: nat): (r: seq<T>)
    ensures |r| == if |s| <= n then |s| else n
  {
    if |s| <= n then s else s[|s| - n..]
  }

  function First<T>(s: seq<T>, n: nat): (r: seq<T>)
    ensures |r| == if |s| <= n then |s| else n
  {
    if |s| <= n then s else s[..n]
  }

  function FirstOfEach(gs: seq<seq<nat>>, n: nat): (r: seq<seq<nat>>)
    ensures |r| == |gs|
    ensures forall g | 0 <= g < |gs| :: r[g] == First(gs[g], n)
  {
    seq(|gs|, g requires 0 <= g < |gs| => First(gs[g], n))
  }

  /** The groups that the cache keeps: the last gopCount + 1, each cut to the group limit. */
  function KeptGroups(c: Config, h: seq<Tag>): seq<seq<nat>> {
    FirstOfEach(Last(Groups(h), c.gopCount + 1), GroupLimit(c))
  }

  function StartupMedia(c: Config, h: seq<Tag>): seq<nat> {
    Flatten(KeptGroups(c, h))
  }

  /** The position of the last tag of a kind, as a list of at most one. */
  function LastOfKind(h: seq<Tag>, k: Kind): (ixs: seq<nat>)
    ensures |ixs| <= 1 && Below(ixs, |h|)
    ensures ixs != [] ==> KindOf(h[ixs[0]]) == k
    ensures ixs != [] ==> forall i | ixs[0] < i < |h| :: KindOf(h[i]) != k
    ensures ixs == [] ==> forall i | 0 <= i < |h| :: KindOf(h[i]) != k
  {
    if h == [] then []
    else if KindOf(h[|h| - 1]) == k then [|h| - 1]
    else LastOfKind(h[..|h| - 1], k)
  }

  /** Every position a new viewer is sent, in order of sending. */
  function StartupPositions(c: Config, h: seq<Tag>): seq<nat> {
    LastOfKind(h, Metadata) + LastOfKind(h, AacHeader) + LastOfKind(h, VideoHeader) + StartupMedia(c, h)
  }

  // ----- the groups described tag by tag -----

  /** The nearest keyframe at or before `i`. */
  function LeadOf(h: seq<Tag>, i: int): (k: Option<nat>)
    requires -1 <= i < |h|
    ensures k.Some? ==> k.value <= i && IsKeyframe(h[k.value])
    decreases i + 1
  {
    if i < 0 then None else if IsKeyframe(h[i]) then Some(i) else LeadOf(h, i - 1)
  }

  function KeyframesIn(h: seq<Tag>): nat {
    if h == [] then 0
    else KeyframesIn(h[..|h| - 1]) + if IsKeyframe(h[|h| - 1]) then 1 else 0
  }

  ghost function MediaIn(h: seq<Tag>): nat {
    if h == [] then 0 else MediaIn(h[..|h| - 1]) + if IsMedia(h[|h| - 1]) then 1 else 0
  }

  /** A media tag is sent at startup if it has a keyframe, few enough keyframes came since, and few
      enough media tags lie between it and its keyframe. */
  ghost predicate SentAtStartup(c: Config, h: seq<Tag>, i: nat) {
    && i < |h|
    && IsMedia(h[i])
    && LeadOf(h, i).Some?
    && KeyframesIn(h[i + 1..]) <= c.gopCount
    && MediaIn(h[LeadOf(h, i).value..i]) < GroupLimit(c)
  }

  /** What is known of the tag at offset `m` of group `g`. */
  ghost predicate Placed(h: seq<Tag>, g: nat, m: nat)
    requires g < |Groups(h)| && m < |Groups(h)[g]|
  {
    var i := Groups(h)[g][m];
    && i < |h|
    && IsMedia(h[i])
    && LeadOf(h, i) == Some(Groups(h)[g][0])
    && Groups(h)[g][0] <= i
    && (IsKeyframe(h[i]) <==> m == 0)
    && KeyframesIn(h[i + 1..]) == |Groups(h)| - 1 - g
    && MediaIn(h[Groups(h)[g][0]..i]) == m
  }

  lemma {:induction false} LeadOfPrefix(h: seq<Tag>, tag: Tag, i: int)
    requires -1 <= i < |h|
    ensures LeadOf(h + [tag], i) == LeadOf(h, i)
    decreases i + 1
  {
    hide IsKeyframe;
    if i >= 0 {
      LeadOfPrefix(h, tag, i - 1);
    }
  }

  /** The open group is the one led by the last keyframe, and holds all media since. */
  ghost predicate OpenGroupLed(h: seq<Tag>, gs: seq<seq<nat>>)
    requires forall g | 0 <= g < |gs| :: gs[g] != []
  {
    && (gs == [] ==> LeadOf(h, |h| - 1) == None)
    && (gs != [] ==>
          && LeadOf(h, |h| - 1) == Some(gs[|gs| - 1][0])
          && MediaIn(h[gs[|gs| - 1][0]..]) == |gs[|gs| - 1]|)
  }

  lemma {:induction false} OpenGroup(h: seq<Tag>)
    ensures OpenGroupLed(h, Groups(h))
  {
    hide KindOf;
    if h != [] {
      var front, tag := h[..|h| - 1], h[|h| - 1];
      assert front + [tag] == h;
      OpenGroup(front);
      hide OpenGroupLed;
      OpenGroupStep(front, tag, Groups(front));
      GroupsSnoc(front, tag);
    }
  }

  lemma OpenGroupStep(h: seq<Tag>, tag: Tag, gs: seq<seq<nat>>)
    requires forall g | 0 <= g < |gs| :: gs[g] != []
    requires OpenGroupLed(h, gs)
    ensures var gs' := AddToGroups(gs, |h|, KindOf(tag));
            && (forall g | 0 <= g < |gs'| :: gs'[g] != [])
            && OpenGroupLed(h + [tag], gs')
  {
    hide KindOf, IsMedia, IsKeyframe, LeadOf, MediaIn, KeyframesIn;
    MediaKinds(tag);
    LeadOfPrefixOrStart(h, tag);
    var h' := h + [tag];
    if IsKeyframe(tag) {
      NoTags();
      MediaSnoc([], tag);
      assert h'[|h|..] == [] + [tag];
    } else if gs != [] {
      var k := gs[|gs| - 1][0];
      MediaSnoc(h[k..], tag);
      assert h'[k..] == h[k..] + [tag];
    }
  }

  lemma MediaSnoc(h: seq<Tag>, tag: Tag)
    ensures MediaIn(h + [tag]) == MediaIn(h) + if IsMedia(tag) then 1 else 0
  {
    hide IsMedia;
    assert (h + [tag])[..|h|] == h;
  }

  lemma KeyframesSnoc(h: seq<Tag>, tag: Tag)
    ensures KeyframesIn(h + [tag]) == KeyframesIn(h) + if IsKeyframe(tag) then 1 else 0
  {
    hide IsKeyframe;
    assert (h + [tag])[..|h|] == h;
  }

  lemma PlacedStep(h: seq<Tag>, tag: Tag, g: nat, m: nat)
    requires g < |Groups(h)| && m < |Groups(h)[g]| && Placed(h, g, m)
    ensures var h' := h + [tag];
            && g < |Groups(h')| && m < |Groups(h')[g]|
            && Groups(h')[g][m] == Groups(h)[g][m]
            && Placed(h', g, m)
  {
    hide KindOf, IsMedia, IsKeyframe, Groups, MediaIn, KeyframesIn;
    var h' := h + [tag];
    MediaKinds(tag);
    GroupsSnoc(h, tag);
    var i, k := Groups(h)[g][m], Groups(h)[g][0];
    assert Groups(h')[g][0] == k;
    hide AddToGroups;
    LeadOfPrefix(h, tag, i);
    KeyframesSnoc(h[i + 1..], tag);
    assert h'[i + 1..] == h[i + 1..] + [tag];
    assert h'[k..i] == h[k..i];
  }

  /** The tag just added, if it joined a group, is placed at the end of the last one. */
  lemma NewTagPlaced(h: seq<Tag>, tag: Tag)
    requires IsMedia(tag) && (IsKeyframe(tag) || Groups(h) != [])
    ensures var gs := Groups(h + [tag]);
            && gs != []
            && gs[|gs| - 1][|gs[|gs| - 1]| - 1] == |h|
            && Placed(h + [tag], |gs| - 1, |gs[|gs| - 1]| - 1)
  {
    hide KindOf, IsMedia, IsKeyframe, Groups, MediaIn, KeyframesIn;
    var h' := h + [tag];
    MediaKinds(tag);
    GroupsSnoc(h, tag);
    OpenGroup(h);
    LeadOfPrefixOrStart(h, tag);
    assert h'[|h| + 1..] == [];
    NoTags();
    var gs := Groups(h);
    if IsKeyframe(tag) {
      assert h'[|h|..|h|] == [];
    } else {
      assert h'[gs[|gs| - 1][0]..|h|] == h[gs[|gs| - 1][0]..];
    }
  }

  lemma LeadOfPrefixOrStart(h: seq<Tag>, tag: Tag)
    ensures LeadOf(h + [tag], |h|) == if IsKeyframe(tag) then Some(|h|) else LeadOf(h, |h| - 1)
  {
    hide IsKeyframe;
    if h != [] {
      LeadOfPrefix(h, tag, |h| - 1);
    }
  }

  lemma NoTags()
    ensures KeyframesIn([]) == 0 && MediaIn([]) == 0
  {
  }

  lemma {:induction false} EveryTagPlaced(h: seq<Tag>, g: nat, m: nat)
    requires g < |Groups(h)| && m < |Groups(h)[g]|
    ensures Placed(h, g, m)
    decreases h
  {
    hide KindOf, IsMedia, IsKeyframe, Placed;
    var n := |h| - 1;
    var front, tag := h[..n], h[n];
    assert front + [tag] == h;
    MediaKinds(tag);
    GroupsSnoc(front, tag);
    hide Groups;
    if g < |Groups(front)| && m < |Groups(front)[g]| {
      EveryTagPlaced(front, g, m);
      PlacedStep(front, tag, g, m);
    } else {
      NewTagPlaced(front, tag);
    }
  }

  lemma NoGroupNoLead(h: seq<Tag>)
    ensures Groups(h) == [] ==> LeadOf(h, |h| - 1) == None
  {
    hide Groups, LeadOf, MediaIn;
    OpenGroup(h);
  }

  /** Every media tag that has a keyframe lies in some group. */
  lemma {:induction false} FindPlace(h: seq<Tag>, i: nat) returns (g: nat, m: nat)
    requires i < |h| && IsMedia(h[i]) && LeadOf(h, i).Some?
    ensures g < |Groups(h)| && m < |Groups(h)[g]| && Groups(h)[g][m] == i
    decreases h
  {
    hide KindOf, IsMedia, IsKeyframe, LeadOf, MediaIn, KeyframesIn, Placed;
    var n := |h| - 1;
    var front, tag := h[..n], h[n];
    assert front + [tag] == h;
    hide Groups;
    if i < n {
      LeadOfPrefix(front, tag, i);
      g, m := FindPlace(front, i);
      EveryTagPlaced(front, g, m);
      PlacedStep(front, tag, g, m);
    } else {
      NoGroupNoLead(front);
      LeadOfPrefixOrStart(front, tag);
      NewTagPlaced(front, tag);
      g := |Groups(h)| - 1;
      m := |Groups(h)[g]| - 1;
    }
  }

  lemma {:induction false} FlattenMember(gs: seq<seq<nat>>, i: nat) returns (g: nat, m: nat)
    requires i in Flatten(gs)
    ensures g < |gs| && m < |gs[g]| && gs[g][m] == i
  {
    if i in gs[0] {
      g := 0;
      m :| 0 <= m < |gs[0]| && gs[0][m] == i;
    } else {
      g, m := FlattenMember(gs[1..], i);
      g := g + 1;
    }
  }

  lemma {:induction false} MemberOfFlatten(gs: seq<seq<nat>>, g: nat, m: nat)
    requires g < |gs| && m < |gs[g]|
    ensures gs[g][m] in Flatten(gs)
  {
    if g > 0 {
      MemberOfFlatten(gs[1..], g - 1, m);
    }
  }

  lemma KeptGroupAt(c: Config, h: seq<Tag>, g: nat)
    requires g < |KeptGroups(c, h)|
    ensures var g' := |Groups(h)| - |KeptGroups(c, h)| + g;
            && 0 <= g' < |Groups(h)|
            && |Groups(h)| - 1 - g' <= c.gopCount
            && KeptGroups(c, h)[g] == First(Groups(h)[g'], GroupLimit(c))
  {
    hide Groups;
  }

  lemma KeptIsSent(c: Config, h: seq<Tag>, i: nat)
    requires i in StartupMedia(c, h)
    ensures SentAtStartup(c, h, i)
  {
    hide Groups, IsKeyframe, LeadOf, KeyframesIn, MediaIn, IsMedia, GroupLimit;
    var g, m := FlattenMember(KeptGroups(c, h), i);
    KeptGroupAt(c, h, g);
    hide KeptGroups;
    var g' := |Groups(h)| - |KeptGroups(c, h)| + g;
    assert m < GroupLimit(c) && Groups(h)[g'][m] == i;
    hide First;
    EveryTagPlaced(h, g', m);
  }

  lemma SentIsKept(c: Config, h: seq<Tag>, i: nat)
    requires SentAtStartup(c, h, i)
    ensures i in StartupMedia(c, h)
  {
    hide Groups, IsKeyframe, IsMedia, KeyframesIn, MediaIn;
    var g', m := FindPlace(h, i);
    EveryTagPlaced(h, g', m);
    var g := g' - (|Groups(h)| - |KeptGroups(c, h)|);
    KeptGroupAt(c, h, g);
    MemberOfFlatten(KeptGroups(c, h), g, m);
  }

  /** The kept positions are exactly those the tag-by-tag rule names. */
  lemma StartupMediaExact(c: Config, h: seq<Tag>, i: nat)
    ensures i in StartupMedia(c, h) <==> SentAtStartup(c, h, i)
  {
    hide StartupMedia, SentAtStartup;
    if i in StartupMedia(c, h) {
      KeptIsSent(c, h, i);
    }
    if SentAtStartup(c, h, i) {
      SentIsKept(c, h, i);
    }
  }

  // ----- order and size -----

  lemma {:induction false} GroupsIncrease(h: seq<Tag>)
    ensures Increasing(Flatten(Groups(h)))
    ensures Below(Flatten(Groups(h)), |h|)
  {
    hide KindOf;
    if h != [] {
      var n := |h| - 1;
      GroupsIncrease(h[..n]);
      FlattenAdd(Groups(h[..n]), n, KindOf(h[n]));
    }
  }

  lemma FlattenAdd(gs: seq<seq<nat>>, n: nat, kind: Kind)
    ensures var flat := Flatten(AddToGroups(gs, n, kind));
            flat == Flatten(gs) || flat == Flatten(gs) + [n]
  {
    match kind
    case GroupStart =>
      FlattenAppend(gs, [[n]]);
      assert Flatten([[n]]) == [n];
    case GroupContent =>
      if gs != [] {
        var init, last := gs[..|gs| - 1], gs[|gs| - 1];
        assert gs == init + [last];
        FlattenAppend(init, [last]);
        FlattenAppend(init, [last + [n]]);
        assert Flatten([last]) == last && Flatten([last + [n]]) == last + [n];
        assert Flatten(init) + (last + [n]) == Flatten(init) + last + [n];
      }
    case _ =>
  }

  lemma {:induction false} FlattenAppend(a: seq<seq<nat>>, b: seq<seq<nat>>)
    ensures Flatten(a + b) == Flatten(a) + Flatten(b)
  {
    if a == [] {
      assert a + b == b;
    } else {
      FlattenAppend(a[1..], b);
      assert (a + b)[1..] == a[1..] + b;
      Regroup(a[0], Flatten(a[1..]), Flatten(b));
    }
  }

  lemma Regroup(a: seq<nat>, b: seq<nat>, c: seq<nat>)
    ensures a + (b + c) == a + b + c
  {
  }

  lemma {:induction false} CutsAreMembers(gs: seq<seq<nat>>, n: nat)
    ensures forall i | i in Flatten(FirstOfEach(gs, n)) :: i in Flatten(gs)
  {
    if gs != [] {
      CutsAreMembers(gs[1..], n);
      assert FirstOfEach(gs, n)[1..] == FirstOfEach(gs[1..], n);
      assert First(gs[0], n) <= gs[0];
    }
  }

  lemma {:induction false} CutsFit(gs: seq<seq<nat>>, n: nat)
    ensures |Flatten(FirstOfEach(gs, n))| <= |gs| * n
  {
    if gs != [] {
      CutsFit(gs[1..], n);
      assert FirstOfEach(gs, n)[1..] == FirstOfEach(gs[1..], n);
      MulSucc(|gs|, n);
    }
  }

  lemma {:induction false} CutsIncrease(gs: seq<seq<nat>>, n: nat)
    requires Increasing(Flatten(gs))
    ensures Increasing(Flatten(FirstOfEach(gs, n)))
  {
    if gs != [] {
      var rest := Flatten(gs[1..]);
      SuffixIncreases(gs[0], rest);
      CutsIncrease(gs[1..], n);
      CutsAreMembers(gs[1..], n);
      var cutRest := Flatten(FirstOfEach(gs[1..], n));
      assert FirstOfEach(gs, n)[1..] == FirstOfEach(gs[1..], n);
      assert Flatten(FirstOfEach(gs, n)) == First(gs[0], n) + cutRest;
      hide Flatten, FirstOfEach;
      CutJoin(gs[0], rest, n, cutRest);
    }
  }

  lemma CutJoin(a: seq<nat>, b: seq<nat>, n: nat, b': seq<nat>)
    requires Increasing(a + b) && Increasing(b')
    requires forall i | i in b' :: i in b
    ensures Increasing(First(a, n) + b')
  {
    var r := First(a, n) + b';
    forall j, k | 0 <= j < k < |r| ensures r[j] < r[k] {
      if j < |First(a, n)| {
        assert r[j] == (a + b)[j];
        if k < |First(a, n)| {
          assert r[k] == (a + b)[k];
        } else {
          assert r[k] in b';
          var k' :| 0 <= k' < |b| && b[k'] == r[k];
          assert (a + b)[|a| + k'] == r[k];
        }
      }
    }
  }

  lemma MulSucc(k: nat, n: nat)
    requires k > 0
    ensures (k - 1) * n + n == k * n
  {
  }

  lemma SuffixIncreases(a: seq<nat>, b: seq<nat>)
    requires Increasing(a + b)
    ensures Increasing(b)
  {
    assert forall j | 0 <= j < |b| :: b[j] == (a + b)[|a| + j];
  }

  lemma KeptIncreases(c: Config, h: seq<Tag>)
    ensures Increasing(StartupMedia(c, h))
    ensures |StartupMedia(c, h)| <= (c.gopCount + 1) * GroupLimit(c)
  {
    hide Groups;
    var gs := Groups(h);
    var kept := Last(gs, c.gopCount + 1);
    var gone := gs[..|gs| - |kept|];
    GroupsIncrease(h);
    assert gs == gone + kept;
    FlattenAppend(gone, kept);
    SuffixIncreases(Flatten(gone), Flatten(kept));
    CutsIncrease(kept, GroupLimit(c));
    CutsFit(kept, GroupLimit(c));
    MulLe(|kept|, c.gopCount + 1, GroupLimit(c));
  }

  lemma MulLe(a: nat, b: nat, n: nat)
    requires a <= b
    ensures a * n <= b * n
  {
  }

  lemma KeptStartsWithKeyframe(c: Config, h: seq<Tag>)
    requires StartupMedia(c, h) != []
    ensures StartupMedia(c, h)[0] < |h| && IsKeyframe(h[StartupMedia(c, h)[0]])
  {
    hide KindOf, IsKeyframe, IsMedia;
    var kept := KeptGroups(c, h);
    KeptGroupAt(c, h, 0);
    var g := |Groups(h)| - |kept|;
    EveryTagPlaced(h, g, 0);
    hide Groups, LeadOf, KeyframesIn, MediaIn;
    assert StartupMedia(c, h)[0] == kept[0][0] == Groups(h)[g][0];
  }

  /** The media part is in order, starts at a keyframe, and is bounded by the configuration. */
  lemma StartupMediaShape(c: Config, h: seq<Tag>)
    ensures var ixs := StartupMedia(c, h);
            && Increasing(ixs)
            && Below(ixs, |h|)
            && |ixs| <= (c.gopCount + 1) * GroupLimit(c)
            && (ixs != [] ==> IsKeyframe(h[ixs[0]]))
  {
    hide IsKeyframe, IsMedia, StartupMedia;
    KeptIncreases(c, h);
    StartupMediaIsMedia(c, h);
    if StartupMedia(c, h) != [] {
      KeptStartsWithKeyframe(c, h);
    }
  }

  lemma StartupMediaIsMedia(c: Config, h: seq<Tag>)
    ensures forall j | 0 <= j < |StartupMedia(c, h)| ::
              StartupMedia(c, h)[j] < |h| && IsMedia(h[StartupMedia(c, h)[j]])
  {
    hide StartupMedia, IsMedia, IsKeyframe;
    forall j | 0 <= j < |StartupMedia(c, h)|
      ensures StartupMedia(c, h)[j] < |h| && IsMedia(h[StartupMedia(c, h)[j]])
    {
      StartupMediaExact(c, h, StartupMedia(c, h)[j]);
    }
  }

  /** All startup positions are valid and pairwise distinct. */
  lemma StartupPositionsDistinct(c: Config, h: seq<Tag>)
    ensures var ixs := StartupPositions(c, h);
            && Below(ixs, |h|)
            && forall j, k | 0 <= j < k < |ixs| :: ixs[j] != ixs[k]
  {
    hide StartupMedia, KindOf, IsMedia, IsKeyframe, LastOfKind;
    var slots := LastOfKind(h, Metadata) + LastOfKind(h, AacHeader) + LastOfKind(h, VideoHeader);
    var media := StartupMedia(c, h);
    StartupMediaShape(c, h);
    StartupMediaIsMedia(c, h);
    SlotsAreNoMedia(h);
    assert StartupPositions(c, h) == slots + media;
    forall j, k | 0 <= j < k < |slots + media| ensures (slots + media)[j] != (slots + media)[k] {
      if j < |slots| <= k {
        assert IsMedia(h[media[k - |slots|]]);
      }
    }
  }

  lemma SlotsAreNoMedia(h: seq<Tag>)
    ensures var slots := LastOfKind(h, Metadata) + LastOfKind(h, AacHeader) + LastOfKind(h, VideoHeader);
            && Below(slots, |h|)
            && (forall j | 0 <= j < |slots| :: !IsMedia(h[slots[j]]))
            && forall j, k | 0 <= j < k < |slots| :: slots[j] != slots[k]
  {
    hide KindOf, IsMedia, IsKeyframe, LastOfKind;
    var slots := LastOfKind(h, Metadata) + LastOfKind(h, AacHeader) + LastOfKind(h, VideoHeader);
    forall j | 0 <= j < |slots| ensures !IsMedia(h[slots[j]]) {
      MediaKinds(h[slots[j]]);
    }
  }

  lemma LastOfKindIs(h: seq<Tag>, k: Kind, i: nat)
    ensures i in LastOfKind(h, k) <==> i < |h| && KindOf(h[i]) == k && forall j | i < j < |h| :: KindOf(h[j]) != k
  {
    hide KindOf, LastOfKind;
  }

  /** The header part is told by the bytes: the last script tag, the last AAC and the last video header. */
  lemma SlotsFromBytes(h: seq<Tag>, i: nat)
    ensures i in LastOfKind(h, Metadata)
       <==> i < |h| && h[i].tagType == Script && forall j | i < j < |h| :: h[j].tagType != Script
    ensures i in LastOfKind(h, AacHeader)
       <==> i < |h| && IsAacHeader(h[i]) && forall j | i < j < |h| :: !IsAacHeader(h[j])
    ensures i in LastOfKind(h, VideoHeader)
       <==> i < |h| && IsVideoHeader(h[i]) && forall j | i < j < |h| :: !IsVideoHeader(h[j])
  {
    hide KindOf, IsAacHeader, IsVideoHeader, IsKeyframe, LastOfKind;
    LastOfKindIs(h, Metadata, i);
    LastOfKindIs(h, AacHeader, i);
    LastOfKindIs(h, VideoHeader, i);
    forall tag: Tag
      ensures KindOf(tag) == Metadata <==> tag.tagType == Script
      ensures KindOf(tag) == AacHeader <==> IsAacHeader(tag)
      ensures KindOf(tag) == VideoHeader <==> IsVideoHeader(tag)
    {
      KindFromBytes(tag);
    }
  }

  /** Metadata comes first, then the AAC header, the video header, and all else. */
  function Turn(tag: Tag): nat {
    if tag.tagType == Script then 0 else if IsAacHeader(tag) then 1 else if IsVideoHeader(tag) then 2 else 3
  }

  /** A viewer is sent the headers ahead of everything else, in this order. */
  lemma HeadersComeFirst(c: Config, h: seq<Tag>)
    ensures var ixs := StartupPositions(c, h);
            && Below(ixs, |h|)
            && forall j, k | 0 <= j < k < |ixs| :: Turn(h[ixs[j]]) <= Turn(h[ixs[k]])
  {
    hide StartupMedia, LastOfKind, KindOf, Turn, IsMedia;
    StartupPositionsDistinct(c, h);
    var ixs := StartupPositions(c, h);
    var a, b, v := |LastOfKind(h, Metadata)|, |LastOfKind(h, AacHeader)|, |LastOfKind(h, VideoHeader)|;
    StartupMediaIsMedia(c, h);
    forall j | 0 <= j < |ixs|
      ensures Turn(h[ixs[j]]) == if j < a then 0 else if j < a + b then 1 else if j < a + b + v then 2 else 3
    {
      TurnFromKind(h[ixs[j]]);
    }
  }

  lemma TurnFromKind(tag: Tag)
    ensures KindOf(tag) == Metadata ==> Turn(tag) == 0
    ensures KindOf(tag) == AacHeader ==> Turn(tag) == 1
    ensures KindOf(tag) == VideoHeader ==> Turn(tag) == 2
    ensures IsMedia(tag) ==> Turn(tag) == 3
  {
    hide KindOf, IsAacHeader, IsVideoHeader, IsKeyframe;
    KindFromBytes(tag);
    assert !(IsAacHeader(tag) && IsVideoHeader(tag)) by { OneHeader(tag); }
    assert IsAacHeader(tag) || IsVideoHeader(tag) ==> tag.tagType != Script by { OneHeader(tag); }
  }

  lemma OneHeader(tag: Tag)
    ensures !(IsAacHeader(tag) && IsVideoHeader(tag))
    ensures IsAacHeader(tag) || IsVideoHeader(tag) ==> tag.tagType != Script
  {
  }

  /** The newest keyframe is always sent. */
  lemma NewestKeyframeIsSent(c: Config, h: seq<Tag>, i: nat)
    requires i < |h| && IsKeyframe(h[i])
    requires forall j | i < j < |h| :: !IsKeyframe(h[j])
    ensures i in StartupPositions(c, h)
  {
    hide IsKeyframe, StartupMedia, LastOfKind;
    assert IsMedia(h[i]) by { KeyframeIsMedia(h[i]); }
    NoKeyframes(h[i + 1..]);
    NoTags();
    assert h[i..i] == [];
    StartupMediaExact(c, h, i);
  }

  lemma KeyframeIsMedia(tag: Tag)
    requires IsKeyframe(tag)
    ensures IsMedia(tag)
  {
  }

  lemma {:induction false} NoKeyframes(h: seq<Tag>)
    requires forall j | 0 <= j < |h| :: !IsKeyframe(h[j])
    ensures KeyframesIn(h) == 0
  {
    hide IsKeyframe;
    if h != [] {
      NoKeyframes(h[..|h| - 1]);
    }
  }

  /** The tags a new viewer is sent: last script, last audio header, last video header, kept groups. */
  function StartupTags(c: Config, h: seq<Tag>): seq<Tag> {
    StartupPositionsDistinct(c, h);
    Pick(h, StartupPositions(c, h))
  }
}
