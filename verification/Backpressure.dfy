/** The per-client drop policy: what a lagging viewer loses, and what it never loses. */
module Backpressure {
  import opened FlvTag

  datatype DropPolicy = DropPolicy(lightThreshold: nat, mediumThreshold: nat, dropAudio: bool)

  const DEFAULT_POLICY := DropPolicy(10, 50, false)

  function ShouldDrop(tag: Tag, lagCount: nat, policy: DropPolicy): bool {
    match PacketPriority(tag)
    case High => false
    case Low => lagCount > 0
    case Medium => lagCount > 0 && policy.dropAudio && lagCount > policy.mediumThreshold
  }

  /** What the receive loop sees: the next tag, or notice that `n` tags were overwritten. */
  datatype RecvEvent = Received(tag: Tag) | Lagged(n: nat)

  /** The tracker's counters, and the positions of the events whose tags were written out. */
  datatype Serving = Serving(lag: nat, consecutiveDrops: nat, drops: nat, packets: nat, sent: seq<nat>)

  function Relieve(lag: nat): nat {
    if lag > 0 then lag - 1 else 0
  }

  function Serve(policy: DropPolicy, events: seq<RecvEvent>): Serving {
    if events == [] then Serving(0, 0, 0, 0, [])
    else
      var n := |events| - 1;
      var s := Serve(policy, events[..n]);
      match events[n]
      case Lagged(k) => s.(lag := k)
      case Received(tag) =>
        if ShouldDrop(tag, s.lag, policy) then
          s.(consecutiveDrops := s.consecutiveDrops + 1, drops := s.drops + 1, packets := s.packets + 1)
        else
          s.(lag := Relieve(s.lag), consecutiveDrops := 0, packets := s.packets + 1, sent := s.sent + [n])
  }

  class BackpressureTracker {
    const policy: DropPolicy
    var lagCount: nat
    var consecutiveDrops: nat
    var totalDrops: nat
    var totalPackets: nat

    constructor (policy: DropPolicy)
      ensures this.policy == policy
      ensures lagCount == consecutiveDrops == totalDrops == totalPackets == 0
    {
      this.policy := policy;
      lagCount, consecutiveDrops, totalDrops, totalPackets := 0, 0, 0, 0;
    }

    method ReportLag(lag: nat)
      modifies this`lagCount
      ensures lagCount == lag
    {
      lagCount := lag;
    }

    method RelievePressure()
      modifies this`lagCount, this`consecutiveDrops
      ensures lagCount == Relieve(old(lagCount)) && consecutiveDrops == 0
    {
      if lagCount > 0 {
        lagCount := lagCount - 1;
      }
      consecutiveDrops := 0;
    }

    method CheckDrop(tag: Tag) returns (drop: bool)
      modifies this`consecutiveDrops, this`totalDrops, this`totalPackets
      ensures drop <==> ShouldDrop(tag, lagCount, policy)
      ensures totalPackets == old(totalPackets) + 1
      ensures totalDrops == old(totalDrops) + if drop then 1 else 0
      ensures consecutiveDrops == if drop then old(consecutiveDrops) + 1 else 0
    {
      totalPackets := totalPackets + 1;
      drop := ShouldDrop(tag, lagCount, policy);
      if drop {
        consecutiveDrops := consecutiveDrops + 1;
        totalDrops := totalDrops + 1;
      } else {
        consecutiveDrops := 0;
      }
    }
  }

  ghost predicate SentPositions(events: seq<RecvEvent>, ixs: seq<nat>) {
    forall j | 0 <= j < |ixs| :: ixs[j] < |events| && events[ixs[j]].Received?
  }

  function TagsAt(events: seq<RecvEvent>, ixs: seq<nat>): (tags: seq<Tag>)
    requires SentPositions(events, ixs)
    ensures |tags| == |ixs|
  {
    seq(|ixs|, j requires 0 <= j < |ixs| => events[ixs[j]].tag)
  }

  /** The send loop of a viewer connection, up to the end of the stream or a failed write. */
  method SendLoop(events: seq<RecvEvent>) returns (written: seq<Tag>, tracker: BackpressureTracker)
    ensures var s := Serve(DEFAULT_POLICY, events);
            && SentPositions(events, s.sent)
            && written == TagsAt(events, s.sent)
            && tracker.totalPackets == s.packets
            && tracker.totalDrops == s.drops
            && tracker.lagCount == s.lag
  {
    hide ShouldDrop;
    tracker := new BackpressureTracker(DEFAULT_POLICY);
    written := [];
    for i := 0 to |events|
      invariant fresh(tracker) && tracker.policy == DEFAULT_POLICY
      invariant var s := Serve(DEFAULT_POLICY, events[..i]);
                && SentPositions(events, s.sent)
                && written == TagsAt(events, s.sent)
                && tracker.totalPackets == s.packets
                && tracker.totalDrops == s.drops
                && tracker.lagCount == s.lag
                && tracker.consecutiveDrops == s.consecutiveDrops
    {
      assert events[..i + 1][..i] == events[..i];
      match events[i] {
        case Received(tag) =>
          var drop := tracker.CheckDrop(tag);
          if drop {
            continue;
          }
          written := written + [tag];
          tracker.RelievePressure();
        case Lagged(n) =>
          tracker.ReportLag(n);
      }
    }
    assert events[..|events|] == events;
  }

  // ----- conservation and order -----

  /** Every packet is either written or counted as dropped; writing keeps the order of arrival. */
  lemma {:induction false} ServeConserves(policy: DropPolicy, events: seq<RecvEvent>)
    ensures var s := Serve(policy, events);
            && s.packets == |s.sent| + s.drops
            && SentPositions(events, s.sent)
            && forall j, k | 0 <= j < k < |s.sent| :: s.sent[j] < s.sent[k]
  {
    hide ShouldDrop;
    if events != [] {
      ServeConserves(policy, events[..|events| - 1]);
    }
  }

  /** Whether the event at `i` is a tag that the loop decides to drop. */
  predicate Dropped(policy: DropPolicy, events: seq<RecvEvent>, i: nat)
    requires i < |events|
  {
    events[i].Received? && ShouldDrop(events[i].tag, Serve(policy, events[..i]).lag, policy)
  }

  /** The written positions are exactly those received and not dropped. */
  lemma {:induction false} SentIsNotDropped(policy: DropPolicy, events: seq<RecvEvent>, i: nat)
    requires i < |events|
    ensures i in Serve(policy, events).sent <==> events[i].Received? && !Dropped(policy, events, i)
  {
    hide ShouldDrop;
    var n := |events| - 1;
    ServeConserves(policy, events[..n]);
    if i < n {
      assert events[..n][..i] == events[..i];
      SentIsNotDropped(policy, events[..n], i);
    }
  }

  // ----- the drop rule, told by the history alone -----

  /** The size of the last lag notice, 0 if there was none. */
  function LastLag(events: seq<RecvEvent>): nat {
    if events == [] then 0
    else match events[|events| - 1]
      case Lagged(n) => n
      case Received(_) => LastLag(events[..|events| - 1])
  }

  /** How many tags that are never dropped arrived since the last lag notice. */
  function KeptSinceLag(events: seq<RecvEvent>): nat {
    if events == [] then 0
    else match events[|events| - 1]
      case Lagged(_) => 0
      case Received(tag) => KeptSinceLag(events[..|events| - 1]) + if IsInterFrame(tag) then 0 else 1
  }

  /** How many tags were written since the last lag notice. */
  function SentSinceLag(policy: DropPolicy, events: seq<RecvEvent>): nat {
    if events == [] then 0
    else
      var n := |events| - 1;
      match events[n]
      case Lagged(_) => 0
      case Received(_) => SentSinceLag(policy, events[..n]) + if Dropped(policy, events, n) then 0 else 1
  }

  function Remaining(n: nat, done: nat): nat {
    if done < n then n - done else 0
  }

  lemma {:induction false} LagFromHistory(events: seq<RecvEvent>)
    ensures var lag := Serve(DEFAULT_POLICY, events).lag;
            && lag == Remaining(LastLag(events), SentSinceLag(DEFAULT_POLICY, events))
            && lag == Remaining(LastLag(events), KeptSinceLag(events))
  {
    hide PacketPriority, IsInterFrame;
    if events != [] {
      LagFromHistory(events[..|events| - 1]);
      if events[|events| - 1].Received? {
        PriorityFromBytes(events[|events| - 1].tag);
      }
    }
  }

  /** After Lagged(n) the tags lost are the inter frames before the n-th write that follows, which is
      also the n-th arrival of any other tag; nothing else is ever dropped. */
  lemma DropRule(events: seq<RecvEvent>, i: nat)
    requires i < |events| && events[i].Received?
    ensures var before := events[..i];
            && (Dropped(DEFAULT_POLICY, events, i) <==>
                  IsInterFrame(events[i].tag) && KeptSinceLag(before) < LastLag(before))
            && (Dropped(DEFAULT_POLICY, events, i) <==>
                  IsInterFrame(events[i].tag) && SentSinceLag(DEFAULT_POLICY, before) < LastLag(before))
  {
    hide PacketPriority, IsInterFrame;
    LagFromHistory(events[..i]);
    PriorityFromBytes(events[i].tag);
  }

  lemma {:induction false} LagUnderPolicy(policy: DropPolicy, events: seq<RecvEvent>)
    ensures Serve(policy, events).lag == Remaining(LastLag(events), SentSinceLag(policy, events))
  {
    hide ShouldDrop;
    if events != [] {
      LagUnderPolicy(policy, events[..|events| - 1]);
    }
  }

  /** Under any policy: inter frames are lost as before; sound, and video of no known kind, only where audio
      may be dropped and more writes than the threshold are still to come. */
  lemma DropRuleUnderPolicy(policy: DropPolicy, events: seq<RecvEvent>, i: nat)
    requires i < |events| && events[i].Received?
    ensures var tag, before := events[i].tag, events[..i];
            var left := LastLag(before) - SentSinceLag(policy, before);
            Dropped(policy, events, i) <==>
              && !(tag.tagType == Script || IsAacHeader(tag) || IsVideoHeader(tag) || IsKeyframe(tag))
              && left > 0
              && (!IsInterFrame(tag) ==> policy.dropAudio && left > policy.mediumThreshold)
  {
    hide PacketPriority, IsInterFrame, IsKeyframe, IsVideoHeader, IsAacHeader;
    LagUnderPolicy(policy, events[..i]);
    PriorityFromBytes(events[i].tag);
  }

  /** Keyframes, sequence headers and metadata survive any lag under any policy. */
  lemma HighIsNeverDropped(policy: DropPolicy, events: seq<RecvEvent>, i: nat)
    requires i < |events| && events[i].Received?
    requires var tag := events[i].tag;
             tag.tagType == Script || IsAacHeader(tag) || IsVideoHeader(tag) || IsKeyframe(tag)
    ensures i in Serve(policy, events).sent
  {
    hide PacketPriority, IsKeyframe, IsVideoHeader, IsAacHeader;
    PriorityFromBytes(events[i].tag);
    SentIsNotDropped(policy, events, i);
  }
}
