/** The selector over whole runs of its tasks: the switch limiter and the score ratchet. */
module SelectorRuns {
  import opened Options
  import opened CascadeSelector
  import opened SelectorTasks

  /** What a turn does to the path and to the switches on record. */
  datatype Effect =
    | Quiet
    | Cools                    // the cooldown check passes
    | Approves                 // so does the last check: one upstream may be left for another
    | Switches(why: Reason)    // the heartbeat task writes the path
    | Overrides                // an emergency switch does
    | Stamps(at: Time)         // the time of the last switch is set
    | Records                  // a switch is added to those of the last five minutes

  function BeatEffect(m: Machine, now: Time): Effect {
    match m.beat
    case ToCool(resp, _) => if CoolingDown(m.s, resp, now) then Quiet else Cools
    case ToCount(resp, next) => if Counted(m, resp, next, now).beat.ToWrite? then Approves else Quiet
    case ToWrite(_, _, why) => Switches(why)
    case ToSet(_, _, at) => Stamps(at)
    case ToRecord(_, _) => Records
    case _ => Quiet
  }

  function JobEffect(m: Machine, task: nat): Effect {
    match JobOf(m, task)
    case Writing(_) => Overrides
    case Dropping => Overrides
    case Setting(at) => Stamps(at)
    case Recording => Records
    case _ => Quiet
  }

  function EffectOf(m: Machine, t: Turn): Effect {
    match t.move
    case Receive(_) => Quiet
    case Beat(_) => BeatEffect(m, t.now)
    case Begin(_, _) => Quiet
    case Work(task, _, _) => if Blocked(m, task) then Quiet else JobEffect(m, task)
  }

  /** The machine with what an observer has written down: all times set as last switch, all switches
      recorded, the voluntary switches by the time they took effect; when the last cooldown check passed, how
      many times were set and how many switches recorded before it and before the approval, and when that was;
      and the voluntary switches in a row since the path was last reset. */
  datatype History = History(m: Machine, stamps: seq<Time>, recorded: seq<Time>, voluntary: seq<Time>,
                             cooledAt: Time, stampsThen: nat, approvedAt: Time, recordedThen: nat,
                             streak: nat, base: real)

  function ScoreOf(path: Option<Path>): real {
    if path.Some? then path.value.score else 0.0
  }

  /** A voluntary switch continues the row if the path it was compared with is still the one it replaces. */
  predicate Continues(m: Machine, why: Reason) {
    why.Voluntary? && m.s.path == Some(why.compared)
  }

  function NextHistory(h: History, t: Turn): History {
    var m' := Next(h.m, t);
    match EffectOf(h.m, t)
    case Quiet => h.(m := m')
    case Cools => h.(m := m', cooledAt := t.now, stampsThen := |h.stamps|)
    case Approves => h.(m := m', approvedAt := t.now, recordedThen := |h.recorded|)
    case Switches(why) =>
      var h' := h.(m := m', voluntary := if why.Voluntary? then h.voluntary + [t.now] else h.voluntary);
      if Continues(h.m, why) then h'.(streak := h.streak + 1) else h'.(streak := 0, base := ScoreOf(m'.s.path))
    case Overrides => h.(m := m', streak := 0, base := ScoreOf(m'.s.path))
    case Stamps(at) => h.(m := m', stamps := h.stamps + [at])
    case Records => h.(m := m', recorded := h.recorded + [t.now])
  }

  function InitialHistory(me: Self): History {
    History(InitialMachine(me), [], [], [], 0, 0, 0, 0, 0, 0.0)
  }

  function RunOf(me: Self, turns: seq<Turn>): History {
    if turns == [] then InitialHistory(me)
    else NextHistory(RunOf(me, turns[..|turns| - 1]), turns[|turns| - 1])
  }

  lemma {:induction false} RunOfMachine(me: Self, turns: seq<Turn>)
    ensures RunOf(me, turns).m == MachineAfter(InitialMachine(me), turns)
  {
    hide Next, EffectOf;
    if turns != [] {
      RunOfMachine(me, turns[..|turns| - 1]);
    }
  }

  ghost predicate Monotone(turns: seq<Turn>) {
    forall i, j | 0 <= i < j < |turns| :: turns[i].now <= turns[j].now
  }

  /** Every response carries the same cooldown and switch limit. */
  ghost predicate FixedPolicy(turns: seq<Turn>, cooldown: nat, limit: nat) {
    forall i | 0 <= i < |turns| && turns[i].move.Receive? :: HasPolicy(turns[i].move.resp, cooldown, limit)
  }

  predicate HasPolicy(resp: MeshResponse, cooldown: nat, limit: nat) {
    Cooldown(resp) == cooldown && MaxSwitches(resp) == limit
  }

  // ----- the effect classification is faithful -----

  predicate WritesAsSaid(e: Effect, s: State, s': State, now: Time, counting: bool) {
    && (s'.path != s.path ==> e.Switches? || e.Overrides?)
    && s'.lastSwitchAt == (if e.Stamps? then Some(e.at) else s.lastSwitchAt)
    && (if e.Records? then s'.switchTimes == s.switchTimes + [now]
        else s'.switchTimes == s.switchTimes
             || (counting && s'.switchTimes == Retain(s.switchTimes, now - WINDOW)))
  }

  lemma BeatIsFaithful(m: Machine, now: Time, pick: Pick)
    ensures WritesAsSaid(BeatEffect(m, now), m.s, BeatStep(m, now, pick).s, now, m.beat.ToCount?)
  {
    hide Picked, Retain;
  }

  lemma JobIsFaithful(m: Machine, task: nat, now: Time, rtt: nat, pick: Pick)
    ensures WritesAsSaid(JobEffect(m, task), m.s, JobStep(m, task, now, rtt, pick).s, now, false)
  {
    hide Picked, Retain;
  }

  /** A turn writes path, last switch time and switch times only as its effect says. */
  lemma EffectIsFaithful(m: Machine, t: Turn)
    ensures WritesAsSaid(EffectOf(m, t), m.s, Next(m, t).s, t.now, m.beat.ToCount?)
  {
    hide BeatStep, JobStep, BeatEffect, JobEffect, Retain;
    match t.move
    case Receive(_) =>
    case Beat(pick) =>
      BeatIsFaithful(m, t.now, pick);
    case Begin(_, _) =>
    case Work(task, rtt, pick) =>
      JobIsFaithful(m, task, t.now, rtt, pick);
  }

  /** What the effects tell about the heartbeat task. */
  lemma BeatFollows(m: Machine, t: Turn)
    ensures var e, b, b' := EffectOf(m, t), m.beat, Next(m, t).beat;
            && (t.move.Receive? && b.Idle? ==> b' == ToDeepen(t.move.resp))
            && (t.move.Receive? && !b.Idle? ==> b' == b)
            && (t.move.Begin? || t.move.Work? ==> b' == b)
            && (e.Approves? ==> b.ToCount? && b'.ToWrite? && b'.why.Voluntary?)
            && (e.Switches? ==> b.ToWrite? && e.why == b.why && b'.ToStamp? && b'.why == b.why)
            && (e.Cools? ==> b.ToCool? && b'.ToCount?)
  {
    hide Picked, Retain;
  }

  // ----- counting -----

  function CountAfter(times: seq<Time>, x: Time): nat {
    if times == [] then 0
    else CountAfter(times[..|times| - 1], x) + if times[|times| - 1] > x then 1 else 0
  }

  /** How many of the times lie in the half-open window (from, from + length]. */
  function CountIn(times: seq<Time>, from: Time, length: Time): nat {
    if times == [] then 0
    else
      var last := times[|times| - 1];
      CountIn(times[..|times| - 1], from, length) + if from < last <= from + length then 1 else 0
  }

  lemma {:induction false} CountInAtMostAfter(times: seq<Time>, from: Time, length: Time)
    ensures CountIn(times, from, length) <= CountAfter(times, from)
  {
    if times != [] {
      CountInAtMostAfter(times[..|times| - 1], from, length);
    }
  }

  lemma {:induction false} CountAfterFalls(times: seq<Time>, x: Time, y: Time)
    requires x <= y
    ensures CountAfter(times, y) <= CountAfter(times, x)
  {
    if times != [] {
      CountAfterFalls(times[..|times| - 1], x, y);
    }
  }

  lemma {:induction false} CountAfterAppend(a: seq<Time>, b: seq<Time>, x: Time)
    ensures CountAfter(a + b, x) == CountAfter(a, x) + CountAfter(b, x)
  {
    if b == [] {
      assert a + b == a;
    } else {
      CountAfterAppend(a, b[..|b| - 1], x);
      assert (a + b)[..|a + b| - 1] == a + b[..|b| - 1];
    }
  }

  lemma {:induction false} CountAfterNone(times: seq<Time>, x: Time)
    requires forall i | 0 <= i < |times| :: times[i] <= x
    ensures CountAfter(times, x) == 0
  {
    if times != [] {
      CountAfterNone(times[..|times| - 1], x);
    }
  }

  lemma {:induction false} CountAfterAll(times: seq<Time>, x: Time)
    requires forall i | 0 <= i < |times| :: times[i] > x
    ensures CountAfter(times, x) == |times|
  {
    if times != [] {
      CountAfterAll(times[..|times| - 1], x);
    }
  }

  lemma CountAfterSnoc(times: seq<Time>, t: Time, x: Time)
    ensures CountAfter(times + [t], x) == CountAfter(times, x) + if t > x then 1 else 0
  {
    assert (times + [t])[..|times|] == times;
  }

  // ----- pruning -----

  ghost predicate Sorted(times: seq<Time>) {
    forall i, j | 0 <= i < j < |times| :: times[i] <= times[j]
  }

  /** Of a sorted list, pruning keeps exactly a suffix: the times after the cutoff. */
  lemma {:induction false} RetainIsSuffix(times: seq<Time>, cutoff: Time)
    requires Sorted(times)
    ensures var r := Retain(times, cutoff);
            && |r| <= |times|
            && r == times[|times| - |r|..]
            && (forall i | 0 <= i < |times| - |r| :: times[i] <= cutoff)
            && forall i | 0 <= i < |r| :: r[i] > cutoff
  {
    hide Retain;
    if times == [] {
      RetainFirst(times, cutoff);
    } else if times[0] > cutoff {
      RetainAll(times, cutoff);
      assert times[0..] == times;
    } else {
      RetainFirst(times, cutoff);
      RetainIsSuffix(times[1..], cutoff);
      var r := Retain(times, cutoff);
      assert times[1..][|times| - 1 - |r|..] == times[|times| - |r|..];
      forall i | 0 <= i < |times| - |r| ensures times[i] <= cutoff {
        if i > 0 {
          assert times[1..][i - 1] == times[i];
        }
      }
    }
  }

  lemma RetainFirst(times: seq<Time>, cutoff: Time)
    ensures times == [] ==> Retain(times, cutoff) == []
    ensures times != [] && times[0] <= cutoff ==> Retain(times, cutoff) == Retain(times[1..], cutoff)
  {
  }

  lemma {:induction false} RetainAll(times: seq<Time>, cutoff: Time)
    requires forall i | 0 <= i < |times| :: times[i] > cutoff
    ensures Retain(times, cutoff) == times
  {
    if times != [] {
      RetainAll(times[1..], cutoff);
    }
  }

  // ----- the limiter -----

  /** The kept switch times are the recorded ones less some that are too old to matter. */
  ghost predicate Kept(kept: seq<Time>, recorded: seq<Time>, now: Time) {
    && |kept| <= |recorded|
    && kept == recorded[|recorded| - |kept|..]
    && forall i | 0 <= i < |recorded| - |kept| :: recorded[i] <= now - WINDOW
  }

  lemma SuffixSorted(times: seq<Time>, n: nat)
    requires Sorted(times) && n <= |times|
    ensures Sorted(times[n..])
  {
    assert forall i | 0 <= i < |times| - n :: times[n..][i] == times[n + i];
  }

  lemma SuffixCounts(times: seq<Time>, n: nat, x: Time)
    requires n <= |times|
    requires forall i | 0 <= i < n :: times[i] <= x
    ensures CountAfter(times, x) == CountAfter(times[n..], x)
  {
    hide CountAfter;
    assert times == times[..n] + times[n..];
    CountAfterAppend(times[..n], times[n..], x);
    CountAfterNone(times[..n], x);
  }

  /** Pruning leaves exactly the recorded switches of the last 300 seconds. */
  lemma RetainCounts(kept: seq<Time>, recorded: seq<Time>, now: Time)
    requires Sorted(recorded) && Kept(kept, recorded, now)
    ensures |Retain(kept, now - WINDOW)| == CountAfter(recorded, now - WINDOW)
    ensures Kept(Retain(kept, now - WINDOW), recorded, now)
  {
    hide CountAfter, Retain;
    var cutoff, gone := now - WINDOW, |recorded| - |kept|;
    SuffixSorted(recorded, gone);
    RetainIsSuffix(kept, cutoff);
    var r := Retain(kept, cutoff);
    SuffixCounts(recorded, gone, cutoff);
    SuffixCounts(kept, |kept| - |r|, cutoff);
    CountAfterAll(r, cutoff);
    assert recorded[|recorded| - |r|..] == kept[|kept| - |r|..];
    forall i | gone <= i < |recorded| - |r| ensures recorded[i] <= cutoff {
      assert recorded[i] == kept[i - gone];
    }
  }

  /** Of the times after any moment, no more were voluntary switches than were recorded, but for one that is
      not yet recorded. */
  ghost predicate Outnumbered(voluntary: seq<Time>, recorded: seq<Time>, pending: bool) {
    forall x :: CountAfter(voluntary, x) <= CountAfter(recorded, x) + if pending then 1 else 0
  }

  ghost predicate WithinLimit(voluntary: seq<Time>, limit: nat) {
    forall from :: CountIn(voluntary, from, WINDOW) <= limit
  }

  ghost predicate Before(times: seq<Time>, now: Time) {
    forall i | 0 <= i < |times| :: times[i] <= now
  }

  ghost predicate LimiterFacts(kept: seq<Time>, recorded: seq<Time>, voluntary: seq<Time>, pending: bool,
                               now: Time, limit: nat)
  {
    && Sorted(recorded) && Before(recorded, now) && Before(voluntary, now)
    && Kept(kept, recorded, now)
    && Outnumbered(voluntary, recorded, pending)
    && WithinLimit(voluntary, limit)
  }

  /** A voluntary switch that took effect and is not yet recorded. */
  predicate Pending(beat: Phase) {
    (beat.ToStamp? || beat.ToSet? || beat.ToRecord?) && beat.why.Voluntary?
  }

  predicate Approved(beat: Phase) {
    beat.ToWrite? && beat.why.Voluntary?
  }

  ghost predicate LimiterInv(h: History, now: Time, limit: nat) {
    && LimiterFacts(h.m.s.switchTimes, h.recorded, h.voluntary, Pending(h.m.beat), now, limit)
    && (Approved(h.m.beat) ==> h.approvedAt <= now && CountAfter(h.voluntary, h.approvedAt - WINDOW) < limit)
  }

  lemma FactsPruned(kept: seq<Time>, recorded: seq<Time>, voluntary: seq<Time>, pending: bool, now: Time, limit: nat)
    requires LimiterFacts(kept, recorded, voluntary, pending, now, limit)
    ensures LimiterFacts(Retain(kept, now - WINDOW), recorded, voluntary, pending, now, limit)
  {
    hide Kept, Sorted, Outnumbered, WithinLimit, Before;
    RetainCounts(kept, recorded, now);
  }

  /** One more switch on record settles a voluntary one that was pending. */
  lemma FactsRecorded(kept: seq<Time>, recorded: seq<Time>, voluntary: seq<Time>, pending: bool, settled: bool,
                      now: Time, limit: nat)
    requires LimiterFacts(kept, recorded, voluntary, pending, now, limit)
    ensures LimiterFacts(kept + [now], recorded + [now], voluntary, pending && !settled, now, limit)
  {
    hide Outnumbered, WithinLimit;
    var longer := recorded + [now];
    assert longer[|longer| - |kept| - 1..] == recorded[|recorded| - |kept|..] + [now];
    StillOutnumbered(voluntary, recorded, pending, settled, now);
  }

  lemma StillOutnumbered(voluntary: seq<Time>, recorded: seq<Time>, pending: bool, settled: bool, now: Time)
    requires Outnumbered(voluntary, recorded, pending) && Before(voluntary, now)
    ensures Outnumbered(voluntary, recorded + [now], pending && !settled)
  {
    hide CountAfter;
    forall x
      ensures CountAfter(voluntary, x) <= CountAfter(recorded + [now], x) + if pending && !settled then 1 else 0
    {
      CountAfterSnoc(recorded, now, x);
      if now <= x {
        CountAfterNone(voluntary, x);
      }
    }
  }

  /** A voluntary switch that few enough switches preceded at its approval, whenever it takes effect. */
  lemma FactsVoluntary(kept: seq<Time>, recorded: seq<Time>, voluntary: seq<Time>, approvedAt: Time,
                       now: Time, limit: nat)
    requires LimiterFacts(kept, recorded, voluntary, false, now, limit)
    requires approvedAt <= now && CountAfter(voluntary, approvedAt - WINDOW) < limit
    ensures LimiterFacts(kept, recorded, voluntary + [now], true, now, limit)
  {
    hide Kept, Sorted, CountAfter;
    forall x ensures CountAfter(voluntary + [now], x) <= CountAfter(recorded, x) + 1 {
      CountAfterSnoc(voluntary, now, x);
    }
    forall from ensures CountIn(voluntary + [now], from, WINDOW) <= limit {
      assert (voluntary + [now])[..|voluntary|] == voluntary;
      if from < now <= from + WINDOW {
        CountInAtMostAfter(voluntary, from, WINDOW);
        CountAfterFalls(voluntary, approvedAt - WINDOW, from);
      }
    }
  }

  lemma FactsLater(kept: seq<Time>, recorded: seq<Time>, voluntary: seq<Time>, pending: bool,
                   now: Time, later: Time, limit: nat)
    requires LimiterFacts(kept, recorded, voluntary, pending, now, limit) && now <= later
    ensures LimiterFacts(kept, recorded, voluntary, pending, later, limit)
  {
    hide Sorted, Outnumbered, WithinLimit;
  }

  /** At the approval fewer than the limit were recorded in the 300 seconds before. */
  lemma ApprovalIsLimited(h: History, t: Turn, limit: nat)
    requires LimiterInv(h, t.now, limit) && EffectOf(h.m, t).Approves?
    requires MaxSwitches(h.m.beat.resp) == limit
    ensures CountAfter(h.recorded, t.now - 300 * SECOND) < limit
    ensures CountAfter(h.voluntary, t.now - 300 * SECOND) < limit
  {
    hide CountAfter, Retain, Sorted, WithinLimit, Kept;
    RetainCounts(h.m.s.switchTimes, h.recorded, t.now);
    assert !Pending(h.m.beat);
  }

  lemma QuotientReaches(gain: real, d: real, share: real)
    requires d > 0.0
    ensures gain / d >= share <==> gain >= share * d
  {
    var q := gain / d;
    assert q * d == gain;
    if q >= share {
      assert (q - share) * d >= 0.0;
    } else {
      assert (share - q) * d > 0.0;
    }
    assert (q - share) * d == q * d - share * d;
    assert (share - q) * d == share * d - q * d;
  }

  /** The last check approves exactly if fewer than the limit were recorded in the 300 seconds before and the
      new path scores better by the policy's percentage, 15% without a policy, of max(score, 0.01). */
  lemma ApprovalIsExact(h: History, t: Turn, limit: nat)
    requires LimiterInv(h, t.now, limit) && h.m.beat.ToCount? && t.move.Beat?
    requires MaxSwitches(h.m.beat.resp) == limit
    requires h.m.s.path.Some? && h.m.beat.next.Some?
    ensures var cur, best, policy := h.m.s.path.value.score, h.m.beat.next.value.score, h.m.beat.resp.policy;
            var percent := if policy.Some? then policy.value.minScoreImprovement else 15;
            EffectOf(h.m, t).Approves?
            <==> CountAfter(h.recorded, t.now - 300 * SECOND) < limit
                 && best >= cur + percent as real / 100.0 * if cur < 0.01 then 0.01 else cur
  {
    hide CountAfter, Retain, Sorted, WithinLimit, Kept;
    RetainCounts(h.m.s.switchTimes, h.recorded, t.now);
    var cur, best := h.m.s.path.value.score, h.m.beat.next.value.score;
    QuotientReaches(best - cur, Max(cur, 0.01), MinImprovement(h.m.beat.resp));
  }

  /** The policy of the response that the heartbeat task handles. */
  predicate BeatHasPolicy(beat: Phase, cooldown: nat, limit: nat) {
    !beat.Idle? ==> HasPolicy(beat.resp, cooldown, limit)
  }

  lemma PolicyStep(m: Machine, t: Turn, cooldown: nat, limit: nat)
    requires BeatHasPolicy(m.beat, cooldown, limit)
    requires t.move.Receive? ==> HasPolicy(t.move.resp, cooldown, limit)
    ensures BeatHasPolicy(Next(m, t).beat, cooldown, limit)
  {
    hide Picked, HasPolicy, Retain;
  }

  lemma LimiterStep(h: History, t: Turn, cooldown: nat, limit: nat)
    requires LimiterInv(h, t.now, limit) && BeatHasPolicy(h.m.beat, cooldown, limit)
    ensures LimiterInv(NextHistory(h, t), t.now, limit)
  {
    hide Next, EffectOf, Retain, LimiterFacts, CountAfter;
    var e, now, beat, beat' := EffectOf(h.m, t), t.now, h.m.beat, Next(h.m, t).beat;
    var kept := h.m.s.switchTimes;
    EffectIsFaithful(h.m, t);
    BeatFollows(h.m, t);
    PendingFollows(h.m, t);
    FactsPruned(kept, h.recorded, h.voluntary, Pending(beat), now, limit);
    match e
    case Quiet =>
    case Cools =>
    case Approves =>
      ApprovalIsLimited(h, t, limit);
    case Switches(why) =>
      if why.Voluntary? {
        FactsVoluntary(kept, h.recorded, h.voluntary, h.approvedAt, now, limit);
      }
    case Overrides =>
    case Stamps(_) =>
    case Records =>
      FactsRecorded(kept, h.recorded, h.voluntary, Pending(beat), Pending(beat) && !Pending(beat'), now, limit);
  }

  /** What is pending or approved changes only with the steps that make it so. */
  lemma PendingFollows(m: Machine, t: Turn)
    ensures var e, b, b' := EffectOf(m, t), m.beat, Next(m, t).beat;
            && (Approved(b') && !e.Approves? ==> Approved(b) && !e.Switches?)
            && (Pending(b') && !Pending(b) ==> e.Switches? && e.why.Voluntary?)
            && (Pending(b) && !Pending(b') ==> e.Records?)
            && (e.Switches? && e.why.Voluntary? ==> Pending(b') && Approved(b))
            && (m.beat.ToCount? ==> !Pending(b) && !Approved(b))
  {
    hide Picked, Retain;
  }

  lemma {:induction false} RunKeepsLimiter(me: Self, turns: seq<Turn>, cooldown: nat, limit: nat, now: Time)
    requires Monotone(turns) && FixedPolicy(turns, cooldown, limit)
    requires turns != [] ==> turns[|turns| - 1].now <= now
    ensures LimiterInv(RunOf(me, turns), now, limit) && BeatHasPolicy(RunOf(me, turns).m.beat, cooldown, limit)
  {
    hide LimiterInv, NextHistory, BeatHasPolicy, HasPolicy;
    if turns == [] {
      InitialLimiter(me, now, limit, cooldown);
    } else {
      var t, h := turns[|turns| - 1], RunOf(me, turns[..|turns| - 1]);
      RunKeepsLimiter(me, turns[..|turns| - 1], cooldown, limit, t.now);
      LimiterStep(h, t, cooldown, limit);
      PolicyStep(h.m, t, cooldown, limit);
      NextMachine(h, t);
      LimiterLater(NextHistory(h, t), t.now, now, limit);
    }
  }

  lemma NextMachine(h: History, t: Turn)
    ensures NextHistory(h, t).m == Next(h.m, t)
  {
    hide Next;
  }

  lemma LimiterLater(h: History, now: Time, later: Time, limit: nat)
    requires LimiterInv(h, now, limit) && now <= later
    ensures LimiterInv(h, later, limit)
  {
    hide LimiterFacts, CountAfter;
    FactsLater(h.m.s.switchTimes, h.recorded, h.voluntary, Pending(h.m.beat), now, later, limit);
  }

  lemma InitialLimiter(me: Self, now: Time, limit: nat, cooldown: nat)
    ensures LimiterInv(InitialHistory(me), now, limit)
    ensures BeatHasPolicy(InitialHistory(me).m.beat, cooldown, limit)
  {
  }

  /** Whatever forced, emergency and origin transitions happen in between, and wherever they fall between
      the steps of an update: no 300-second window holds more voluntary switches than the limit. */
  lemma WindowLimit(me: Self, turns: seq<Turn>, cooldown: nat, limit: nat, from: Time)
    requires Monotone(turns) && FixedPolicy(turns, cooldown, limit)
    ensures CountIn(RunOf(me, turns).voluntary, from, 300 * SECOND) <= limit
  {
    RunKeepsLimiter(me, turns, cooldown, limit, if turns == [] then 0 else turns[|turns| - 1].now);
  }

  // ----- spacing -----

  /** The last of the times set, if there is one, lies a cooldown before `at`. */
  predicate LastBack(stamps: seq<Time>, at: Time, cooldown: nat) {
    stamps != [] ==> stamps[|stamps| - 1] <= at - cooldown * SECOND
  }

  ghost predicate CooledBack(stamps: seq<Time>, n: nat, at: Time, now: Time, cooldown: nat) {
    n <= |stamps| && at <= now && LastBack(stamps[..n], at, cooldown)
  }

  /** Of the switches recorded before the approval fewer than the limit lie in the 300 seconds before it. */
  ghost predicate LimitedBack(recorded: seq<Time>, n: nat, at: Time, now: Time, limit: nat) {
    n <= |recorded| && at <= now && CountAfter(recorded[..n], at - WINDOW) < limit
  }

  predicate IsLast(last: Option<Time>, stamps: seq<Time>) {
    last == if stamps == [] then None else Some(stamps[|stamps| - 1])
  }

  ghost predicate SpacingInv(h: History, now: Time, cooldown: nat, limit: nat) {
    && IsLast(h.m.s.lastSwitchAt, h.stamps)
    && (h.m.beat.ToCount? || Approved(h.m.beat) ==> CooledBack(h.stamps, h.stampsThen, h.cooledAt, now, cooldown))
    && (Approved(h.m.beat) ==> LimitedBack(h.recorded, h.recordedThen, h.approvedAt, now, limit))
  }

  /** The cooldown check passes exactly when the last switch time set so far lies a cooldown back. */
  lemma CoolingIsExact(h: History, t: Turn, cooldown: nat, limit: nat)
    requires SpacingInv(h, t.now, cooldown, limit) && BeatHasPolicy(h.m.beat, cooldown, limit)
    requires h.m.beat.ToCool? && t.move.Beat?
    ensures EffectOf(h.m, t).Cools? <==> LastBack(h.stamps, t.now, cooldown)
  {
    hide CountAfter;
  }

  lemma BackGrows(stamps: seq<Time>, n: nat, at: Time, now: Time, cooldown: nat, more: Time)
    requires CooledBack(stamps, n, at, now, cooldown)
    ensures CooledBack(stamps + [more], n, at, now, cooldown)
  {
    assert (stamps + [more])[..n] == stamps[..n];
  }

  lemma LimitedGrows(recorded: seq<Time>, n: nat, at: Time, now: Time, limit: nat)
    requires LimitedBack(recorded, n, at, now, limit)
    ensures LimitedBack(recorded + [now], n, at, now, limit)
  {
    assert (recorded + [now])[..n] == recorded[..n];
  }

  lemma SpacingStep(h: History, t: Turn, cooldown: nat, limit: nat)
    requires SpacingInv(h, t.now, cooldown, limit) && LimiterInv(h, t.now, limit)
    requires BeatHasPolicy(h.m.beat, cooldown, limit)
    ensures SpacingInv(NextHistory(h, t), t.now, cooldown, limit)
  {
    hide Next, EffectOf, LimiterInv, CooledBack, LimitedBack;
    EffectIsFaithful(h.m, t);
    BeatFollows(h.m, t);
    WaitingFollows(h.m, t);
    var now := t.now;
    match EffectOf(h.m, t)
    case Quiet =>
    case Cools =>
      CoolingIsExact(h, t, cooldown, limit);
      assert CooledBack(h.stamps, |h.stamps|, now, now, cooldown) by { AllBack(h.stamps, now, cooldown); }
    case Approves =>
      ApprovalIsLimited(h, t, limit);
      assert LimitedBack(h.recorded, |h.recorded|, now, now, limit) by { AllLimited(h.recorded, now, limit); }
    case Switches(_) =>
    case Overrides =>
    case Stamps(at) =>
      if h.m.beat.ToCount? || Approved(h.m.beat) {
        BackGrows(h.stamps, h.stampsThen, h.cooledAt, now, cooldown, at);
      }
    case Records =>
      if Approved(h.m.beat) {
        LimitedGrows(h.recorded, h.recordedThen, h.approvedAt, now, limit);
      }
  }

  lemma AllBack(stamps: seq<Time>, now: Time, cooldown: nat)
    requires LastBack(stamps, now, cooldown)
    ensures CooledBack(stamps, |stamps|, now, now, cooldown)
  {
    assert stamps[..|stamps|] == stamps;
  }

  lemma AllLimited(recorded: seq<Time>, now: Time, limit: nat)
    requires CountAfter(recorded, now - WINDOW) < limit
    ensures LimitedBack(recorded, |recorded|, now, now, limit)
  {
    assert recorded[..|recorded|] == recorded;
  }

  lemma WaitingFollows(m: Machine, t: Turn)
    ensures var e, b, b' := EffectOf(m, t), m.beat, Next(m, t).beat;
            && (Approved(b') && !e.Approves? ==> Approved(b))
            && (b'.ToCount? && !e.Cools? ==> b.ToCount?)
            && (e.Cools? ==> b.ToCool? && t.move.Beat?)
            && (e.Approves? ==> b.ToCount?)
  {
    hide Picked, Retain;
  }

  lemma {:induction false} RunKeepsSpacing(me: Self, turns: seq<Turn>, cooldown: nat, limit: nat, now: Time)
    requires Monotone(turns) && FixedPolicy(turns, cooldown, limit)
    requires turns != [] ==> turns[|turns| - 1].now <= now
    ensures SpacingInv(RunOf(me, turns), now, cooldown, limit)
  {
    hide SpacingInv, NextHistory, BeatHasPolicy, HasPolicy, LimiterInv;
    if turns == [] {
      InitialSpacing(me, now, cooldown, limit);
    } else {
      var t, h := turns[|turns| - 1], RunOf(me, turns[..|turns| - 1]);
      RunKeepsSpacing(me, turns[..|turns| - 1], cooldown, limit, t.now);
      RunKeepsLimiter(me, turns[..|turns| - 1], cooldown, limit, t.now);
      SpacingStep(h, t, cooldown, limit);
      SpacingLater(NextHistory(h, t), t.now, now, cooldown, limit);
    }
  }

  lemma InitialSpacing(me: Self, now: Time, cooldown: nat, limit: nat)
    ensures SpacingInv(InitialHistory(me), now, cooldown, limit)
  {
  }

  lemma SpacingLater(h: History, now: Time, later: Time, cooldown: nat, limit: nat)
    requires SpacingInv(h, now, cooldown, limit) && now <= later
    ensures SpacingInv(h, later, cooldown, limit)
  {
    hide CountAfter;
  }

  lemma SortedLast(stamps: seq<Time>, at: Time, cooldown: nat)
    requires Sorted(stamps)
    ensures LastBack(stamps, at, cooldown) <==> Before(stamps, at - cooldown * SECOND)
  {
  }

  /** When a voluntary switch takes effect, the last time set before its cooldown check lies a cooldown back;
      so the last time set lies a cooldown back if and only if that of the switches made since does. Of the
      switches recorded before its approval fewer than the limit lie in the last 300 seconds. */
  lemma SwitchSpacing(me: Self, turns: seq<Turn>, t: Turn, cooldown: nat, limit: nat)
    requires Monotone(turns + [t]) && FixedPolicy(turns + [t], cooldown, limit)
    requires EffectOf(RunOf(me, turns).m, t).Switches? && EffectOf(RunOf(me, turns).m, t).why.Voluntary?
    ensures var h := RunOf(me, turns);
            && h.stampsThen <= |h.stamps| && h.recordedThen <= |h.recorded|
            && LastBack(h.stamps[..h.stampsThen], t.now, cooldown)
            && (LastBack(h.stamps, t.now, cooldown) <==> LastBack(h.stamps[h.stampsThen..], t.now, cooldown))
            && CountAfter(h.recorded[..h.recordedThen], t.now - 300 * SECOND) < limit
            && CountAfter(h.recorded, t.now - 300 * SECOND)
               == CountAfter(h.recorded[..h.recordedThen], t.now - 300 * SECOND)
                  + CountAfter(h.recorded[h.recordedThen..], t.now - 300 * SECOND)
  {
    hide RunOf, EffectOf, CountAfter;
    assert (turns + [t])[|turns|] == t;
    assert forall i | 0 <= i < |turns| :: turns[i] == (turns + [t])[i];
    RunKeepsSpacing(me, turns, cooldown, limit, t.now);
    var h := RunOf(me, turns);
    PendingFollows(h.m, t);
    CountAfterFalls(h.recorded[..h.recordedThen], h.approvedAt - WINDOW, t.now - WINDOW);
    assert h.recorded == h.recorded[..h.recordedThen] + h.recorded[h.recordedThen..];
    CountAfterAppend(h.recorded[..h.recordedThen], h.recorded[h.recordedThen..], t.now - WINDOW);
    assert h.stamps == h.stamps[..h.stampsThen] + h.stamps[h.stampsThen..];
  }

  // ----- when the times set are in order -----

  /** The task (None: the heartbeat task) that has read the clock for a switch and not yet set the time. */
  predicate HasRead(m: Machine, who: Option<nat>) {
    match who
    case None => m.beat.ToSet?
    case Some(task) => JobOf(m, task).Setting?
  }

  function ReadAt(m: Machine, who: Option<nat>): Time
    requires HasRead(m, who)
  {
    match who
    case None => m.beat.at
    case Some(task) => JobOf(m, task).at
  }

  ghost predicate OneReading(m: Machine) {
    forall who, other | HasRead(m, who) && HasRead(m, other) :: who == other
  }

  /** The times set are in order, and none is later than a reading still to be set. */
  ghost predicate OrderInv(h: History, now: Time) {
    && Sorted(h.stamps) && Before(h.stamps, now)
    && forall who | HasRead(h.m, who) :: ReadAt(h.m, who) <= now && Before(h.stamps, ReadAt(h.m, who))
  }

  /** A reading is taken at this moment, or was there before; setting one ends it. */
  lemma ReadingFollows(m: Machine, t: Turn, who: Option<nat>)
    requires HasRead(Next(m, t), who)
    ensures if HasRead(m, who) then ReadAt(Next(m, t), who) == ReadAt(m, who)
            else ReadAt(Next(m, t), who) == t.now && !EffectOf(m, t).Stamps?
  {
    hide Picked, Retain, Unreachable, CoolingDown;
  }

  lemma SetByReader(m: Machine, t: Turn) returns (who: Option<nat>)
    requires EffectOf(m, t).Stamps?
    ensures HasRead(m, who) && ReadAt(m, who) == EffectOf(m, t).at && !HasRead(Next(m, t), who)
  {
    hide Picked, Retain, Unreachable, CoolingDown;
    who := if t.move.Beat? then None else Some(t.move.task);
  }

  lemma OrderStep(h: History, t: Turn)
    requires OrderInv(h, t.now) && OneReading(h.m)
    ensures OrderInv(NextHistory(h, t), t.now)
  {
    hide Next, EffectOf, HasRead;
    var h' := NextHistory(h, t);
    if EffectOf(h.m, t).Stamps? {
      var setter := SetByReader(h.m, t);
      forall who | HasRead(h'.m, who) ensures false {
        ReadingFollows(h.m, t, who);
      }
    } else {
      forall who | HasRead(h'.m, who)
        ensures ReadAt(h'.m, who) <= t.now && Before(h'.stamps, ReadAt(h'.m, who))
      {
        ReadingFollows(h.m, t, who);
      }
    }
  }

  lemma OrderLater(h: History, now: Time, later: Time)
    requires OrderInv(h, now) && now <= later
    ensures OrderInv(h, later)
  {
  }

  /** While no two tasks have read the clock for a switch at once, the times are set in order. */
  lemma {:induction false} StampsInOrder(me: Self, turns: seq<Turn>, now: Time)
    requires Monotone(turns) && (turns != [] ==> turns[|turns| - 1].now <= now)
    requires forall k | 0 <= k < |turns| :: OneReading(RunOf(me, turns[..k]).m)
    ensures OrderInv(RunOf(me, turns), now)
  {
    hide OrderInv, NextHistory, OneReading;
    var n := |turns| - 1;
    if turns == [] {
      InitialOrder(me, now);
    } else {
      assert forall k | 0 <= k < n :: turns[..n][..k] == turns[..k];
      StampsInOrder(me, turns[..n], turns[n].now);
      OrderStep(RunOf(me, turns[..n]), turns[n]);
      OrderLater(RunOf(me, turns), turns[n].now, now);
    }
  }

  lemma InitialOrder(me: Self, now: Time)
    ensures OrderInv(InitialHistory(me), now)
  {
  }

  /** In that case every time set before the cooldown check lies a cooldown back when a voluntary switch takes
      effect; so all times set do if and only if those set since do. */
  lemma OrderedSpacing(me: Self, turns: seq<Turn>, t: Turn, cooldown: nat, limit: nat)
    requires Monotone(turns + [t]) && FixedPolicy(turns + [t], cooldown, limit)
    requires forall k | 0 <= k < |turns| :: OneReading(RunOf(me, turns[..k]).m)
    requires EffectOf(RunOf(me, turns).m, t).Switches? && EffectOf(RunOf(me, turns).m, t).why.Voluntary?
    ensures var h := RunOf(me, turns);
            && h.stampsThen <= |h.stamps|
            && Before(h.stamps[..h.stampsThen], t.now - cooldown * SECOND)
            && (Before(h.stamps, t.now - cooldown * SECOND)
                <==> Before(h.stamps[h.stampsThen..], t.now - cooldown * SECOND))
  {
    hide RunOf, EffectOf, CountAfter, OneReading, HasRead, FixedPolicy;
    SwitchSpacing(me, turns, t, cooldown, limit);
    assert (turns + [t])[|turns|] == t;
    assert forall i | 0 <= i < |turns| :: turns[i] == (turns + [t])[i];
    StampsInOrder(me, turns, t.now);
    var h := RunOf(me, turns);
    assert Sorted(h.stamps[..h.stampsThen]);
    SortedLast(h.stamps[..h.stampsThen], t.now, cooldown);
    assert h.stamps == h.stamps[..h.stampsThen] + h.stamps[h.stampsThen..];
  }

  // ----- the ratchet -----

  const TOP_SCORE := 1.18

  ghost predicate BoundedCandidate(c: Candidate) {
    c.scoreHint <= 100.0 && (c.maxChildren > 0 ==> c.currentChildren >= 0)
  }

  /** What the controller guarantees of a response: hints of at most 100, no negative child counts,
      and the default improvement threshold. */
  ghost predicate BoundedResponse(resp: MeshResponse) {
    && (forall i | 0 <= i < |resp.candidates| :: BoundedCandidate(resp.candidates[i]))
    && MinImprovement(resp) == 0.15
  }

  ghost predicate BoundedTurns(turns: seq<Turn>) {
    forall i | 0 <= i < |turns| && turns[i].move.Receive? :: BoundedResponse(turns[i].move.resp)
  }

  lemma ChildShare(current: int, most: int)
    requires most > 0 && current >= 0
    ensures 0.5 + 0.5 * (1.0 - current as real / most as real) <= 1.0
  {
    assert current as real / most as real >= 0.0;
  }

  lemma ScoreBound(me: Self, c: Candidate, rtt: Option<nat>)
    requires BoundedCandidate(c)
    ensures FinalScore(me, c, rtt) <= TOP_SCORE
  {
    if c.maxChildren > 0 {
      ChildShare(c.currentChildren, c.maxChildren);
    }
    assert LocalScore(me, c) <= 1.1 * 1.15 * 1.05;
  }

  /** The least score after `n` voluntary switches in a row from score `b`. */
  function Climb(b: real, n: nat): real {
    if n == 0 then b else Climb(b, n - 1) + 0.15 * Max(Climb(b, n - 1), 0.01)
  }

  lemma {:induction false} ClimbAdds(b: real, m: nat, n: nat)
    ensures Climb(b, m + n) == Climb(Climb(b, m), n)
  {
    if n > 0 {
      ClimbAdds(b, m, n - 1);
    }
  }

  lemma {:induction false} ClimbAtLeastLinear(b: real, n: nat)
    ensures Climb(b, n) >= b + 0.0015 * n as real
  {
    if n > 0 {
      ClimbAtLeastLinear(b, n - 1);
    }
  }

  lemma FiveStepsDouble(b: real)
    requires b >= 0.01
    ensures Climb(b, 5) >= 2.0 * b
  {
    assert Climb(b, 1) == 1.15 * b;
    assert Climb(b, 2) == 1.15 * 1.15 * b;
    assert Climb(b, 3) == 1.15 * 1.15 * 1.15 * b;
    assert Climb(b, 4) == 1.15 * 1.15 * 1.15 * 1.15 * b;
  }

  function Doubled(b: real, n: nat): real {
    if n == 0 then b else 2.0 * Doubled(b, n - 1)
  }

  lemma {:induction false} FivesDouble(b: real, n: nat)
    requires b >= 0.01
    ensures Climb(b, 5 * n) >= Doubled(b, n) >= 0.01
  {
    if n > 0 {
      FivesDouble(b, n - 1);
      ClimbAdds(b, 5 * (n - 1), 5);
      FiveStepsDouble(Climb(b, 5 * (n - 1)));
    }
  }

  /** From any score that is not negative, 42 voluntary switches in a row pass every possible score. */
  lemma ClimbPassesTop(b: real)
    requires b >= 0.0
    ensures Climb(b, 42) > TOP_SCORE
  {
    ClimbAtLeastLinear(b, 7);
    var c := Climb(b, 7);
    FivesDouble(c, 7);
    assert Doubled(c, 7) == 128.0 * c by {
      assert Doubled(c, 0) == c;
      assert Doubled(c, 1) == 2.0 * c;
      assert Doubled(c, 2) == 4.0 * c;
      assert Doubled(c, 3) == 8.0 * c;
      assert Doubled(c, 4) == 16.0 * c;
      assert Doubled(c, 5) == 32.0 * c;
      assert Doubled(c, 6) == 64.0 * c;
    }
    ClimbAdds(b, 7, 35);
  }

  /** Voluntary switches it takes to climb from a negative score to zero. */
  function StepsToZero(b: real): (n: nat)
    ensures b + 0.0015 * n as real >= 0.0
  {
    if b >= 0.0 then 0 else (-b / 0.0015).Floor + 1
  }

  ghost predicate BoundedPath(path: Option<Path>) {
    path.Some? ==> path.value.score <= TOP_SCORE
  }

  predicate Raises(compared: Path, next: Path) {
    next.score >= compared.score + 0.15 * Max(compared.score, 0.01)
  }

  ghost predicate BoundedPhase(beat: Phase) {
    && (!beat.Idle? ==> BoundedResponse(beat.resp))
    && (beat.ToCheck? || beat.ToCool? || beat.ToCount? || beat.ToWrite? ==> BoundedPath(beat.next))
    && (Approved(beat) ==> beat.next.Some? && Raises(beat.why.compared, beat.next.value))
  }

  ghost predicate BoundedJob(job: Job) {
    && (job.Picking? ==> BoundedResponse(job.resp))
    && (job.Writing? ==> BoundedPath(job.next))
  }

  ghost predicate BoundedMachine(m: Machine) {
    && BoundedPath(m.s.path) && BoundedPhase(m.beat)
    && (m.s.lastResponse.Some? ==> BoundedResponse(m.s.lastResponse.value))
    && (forall task | task in m.jobs :: BoundedJob(m.jobs[task]))
  }

  ghost predicate RatchetInv(h: History) {
    && BoundedMachine(h.m)
    && (h.m.s.path.Some? ==> Climb(h.base, h.streak) <= h.m.s.path.value.score)
    && (h.m.s.path == None ==> h.streak == 0)
  }

  lemma QuotientAtLeast(gain: real, d: real)
    requires d > 0.0
    ensures gain / d >= 0.15 ==> gain >= 0.15 * d
  {
    assert gain == gain / d * d;
    if gain / d >= 0.15 {
      ScaleUp(gain / d, 0.15, d);
    }
  }

  lemma ScaleUp(a: real, b: real, d: real)
    requires a >= b && d > 0.0
    ensures a * d >= b * d
  {
  }

  lemma PickedIsBounded(me: Self, resp: MeshResponse, pick: Pick)
    requires BoundedResponse(resp)
    ensures BoundedPath(Picked(me, resp, pick))
  {
    hide FinalScore;
    if Picked(me, resp, pick).Some? {
      ScoreBound(me, resp.candidates[pick.i], pick.rtt);
    }
  }

  /** What the last check approves raises the score it is compared with. */
  lemma ApprovalRaises(m: Machine, resp: MeshResponse, next: Option<Path>, now: Time)
    requires BoundedResponse(resp) && Counted(m, resp, next, now).beat.ToWrite?
    ensures var beat := Counted(m, resp, next, now).beat;
            Approved(beat) && beat.next == next && next.Some? && Raises(beat.why.compared, next.value)
  {
    hide Retain;
    QuotientAtLeast(next.value.score - m.s.path.value.score, Max(m.s.path.value.score, 0.01));
  }

  lemma BeatIsBounded(m: Machine, now: Time, pick: Pick)
    requires BoundedMachine(m)
    ensures BoundedMachine(BeatStep(m, now, pick))
  {
    hide Picked, Counted, BoundedResponse, Raises, BoundedJob;
    match m.beat
    case ToChoose(resp) =>
      PickedIsBounded(m.me, resp, pick);
    case ToCount(resp, next) =>
      CountedIsBounded(m, resp, next, now);
    case _ =>
  }

  lemma CountedIsBounded(m: Machine, resp: MeshResponse, next: Option<Path>, now: Time)
    requires BoundedMachine(m) && BoundedResponse(resp) && BoundedPath(next)
    ensures BoundedMachine(Counted(m, resp, next, now))
  {
    hide BoundedResponse, Raises, Retain;
    if Counted(m, resp, next, now).beat.ToWrite? {
      ApprovalRaises(m, resp, next, now);
    }
  }

  lemma JobIsBounded(m: Machine, task: nat, now: Time, rtt: nat, pick: Pick)
    requires BoundedMachine(m)
    ensures BoundedMachine(JobStep(m, task, now, rtt, pick))
  {
    hide Picked, BoundedResponse, BoundedPhase;
    match JobOf(m, task)
    case Picking(resp) =>
      PickedIsBounded(m.me, resp, pick);
    case _ =>
  }

  /** Every turn keeps scores, pending choices and responses bounded. */
  lemma TurnIsBounded(m: Machine, t: Turn)
    requires BoundedMachine(m)
    requires t.move.Receive? ==> BoundedResponse(t.move.resp)
    ensures BoundedMachine(Next(m, t))
  {
    hide BeatStep, JobStep, BoundedResponse;
    match t.move
    case Receive(_) =>
    case Beat(pick) =>
      BeatIsBounded(m, t.now, pick);
    case Begin(_, _) =>
    case Work(task, rtt, pick) =>
      JobIsBounded(m, task, t.now, rtt, pick);
  }

  /** A voluntary switch raises the score it was compared with at its approval by at least 15% of
      max(score, 0.01), whenever it takes effect; that is the stored score if no other task has replaced the
      path meanwhile. */
  lemma VoluntaryRaisesScore(h: History, t: Turn)
    requires RatchetInv(h) && EffectOf(h.m, t).Switches? && EffectOf(h.m, t).why.Voluntary?
    ensures var path := Next(h.m, t).s.path;
            && path.Some? && Raises(EffectOf(h.m, t).why.compared, path.value)
            && (Continues(h.m, EffectOf(h.m, t).why) ==> Raises(h.m.s.path.value, path.value))
  {
    hide Picked, Retain, BoundedResponse, Raises;
  }

  lemma RatchetStep(h: History, t: Turn)
    requires RatchetInv(h)
    requires t.move.Receive? ==> BoundedResponse(t.move.resp)
    ensures RatchetInv(NextHistory(h, t))
  {
    hide Next, EffectOf, BoundedMachine;
    TurnIsBounded(h.m, t);
    EffectIsFaithful(h.m, t);
    var e := EffectOf(h.m, t);
    if e.Switches? && e.why.Voluntary? {
      VoluntaryRaisesScore(h, t);
    }
  }

  lemma {:induction false} RunKeepsRatchet(me: Self, turns: seq<Turn>)
    requires BoundedTurns(turns)
    ensures RatchetInv(RunOf(me, turns))
  {
    hide NextHistory, BoundedResponse;
    if turns != [] {
      RunKeepsRatchet(me, turns[..|turns| - 1]);
      RatchetStep(RunOf(me, turns[..|turns| - 1]), turns[|turns| - 1]);
    }
  }

  /** Between two resets of the path only boundedly many voluntary switches happen: at most 41 when
      the score the path was reset to is not negative. */
  lemma FiniteFlapping(me: Self, turns: seq<Turn>)
    requires BoundedTurns(turns)
    ensures var h := RunOf(me, turns); h.streak <= StepsToZero(h.base) + 41
  {
    hide RunOf, BoundedResponse, StepsToZero, BoundedPhase, BoundedJob;
    RunKeepsRatchet(me, turns);
    var h := RunOf(me, turns);
    var n := StepsToZero(h.base);
    if h.streak >= n + 42 {
      ClimbAtLeastLinear(h.base, n);
      ClimbPassesTop(Climb(h.base, n));
      ClimbAdds(h.base, n, 42);
      ClimbAdds(h.base, n + 42, h.streak - (n + 42));
      ClimbAtLeastLinear(Climb(h.base, n + 42), h.streak - (n + 42));
    }
  }
}
