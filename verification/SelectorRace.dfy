/** The race between an approved switch and an emergency switch, and that it can happen. */
module SelectorRace {
  import opened Options
  import opened CascadeSelector
  import opened SelectorTasks
  import opened SelectorRuns

  lemma {:induction false} AfterJoin(m: Machine, a: seq<Turn>, b: seq<Turn>)
    ensures MachineAfter(m, a + b) == MachineAfter(MachineAfter(m, a), b)
  {
    hide Next;
    if b == [] {
      assert a + b == a;
    } else {
      AfterJoin(m, a, b[..|b| - 1]);
      assert (a + b)[..|a + b| - 1] == a + b[..|b| - 1];
    }
  }

  lemma AfterOne(m: Machine, t: Turn)
    ensures MachineAfter(m, [t]) == Next(m, t)
  {
    hide Next;
    assert [t][..0] == [];
  }

  function BeatsOf(now: Time, pick: Pick, n: nat): (turns: seq<Turn>)
    ensures |turns| == n && forall i | 0 <= i < n :: turns[i] == Turn(now, Beat(pick))
  {
    seq(n, _ => Turn(now, Beat(pick)))
  }

  lemma {:induction false} AfterBeats(m: Machine, now: Time, pick: Pick, n: nat)
    ensures MachineAfter(m, BeatsOf(now, pick, n)) == Beats(m, now, pick, n)
  {
    hide BeatStep;
    if n > 0 {
      AfterBeats(m, now, pick, n - 1);
      assert BeatsOf(now, pick, n)[..n - 1] == BeatsOf(now, pick, n - 1);
    }
  }

  /** An alarmed task sees the emergency switch through to its end. */
  function SwitchTurns(task: nat, now: Time, pick: Pick): seq<Turn> {
    [Turn(now, Work(task, 0, pick)), Turn(now, Work(task, 0, pick)), Turn(now, Work(task, 0, pick)),
     Turn(now, Work(task, 0, pick)), Turn(now, Work(task, 0, pick)), Turn(now, Work(task, 0, pick))]
  }

  /** A ping of the only candidate gets no answer. */
  function PingTurns(task: nat, now: Time): seq<Turn> {
    [Turn(now, Begin(task, Ping)), Turn(now, Work(task, 9999, Nothing)), Turn(now, Work(task, 9999, Nothing)),
     Turn(now, Work(task, 9999, Nothing)), Turn(now, Work(task, 9999, Nothing)), Turn(now, Work(task, 9999, Nothing))]
  }

  /** Three reported failures raise the alarm, wherever the heartbeat task stands. */
  lemma ThreeFailures(m: Machine, task: nat, now: Time)
    requires JobOf(m, task).Resting?
    ensures var t := Turn(now, Begin(task, Failure)); var m' := Next(Next(Next(m, t), t), t);
            && JobOf(m', task).Alarmed? && m'.beat == m.beat && m'.me == m.me
            && m'.s == m.s.(fails := m'.s.fails)
  {
  }

  /** So does a ping of the current upstream that gets no answer. */
  lemma UnansweredPing(m: Machine, task: nat, now: Time)
    requires JobOf(m, task).Resting? && m.s.path.Some? && m.s.lastResponse.Some?
    requires var cs := m.s.lastResponse.value.candidates;
             |cs| == 1 && cs[0].allowCascade && cs[0].url != "" && cs[0].nodeId == m.s.path.value.nodeId
    ensures var m' := MachineAfter(m, PingTurns(task, now));
            && JobOf(m', task).Alarmed? && m'.beat == m.beat && m'.me == m.me
            && m'.s == m.s.(probes := m'.s.probes)
  {
    hide MachineAfter, Next, PingTurns;
    PingIsRun(m, task, now);
    PingIsUnanswered(m, task, now);
  }

  lemma PingIsRun(m: Machine, task: nat, now: Time)
    ensures var w := Turn(now, Work(task, 9999, Nothing));
            MachineAfter(m, PingTurns(task, now))
            == Next(Next(Next(Next(Next(Next(m, Turn(now, Begin(task, Ping))), w), w), w), w), w)
  {
    hide MachineAfter, Next;
    var b, w := Turn(now, Begin(task, Ping)), Turn(now, Work(task, 9999, Nothing));
    assert PingTurns(task, now) == [b] + [w] + [w] + [w] + [w] + [w];
    AfterOne(m, b);
    AfterStep(m, [b], w);
    AfterStep(m, [b] + [w], w);
    AfterStep(m, [b] + [w] + [w], w);
    AfterStep(m, [b] + [w] + [w] + [w], w);
    AfterStep(m, [b] + [w] + [w] + [w] + [w], w);
  }

  lemma PingIsUnanswered(m: Machine, task: nat, now: Time)
    requires JobOf(m, task).Resting? && m.s.path.Some? && m.s.lastResponse.Some?
    requires var cs := m.s.lastResponse.value.candidates;
             |cs| == 1 && cs[0].allowCascade && cs[0].url != "" && cs[0].nodeId == m.s.path.value.nodeId
    ensures var w := Turn(now, Work(task, 9999, Nothing));
            var m' := Next(Next(Next(Next(Next(Next(m, Turn(now, Begin(task, Ping))), w), w), w), w), w);
            && JobOf(m', task).Alarmed? && m'.beat == m.beat && m'.me == m.me
            && m'.s == m.s.(probes := m'.s.probes)
  {
    hide Picked, BeatStep;
  }

  lemma AlarmSeenThrough(m: Machine, task: nat, now: Time, pick: Pick)
    requires JobOf(m, task).Alarmed? && m.s.lastResponse.Some? && !Holding(m.beat)
    ensures var t := Turn(now, Work(task, 0, pick)); var m' := Next(Next(Next(Next(Next(Next(m, t), t), t), t), t), t);
            && m'.beat == m.beat
            && m'.s.lastSwitchAt == Some(now) && m'.s.switchTimes == m.s.switchTimes + [now]
  {
    hide Picked;
  }

  lemma SwitchIsRun(m: Machine, task: nat, now: Time, pick: Pick)
    ensures var w := Turn(now, Work(task, 0, pick));
            MachineAfter(m, SwitchTurns(task, now, pick)) == Next(Next(Next(Next(Next(Next(m, w), w), w), w), w), w)
  {
    hide Next, MachineAfter;
    var w := Turn(now, Work(task, 0, pick));
    assert SwitchTurns(task, now, pick) == [w] + [w] + [w] + [w] + [w] + [w];
    AfterOne(m, w);
    AfterStep(m, [w], w);
    AfterStep(m, [w] + [w], w);
    AfterStep(m, [w] + [w] + [w], w);
    AfterStep(m, [w] + [w] + [w] + [w], w);
    AfterStep(m, [w] + [w] + [w] + [w] + [w], w);
  }

  lemma AfterStep(m: Machine, turns: seq<Turn>, t: Turn)
    ensures MachineAfter(m, turns + [t]) == Next(MachineAfter(m, turns), t)
  {
    hide Next;
    assert (turns + [t])[..|turns|] == turns;
  }

  /** From every state in which a voluntary switch is approved and not yet made, and another task is alarmed,
      an emergency switch can be made and recorded first. The voluntary one is still made next, within its
      cooldown, and recorded at the same time as the other. */
  lemma EmergencyCutsIn(m: Machine, task: nat, now: Time, pick: Pick)
    requires Approved(m.beat) && JobOf(m, task).Alarmed? && m.s.lastResponse.Some?
    ensures var m' := MachineAfter(m, SwitchTurns(task, now, pick));
            && EffectOf(m', Turn(now, Beat(pick))) == Switches(m.beat.why)
            && m'.s.lastSwitchAt == Some(now)
            && (AsU64(Cooldown(m.beat.resp)) > 0 ==> CoolingDown(m'.s, m.beat.resp, now))
            && Beats(m', now, pick, 4).s.switchTimes == m.s.switchTimes + [now, now]
  {
    hide MachineAfter, SwitchTurns, Next, Beats;
    AlarmSeenThrough(m, task, now, pick);
    SwitchIsRun(m, task, now, pick);
    var m' := MachineAfter(m, SwitchTurns(task, now, pick));
    assert m'.beat == m.beat && m'.s.switchTimes == m.s.switchTimes + [now];
    FourBeatsRecord(m', now, pick);
    assert m.s.switchTimes + [now] + [now] == m.s.switchTimes + [now, now];
  }

  lemma FourBeatsRecord(m: Machine, now: Time, pick: Pick)
    requires m.beat.ToWrite?
    ensures Beats(m, now, pick, 4).s.switchTimes == m.s.switchTimes + [now]
  {
    hide Beats;
    var m1 := BeatStep(m, now, pick);
    var m2 := BeatStep(m1, now, pick);
    var m3 := BeatStep(m2, now, pick);
    var m4 := BeatStep(m3, now, pick);
    FirstBeat(m, now, pick, 4);
    FirstBeat(m1, now, pick, 3);
    FirstBeat(m2, now, pick, 2);
    FirstBeat(m3, now, pick, 1);
    NoBeat(m4, now, pick);
  }

  lemma NoBeat(m: Machine, now: Time, pick: Pick)
    ensures Beats(m, now, pick, 0) == m
  {
  }

  /** From the same states both tasks can come to reading the clock. */
  lemma BothReachTheClock(m: Machine, task: nat, now: Time, pick: Pick)
    requires Approved(m.beat) && JobOf(m, task).Alarmed? && m.s.lastResponse.Some?
    ensures var w := Turn(now, Work(task, 0, pick)); var m' := Next(Next(Next(Next(m, w), w), w), Turn(now, Beat(pick)));
            m'.beat.ToStamp? && JobOf(m', task).Stamping?
  {
    hide Picked;
  }

  /** The one that reads first may set last: then the time of the last switch goes back. */
  lemma ReadingOvertaken(m: Machine, task: nat, early: Time, late: Time, pick: Pick)
    requires m.beat.ToStamp? && JobOf(m, task).Stamping? && early < late
    ensures var m' := Next(Next(Next(m, Turn(early, Beat(pick))), Turn(late, Work(task, 0, pick))),
                           Turn(late, Work(task, 0, pick)));
            m'.s.lastSwitchAt == Some(late) && Next(m', Turn(late, Beat(pick))).s.lastSwitchAt == Some(early)
  {
  }

  // ----- a run that gets there -----

  const ME := Self("edge", "east", "isp", false)
  const POLICY := MeshPolicy(2, 30, 15, 3)
  const FIRST := Take(0, None)

  function Parent(id: NodeId, hint: real): Candidate {
    Candidate(id, "relay", "west", "isp", 1, hint, 2, 0, 9.0, true, false, "")
  }

  function Offered(id: NodeId, hint: real): MeshResponse {
    MeshResponse("edge", 2, [Parent(id, hint)], Some(POLICY), None)
  }

  lemma PathOffered(id: NodeId, hint: real)
    ensures Picked(ME, Offered(id, hint), FIRST) == Some(Path("relay", id, (hint * 0.7 + 33.0) / 100.0, 1))
  {
    assert LocalScore(ME, Parent(id, hint)) == 1.1;
  }

  /** Taking up the first response leads to its parent; 31 seconds later the better one is approved. */
  function Approach(): seq<Turn> {
    [Turn(0, Receive(Offered("poor", 0.0)))] + BeatsOf(0, FIRST, 9)
    + [Turn(31 * SECOND, Receive(Offered("good", 100.0)))] + BeatsOf(31 * SECOND, FIRST, 6)
  }

  lemma FirstParent()
    ensures var m := MachineAfter(InitialMachine(ME), [Turn(0, Receive(Offered("poor", 0.0)))] + BeatsOf(0, FIRST, 9));
            && m.me == ME && m.beat.Idle? && m.jobs == map[]
            && m.s.path == Some(Path("relay", "poor", 0.33, 1)) && m.s.lastResponse == Some(Offered("poor", 0.0))
            && m.s.lastSwitchAt == Some(0) && m.s.switchTimes == [0]
  {
    hide MachineAfter, Beats, Picked;
    var t := Turn(0, Receive(Offered("poor", 0.0)));
    var m := Next(InitialMachine(ME), t);
    AfterOne(InitialMachine(ME), t);
    AfterJoin(InitialMachine(ME), [t], BeatsOf(0, FIRST, 9));
    AfterBeats(m, 0, FIRST, 9);
    PathOffered("poor", 0.0);
    var m1 := BeatStep(m, 0, FIRST);
    var m2 := BeatStep(m1, 0, FIRST);
    var m3 := BeatStep(m2, 0, FIRST);
    var m4 := BeatStep(m3, 0, FIRST);
    FirstBeat(m, 0, FIRST, 9);
    FirstBeat(m1, 0, FIRST, 8);
    FirstBeat(m2, 0, FIRST, 7);
    FirstBeat(m3, 0, FIRST, 6);
    WriteAlone(m4, 0, FIRST, 5);
  }

  lemma BetterParent(m: Machine)
    requires m.me == ME && m.beat.Idle? && m.jobs == map[] && m.s.path == Some(Path("relay", "poor", 0.33, 1))
    requires m.s.lastSwitchAt == Some(0) && m.s.switchTimes == [0]
    ensures var now := 31 * SECOND;
            var m' := Beats(Next(m, Turn(now, Receive(Offered("good", 100.0)))), now, FIRST, 6);
            && Approved(m'.beat) && m'.jobs == map[]
            && m'.s.path == m.s.path && m'.s.lastResponse == m.s.lastResponse
  {
    hide Beats, Picked;
    var now := 31 * SECOND;
    var m0 := Next(m, Turn(now, Receive(Offered("good", 100.0))));
    PathOffered("good", 100.0);
    var m1 := BeatStep(m0, now, FIRST);
    var m2 := BeatStep(m1, now, FIRST);
    var m3 := BeatStep(m2, now, FIRST);
    var m4 := BeatStep(m3, now, FIRST);
    var m5 := BeatStep(m4, now, FIRST);
    var m6 := BeatStep(m5, now, FIRST);
    FirstBeat(m0, now, FIRST, 6);
    FirstBeat(m1, now, FIRST, 5);
    FirstBeat(m2, now, FIRST, 4);
    FirstBeat(m3, now, FIRST, 3);
    FirstBeat(m4, now, FIRST, 2);
    FirstBeat(m5, now, FIRST, 1);
    NoBeat(m6, now, FIRST);
    assert Retain([0], now - WINDOW) == [0] by { assert [0][1..] == []; }
    assert (1.03 - 0.33) / 0.33 >= 0.15;
  }

  lemma ApproachApproves()
    ensures var m := MachineAfter(InitialMachine(ME), Approach());
            && Approved(m.beat) && m.jobs == map[]
            && m.s.path == Some(Path("relay", "poor", 0.33, 1)) && m.s.lastResponse == Some(Offered("poor", 0.0))
  {
    hide MachineAfter, Beats, Next, Picked;
    var early := [Turn(0, Receive(Offered("poor", 0.0)))] + BeatsOf(0, FIRST, 9);
    var t := Turn(31 * SECOND, Receive(Offered("good", 100.0)));
    var m := MachineAfter(InitialMachine(ME), early);
    FirstParent();
    AfterStep(InitialMachine(ME), early, t);
    AfterJoin(InitialMachine(ME), early + [t], BeatsOf(31 * SECOND, FIRST, 6));
    AfterBeats(Next(m, t), 31 * SECOND, FIRST, 6);
    BetterParent(m);
  }

  /** So a voluntary switch within the cooldown of a recorded one does occur: with the controller's policy
      and a clock that runs forward, at the very time of an emergency switch that the ping loop makes. */
  lemma SpacingCanFail()
    ensures exists turns, t ::
              && Monotone(turns + [t]) && FixedPolicy(turns + [t], 30, 3)
              && EffectOf(MachineAfter(InitialMachine(ME), turns), t).Switches?
              && EffectOf(MachineAfter(InitialMachine(ME), turns), t).why.Voluntary?
              && MachineAfter(InitialMachine(ME), turns).s.lastSwitchAt == Some(t.now)
  {
    hide MachineAfter, Beats, Next, EffectOf;
    var now := 31 * SECOND;
    var alarm := Approach() + PingTurns(0, now);
    var turns, t := alarm + SwitchTurns(0, now, FIRST), Turn(now, Beat(FIRST));
    ApproachApproves();
    UnansweredPing(MachineAfter(InitialMachine(ME), Approach()), 0, now);
    AfterJoin(InitialMachine(ME), Approach(), PingTurns(0, now));
    EmergencyCutsIn(MachineAfter(InitialMachine(ME), alarm), 0, now, FIRST);
    AfterJoin(InitialMachine(ME), alarm, SwitchTurns(0, now, FIRST));
    assert Monotone(turns + [t]);
    assert FixedPolicy(turns + [t], 30, 3);
  }
}
