/** The selector as several tasks use it at once: every step is what one task does under one lock. */
module SelectorTasks {
  import opened Options
  import opened CascadeSelector

  /** Why a switch is made; a voluntary one remembers the path it was compared with. */
  datatype Reason = Forced | Boundary | Voluntary(compared: Path)

  /** Where the heartbeat task stands in handling a response; it handles one at a time. */
  datatype Phase =
    | Idle
    | ToDeepen(resp: MeshResponse)
    | ToBound(resp: MeshResponse)
    | ToChoose(resp: MeshResponse)
    | ToCheck(resp: MeshResponse, next: Option<Path>)
    | ToCool(resp: MeshResponse, next: Option<Path>)    // holds the path's read lock
    | ToCount(resp: MeshResponse, next: Option<Path>)   // still holds it
    | ToWrite(resp: MeshResponse, next: Option<Path>, why: Reason)
    | ToStamp(resp: MeshResponse, why: Reason)
    | ToSet(resp: MeshResponse, why: Reason, at: Time)  // has read the clock
    | ToRecord(resp: MeshResponse, why: Reason)
    | ToStore(resp: MeshResponse)

  /** Where any other task stands: the ping loop, or a reporter of failures. */
  datatype Job =
    | Resting
    | Probing(resp: MeshResponse, done: nat)
    | Keeping(resp: MeshResponse, done: nat, probe: Probe)
    | Looking
    | Judging(upstream: NodeId)
    | Alarmed
    | Picking(resp: MeshResponse)
    | Writing(next: Option<Path>)
    | Stamping
    | Setting(at: Time)
    | Recording
    | Dropping
    | Clearing

  datatype Machine = Machine(me: Self, s: State, beat: Phase, jobs: map<nat, Job>)

  function InitialMachine(me: Self): Machine {
    Machine(me, InitialState(me), Idle, map[])
  }

  function JobOf(m: Machine, task: nat): Job {
    if task in m.jobs then m.jobs[task] else Resting
  }

  datatype Trigger = Ping | Failure | Success

  /** What a selection ends in. Its loop reads guard and probes candidate by candidate while other tasks
      write them, so any candidate that may be used at all can win, with any round-trip time. */
  datatype Pick = Nothing | Take(i: nat, rtt: Option<nat>)

  function Picked(me: Self, resp: MeshResponse, pick: Pick): Option<Path> {
    if pick.Take? && pick.i < |resp.candidates| && resp.candidates[pick.i].allowCascade
       && resp.candidates[pick.i].url != ""
    then
      var c := resp.candidates[pick.i];
      Some(Path(if me.hasIpv6 && c.ipv6Url != "" then c.ipv6Url else c.url, c.nodeId,
                FinalScore(me, c, pick.rtt), c.tier))
    else None
  }

  datatype Move =
    | Receive(resp: MeshResponse)                 // the heartbeat task takes up a response
    | Beat(pick: Pick)                            // the heartbeat task goes on
    | Begin(task: nat, what: Trigger)             // a resting task begins
    | Work(task: nat, rtt: nat, pick: Pick)       // a task goes on

  datatype Turn = Turn(now: Time, move: Move)

  predicate Holding(beat: Phase) {
    beat.ToCool? || beat.ToCount?
  }

  function BeatStep(m: Machine, now: Time, pick: Pick): Machine {
    var s := m.s;
    match m.beat
    case Idle => m
    case ToDeepen(resp) => m.(s := s.(guard := s.guard.(maxDepth := resp.selfTier)), beat := ToBound(resp))
    case ToBound(resp) =>
      m.(s := if resp.policy.Some? then s.(guard := s.guard.(maxDepth := resp.policy.value.maxDepth)) else s,
         beat := ToChoose(resp))
    case ToChoose(resp) =>
      var next := Picked(m.me, resp, pick);
      m.(beat := if OfflineAdvice(resp) then ToWrite(resp, next, Forced) else ToCheck(resp, next))
    case ToCheck(resp, next) => m.(beat := Compared(s, resp, next))
    case ToCool(resp, next) => m.(beat := if CoolingDown(s, resp, now) then ToStore(resp) else ToCount(resp, next))
    case ToCount(resp, next) => Counted(m, resp, next, now)
    case ToWrite(resp, next, why) => m.(s := s.(path := next), beat := ToStamp(resp, why))
    case ToStamp(resp, why) => m.(beat := ToSet(resp, why, now))
    case ToSet(resp, why, at) => m.(s := s.(lastSwitchAt := Some(at)), beat := ToRecord(resp, why))
    case ToRecord(resp, why) => m.(s := s.(switchTimes := s.switchTimes + [now]), beat := ToStore(resp))
    case ToStore(resp) => m.(s := s.(lastResponse := Some(resp)), beat := Idle)
  }

  function Compared(s: State, resp: MeshResponse, next: Option<Path>): Phase {
    if s.path.None? && next.None? then ToStore(resp)
    else if s.path.None? || next.None? then ToWrite(resp, next, Boundary)
    else if s.path.value.nodeId == next.value.nodeId then ToStore(resp)
    else ToCool(resp, next)
  }

  /** The last of the hysteresis checks; the path it reads is the one compared, for the lock is held. */
  function Counted(m: Machine, resp: MeshResponse, next: Option<Path>, now: Time): Machine {
    if m.s.path.None? || next.None? then m.(beat := ToStore(resp))
    else
      var cur, best := m.s.path.value, next.value;
      var times := Retain(m.s.switchTimes, now - WINDOW);
      var enough := (best.score - cur.score) / Max(cur.score, 0.01) >= MinImprovement(resp);
      m.(s := m.s.(switchTimes := times),
         beat := if |times| < AsU64(MaxSwitches(resp)) && enough then ToWrite(resp, next, Voluntary(cur))
                 else ToStore(resp))
  }

  function Started(m: Machine, task: nat, what: Trigger): Machine {
    match what
    case Ping =>
      if m.s.lastResponse.None? then m else m.(jobs := m.jobs[task := Probing(m.s.lastResponse.value, 0)])
    case Failure =>
      m.(s := m.s.(fails := m.s.fails + 1), jobs := m.jobs[task := if m.s.fails + 1 >= 3 then Alarmed else Resting])
    case Success => m.(s := m.s.(fails := 0))
  }

  function JobStep(m: Machine, task: nat, now: Time, rtt: nat, pick: Pick): Machine {
    var s := m.s;
    match JobOf(m, task)
    case Resting => m
    case Probing(resp, done) =>
      m.(jobs := m.jobs[task :=
        if done >= |resp.candidates| then Looking
        else if !resp.candidates[done].allowCascade || resp.candidates[done].url == "" then Probing(resp, done + 1)
        else Keeping(resp, done, Probe(rtt, now, rtt < 9999))])
    case Keeping(resp, done, probe) =>
      m.(s := if done < |resp.candidates| then s.(probes := s.probes[resp.candidates[done].nodeId := probe]) else s,
         jobs := m.jobs[task := Probing(resp, done + 1)])
    case Looking => m.(jobs := m.jobs[task := if s.path.Some? then Judging(s.path.value.nodeId) else Resting])
    case Judging(upstream) => m.(jobs := m.jobs[task := if Unreachable(s, upstream, now) then Alarmed else Resting])
    case Alarmed => m.(jobs := m.jobs[task := if s.lastResponse.Some? then Picking(s.lastResponse.value) else Dropping])
    case Picking(resp) => m.(jobs := m.jobs[task := Writing(Picked(m.me, resp, pick))])
    case Writing(next) => m.(s := s.(path := next), jobs := m.jobs[task := Stamping])
    case Stamping => m.(jobs := m.jobs[task := Setting(now)])
    case Setting(at) => m.(s := s.(lastSwitchAt := Some(at)), jobs := m.jobs[task := Recording])
    case Recording => m.(s := s.(switchTimes := s.switchTimes + [now]), jobs := m.jobs[task := Clearing])
    case Dropping => m.(s := s.(path := None), jobs := m.jobs[task := Clearing])
    case Clearing => m.(s := s.(fails := 0), jobs := m.jobs[task := Resting])
  }

  predicate Unreachable(s: State, upstream: NodeId, now: Time) {
    upstream in s.probes && now - s.probes[upstream].probedAt < 30 * SECOND && !s.probes[upstream].reachable
  }

  /** A task that would write the path waits while the heartbeat task holds the path's read lock. */
  predicate Blocked(m: Machine, task: nat) {
    Holding(m.beat) && (JobOf(m, task).Writing? || JobOf(m, task).Dropping?)
  }

  /** A turn that is not possible changes nothing, so every sequence of turns is a run. */
  function Next(m: Machine, t: Turn): Machine {
    match t.move
    case Receive(resp) =>
      if m.beat.Idle? then m.(s := m.s.(selfTier := resp.selfTier), beat := ToDeepen(resp)) else m
    case Beat(pick) => BeatStep(m, t.now, pick)
    case Begin(task, what) => if JobOf(m, task).Resting? then Started(m, task, what) else m
    case Work(task, rtt, pick) => if Blocked(m, task) then m else JobStep(m, task, t.now, rtt, pick)
  }

  function MachineAfter(m: Machine, turns: seq<Turn>): Machine {
    if turns == [] then m else Next(MachineAfter(m, turns[..|turns| - 1]), turns[|turns| - 1])
  }

  // ----- a task that is left alone does what its method does -----

  function Beats(m: Machine, now: Time, pick: Pick, n: nat): Machine {
    if n == 0 then m else BeatStep(Beats(m, now, pick, n - 1), now, pick)
  }

  /** Some pick stands for what an uninterrupted selection chooses. */
  lemma SelectIsPicked(me: Self, s: State, resp: MeshResponse, locks: nat -> Locks, now: Time) returns (pick: Pick)
    ensures Picked(me, resp, pick) == Select(me, s, resp.candidates, locks, now)
  {
    hide Select, FinalScore;
    SelectIsBest(me, s, resp.candidates, locks, now);
    var r := Select(me, s, resp.candidates, locks, now);
    pick := Nothing;
    if r.Some? {
      var i: nat :| ComesFrom(me, s, resp.candidates, locks, now, r.value, i);
      pick := Take(i, if locks(i).probesFree then FreshRtt(s.probes, resp.candidates[i].nodeId, now) else None);
    }
  }

  lemma {:induction false} FirstBeat(m: Machine, now: Time, pick: Pick, n: nat)
    requires n > 0
    ensures Beats(m, now, pick, n) == Beats(BeatStep(m, now, pick), now, pick, n - 1)
  {
    hide BeatStep;
    if n > 1 {
      FirstBeat(m, now, pick, n - 1);
    }
  }

  lemma {:induction false} IdleStays(m: Machine, now: Time, pick: Pick, n: nat)
    requires m.beat.Idle?
    ensures Beats(m, now, pick, n) == m
  {
    if n > 0 {
      IdleStays(m, now, pick, n - 1);
    }
  }

  lemma StoreAlone(m: Machine, now: Time, pick: Pick, n: nat)
    requires m.beat.ToStore? && n >= 1
    ensures Beats(m, now, pick, n) == m.(s := m.s.(lastResponse := Some(m.beat.resp)), beat := Idle)
  {
    hide Beats;
    FirstBeat(m, now, pick, n);
    IdleStays(BeatStep(m, now, pick), now, pick, n - 1);
  }

  lemma WriteAlone(m: Machine, now: Time, pick: Pick, n: nat)
    requires m.beat.ToWrite? && n >= 5
    ensures Beats(m, now, pick, n)
         == m.(s := Switched(m.s, m.beat.next, now).(lastResponse := Some(m.beat.resp)), beat := Idle)
  {
    hide Beats;
    var m1 := BeatStep(m, now, pick);
    var m2 := BeatStep(m1, now, pick);
    var m3 := BeatStep(m2, now, pick);
    var m4 := BeatStep(m3, now, pick);
    FirstBeat(m, now, pick, n);
    FirstBeat(m1, now, pick, n - 1);
    FirstBeat(m2, now, pick, n - 2);
    FirstBeat(m3, now, pick, n - 3);
    StoreAlone(m4, now, pick, n - 4);
  }

  lemma CheckAlone(m: Machine, now: Time, pick: Pick, n: nat)
    requires m.beat.ToCheck? && n >= 8
    ensures var (approved, times) := CheckHysteresis(m.s, m.beat.next, m.beat.resp, now);
            var s := m.s.(switchTimes := times);
            Beats(m, now, pick, n)
            == m.(s := (if approved then Switched(s, m.beat.next, now) else s).(lastResponse := Some(m.beat.resp)),
                  beat := Idle)
  {
    hide Beats, Retain;
    var m1 := BeatStep(m, now, pick);
    FirstBeat(m, now, pick, n);
    if m1.beat.ToStore? {
      StoreAlone(m1, now, pick, n - 1);
    } else if m1.beat.ToWrite? {
      WriteAlone(m1, now, pick, n - 1);
    } else {
      var m2 := BeatStep(m1, now, pick);
      FirstBeat(m1, now, pick, n - 1);
      if m2.beat.ToStore? {
        StoreAlone(m2, now, pick, n - 2);
      } else {
        var m3 := BeatStep(m2, now, pick);
        FirstBeat(m2, now, pick, n - 2);
        if m3.beat.ToStore? {
          StoreAlone(m3, now, pick, n - 3);
        } else {
          WriteAlone(m3, now, pick, n - 3);
        }
      }
    }
  }

  /** A response handled without interruption has the effect of the method. */
  lemma UpdateAlone(m: Machine, resp: MeshResponse, locks: nat -> Locks, now: Time, pick: Pick)
    requires m.beat.Idle?
    requires Picked(m.me, resp, pick) == Select(m.me, Informed(m.s, resp), resp.candidates, locks, now)
    ensures Beats(Next(m, Turn(now, Receive(resp))), now, pick, 11) == m.(s := Updated(m.me, m.s, resp, locks, now))
  {
    hide Select, Picked, OfflineAdvice, CheckHysteresis, Beats;
    var m0 := Next(m, Turn(now, Receive(resp)));
    var m1 := BeatStep(m0, now, pick);
    var m2 := BeatStep(m1, now, pick);
    var m3 := BeatStep(m2, now, pick);
    FirstBeat(m0, now, pick, 11);
    FirstBeat(m1, now, pick, 10);
    FirstBeat(m2, now, pick, 9);
    assert m2.s == Informed(m.s, resp) && m3.s == m2.s;
    if OfflineAdvice(resp) {
      WriteAlone(m3, now, pick, 8);
    } else {
      CheckAlone(m3, now, pick, 8);
    }
  }

  function Works(m: Machine, task: nat, now: Time, pick: Pick, n: nat): Machine {
    if n == 0 then m else JobStep(Works(m, task, now, pick, n - 1), task, now, 0, pick)
  }

  lemma {:induction false} FirstWork(m: Machine, task: nat, now: Time, pick: Pick, n: nat)
    requires n > 0
    ensures Works(m, task, now, pick, n) == Works(JobStep(m, task, now, 0, pick), task, now, pick, n - 1)
  {
    hide JobStep;
    if n > 1 {
      FirstWork(m, task, now, pick, n - 1);
    }
  }

  /** An alarm without a response to choose from, seen through without interruption. */
  lemma FallbackAlone(m: Machine, task: nat, now: Time, pick: Pick)
    requires JobOf(m, task).Alarmed? && m.s.lastResponse.None?
    ensures var e := Works(m, task, now, pick, 3);
            e.s == m.s.(path := None, fails := 0) && JobOf(e, task).Resting? && e.beat == m.beat
  {
    hide Picked, Works, Unreachable;
    var m1 := JobStep(m, task, now, 0, pick);
    var m2 := JobStep(m1, task, now, 0, pick);
    FirstWork(m, task, now, pick, 3);
    FirstWork(m1, task, now, pick, 2);
    FirstWork(m2, task, now, pick, 1);
    NoWork(JobStep(m2, task, now, 0, pick), task, now, pick);
  }

  lemma SwitchAlone(m: Machine, task: nat, now: Time, pick: Pick)
    requires JobOf(m, task).Writing?
    ensures var e := Works(m, task, now, pick, 5);
            && e.s == Switched(m.s, JobOf(m, task).next, now).(fails := 0)
            && JobOf(e, task).Resting? && e.beat == m.beat
  {
    hide Picked, Works, Unreachable;
    var m1 := JobStep(m, task, now, 0, pick);
    var m2 := JobStep(m1, task, now, 0, pick);
    var m3 := JobStep(m2, task, now, 0, pick);
    var m4 := JobStep(m3, task, now, 0, pick);
    FirstWork(m, task, now, pick, 5);
    FirstWork(m1, task, now, pick, 4);
    FirstWork(m2, task, now, pick, 3);
    FirstWork(m3, task, now, pick, 2);
    FirstWork(m4, task, now, pick, 1);
    NoWork(JobStep(m4, task, now, 0, pick), task, now, pick);
  }

  /** An alarm that is seen through without interruption has the effect of the emergency switch. */
  lemma EmergencyAlone(m: Machine, task: nat, locks: nat -> Locks, now: Time, pick: Pick)
    requires JobOf(m, task).Alarmed?
    requires m.s.lastResponse.Some?
         ==> Picked(m.me, m.s.lastResponse.value, pick)
             == Select(m.me, m.s, m.s.lastResponse.value.candidates, locks, now)
    ensures var e := Works(m, task, now, pick, if m.s.lastResponse.Some? then 7 else 3);
            e.s == Emergency(m.me, m.s, locks, now) && JobOf(e, task).Resting? && e.beat == m.beat
  {
    hide Select, Picked, Works, Unreachable;
    if m.s.lastResponse.None? {
      FallbackAlone(m, task, now, pick);
    } else {
      var m1 := JobStep(m, task, now, 0, pick);
      var m2 := JobStep(m1, task, now, 0, pick);
      FirstWork(m, task, now, pick, 7);
      FirstWork(m1, task, now, pick, 6);
      SwitchAlone(m2, task, now, pick);
    }
  }

  /** A task that probes the first `n` candidates. */
  function Probed(m: Machine, task: nat, rtts: nat -> nat, now: Time, n: nat): Machine {
    if n == 0 then m else NextProbed(Probed(m, task, rtts, now, n - 1), task, rtts(n - 1), now)
  }

  function NextProbed(m: Machine, task: nat, rtt: nat, now: Time): Machine {
    var m1 := JobStep(m, task, now, rtt, Nothing);
    if JobOf(m1, task).Keeping? then JobStep(m1, task, now, 0, Nothing) else m1
  }

  lemma NextProbedAlone(m: Machine, task: nat, resp: MeshResponse, n: nat, rtt: nat, now: Time)
    requires JobOf(m, task) == Probing(resp, n) && n < |resp.candidates|
    ensures var e, c := NextProbed(m, task, rtt, now), resp.candidates[n];
            && JobOf(e, task) == Probing(resp, n + 1) && e.beat == m.beat
            && e.s == m.s.(probes := if !c.allowCascade || c.url == "" then m.s.probes
                                     else m.s.probes[c.nodeId := Probe(rtt, now, rtt < 9999)])
  {
    hide Picked, Unreachable;
  }

  lemma {:induction false} ProbedAlone(m: Machine, task: nat, resp: MeshResponse, rtts: nat -> nat, now: Time, n: nat)
    requires JobOf(m, task) == Probing(resp, 0) && n <= |resp.candidates|
    ensures var e := Probed(m, task, rtts, now, n);
            && e.s == m.s.(probes := PingResults(m.s.probes, resp.candidates[..n], rtts, now))
            && JobOf(e, task) == Probing(resp, n) && e.beat == m.beat
  {
    hide NextProbed;
    if n > 0 {
      ProbedAlone(m, task, resp, rtts, now, n - 1);
      NextProbedAlone(Probed(m, task, rtts, now, n - 1), task, resp, n - 1, rtts(n - 1), now);
      assert resp.candidates[..n][..n - 1] == resp.candidates[..n - 1];
    }
  }

  /** A ping without interruption stores the probes of the method, and raises the alarm exactly when it does. */
  lemma PingAlone(m: Machine, task: nat, rtts: nat -> nat, now: Time)
    requires JobOf(m, task).Resting? && m.s.lastResponse.Some?
    ensures var cs := m.s.lastResponse.value.candidates;
            var e := Works(Probed(Next(m, Turn(now, Begin(task, Ping))), task, rtts, now, |cs|), task, now, Nothing, 3);
            && e.s == m.s.(probes := PingResults(m.s.probes, cs, rtts, now)) && e.beat == m.beat
            && JobOf(e, task) == if UpstreamUnreachable(e.s, now) then Alarmed else Resting
  {
    hide Picked, Works, Probed, PingResults;
    var resp := m.s.lastResponse.value;
    var cs := resp.candidates;
    var m0 := Next(m, Turn(now, Begin(task, Ping)));
    ProbedAlone(m0, task, resp, rtts, now, |cs|);
    assert cs[..|cs|] == cs;
    var m1 := Probed(m0, task, rtts, now, |cs|);
    var m2 := JobStep(m1, task, now, 0, Nothing);
    var m3 := JobStep(m2, task, now, 0, Nothing);
    FirstWork(m1, task, now, Nothing, 3);
    FirstWork(m2, task, now, Nothing, 2);
    FirstWork(m3, task, now, Nothing, 1);
    NoWork(JobStep(m3, task, now, 0, Nothing), task, now, Nothing);
  }

  /** A reported failure that is seen through without interruption has the effect of the method: the third in a
      row, and any after it, ends in the emergency switch. */
  lemma FailureAlone(m: Machine, task: nat, locks: nat -> Locks, now: Time, pick: Pick)
    requires JobOf(m, task).Resting?
    requires m.s.lastResponse.Some?
         ==> Picked(m.me, m.s.lastResponse.value, pick)
             == Select(m.me, m.s, m.s.lastResponse.value.candidates, locks, now)
    ensures var m1 := Next(m, Turn(now, Begin(task, Failure)));
            var e := Works(m1, task, now, pick, if m.s.lastResponse.Some? then 7 else 3);
            && e.s == UpstreamFailed(m.me, m.s, locks, now) && JobOf(e, task).Resting? && e.beat == m.beat
            && (JobOf(m1, task).Alarmed? <==> m.s.fails >= 2)
  {
    hide Select, Picked, Works, Emergency;
    var m1 := Next(m, Turn(now, Begin(task, Failure)));
    if m.s.fails >= 2 {
      if m.s.lastResponse.Some? {
        FailsDoNotMatter(m.me, m.s, m1.s, m.s.lastResponse.value.candidates, locks, now);
      }
      EmergencyAlone(m1, task, locks, now, pick);
    } else {
      RestingStays(m1, task, now, pick, 7);
      RestingStays(m1, task, now, pick, 3);
    }
  }

  lemma {:induction false} FailsDoNotMatter(me: Self, s: State, s': State, cs: seq<Candidate>, locks: nat -> Locks,
                                            now: Time)
    requires s'.guard == s.guard && s'.probes == s.probes
    ensures Scored(me, s', cs, locks, now) == Scored(me, s, cs, locks, now)
    ensures Select(me, s', cs, locks, now) == Select(me, s, cs, locks, now)
  {
    hide SortByScore, FinalScore;
    if cs != [] {
      FailsDoNotMatter(me, s, s', cs[..|cs| - 1], locks, now);
    }
  }

  lemma {:induction false} RestingStays(m: Machine, task: nat, now: Time, pick: Pick, n: nat)
    requires JobOf(m, task).Resting?
    ensures Works(m, task, now, pick, n) == m
  {
    hide Picked;
    if n > 0 {
      RestingStays(m, task, now, pick, n - 1);
    }
  }

  lemma NoWork(m: Machine, task: nat, now: Time, pick: Pick)
    ensures Works(m, task, now, pick, 0) == m
  {
  }
}
