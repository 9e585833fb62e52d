/** The latency controller: a session that keeps stalling is moved to a larger buffer, and back. */
module Latency {
  import opened Options
  import opened CascadeSelector

  /** A mode set by hand may be any string. */
  datatype Mode = Ultra | Standard | Resilient | Other(name: string)

  type SessionId = string

  datatype Rule = Rule(from: Mode, to: Mode)

  const DOWNGRADE_RULES := [Rule(Ultra, Standard), Rule(Standard, Resilient)]
  const UPGRADE_RULES := [Rule(Resilient, Standard), Rule(Standard, Ultra)]

  const STALL_TIME := 30 * SECOND
  const STABLE_TIME := 120 * SECOND
  const IDLE_TIME := 3600 * SECOND

  datatype DegradeState = DegradeState(mode: Mode, stallStart: Option<Time>, stableStart: Option<Time>,
                                       reportCount: nat, override: bool)

  type Sessions = map<SessionId, DegradeState>

  const FRESH := DegradeState(Ultra, None, None, 0, false)

  function Down(mode: Mode): Mode {
    match mode
    case Ultra => Standard
    case Standard => Resilient
    case Resilient => Resilient
    case Other(_) => mode
  }

  function Up(mode: Mode): Mode {
    match mode
    case Ultra => Ultra
    case Standard => Ultra
    case Resilient => Standard
    case Other(_) => mode
  }

  /** The two rule tables undo each other, except at the ends of the scale. */
  lemma RulesAreInverse(mode: Mode)
    ensures Down(mode) != mode ==> Up(Down(mode)) == mode
    ensures Up(mode) != mode ==> Down(Up(mode)) == mode
  {
  }

  function StateOf(sessions: Sessions, id: SessionId): DegradeState {
    if id in sessions then sessions[id] else FRESH
  }

  predicate Stalls(stallRate: real) {
    stallRate > 0.05
  }

  function StallBegin(st: DegradeState, now: Time): Time {
    if st.stallStart.Some? then st.stallStart.value else now
  }

  predicate Downgrades(st: DegradeState, stallRate: real, now: Time) {
    !st.override && Stalls(stallRate) && now - StallBegin(st, now) >= STALL_TIME && Down(st.mode) != st.mode
  }

  function Reported(st: DegradeState, stallRate: real, now: Time): DegradeState {
    if st.override then st
    else if Downgrades(st, stallRate, now) then DegradeState(Down(st.mode), None, None, 0, false)
    else if Stalls(stallRate) then
      st.(stallStart := Some(StallBegin(st, now)), stableStart := None, reportCount := st.reportCount + 1)
    else st.(stallStart := None, stableStart := if st.stableStart.Some? then st.stableStart else Some(now))
  }

  predicate Upgrades(st: DegradeState, now: Time) {
    !st.override && st.stableStart.Some? && now - st.stableStart.value >= STABLE_TIME && Up(st.mode) != st.mode
  }

  function Adjusted(st: DegradeState, now: Time): DegradeState {
    if Upgrades(st, now) then st.(mode := Up(st.mode), stableStart := Some(now)) else st
  }

  predicate Dropped(st: DegradeState, now: Time) {
    || (st.stableStart.None? && st.stallStart.None?)
    || (st.stableStart.Some? && now - st.stableStart.value > IDLE_TIME)
  }

  function Checked(sessions: Sessions, now: Time): Sessions {
    map id | id in sessions && !Dropped(Adjusted(sessions[id], now), now) :: Adjusted(sessions[id], now)
  }

  function Overridden(sessions: Sessions, id: SessionId, mode: Mode): Sessions {
    if id in sessions then sessions[id := sessions[id].(mode := mode, override := true)]
    else sessions[id := DegradeState(mode, None, None, 0, true)]
  }

  class LatencyController {
    var sessions: Sessions

    constructor ()
      ensures sessions == map[]
    {
      sessions := map[];
    }

    method Downgrade(current: Mode) returns (mode: Mode)
      ensures mode == Down(current)
    {
      for i := 0 to |DOWNGRADE_RULES|
        invariant forall k | 0 <= k < i :: DOWNGRADE_RULES[k].from != current
      {
        if DOWNGRADE_RULES[i].from == current {
          return DOWNGRADE_RULES[i].to;
        }
      }
      assert DOWNGRADE_RULES[0].from != current && DOWNGRADE_RULES[1].from != current;
      return current;
    }

    method Upgrade(current: Mode) returns (mode: Mode)
      ensures mode == Up(current)
    {
      for i := 0 to |UPGRADE_RULES|
        invariant forall k | 0 <= k < i :: UPGRADE_RULES[k].from != current
      {
        if UPGRADE_RULES[i].from == current {
          return UPGRADE_RULES[i].to;
        }
      }
      assert UPGRADE_RULES[0].from != current && UPGRADE_RULES[1].from != current;
      return current;
    }

    method ProcessQualityReport(id: SessionId, stallRate: real, now: Time) returns (downgraded: bool, mode: Mode)
      modifies this
      ensures sessions == old(sessions)[id := Reported(StateOf(old(sessions), id), stallRate, now)]
      ensures downgraded == Downgrades(StateOf(old(sessions), id), stallRate, now)
      ensures mode == sessions[id].mode
    {
      if id !in sessions {
        sessions := sessions[id := FRESH];
      }
      var st := sessions[id];
      if st.override {
        return false, st.mode;
      }
      if stallRate > 0.05 {
        if st.stallStart.None? {
          st := st.(stallStart := Some(now));
        }
        st := st.(stableStart := None, reportCount := st.reportCount + 1);
        if now - st.stallStart.value >= STALL_TIME {
          var newMode := Downgrade(st.mode);
          if newMode != st.mode {
            st := st.(mode := newMode, stallStart := None, reportCount := 0);
            sessions := sessions[id := st];
            return true, newMode;
          }
        }
      } else {
        if st.stableStart.None? {
          st := st.(stableStart := Some(now));
        }
        st := st.(stallStart := None);
      }
      sessions := sessions[id := st];
      return false, st.mode;
    }

    method CheckAndAdjust(now: Time)
      modifies this
      ensures sessions == Checked(old(sessions), now)
    {
      hide Adjusted, Dropped;
      var left := sessions.Keys;
      while left != {}
        invariant left <= old(sessions).Keys
        invariant sessions == map id | id in old(sessions) ::
                    if id in left then old(sessions)[id] else Adjusted(old(sessions)[id], now)
        decreases |left|
      {
        var id :| id in left;
        var st := AdjustOne(sessions[id], now);
        sessions := sessions[id := st];
        left := left - {id};
      }
      left := sessions.Keys;
      ghost var adjusted := sessions;
      while left != {}
        invariant left <= adjusted.Keys
        invariant sessions == map id | id in adjusted && (id in left || !Dropped(adjusted[id], now)) :: adjusted[id]
        decreases |left|
      {
        var id :| id in left;
        var drop := ShouldDrop(sessions[id], now);
        if drop {
          sessions := sessions - {id};
        }
        left := left - {id};
      }
    }

    method AdjustOne(state: DegradeState, now: Time) returns (st: DegradeState)
      ensures st == Adjusted(state, now)
    {
      st := state;
      if st.override {
        return;
      }
      if st.stableStart.Some? && now - st.stableStart.value >= STABLE_TIME {
        var newMode := Upgrade(st.mode);
        if newMode != st.mode {
          st := st.(mode := newMode, stableStart := Some(now));
        }
      }
    }

    method ShouldDrop(st: DegradeState, now: Time) returns (drop: bool)
      ensures drop == Dropped(st, now)
    {
      if st.stableStart.None? && st.stallStart.None? {
        return true;
      } else if st.stableStart.Some? && now - st.stableStart.value > IDLE_TIME {
        return true;
      }
      return false;
    }

    method SetOverride(id: SessionId, mode: Mode)
      modifies this
      ensures sessions == Overridden(old(sessions), id, mode)
    {
      if id !in sessions {
        sessions := sessions[id := DegradeState(mode, None, None, 0, true)];
      } else {
        sessions := sessions[id := sessions[id].(mode := mode, override := true)];
      }
    }

    method GetSessionMode(id: SessionId) returns (mode: Mode)
      ensures mode == StateOf(sessions, id).mode
    {
      if id in sessions {
        return sessions[id].mode;
      }
      return Ultra;
    }
  }

  // ----- runs -----

  datatype Event = Report(id: SessionId, stallRate: real) | Check | Override(id: SessionId, mode: Mode)

  datatype Step = Step(event: Event, now: Time)

  function Next(sessions: Sessions, step: Step): Sessions {
    match step.event
    case Report(id, stallRate) => sessions[id := Reported(StateOf(sessions, id), stallRate, step.now)]
    case Check => Checked(sessions, step.now)
    case Override(id, mode) => Overridden(sessions, id, mode)
  }

  function After(run: seq<Step>): Sessions {
    if run == [] then map[] else Next(After(run[..|run| - 1]), run[|run| - 1])
  }

  /** A session without an entry behaves, and answers, as a fresh one. */
  function SessionAfter(run: seq<Step>, id: SessionId): DegradeState {
    StateOf(After(run), id)
  }

  predicate TimeOrdered(run: seq<Step>) {
    forall i, j | 0 <= i <= j < |run| :: run[i].now <= run[j].now
  }

  function Changed(st: DegradeState, step: Step, id: SessionId): DegradeState {
    match step.event
    case Report(other, stallRate) => if other == id then Reported(st, stallRate, step.now) else st
    case Check => if Dropped(Adjusted(st, step.now), step.now) then FRESH else Adjusted(st, step.now)
    case Override(other, mode) => if other == id then st.(mode := mode, override := true) else st
  }

  /** Sessions do not affect each other, and losing an entry is the same as starting over. */
  lemma SessionsAreIndependent(run: seq<Step>, id: SessionId)
    requires run != []
    ensures SessionAfter(run, id) == Changed(SessionAfter(run[..|run| - 1], id), run[|run| - 1], id)
  {
    hide Reported, Adjusted, Upgrades;
    assert Adjusted(FRESH, run[|run| - 1].now) == FRESH by { FreshIsKept(run[|run| - 1].now); }
  }

  lemma FreshIsKept(now: Time)
    ensures Adjusted(FRESH, now) == FRESH
  {
  }

  predicate StallsAt(run: seq<Step>, i: nat, id: SessionId) {
    i < |run| && run[i].event.Report? && run[i].event.id == id && run[i].event.stallRate > 0.05
  }

  predicate StableAt(run: seq<Step>, i: nat, id: SessionId) {
    i < |run| && run[i].event.Report? && run[i].event.id == id && run[i].event.stallRate <= 0.05
  }

  predicate DowngradesAt(run: seq<Step>, i: nat, id: SessionId) {
    StallsAt(run, i, id) && Downgrades(SessionAfter(run[..i], id), run[i].event.stallRate, run[i].now)
  }

  predicate UpgradesAt(run: seq<Step>, i: nat, id: SessionId) {
    i < |run| && run[i].event.Check? && Upgrades(SessionAfter(run[..i], id), run[i].now)
  }

  /** An override is in force just before step k. */
  predicate OverriddenAt(run: seq<Step>, k: nat, id: SessionId) {
    k <= |run| && SessionAfter(run[..k], id).override
  }

  predicate BreaksAt(run: seq<Step>, k: nat, id: SessionId) {
    StableAt(run, k, id) || DowngradesAt(run, k, id) || OverriddenAt(run, k, id)
  }

  /** A stalling report at i, and from there on before n no report of a smooth session, no downgrade and
      no override in force. */
  predicate UnbrokenFrom(run: seq<Step>, i: nat, n: nat, id: SessionId) {
    StallsAt(run, i, id) && forall k: nat | i <= k < n :: !BreaksAt(run, k, id)
  }

  /** A check deletes the session's entry. */
  predicate ForgetsAt(run: seq<Step>, k: nat, id: SessionId) {
    && k < |run| && run[k].event.Check?
    && Dropped(Adjusted(SessionAfter(run[..k], id), run[k].now), run[k].now)
  }

  predicate RoughAt(run: seq<Step>, k: nat, id: SessionId) {
    StallsAt(run, k, id) || UpgradesAt(run, k, id) || OverriddenAt(run, k, id) || ForgetsAt(run, k, id)
  }

  /** A smooth report at i, or an upgrade, and from there on before n no stalling report, no further upgrade,
      no override in force and no deletion. */
  predicate SmoothFrom(run: seq<Step>, i: nat, n: nat, id: SessionId) {
    && ((StableAt(run, i, id) && !OverriddenAt(run, i, id)) || UpgradesAt(run, i, id))
    && forall k: nat | i < k < n :: !RoughAt(run, k, id)
  }

  /** The two timers are never both running; while one runs, it tells when this stretch began. */
  ghost predicate TimersTell(run: seq<Step>, id: SessionId) {
    var st := SessionAfter(run, id);
    && (st.stallStart.None? || st.stableStart.None?)
    && (st.stallStart.Some? && !st.override ==>
          exists i: nat | i < |run| :: run[i].now == st.stallStart.value && UnbrokenFrom(run, i, |run|, id))
    && (st.stableStart.Some? && !st.override ==>
          exists i: nat | i < |run| :: run[i].now == st.stableStart.value && SmoothFrom(run, i, |run|, id))
  }

  lemma {:induction false} TimersOfRun(run: seq<Step>, id: SessionId)
    requires TimeOrdered(run)
    ensures TimersTell(run, id)
  {
    hide After, SessionAfter, Reported, TimersTell, TimeOrdered;
    if run == [] {
      NoTimers(id);
    } else {
      var n := |run| - 1;
      assert TimeOrdered(run[..n]) by { OrderedPrefix(run, n); }
      TimersOfRun(run[..n], id);
      if run[n].event.Report? && run[n].event.id == id {
        if Stalls(run[n].event.stallRate) {
          StallKeepsTimers(run, id);
        } else {
          SmoothKeepsTimers(run, id);
        }
      } else {
        OthersKeepTimers(run, id);
      }
    }
  }

  lemma NoTimers(id: SessionId)
    ensures TimersTell([], id)
  {
    assert SessionAfter([], id) == FRESH;
  }

  lemma OrderedPrefix(run: seq<Step>, n: nat)
    requires TimeOrdered(run) && n <= |run|
    ensures TimeOrdered(run[..n])
  {
  }

  /** What is known of a step before the last holds in the shorter run as well. */
  lemma PrefixEvents(run: seq<Step>, k: nat, id: SessionId)
    requires k < |run| - 1
    ensures StallsAt(run[..|run| - 1], k, id) == StallsAt(run, k, id)
    ensures StableAt(run[..|run| - 1], k, id) == StableAt(run, k, id)
    ensures DowngradesAt(run[..|run| - 1], k, id) == DowngradesAt(run, k, id)
    ensures BreaksAt(run[..|run| - 1], k, id) == BreaksAt(run, k, id)
    ensures UpgradesAt(run[..|run| - 1], k, id) == UpgradesAt(run, k, id)
    ensures RoughAt(run[..|run| - 1], k, id) == RoughAt(run, k, id)
  {
    hide Downgrades, Upgrades, Dropped, Adjusted, SessionAfter;
    assert run[..|run| - 1][..k] == run[..k];
  }

  lemma UnbrokenGrows(run: seq<Step>, i: nat, id: SessionId)
    requires run != [] && UnbrokenFrom(run[..|run| - 1], i, |run| - 1, id)
    requires !BreaksAt(run, |run| - 1, id)
    ensures UnbrokenFrom(run, i, |run|, id)
  {
    hide StallsAt, BreaksAt;
    assert i < |run| - 1 by { StallsInRange(run[..|run| - 1], i, id); }
    forall k: nat | i <= k < |run| - 1 ensures !BreaksAt(run, k, id) {
      PrefixEvents(run, k, id);
    }
    PrefixEvents(run, i, id);
  }

  lemma SmoothGrows(run: seq<Step>, i: nat, id: SessionId)
    requires run != [] && SmoothFrom(run[..|run| - 1], i, |run| - 1, id)
    requires !RoughAt(run, |run| - 1, id)
    ensures SmoothFrom(run, i, |run|, id)
  {
    hide RoughAt, StableAt, UpgradesAt, SessionAfter;
    assert i < |run| - 1 by { SmoothInRange(run[..|run| - 1], i, |run| - 1, id); }
    forall k: nat | i < k < |run| - 1 ensures !RoughAt(run, k, id) {
      PrefixEvents(run, k, id);
    }
    PrefixEvents(run, i, id);
    assert run[..|run| - 1][..i] == run[..i];
  }

  lemma SmoothInRange(run: seq<Step>, i: nat, n: nat, id: SessionId)
    requires SmoothFrom(run, i, n, id)
    ensures i < |run|
  {
  }

  lemma StallsInRange(run: seq<Step>, i: nat, id: SessionId)
    requires StallsAt(run, i, id)
    ensures i < |run|
  {
  }

  lemma StallKeepsTimers(run: seq<Step>, id: SessionId)
    requires run != [] && TimersTell(run[..|run| - 1], id) && StallsAt(run, |run| - 1, id)
    ensures TimersTell(run, id)
  {
    hide After, SessionAfter, UnbrokenFrom, SmoothFrom;
    var n := |run| - 1;
    var before := SessionAfter(run[..n], id);
    SessionsAreIndependent(run, id);
    if !before.override && !Downgrades(before, run[n].event.stallRate, run[n].now) {
      if before.stallStart.Some? {
        var i: nat :| i < n && run[..n][i].now == before.stallStart.value && UnbrokenFrom(run[..n], i, n, id);
        UnbrokenGrows(run, i, id);
      } else {
        assert UnbrokenFrom(run, n, |run|, id) by { JustBegun(run, id); }
      }
    }
  }

  lemma JustBegun(run: seq<Step>, id: SessionId)
    requires run != [] && StallsAt(run, |run| - 1, id) && !BreaksAt(run, |run| - 1, id)
    ensures UnbrokenFrom(run, |run| - 1, |run|, id)
  {
    hide BreaksAt;
  }

  lemma SmoothKeepsTimers(run: seq<Step>, id: SessionId)
    requires run != [] && TimersTell(run[..|run| - 1], id) && StableAt(run, |run| - 1, id)
    ensures TimersTell(run, id)
  {
    hide After, SessionAfter, UnbrokenFrom, SmoothFrom;
    var n := |run| - 1;
    var before := SessionAfter(run[..n], id);
    SessionsAreIndependent(run, id);
    if !before.override {
      if before.stableStart.Some? {
        var i: nat :| i < n && run[..n][i].now == before.stableStart.value && SmoothFrom(run[..n], i, n, id);
        SmoothGrows(run, i, id);
      } else {
        assert SmoothFrom(run, n, |run|, id) by { SmoothBegins(run, id); }
      }
    }
  }

  lemma SmoothBegins(run: seq<Step>, id: SessionId)
    requires run != []
    requires var n := |run| - 1; (StableAt(run, n, id) && !OverriddenAt(run, n, id)) || UpgradesAt(run, n, id)
    ensures SmoothFrom(run, |run| - 1, |run|, id)
  {
    hide StableAt, OverriddenAt, UpgradesAt, RoughAt;
  }

  lemma OthersKeepTimers(run: seq<Step>, id: SessionId)
    requires run != [] && TimersTell(run[..|run| - 1], id)
    requires !StallsAt(run, |run| - 1, id) && !StableAt(run, |run| - 1, id)
    ensures TimersTell(run, id)
  {
    hide After, SessionAfter, UnbrokenFrom, SmoothFrom;
    var n := |run| - 1;
    var before := SessionAfter(run[..n], id);
    SessionsAreIndependent(run, id);
    if before.stallStart.Some? && !before.override {
      var i: nat :| i < n && run[..n][i].now == before.stallStart.value && UnbrokenFrom(run[..n], i, n, id);
      UnbrokenGrows(run, i, id);
    }
    if UpgradesAt(run, n, id) {
      assert SmoothFrom(run, n, |run|, id) by { SmoothBegins(run, id); }
    } else if before.stableStart.Some? && !before.override && !RoughAt(run, n, id) {
      var i: nat :| i < n && run[..n][i].now == before.stableStart.value && SmoothFrom(run[..n], i, n, id);
      SmoothGrows(run, i, id);
    }
  }

  /** A downgrade comes at the end of 30 seconds or more in which every report of the session stalled
      and none downgraded it. */
  lemma DowngradeRule(run: seq<Step>, n: nat, id: SessionId)
    requires TimeOrdered(run) && DowngradesAt(run, n, id)
    ensures exists i: nat | i < n :: UnbrokenFrom(run, i, n, id) && run[n].now - run[i].now >= 30 * SECOND
  {
    hide After, SessionAfter, UnbrokenFrom;
    OrderedPrefix(run, n);
    TimersOfRun(run[..n], id);
    var before := SessionAfter(run[..n], id);
    assert before.stallStart.Some?;
    var i: nat :| i < n && run[..n][i].now == before.stallStart.value && UnbrokenFrom(run[..n], i, n, id);
    UnbrokenIn(run, n, i, id);
  }

  lemma {:induction false} StallTimerRuns(run: seq<Step>, i: nat, id: SessionId)
    requires TimeOrdered(run) && !SessionAfter(run, id).override
    requires UnbrokenFrom(run, i, |run|, id)
    ensures SessionAfter(run, id).stallStart.Some? && SessionAfter(run, id).stallStart.value <= run[i].now
  {
    hide After, SessionAfter, UnbrokenFrom;
    UnbrokenStarts(run, i, id);
    var n := |run| - 1;
    OrderedPrefix(run, n);
    UnbrokenShrinks(run, i, id);
    SessionsAreIndependent(run, id);
    TimersOfRun(run[..n], id);
    assert run[i].now <= run[n].now;
    if i < n {
      StallTimerRuns(run[..n], i, id);
    }
  }

  lemma UnbrokenStarts(run: seq<Step>, i: nat, id: SessionId)
    requires UnbrokenFrom(run, i, |run|, id)
    ensures i < |run|
  {
  }

  lemma UnbrokenShrinks(run: seq<Step>, i: nat, id: SessionId)
    requires run != [] && UnbrokenFrom(run, i, |run|, id)
    ensures i < |run| && !BreaksAt(run, |run| - 1, id)
    ensures i < |run| - 1 ==> UnbrokenFrom(run[..|run| - 1], i, |run| - 1, id)
    ensures i == |run| - 1 ==> StallsAt(run, i, id)
  {
    hide BreaksAt;
    var front := run[..|run| - 1];
    forall k: nat | i <= k < |front| ensures !BreaksAt(front, k, id)
    {
      PrefixEvents(run, k, id);
    }
  }

  /** The rule is exact: a stalling report downgrades if and only if no override is in force, there is a
      mode to go down to, and 30 seconds of unbroken stalling lie behind it. */
  lemma DowngradeIff(run: seq<Step>, n: nat, id: SessionId)
    requires TimeOrdered(run) && StallsAt(run, n, id)
    ensures DowngradesAt(run, n, id)
       <==> && !OverriddenAt(run, n, id)
            && Down(SessionAfter(run[..n], id).mode) != SessionAfter(run[..n], id).mode
            && exists i: nat | i < n :: UnbrokenFrom(run, i, n, id) && run[n].now - run[i].now >= 30 * SECOND
  {
    hide After, SessionAfter, UnbrokenFrom;
    if DowngradesAt(run, n, id) {
      DowngradeRule(run, n, id);
    } else if !OverriddenAt(run, n, id) {
      forall i: nat | i < n && UnbrokenFrom(run, i, n, id) && run[n].now - run[i].now >= 30 * SECOND
        ensures Down(SessionAfter(run[..n], id).mode) == SessionAfter(run[..n], id).mode
      {
        UnbrokenIn(run, n, i, id);
        OrderedPrefix(run, n);
        StallTimerRuns(run[..n], i, id);
      }
    }
  }

  lemma UnbrokenIn(run: seq<Step>, n: nat, i: nat, id: SessionId)
    requires n <= |run| && i < n
    ensures UnbrokenFrom(run[..n], i, n, id) == UnbrokenFrom(run, i, n, id)
  {
    hide Downgrades, SessionAfter;
    forall k: nat | i <= k < n ensures BreaksAt(run, k, id) == BreaksAt(run[..n], k, id) {
      assert run[..n][..k] == run[..k];
    }
  }

  /** Two downgrades of a session are at least 30 seconds apart, whatever was deleted in between. */
  lemma DowngradesAreSpaced(run: seq<Step>, m: nat, n: nat, id: SessionId)
    requires TimeOrdered(run) && m < n && DowngradesAt(run, m, id) && DowngradesAt(run, n, id)
    ensures run[n].now - run[m].now >= 30 * SECOND
  {
    hide DowngradesAt;
    DowngradeInRange(run, n, id);
    DowngradeRule(run, n, id);
    var i: nat :| i < n && UnbrokenFrom(run, i, n, id) && run[n].now - run[i].now >= 30 * SECOND;
    assert BreaksAt(run, m, id);
    assert run[m].now <= run[i].now;
  }

  lemma DowngradeInRange(run: seq<Step>, n: nat, id: SessionId)
    requires DowngradesAt(run, n, id)
    ensures n < |run|
  {
  }

  /** An upgrade comes at the end of 120 seconds or more of smooth reports, and only then. */
  lemma UpgradeIff(run: seq<Step>, n: nat, id: SessionId)
    requires TimeOrdered(run) && n < |run| && run[n].event.Check?
    ensures UpgradesAt(run, n, id)
       <==> && !OverriddenAt(run, n, id)
            && Up(SessionAfter(run[..n], id).mode) != SessionAfter(run[..n], id).mode
            && exists i: nat | i < n :: SmoothFrom(run, i, n, id) && run[n].now - run[i].now >= 120 * SECOND
  {
    hide After, SessionAfter, UnbrokenFrom, SmoothFrom;
    OrderedPrefix(run, n);
    TimersOfRun(run[..n], id);
    var before := SessionAfter(run[..n], id);
    if UpgradesAt(run, n, id) {
      var i: nat :| i < n && run[..n][i].now == before.stableStart.value && SmoothFrom(run[..n], i, n, id);
      SmoothIn(run, n, i, id);
    }
    forall i: nat | i < n && SmoothFrom(run, i, n, id) && !OverriddenAt(run, n, id)
      ensures before.stableStart.Some? && before.stableStart.value <= run[i].now
    {
      SmoothIn(run, n, i, id);
      StableTimerRuns(run[..n], i, id);
    }
  }

  lemma SmoothIn(run: seq<Step>, n: nat, i: nat, id: SessionId)
    requires i < n <= |run|
    ensures SmoothFrom(run[..n], i, n, id) <==> SmoothFrom(run, i, n, id)
  {
    hide RoughAt, StableAt, OverriddenAt, UpgradesAt;
    forall k: nat | k < n
      ensures RoughAt(run[..n], k, id) == RoughAt(run, k, id) && StableAt(run[..n], k, id) == StableAt(run, k, id)
      ensures OverriddenAt(run[..n], k, id) == OverriddenAt(run, k, id)
      ensures UpgradesAt(run[..n], k, id) == UpgradesAt(run, k, id)
    {
      RoughIn(run, n, k, id);
    }
  }

  lemma RoughIn(run: seq<Step>, n: nat, k: nat, id: SessionId)
    requires k < n <= |run|
    ensures RoughAt(run[..n], k, id) == RoughAt(run, k, id) && StableAt(run[..n], k, id) == StableAt(run, k, id)
    ensures OverriddenAt(run[..n], k, id) == OverriddenAt(run, k, id)
    ensures UpgradesAt(run[..n], k, id) == UpgradesAt(run, k, id)
  {
    hide SessionAfter, Upgrades, Adjusted, Dropped;
    assert run[..n][..k] == run[..k];
  }

  lemma {:induction false} StableTimerRuns(run: seq<Step>, i: nat, id: SessionId)
    requires TimeOrdered(run) && !SessionAfter(run, id).override
    requires i < |run| && SmoothFrom(run, i, |run|, id)
    ensures SessionAfter(run, id).stableStart.Some? && SessionAfter(run, id).stableStart.value <= run[i].now
  {
    hide After, SessionAfter;
    var n := |run| - 1;
    OrderedPrefix(run, n);
    SessionsAreIndependent(run, id);
    if i < n {
      assert !RoughAt(run, n, id);
      SmoothShrinks(run, i, id);
      hide SmoothFrom;
      StableTimerRuns(run[..n], i, id);
    } else {
      TimersOfRun(run[..n], id);
      StableTimerInPast(run[..n], id);
    }
  }

  lemma SmoothShrinks(run: seq<Step>, i: nat, id: SessionId)
    requires run != [] && i < |run| - 1 && SmoothFrom(run, i, |run|, id)
    ensures SmoothFrom(run[..|run| - 1], i, |run| - 1, id)
  {
    SmoothIn(run, |run| - 1, i, id);
  }

  lemma StableTimerInPast(run: seq<Step>, id: SessionId)
    requires TimeOrdered(run) && TimersTell(run, id)
    ensures var st := SessionAfter(run, id);
            st.stableStart.Some? && !st.override ==> run != [] && st.stableStart.value <= run[|run| - 1].now
  {
    hide SessionAfter, SmoothFrom, UnbrokenFrom;
  }

  /** So it comes at least 120 seconds after the last stalling report of the session and the last upgrade. */
  lemma UpgradeRule(run: seq<Step>, n: nat, id: SessionId)
    requires TimeOrdered(run) && UpgradesAt(run, n, id)
    ensures forall j: nat | j < n && (StallsAt(run, j, id) || UpgradesAt(run, j, id)) ::
              run[n].now - run[j].now >= 120 * SECOND
  {
    hide After, SessionAfter;
    UpgradeIff(run, n, id);
    var i: nat :| i < n && SmoothFrom(run, i, n, id) && run[n].now - run[i].now >= 120 * SECOND;
    forall j: nat | j < n && (StallsAt(run, j, id) || UpgradesAt(run, j, id))
      ensures run[n].now - run[j].now >= 120 * SECOND
    {
      assert RoughAt(run, j, id);
      assert run[j].now <= run[i].now;
    }
  }

  // ----- the ladder of modes -----

  /** Agent and client buffer of a mode together, in milliseconds. */
  function BufferMs(mode: Mode): nat
    requires !mode.Other?
  {
    match mode
    case Ultra => 200 + 300
    case Standard => 800 + 1000
    case Resilient => 2000 + 3000
  }

  /** A downgrade always buys more buffer and an upgrade gives some back; each is refused only at its end of
      the scale. */
  lemma ModesAreALadder(mode: Mode)
    requires !mode.Other?
    ensures !Down(mode).Other? && (Down(mode) != mode ==> BufferMs(Down(mode)) > BufferMs(mode))
    ensures !Up(mode).Other? && (Up(mode) != mode ==> BufferMs(Up(mode)) < BufferMs(mode))
    ensures Down(mode) == mode <==> forall other: Mode | !other.Other? :: BufferMs(other) <= BufferMs(mode)
    ensures Up(mode) == mode <==> forall other: Mode | !other.Other? :: BufferMs(other) >= BufferMs(mode)
  {
    assert BufferMs(Resilient) > BufferMs(Standard) > BufferMs(Ultra);
  }

  /** Downgrades less upgrades of a session since its entry was last deleted. */
  function Rung(run: seq<Step>, id: SessionId): int {
    if run == [] then 0
    else
      var n := |run| - 1;
      if ForgetsAt(run, n, id) then 0
      else Rung(run[..n], id) + if DowngradesAt(run, n, id) then 1 else if UpgradesAt(run, n, id) then -1 else 0
  }

  /** A session that was never overridden has the mode that its downgrades and upgrades lead to. */
  lemma {:induction false} ModeOfRun(run: seq<Step>, id: SessionId)
    requires forall k | 0 <= k < |run| :: !(run[k].event.Override? && run[k].event.id == id)
    ensures var st := SessionAfter(run, id);
            && !st.override && 0 <= Rung(run, id) <= 2
            && st.mode == [Ultra, Standard, Resilient][Rung(run, id)]
  {
    hide After, SessionAfter, Dropped;
    if run == [] {
      NoEntry(id);
    } else {
      ModeOfRun(run[..|run| - 1], id);
      SessionsAreIndependent(run, id);
    }
  }

  lemma NoEntry(id: SessionId)
    ensures SessionAfter([], id) == FRESH
  {
  }

  // ----- what a check forgets -----

  /** The mode a session is in after a check is the mode it was in, unless the check upgrades it or
      deletes its entry; it does the latter to every session without a running timer. */
  lemma ModeSurvivesCheck(run: seq<Step>, id: SessionId, now: Time)
    requires TimeOrdered(run)
    ensures var st := SessionAfter(run, id);
            SessionAfter(run + [Step(Check, now)], id).mode == st.mode
            <==> || st.mode == Ultra
                 || st.stallStart.Some?
                 || (st.stableStart.Some?
                     && if st.override || st.mode.Other? then now - st.stableStart.value <= 3600 * SECOND
                        else now - st.stableStart.value < 120 * SECOND)
  {
    hide After, SessionAfter, UnbrokenFrom;
    TimersOfRun(run, id);
    AfterCheck(run, id, now);
  }

  lemma AfterCheck(run: seq<Step>, id: SessionId, now: Time)
    ensures SessionAfter(run + [Step(Check, now)], id) == Changed(SessionAfter(run, id), Step(Check, now), id)
  {
    hide After, SessionAfter, Changed;
    assert (run + [Step(Check, now)])[..|run|] == run;
    SessionsAreIndependent(run + [Step(Check, now)], id);
  }

  /** A downgrade stops both timers, so a check before the next report undoes it altogether: the session
      is back in the lowest-latency mode, from however many steps down. */
  lemma CheckForgetsDowngrade(run: seq<Step>, id: SessionId, now: Time)
    requires run != [] && DowngradesAt(run, |run| - 1, id)
    ensures SessionAfter(run, id).mode != Ultra
    ensures SessionAfter(run + [Step(Check, now)], id) == FRESH
  {
    hide After, SessionAfter;
    SessionsAreIndependent(run, id);
    assert (run + [Step(Check, now)])[..|run|] == run;
    SessionsAreIndependent(run + [Step(Check, now)], id);
  }

  /** An override survives a check exactly when one of the session's timers happens to run. */
  lemma OverrideSurvivesCheck(run: seq<Step>, id: SessionId, now: Time)
    requires TimeOrdered(run) && SessionAfter(run, id).override
    ensures var st := SessionAfter(run, id);
            SessionAfter(run + [Step(Check, now)], id).override
            <==> st.stallStart.Some? || (st.stableStart.Some? && now - st.stableStart.value <= 3600 * SECOND)
  {
    hide After, SessionAfter, UnbrokenFrom;
    TimersOfRun(run, id);
    AfterCheck(run, id, now);
  }

  /** In particular, an override of a session that has not reported yet lasts until the next check. */
  lemma CheckForgetsOverride(run: seq<Step>, id: SessionId, mode: Mode, now: Time, later: Time)
    requires SessionAfter(run, id) == FRESH
    ensures SessionAfter(run + [Step(Override(id, mode), now)], id).mode == mode
    ensures SessionAfter(run + [Step(Override(id, mode), now)] + [Step(Check, later)], id) == FRESH
  {
    hide After, SessionAfter;
    var set1 := run + [Step(Override(id, mode), now)];
    assert set1[..|run|] == run;
    SessionsAreIndependent(set1, id);
    assert (set1 + [Step(Check, later)])[..|set1|] == set1;
    SessionsAreIndependent(set1 + [Step(Check, later)], id);
  }
}
