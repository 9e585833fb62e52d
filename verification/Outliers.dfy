/** Outlier ejection: a node that keeps failing is kept out of dispatch, for longer each time. */
module Outliers {
  import opened Options
  import opened CascadeSelector
  import opened NodeStore

  const CONSECUTIVE_FAILS := 5
  const BASE_EJECT := 30 * SECOND
  const MAX_EJECT := 300 * SECOND

  /** The last escalation whose duration still fits a signed 64-bit nanosecond count. */
  const LAST_ESCALATION: nat := 307_445_734

  datatype OutlierState = OutlierState(consecutiveFails: nat, ejectedUntil: Option<Time>, ejectCount: nat,
                                       lastEjectAt: Option<Time>)

  type OutlierMap = map<NodeId, OutlierState>

  const FRESH := OutlierState(0, None, 0, None)

  function StateOf(outliers: OutlierMap, id: NodeId): OutlierState {
    if id in outliers then outliers[id] else FRESH
  }

  function Signed64(x: int): int {
    var low := x % 0x1_0000_0000_0000_0000;
    if low < 0x8000_0000_0000_0000 then low else low - 0x1_0000_0000_0000_0000
  }

  function EjectDuration(ejectCount: nat): Time {
    var duration := Signed64(BASE_EJECT * ejectCount);
    if duration > MAX_EJECT then MAX_EJECT else duration
  }

  function Failed(st: OutlierState, now: Time): OutlierState {
    var st := st.(consecutiveFails := st.consecutiveFails + 1, lastEjectAt := Some(now));
    if st.consecutiveFails >= CONSECUTIVE_FAILS then
      st.(ejectCount := st.ejectCount + 1, ejectedUntil := Some(now + EjectDuration(st.ejectCount + 1)))
    else st
  }

  predicate Expired(st: OutlierState, now: Time) {
    st.ejectedUntil.Some? && now > st.ejectedUntil.value
  }

  /** Still in its ejection; the last nanosecond counts as ejected. */
  predicate Flagged(st: OutlierState, now: Time) {
    st.ejectedUntil.Some? && !Expired(st, now)
  }

  function Succeeded(st: OutlierState, now: Time): OutlierState {
    var st := st.(consecutiveFails := 0);
    if Expired(st, now) then st.(ejectedUntil := None, ejectCount := 0) else st
  }

  function Recovered(st: OutlierState, now: Time): OutlierState {
    if Expired(st, now) then st.(ejectedUntil := None, consecutiveFails := 0) else st
  }

  function FailWeight(w: real): real {
    if w * 0.5 < 0.1 then 0.1 else w * 0.5
  }

  function SuccessWeight(w: real): real {
    if w < 1.0 then (if w + 0.1 > 1.0 then 1.0 else w + 0.1) else w
  }

  function RestWeight(w: real): real {
    if 0.0 < w < 1.0 then (if w + 0.05 > 1.0 then 1.0 else w + 0.05) else w
  }

  /** The node's own fields after a failure; `fails` is the count of its record. */
  function Blamed(nodes: Nodes, id: NodeId, fails: nat, now: Time): Nodes {
    if id in nodes then
      nodes[id := nodes[id].(effectiveWeight := FailWeight(nodes[id].effectiveWeight),
                             consecutiveFails := fails, lastFailAt := Some(now))]
    else nodes
  }

  /** After a success; a node of full weight is left alone, its own fail count included. */
  function Praised(nodes: Nodes, id: NodeId): Nodes {
    if id in nodes && nodes[id].effectiveWeight < 1.0 then
      nodes[id := nodes[id].(effectiveWeight := SuccessWeight(nodes[id].effectiveWeight), consecutiveFails := 0)]
    else nodes
  }

  function AllRecovered(outliers: OutlierMap, now: Time): OutlierMap {
    map id | id in outliers :: Recovered(outliers[id], now)
  }

  function AllRested(nodes: Nodes, healthy: set<NodeId>): Nodes {
    map id | id in nodes ::
      if id in healthy then nodes[id].(effectiveWeight := RestWeight(nodes[id].effectiveWeight)) else nodes[id]
  }

  class Detector {
    const store: MemoryStore
    var outliers: OutlierMap

    constructor (store: MemoryStore)
      ensures this.store == store && outliers == map[]
    {
      this.store := store;
      outliers := map[];
    }

    method ReportNodeFail(id: NodeId, now: Time)
      modifies this`outliers, store`nodes
      ensures outliers == old(outliers)[id := Failed(StateOf(old(outliers), id), now)]
      ensures store.nodes == Blamed(old(store.nodes), id, outliers[id].consecutiveFails, now)
    {
      if id !in outliers {
        outliers := outliers[id := FRESH];
      }
      var st := outliers[id];
      st := st.(consecutiveFails := st.consecutiveFails + 1, lastEjectAt := Some(now));
      if id in store.nodes {
        var node := store.nodes[id];
        var weight := node.effectiveWeight * 0.5;
        if weight < 0.1 {
          weight := 0.1;
        }
        node := node.(effectiveWeight := weight, consecutiveFails := st.consecutiveFails, lastFailAt := Some(now));
        store.nodes := store.nodes[id := node];
      }
      if st.consecutiveFails >= CONSECUTIVE_FAILS {
        st := st.(ejectCount := st.ejectCount + 1);
        var duration := Signed64(BASE_EJECT * st.ejectCount);
        if duration > MAX_EJECT {
          duration := MAX_EJECT;
        }
        st := st.(ejectedUntil := Some(now + duration));
      }
      outliers := outliers[id := st];
    }

    method ReportNodeSuccess(id: NodeId, now: Time)
      modifies this`outliers, store`nodes
      ensures outliers == if id in old(outliers) then old(outliers)[id := Succeeded(old(outliers)[id], now)]
                          else old(outliers)
      ensures store.nodes == Praised(old(store.nodes), id)
    {
      if id in outliers {
        var st := outliers[id].(consecutiveFails := 0);
        if st.ejectedUntil.Some? && now > st.ejectedUntil.value {
          st := st.(ejectedUntil := None, ejectCount := 0);
        }
        outliers := outliers[id := st];
      }
      if id in store.nodes && store.nodes[id].effectiveWeight < 1.0 {
        var weight := store.nodes[id].effectiveWeight + 0.1;
        if weight > 1.0 {
          weight := 1.0;
        }
        store.nodes := store.nodes[id := store.nodes[id].(effectiveWeight := weight, consecutiveFails := 0)];
      }
    }

    method RecoverOutliers(now: Time)
      modifies this`outliers
      ensures outliers == AllRecovered(old(outliers), now)
    {
      var left := outliers.Keys;
      while left != {}
        invariant left <= old(outliers).Keys
        invariant outliers == map id | id in old(outliers) ::
                                if id in left then old(outliers)[id] else Recovered(old(outliers)[id], now)
        decreases |left|
      {
        var id :| id in left;
        var st := outliers[id];
        if st.ejectedUntil.Some? && now > st.ejectedUntil.value {
          outliers := outliers[id := st.(ejectedUntil := None, consecutiveFails := 0)];
        }
        left := left - {id};
      }
    }

    /** The cleanup task's last loop: every healthy node regains some weight. */
    method RestNodes(healthy: set<NodeId>)
      requires healthy <= store.nodes.Keys
      modifies store`nodes
      ensures store.nodes == AllRested(old(store.nodes), healthy)
    {
      var left := healthy;
      while left != {}
        invariant left <= healthy
        invariant store.nodes == map id | id in old(store.nodes) ::
                    if id in healthy - left
                    then old(store.nodes)[id].(effectiveWeight := RestWeight(old(store.nodes)[id].effectiveWeight))
                    else old(store.nodes)[id]
        decreases |left|
      {
        var id :| id in left;
        var node := store.nodes[id];
        if node.effectiveWeight < 1.0 && node.effectiveWeight > 0.0 {
          var weight := node.effectiveWeight + 0.05;
          if weight > 1.0 {
            weight := 1.0;
          }
          store.nodes := store.nodes[id := node.(effectiveWeight := weight)];
        }
        left := left - {id};
      }
    }

    /** The sticky path's test; it lets a node through at the very instant its ejection ends. */
    method IsEjected(id: NodeId, now: Time) returns (ejected: bool)
      ensures ejected
         <==> id in outliers && Flagged(outliers[id], now) && outliers[id].ejectedUntil != Some(now)
    {
      if id !in outliers {
        return false;
      }
      if outliers[id].ejectedUntil.None? {
        return false;
      }
      return now < outliers[id].ejectedUntil.value;
    }
  }

  // ----- durations -----

  function Lesser(x: int, y: int): int {
    if x < y then x else y
  }

  /** The k-th ejection lasts min(30k, 300) seconds, and no count ever ejects for longer than 300. Past
      LAST_ESCALATION the 64-bit product wraps, and the rule holds only if it wraps to a large number. */
  lemma DurationEscalates(k: nat)
    ensures EjectDuration(k) <= 300 * SECOND
    ensures EjectDuration(k) == Lesser(30 * k, 300) * SECOND
       <==> k <= LAST_ESCALATION || Signed64(30 * SECOND * k) >= 300 * SECOND
    ensures k <= LAST_ESCALATION ==> EjectDuration(k) == Lesser(30 * k, 300) * SECOND
  {
    if k <= LAST_ESCALATION {
      assert 0 <= 30 * SECOND * k < 0x8000_0000_0000_0000;
      SmallIsUnchanged(30 * SECOND * k);
    }
  }

  lemma SmallIsUnchanged(x: int)
    requires 0 <= x < 0x8000_0000_0000_0000
    ensures Signed64(x) == x
  {
  }

  /** One failure past LAST_ESCALATION, the ejection is over before it begins. */
  lemma EscalationOverflows()
    ensures EjectDuration(LAST_ESCALATION + 1) < 0
  {
    assert 30 * SECOND * (LAST_ESCALATION + 1) == 9_223_372_050_000_000_000;
  }

  // ----- runs -----

  datatype Event =
    | Fail(id: NodeId)
    | Success(id: NodeId)
    | Cleanup(timeout: Time, healthy: set<NodeId>)
    | Register(req: RegisterRequest)
    | Beat(beat: HeartbeatRequest)
    | Remove(id: NodeId)

  datatype Step = Step(event: Event, now: Time)

  datatype Registry = Registry(outliers: OutlierMap, nodes: Nodes)

  /** The effect of one call, put together from the contracts of the methods it makes. */
  function Next(r: Registry, step: Step): Registry {
    var now := step.now;
    match step.event
    case Fail(id) =>
      var st := Failed(StateOf(r.outliers, id), now);
      Registry(r.outliers[id := st], Blamed(r.nodes, id, st.consecutiveFails, now))
    case Success(id) =>
      Registry(if id in r.outliers then r.outliers[id := Succeeded(r.outliers[id], now)] else r.outliers,
               Praised(r.nodes, id))
    case Cleanup(timeout, healthy) =>
      Registry(AllRecovered(r.outliers, now), AllRested(StaleRemoved(r.nodes, timeout, now), healthy))
    case Register(req) => r.(nodes := Registered(r.nodes, req, now))
    case Beat(beat) => r.(nodes := HeartbeatApplied(r.nodes, beat, now))
    case Remove(id) => r.(nodes := r.nodes - {id})
  }

  function After(run: seq<Step>): Registry {
    if run == [] then Registry(map[], map[]) else Next(After(run[..|run| - 1]), run[|run| - 1])
  }

  function OutlierAfter(run: seq<Step>, id: NodeId): OutlierState {
    StateOf(After(run).outliers, id)
  }

  predicate TimeOrdered(run: seq<Step>) {
    forall i, j | 0 <= i <= j < |run| :: run[i].now <= run[j].now
  }

  /** What one step does to the record of one node. */
  function Changed(st: OutlierState, step: Step, id: NodeId): OutlierState {
    match step.event
    case Fail(other) => if other == id then Failed(st, step.now) else st
    case Success(other) => if other == id then Succeeded(st, step.now) else st
    case Cleanup(_, _) => Recovered(st, step.now)
    case Register(_) => st
    case Beat(_) => st
    case Remove(_) => st
  }

  /** Nodes do not affect each other's records, and a node without a record behaves like a fresh one. */
  lemma RecordsAreIndependent(run: seq<Step>, id: NodeId)
    requires run != []
    ensures OutlierAfter(run, id) == Changed(OutlierAfter(run[..|run| - 1], id), run[|run| - 1], id)
  {
    hide Failed, Blamed, Praised, AllRested, StaleRemoved, Registered, HeartbeatApplied;
  }

  // ----- what a run tells about one node -----

  predicate Fails(step: Step, id: NodeId) {
    step.event == Fail(id)
  }

  function LastFail(run: seq<Step>, id: NodeId): Option<Time> {
    if run == [] then None
    else if Fails(run[|run| - 1], id) then Some(run[|run| - 1].now)
    else LastFail(run[..|run| - 1], id)
  }

  /** The last step is a cleanup that clears an ended ejection. */
  predicate ClearsNow(run: seq<Step>, id: NodeId) {
    && run != []
    && run[|run| - 1].event.Cleanup?
    && Expired(OutlierAfter(run[..|run| - 1], id), run[|run| - 1].now)
  }

  /** Failures since the last success or the last cleanup that cleared an ended ejection. */
  function FailStreak(run: seq<Step>, id: NodeId): nat {
    if run == [] || run[|run| - 1].event == Success(id) || ClearsNow(run, id) then 0
    else FailStreak(run[..|run| - 1], id) + if Fails(run[|run| - 1], id) then 1 else 0
  }

  /** The last step is a failure that ejects the node. */
  predicate EjectsNow(run: seq<Step>, id: NodeId) {
    run != [] && Fails(run[|run| - 1], id) && OutlierAfter(run, id).consecutiveFails >= 5
  }

  /** The last step is a success reported after the ejection ended and before a cleanup noticed. */
  predicate ResetsNow(run: seq<Step>, id: NodeId) {
    && run != []
    && run[|run| - 1].event == Success(id)
    && Expired(OutlierAfter(run[..|run| - 1], id), run[|run| - 1].now)
  }

  function EjectionsSinceReset(run: seq<Step>, id: NodeId): nat {
    if run == [] || ResetsNow(run, id) then 0
    else EjectionsSinceReset(run[..|run| - 1], id) + if EjectsNow(run, id) then 1 else 0
  }

  lemma {:induction false} CountsOfRun(run: seq<Step>, id: NodeId)
    ensures OutlierAfter(run, id).ejectCount == EjectionsSinceReset(run, id) <= |run|
    ensures OutlierAfter(run, id).consecutiveFails == FailStreak(run, id)
    ensures EjectsNow(run, id) <==> run != [] && Fails(run[|run| - 1], id) && FailStreak(run, id) >= 5
    ensures OutlierAfter(run, id).lastEjectAt == LastFail(run, id)
  {
    hide After, EjectDuration, StateOf;
    if run == [] {
      EmptyRun(id);
    } else {
      CountsOfRun(run[..|run| - 1], id);
      RecordsAreIndependent(run, id);
    }
  }

  lemma EmptyRun(id: NodeId)
    ensures OutlierAfter([], id) == FRESH
  {
  }

  /** When an ejection by the last step ought to end. */
  function Term(run: seq<Step>, id: NodeId): Time
    requires run != []
  {
    run[|run| - 1].now + Lesser(30 * EjectionsSinceReset(run, id), 300) * SECOND
  }

  /** The k-th ejection since the last reset lasts min(30k, 300) seconds, and takes at least five
      failures with no success and no clearing cleanup among them. */
  lemma EjectionEscalates(run: seq<Step>, id: NodeId)
    requires EjectsNow(run, id)
    ensures FailStreak(run, id) >= 5
    ensures EjectionsSinceReset(run, id) <= LAST_ESCALATION
        ==> OutlierAfter(run, id).ejectedUntil == Some(Term(run, id))
  {
    hide After, EjectDuration, StateOf, EjectionsSinceReset, FailStreak;
    CountsOfRun(run, id);
    RecordsAreIndependent(run, id);
    DurationEscalates(EjectionsSinceReset(run, id));
  }

  /** Every ejection is over 300 seconds after the last reported failure. */
  lemma {:induction false} EjectionsEnd(run: seq<Step>, id: NodeId)
    requires TimeOrdered(run)
    ensures OutlierAfter(run, id).ejectedUntil.Some?
        ==> LastFail(run, id).Some?
            && OutlierAfter(run, id).ejectedUntil.value <= LastFail(run, id).value + 300 * SECOND
    ensures LastFail(run, id).Some? ==> LastFail(run, id).value <= run[|run| - 1].now
  {
    hide After, EjectDuration, StateOf;
    if run == [] {
      EmptyRun(id);
    } else {
      EjectionsEnd(run[..|run| - 1], id);
      RecordsAreIndependent(run, id);
      DurationEscalates(OutlierAfter(run[..|run| - 1], id).ejectCount + 1);
      assert |run| > 1 ==> run[|run| - 2].now <= run[|run| - 1].now;
    }
  }

  /** This node's ejection count stays below the point where the 64-bit duration wraps. */
  ghost predicate CountFits(run: seq<Step>, more: seq<Step>, id: NodeId) {
    forall n | 0 <= n <= |more| :: OutlierAfter(run + more[..n], id).ejectCount <= LAST_ESCALATION
  }

  lemma CountFitsPrefix(run: seq<Step>, more: seq<Step>, id: NodeId)
    requires CountFits(run, more, id)
    ensures OutlierAfter(run, id).ejectCount <= LAST_ESCALATION
    ensures OutlierAfter(run + more, id).ejectCount <= LAST_ESCALATION
    ensures more != [] ==> CountFits(run, more[..|more| - 1], id)
  {
    hide OutlierAfter;
    assert run + more[..0] == run && more[..|more|] == more;
    if more != [] {
      var front := more[..|more| - 1];
      forall n | 0 <= n <= |front| ensures OutlierAfter(run + front[..n], id).ejectCount <= LAST_ESCALATION {
        assert front[..n] == more[..n];
      }
    }
  }

  lemma {:induction false} EjectionHolds(run: seq<Step>, more: seq<Step>, id: NodeId, term: Time)
    requires EjectsNow(run, id) && OutlierAfter(run, id).ejectedUntil == Some(term)
    requires CountFits(run, more, id) && TimeOrdered(run + more)
    requires forall i | 0 <= i < |more| :: more[i].now <= term
    ensures OutlierAfter(run + more, id).ejectedUntil.Some?
    ensures OutlierAfter(run + more, id).ejectedUntil.value >= term
    ensures OutlierAfter(run + more, id).ejectCount >= OutlierAfter(run, id).ejectCount
  {
    hide After, EjectDuration, OutlierAfter, EjectsNow, CountFits;
    CountFitsPrefix(run, more, id);
    if more == [] {
      assert run + more == run;
    } else {
      var front := more[..|more| - 1];
      assert (run + more)[..|run + more| - 1] == run + front;
      TimeOrderedPrefix(run + more, |run| + |front|);
      EjectionHolds(run, front, id, term);
      RecordsAreIndependent(run + more, id);
      TermOfRun(run, id);
      var count := OutlierAfter(run + more, id).ejectCount;
      if count > OutlierAfter(run + front, id).ejectCount {
        LaterTermIsLonger(OutlierAfter(run, id).ejectCount, count);
        assert (run + more)[|run| - 1].now <= (run + more)[|run + more| - 1].now;
      }
    }
  }

  /** Whatever is reported meanwhile, of this node and of others, an ejected node stays ejected to the end
      of its term. */
  lemma EjectionLasts(run: seq<Step>, more: seq<Step>, id: NodeId, now: Time)
    requires EjectsNow(run, id)
    requires CountFits(run, more, id) && TimeOrdered(run + more)
    requires forall i | 0 <= i < |more| :: more[i].now <= now
    requires now <= Term(run, id)
    ensures Flagged(OutlierAfter(run + more, id), now)
  {
    hide After, OutlierAfter, EjectsNow, Term, CountFits;
    CountFitsPrefix(run, more, id);
    EjectionEscalates(run, id);
    CountsOfRun(run, id);
    EjectionHolds(run, more, id, Term(run, id));
  }

  /** Beyond that count the claim fails: the failure that wraps it ends the ejection at once. */
  lemma WrappedCountReleases(st: OutlierState, now: Time)
    requires st.ejectCount == LAST_ESCALATION && st.consecutiveFails + 1 >= 5
    ensures Expired(Failed(st, now), now)
  {
    hide EjectDuration;
    EscalationOverflows();
  }

  lemma TimeOrderedPrefix(run: seq<Step>, n: nat)
    requires TimeOrdered(run) && n <= |run|
    ensures TimeOrdered(run[..n])
  {
  }

  lemma TermOfRun(run: seq<Step>, id: NodeId)
    requires EjectsNow(run, id)
    ensures run != []
    ensures OutlierAfter(run, id).ejectedUntil
         == Some(run[|run| - 1].now + EjectDuration(OutlierAfter(run, id).ejectCount))
  {
    hide After, EjectDuration, StateOf;
    RecordsAreIndependent(run, id);
  }

  lemma LaterTermIsLonger(j: nat, k: nat)
    requires j <= k <= LAST_ESCALATION
    ensures EjectDuration(j) <= EjectDuration(k)
  {
    DurationEscalates(j);
    DurationEscalates(k);
  }

  /** Five failures with neither a success nor a cleanup among them eject the node. */
  lemma {:induction false} FiveFailuresEject(run: seq<Step>, more: seq<Step>, id: NodeId)
    requires forall i | 0 <= i < |more| :: more[i].event != Success(id) && !more[i].event.Cleanup?
    ensures OutlierAfter(run + more, id).consecutiveFails
         == OutlierAfter(run, id).consecutiveFails + FailStreak(more, id)
    ensures FailStreak(more, id) >= 5 ==>
              exists n | 0 < n <= |more| :: EjectsNow(run + more[..n], id)
  {
    hide After, EjectDuration, StateOf;
    if more == [] {
      assert run + more == run;
    } else {
      var front := more[..|more| - 1];
      assert (run + more)[..|run + more| - 1] == run + front;
      FiveFailuresEject(run, front, id);
      RecordsAreIndependent(run + more, id);
      if FailStreak(front, id) >= 5 {
        var n :| 0 < n <= |front| && EjectsNow(run + front[..n], id);
        assert front[..n] == more[..n];
      } else {
        assert more[..|more|] == more;
        assert FailStreak(more, id) >= 5 ==> EjectsNow(run + more[..|more|], id);
      }
    }
  }

  // ----- when the escalation is forgotten -----

  /** A success clears the ejection count exactly when it finds an ended ejection still on record. */
  lemma ResetRule(st: OutlierState, now: Time)
    ensures Succeeded(st, now).ejectCount == 0 <==> st.ejectCount == 0 || Expired(st, now)
    ensures !Expired(st, now) ==> Succeeded(st, now).ejectCount == st.ejectCount
    ensures Recovered(st, now).ejectCount == st.ejectCount
    ensures !Expired(Recovered(st, now), now)
  {
  }

  /** Once a cleanup has cleared an ended ejection, no number of successes lowers the count any more:
      only another ejection, ended and reported in time, can. */
  lemma {:induction false} CountSurvivesRecovery(run: seq<Step>, more: seq<Step>, id: NodeId)
    requires OutlierAfter(run, id).ejectedUntil == None
    requires forall n | 0 < n <= |more| :: !EjectsNow(run + more[..n], id)
    ensures OutlierAfter(run + more, id).ejectedUntil == None
    ensures OutlierAfter(run + more, id).ejectCount == OutlierAfter(run, id).ejectCount
  {
    hide After, EjectDuration, StateOf;
    if more == [] {
      assert run + more == run;
    } else {
      var front := more[..|more| - 1];
      assert (run + more)[..|run + more| - 1] == run + front;
      forall n | 0 < n <= |front| ensures !EjectsNow(run + front[..n], id) {
        assert front[..n] == more[..n];
      }
      CountSurvivesRecovery(run, front, id);
      RecordsAreIndependent(run + more, id);
      assert more[..|more|] == more;
    }
  }

  function FailedTimes(st: OutlierState, n: nat, now: Time): OutlierState {
    if n == 0 then st else Failed(FailedTimes(st, n - 1, now), now)
  }

  /** A node ejected once, recovered by a cleanup and since then successful is ejected for 60 seconds,
      not 30, when it next fails five times. */
  lemma EscalationOutlivesRecovery()
    ensures var once := FailedTimes(FRESH, 5, 0);
            var healed := Succeeded(Recovered(once, 31 * SECOND), 32 * SECOND);
            && once.ejectedUntil == Some(30 * SECOND)
            && healed.ejectedUntil == None
            && FailedTimes(healed, 5, 40 * SECOND).ejectedUntil == Some(100 * SECOND)
  {
    hide EjectDuration;
    DurationEscalates(1);
    DurationEscalates(2);
    FourMoreFails(FRESH, 0);
    var once := FailedTimes(FRESH, 5, 0);
    assert once == OutlierState(5, Some(30 * SECOND), 1, Some(0));
    FourMoreFails(Succeeded(Recovered(once, 31 * SECOND), 32 * SECOND), 40 * SECOND);
  }

  lemma FourMoreFails(st: OutlierState, now: Time)
    requires st.consecutiveFails == 0
    ensures FailedTimes(st, 4, now) == st.(consecutiveFails := 4, lastEjectAt := Some(now))
  {
    hide EjectDuration;
    assert FailedTimes(st, 1, now) == st.(consecutiveFails := 1, lastEjectAt := Some(now));
    assert FailedTimes(st, 3, now) == st.(consecutiveFails := 3, lastEjectAt := Some(now));
  }

  // ----- effective weights -----

  predicate WeightsInRange(nodes: Nodes) {
    forall id | id in nodes :: 0.1 <= nodes[id].effectiveWeight <= 1.0
  }

  lemma StepKeepsWeights(r: Registry, step: Step)
    requires WeightsInRange(r.nodes)
    ensures WeightsInRange(Next(r, step).nodes)
  {
    hide Failed, Succeeded, Recovered, StateOf;
  }

  lemma {:induction false} RunKeepsWeights(run: seq<Step>)
    ensures WeightsInRange(After(run).nodes)
  {
    hide Next, WeightsInRange;
    if run == [] {
      EmptyInRange();
    } else {
      RunKeepsWeights(run[..|run| - 1]);
      StepKeepsWeights(After(run[..|run| - 1]), run[|run| - 1]);
    }
  }

  lemma EmptyInRange()
    ensures WeightsInRange(map[])
  {
  }

  /** What an event does to the weight w of a node that stays: `later` is the weight afterwards. */
  predicate Reweighs(event: Event, id: NodeId, w: real, later: real) {
    match event
    case Fail(other) => if other == id then (w >= 0.2 ==> 2.0 * later == w) && (w <= 0.2 ==> later == 0.1) else later == w
    case Success(other) => if other == id then later == (if w < 0.9 then w + 0.1 else 1.0) else later == w
    case Cleanup(_, healthy) => if id in healthy then later == (if w < 0.95 then w + 0.05 else 1.0) else later == w
    case _ => later == w
  }

  /** What every step does to the weight of every node; a new one starts at 0.5. */
  lemma WeightStep(run: seq<Step>, id: NodeId)
    requires run != [] && id in After(run).nodes
    ensures if id in After(run[..|run| - 1]).nodes
            then Reweighs(run[|run| - 1].event, id, After(run[..|run| - 1]).nodes[id].effectiveWeight,
                          After(run).nodes[id].effectiveWeight)
            else After(run).nodes[id].effectiveWeight == 0.5
  {
    hide Next, FailWeight, SuccessWeight, RestWeight;
    var before, step := After(run[..|run| - 1]), run[|run| - 1];
    RunKeepsWeights(run[..|run| - 1]);
    NextWeight(before, step, id);
    if id in before.nodes {
      WeightRules(before.nodes[id].effectiveWeight);
    }
  }

  function Reweighed(event: Event, id: NodeId, w: real): real {
    match event
    case Fail(other) => if other == id then FailWeight(w) else w
    case Success(other) => if other == id then SuccessWeight(w) else w
    case Cleanup(_, healthy) => if id in healthy then RestWeight(w) else w
    case _ => w
  }

  lemma NextWeight(r: Registry, step: Step, id: NodeId)
    requires id in Next(r, step).nodes
    ensures Next(r, step).nodes[id].effectiveWeight
         == if id in r.nodes then Reweighed(step.event, id, r.nodes[id].effectiveWeight) else 0.5
  {
    hide Failed, AllRecovered, Succeeded, Recovered, StateOf, FailWeight, RestWeight;
  }

  lemma WeightRules(w: real)
    requires 0.1 <= w <= 1.0
    ensures if w >= 0.2 then 2.0 * FailWeight(w) == w else FailWeight(w) == 0.1
    ensures SuccessWeight(w) == if w >= 0.9 then 1.0 else w + 0.1
    ensures RestWeight(w) == if w >= 0.95 then 1.0 else w + 0.05
  {
  }

  function Pow2(k: nat): real {
    if k == 0 then 1.0 else 2.0 * Pow2(k - 1)
  }

  function FailsIn(run: seq<Step>, id: NodeId): nat {
    if run == [] then 0 else FailsIn(run[..|run| - 1], id) + if Fails(run[|run| - 1], id) then 1 else 0
  }

  /** `low` is `w` halved k times, but never less than 0.1. */
  predicate HalvedTo(w: real, k: nat, low: real) {
    (w >= 0.1 * Pow2(k) ==> low * Pow2(k) == w) && (w <= 0.1 * Pow2(k) ==> low == 0.1)
  }

  lemma HalvedOnce(w: real, k: nat, low: real, lower: real)
    requires HalvedTo(w, k, low) && (low >= 0.2 ==> 2.0 * lower == low) && (low <= 0.2 ==> lower == 0.1)
    requires w >= 0.1
    ensures HalvedTo(w, k + 1, lower)
  {
    var p := Pow2(k);
    Pow2Positive(k);
    if w >= 0.1 * p {
      ScaleIff(low, 0.2, p);
      assert lower * (2.0 * p) == 2.0 * lower * p;
    }
  }

  lemma {:induction false} Pow2Positive(k: nat)
    ensures Pow2(k) >= 1.0
  {
    if k > 0 {
      Pow2Positive(k - 1);
    }
  }

  lemma ScaleIff(x: real, y: real, p: real)
    requires p > 0.0
    ensures x >= y <==> x * p >= y * p
    ensures x <= y <==> x * p <= y * p
  {
    assert (x - y) * p == x * p - y * p;
    if x > y {
      assert (x - y) * p > 0.0;
    } else if x < y {
      assert (y - x) * p > 0.0;
      assert (y - x) * p == -((x - y) * p);
    }
  }

  /** Steps that leave a node in the registry and never raise its weight. */
  predicate OnlyBlames(more: seq<Step>, id: NodeId) {
    forall i | 0 <= i < |more| ::
      more[i].event != Success(id) && more[i].event != Remove(id) && !more[i].event.Cleanup?
  }

  /** Failures halve the weight down to 0.1, whatever is registered, reported and removed of others meanwhile. */
  lemma {:induction false} FailuresHalve(run: seq<Step>, more: seq<Step>, id: NodeId)
    requires id in After(run).nodes && OnlyBlames(more, id)
    ensures id in After(run + more).nodes
    ensures HalvedTo(After(run).nodes[id].effectiveWeight, FailsIn(more, id),
                     After(run + more).nodes[id].effectiveWeight)
  {
    hide After, HalvedTo;
    if more == [] {
      assert run + more == run;
      assert HalvedTo(After(run).nodes[id].effectiveWeight, 0, After(run).nodes[id].effectiveWeight) by {
        HalvedNever(After(run).nodes[id].effectiveWeight, run, id);
      }
    } else {
      var front := more[..|more| - 1];
      assert (run + more)[..|run + more| - 1] == run + front;
      FailuresHalve(run, front, id);
      StaysRegistered(run + more, id);
      WeightStep(run + more, id);
      RunKeepsWeights(run);
      if Fails(more[|more| - 1], id) {
        HalvedOnce(After(run).nodes[id].effectiveWeight, FailsIn(front, id),
                   After(run + front).nodes[id].effectiveWeight, After(run + more).nodes[id].effectiveWeight);
      }
    }
  }

  lemma HalvedNever(w: real, run: seq<Step>, id: NodeId)
    requires id in After(run).nodes && w == After(run).nodes[id].effectiveWeight
    ensures HalvedTo(w, 0, w)
  {
    RunKeepsWeights(run);
  }

  lemma StaysRegistered(run: seq<Step>, id: NodeId)
    requires run != [] && id in After(run[..|run| - 1]).nodes
    requires run[|run| - 1].event != Remove(id) && !run[|run| - 1].event.Cleanup?
    ensures id in After(run).nodes
  {
    hide Failed, Succeeded, Recovered, StateOf;
  }

  /** So four failures leave the least weight, whatever it was. */
  lemma FourFailuresBottom(run: seq<Step>, more: seq<Step>, id: NodeId)
    requires id in After(run).nodes && OnlyBlames(more, id) && FailsIn(more, id) >= 4
    ensures id in After(run + more).nodes && After(run + more).nodes[id].effectiveWeight == 0.1
  {
    hide After, Pow2;
    FailuresHalve(run, more, id);
    RunKeepsWeights(run);
    Pow2AtLeast16(FailsIn(more, id));
  }

  lemma {:induction false} Pow2AtLeast16(k: nat)
    requires k >= 4
    ensures Pow2(k) >= 16.0
  {
    if k == 4 {
      assert Pow2(1) == 2.0 && Pow2(3) == 8.0;
    } else {
      Pow2AtLeast16(k - 1);
    }
  }

  function Regained(more: seq<Step>, id: NodeId): real {
    if more == [] then 0.0
    else
      Regained(more[..|more| - 1], id) + match more[|more| - 1].event
                                         case Success(other) => if other == id then 0.1 else 0.0
                                         case Cleanup(_, healthy) => if id in healthy then 0.05 else 0.0
                                         case _ => 0.0
  }

  ghost predicate StaysIn(run: seq<Step>, more: seq<Step>, id: NodeId) {
    forall n | 0 <= n <= |more| :: id in After(run + more[..n]).nodes
  }

  /** While a node stays and does not fail, every success gives back 0.1 and every cleanup that finds it healthy
      0.05, up to the full weight and in any order. */
  lemma {:induction false} SuccessesRestore(run: seq<Step>, more: seq<Step>, id: NodeId)
    requires StaysIn(run, more, id) && FailsIn(more, id) == 0
    ensures id in After(run).nodes && id in After(run + more).nodes
    ensures var w := After(run).nodes[id].effectiveWeight + Regained(more, id);
            After(run + more).nodes[id].effectiveWeight == if w < 1.0 then w else 1.0
  {
    hide After;
    assert run + more[..0] == run && more[..|more|] == more;
    RunKeepsWeights(run);
    if more != [] {
      var front := more[..|more| - 1];
      assert (run + more)[..|run + more| - 1] == run + front;
      forall n | 0 <= n <= |front| ensures id in After(run + front[..n]).nodes {
        assert front[..n] == more[..n];
      }
      SuccessesRestore(run, front, id);
      WeightStep(run + more, id);
    }
  }

  /** After a failure a registered node shows the failures of its record; a success clears what it shows, but not
      for a node of full weight. */
  lemma OwnCountOfRun(run: seq<Step>, id: NodeId)
    requires run != [] && id in After(run[..|run| - 1]).nodes
    requires run[|run| - 1].event == Fail(id) || run[|run| - 1].event == Success(id)
    ensures id in After(run).nodes
    ensures run[|run| - 1].event == Fail(id)
        ==> After(run).nodes[id].consecutiveFails == FailStreak(run, id)
            && After(run).nodes[id].lastFailAt == Some(run[|run| - 1].now)
    ensures run[|run| - 1].event == Success(id)
        ==> After(run).nodes[id].consecutiveFails
            == if After(run[..|run| - 1]).nodes[id].effectiveWeight < 1.0 then 0
               else After(run[..|run| - 1]).nodes[id].consecutiveFails
  {
    hide Failed, Succeeded, FailWeight, SuccessWeight, FailStreak;
    CountsOfRun(run, id);
  }
}
