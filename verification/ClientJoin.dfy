/** A viewer joining a live relay: the puller broadcasts then caches, the viewer snapshots then subscribes. */
module ClientJoin {
  import opened FlvTag
  import opened GopHistory
  import opened Backpressure

  /** The viewer's progress; positions refer to the broadcast log. */
  datatype Client =
    | Away
    | Snapped(snapCached: nat)
    | Live(snapCached: nat, start: nat, cursor: nat, lag: nat, sent: seq<nat>, skipped: set<nat>)

  /** The broadcast log, how many of its tags the cache holds, and the viewer. */
  datatype State = State(log: seq<Tag>, cached: nat, client: Client)

  const INITIAL := State([], 0, Away)

  datatype Action =
    | Broadcast(tag: Tag)  // puller: send one tag
    | AddTag               // puller: feed that tag to the cache
    | Snapshot             // viewer: read the startup tags
    | Subscribe            // viewer: receive from here on
    | Recv                 // viewer: take the next tag, send or drop it
    | Lag(n: nat)          // viewer: told that n tags were overwritten

  predicate Enabled(s: State, a: Action) {
    match a
    case Broadcast(_) => s.cached == |s.log|
    case AddTag => s.cached < |s.log|
    case Snapshot => s.client.Away?
    case Subscribe => s.client.Snapped?
    case Recv => s.client.Live? && s.client.cursor < |s.log|
    case Lag(n) => s.client.Live? && 0 < n <= |s.log| - s.client.cursor
  }

  function Apply(s: State, a: Action): State
    requires Enabled(s, a)
  {
    match a
    case Broadcast(tag) => s.(log := s.log + [tag])
    case AddTag => s.(cached := s.cached + 1)
    case Snapshot => s.(client := Snapped(s.cached))
    case Subscribe => s.(client := Live(s.client.snapCached, |s.log|, |s.log|, 0, [], {}))
    case Recv =>
      var c := s.client;
      if ShouldDrop(s.log[c.cursor], c.lag, DEFAULT_POLICY) then s.(client := c.(cursor := c.cursor + 1))
      else s.(client := c.(cursor := c.cursor + 1, lag := Relieve(c.lag), sent := c.sent + [c.cursor]))
    case Lag(n) =>
      var c := s.client;
      s.(client := c.(cursor := c.cursor + n, lag := n,
                      skipped := c.skipped + Range(c.cursor, n)))
  }

  /** The `n` positions from `a` on. */
  function Range(a: nat, n: nat): (r: set<nat>)
    ensures forall i :: i in r <==> a <= i < a + n
  {
    if n == 0 then {} else Range(a, n - 1) + {a + n - 1}
  }

  ghost predicate ValidRun(run: seq<Action>)
    decreases |run|, 0
  {
    run != [] ==> ValidRun(run[..|run| - 1]) && Enabled(After(run[..|run| - 1]), run[|run| - 1])
  }

  ghost function After(run: seq<Action>): State
    decreases |run|, 1
  {
    if run == [] || !ValidRun(run) then INITIAL
    else Apply(After(run[..|run| - 1]), run[|run| - 1])
  }

  // ----- the invariant of all interleavings -----

  ghost predicate Inv(s: State) {
    && s.cached <= |s.log| <= s.cached + 1
    && (s.client.Snapped? ==> s.client.snapCached <= s.cached)
    && (s.client.Live? ==>
          var c := s.client;
          && c.snapCached <= s.cached
          && c.snapCached <= c.start <= c.cursor <= |s.log|
          && Increasing(c.sent)
          && (forall j | 0 <= j < |c.sent| :: c.start <= c.sent[j] < c.cursor)
          && (forall i | c.start <= i < c.cursor ::
                i in c.sent || i in c.skipped || PacketPriority(s.log[i]).Low?))
  }

  lemma StepKeepsInv(s: State, a: Action)
    requires Inv(s) && Enabled(s, a)
    ensures Inv(Apply(s, a))
  {
    hide PacketPriority;
    if a.Recv? {
      var c, c' := s.client, Apply(s, a).client;
      forall i | c.start <= i < c'.cursor
        ensures i in c'.sent || i in c'.skipped || PacketPriority(s.log[i]).Low?
      {
        if i < c.cursor {
          assert i in c.sent ==> i in c'.sent;
        } else {
          assert c'.sent == c.sent + [i] || c'.sent == c.sent;
        }
      }
    }
  }

  lemma {:induction false} RunKeepsInv(run: seq<Action>)
    requires ValidRun(run)
    ensures Inv(After(run))
  {
    hide Inv;
    if run == [] {
      InitialInv();
    } else {
      RunKeepsInv(run[..|run| - 1]);
      StepKeepsInv(After(run[..|run| - 1]), run[|run| - 1]);
    }
  }

  lemma InitialInv()
    ensures Inv(INITIAL)
  {
  }

  // ----- what the viewer gets -----

  /** Everything written to the viewer: the snapshot of the cache, then the live tags. */
  ghost function Delivered(config: Config, s: State): seq<nat>
    requires s.client.Live? && s.client.snapCached <= |s.log|
  {
    StartupPositions(config, s.log[..s.client.snapCached]) + s.client.sent
  }

  /** In every interleaving no tag is written twice, and group and live tags go out in source order. */
  lemma NoTagTwice(config: Config, run: seq<Action>)
    requires ValidRun(run) && After(run).client.Live?
    ensures var s := After(run);
            && s.client.snapCached <= |s.log|
            && Below(Delivered(config, s), |s.log|)
            && (forall j, k | 0 <= j < k < |Delivered(config, s)| ::
                  Delivered(config, s)[j] != Delivered(config, s)[k])
            && Increasing(StartupMedia(config, s.log[..s.client.snapCached]) + s.client.sent)
  {
    hide StartupPositions, StartupMedia, PacketPriority, ValidRun, After;
    RunKeepsInv(run);
    var s := After(run);
    var past := s.log[..s.client.snapCached];
    StartupPositionsDistinct(config, past);
    StartupMediaShape(config, past);
  }

  /** A live tag that is not an inter frame reaches the viewer unless the channel overwrote it. */
  lemma OnlyInterOrLaggedIsLost(run: seq<Action>, i: nat)
    requires ValidRun(run) && After(run).client.Live?
    requires var s := After(run); s.client.start <= i < s.client.cursor <= |s.log|
    requires !IsInterFrame(After(run).log[i])
    ensures i in After(run).client.sent || i in After(run).client.skipped
  {
    hide PacketPriority, IsInterFrame, ValidRun, After;
    RunKeepsInv(run);
    PriorityFromBytes(After(run).log[i]);
  }

  // ----- the viewer's send loop is the one of the drop policy -----

  /** What the viewer's receive calls returned since it subscribed, and the position of each tag. */
  ghost function EventsOf(run: seq<Action>): seq<RecvEvent> {
    if run == [] then []
    else
      var front := EventsOf(run[..|run| - 1]);
      var c := After(run[..|run| - 1]);
      match run[|run| - 1]
      case Subscribe => []
      case Recv => if Enabled(c, Recv) then front + [Received(c.log[c.client.cursor])] else front
      case Lag(n) => front + [Lagged(n)]
      case _ => front
  }

  ghost function CursorsOf(run: seq<Action>): seq<nat> {
    if run == [] then []
    else
      var front := CursorsOf(run[..|run| - 1]);
      var c := After(run[..|run| - 1]);
      match run[|run| - 1]
      case Subscribe => []
      case Recv => if Enabled(c, Recv) then front + [c.client.cursor] else front
      case Lag(n) => if c.client.Live? then front + [c.client.cursor] else front
      case _ => front
  }

  ghost predicate ServedAs(c: Client, served: Serving, cursors: seq<nat>)
    requires c.Live?
  {
    && c.lag == served.lag
    && |c.sent| == |served.sent|
    && forall j | 0 <= j < |c.sent| :: served.sent[j] < |cursors| && c.sent[j] == cursors[served.sent[j]]
  }

  lemma ServedNext(events: seq<RecvEvent>, e: RecvEvent)
    ensures var s, s' := Serve(DEFAULT_POLICY, events), Serve(DEFAULT_POLICY, events + [e]);
            if e.Lagged? then s'.lag == e.n && s'.sent == s.sent
            else if ShouldDrop(e.tag, s.lag, DEFAULT_POLICY) then s'.lag == s.lag && s'.sent == s.sent
            else s'.lag == Relieve(s.lag) && s'.sent == s.sent + [|events|]
  {
    hide ShouldDrop;
    assert (events + [e])[..|events|] == events;
  }

  /** In every run the viewer's lag and the tags written to it are those of the send loop on the events it
      received, so whatever is proved of that loop holds of a viewer that joins a live relay. */
  lemma {:induction false} ViewerIsServed(run: seq<Action>)
    requires ValidRun(run) && After(run).client.Live?
    ensures |CursorsOf(run)| == |EventsOf(run)|
    ensures ServedAs(After(run).client, Serve(DEFAULT_POLICY, EventsOf(run)), CursorsOf(run))
  {
    hide ShouldDrop, Range, Serve;
    var n := |run| - 1;
    if run[n].Subscribe? {
      NothingServed();
    } else {
      ViewerIsServed(run[..n]);
      var events, c := EventsOf(run[..n]), After(run[..n]);
      if run[n].Recv? {
        ServedNext(events, Received(c.log[c.client.cursor]));
      } else if run[n].Lag? {
        ServedNext(events, Lagged(run[n].n));
      }
    }
  }

  lemma NothingServed()
    ensures Serve(DEFAULT_POLICY, []).lag == 0 && Serve(DEFAULT_POLICY, []).sent == []
  {
  }

  /** The position and the tag of every event are those of the log. */
  lemma {:induction false} EventsAreOfLog(run: seq<Action>, i: nat)
    requires ValidRun(run) && After(run).client.Live? && i < |EventsOf(run)| && EventsOf(run)[i].Received?
    ensures i < |CursorsOf(run)| && CursorsOf(run)[i] < |After(run).log|
    ensures EventsOf(run)[i].tag == After(run).log[CursorsOf(run)[i]]
  {
    hide ShouldDrop;
    var n := |run| - 1;
    if !run[n].Subscribe? {
      ViewerIsServed(run[..n]);
      if i < |EventsOf(run[..n])| {
        EventsAreOfLog(run[..n], i);
      }
    }
  }

  /** Only the viewer's own steps move its cursor, and they move it forward. */
  lemma CursorMoves(s: State, a: Action)
    requires Enabled(s, a) && Apply(s, a).client.Live? && !a.Subscribe?
    ensures s.client.Live?
    ensures var moved := Apply(s, a).client.cursor;
            if a.Recv? || a.Lag? then s.client.cursor < moved else s.client.cursor == moved
  {
    hide ShouldDrop, Range;
  }

  lemma {:induction false} CursorsIncrease(run: seq<Action>)
    requires ValidRun(run) && After(run).client.Live?
    ensures Increasing(CursorsOf(run))
    ensures forall j | 0 <= j < |CursorsOf(run)| :: CursorsOf(run)[j] < After(run).client.cursor
  {
    hide Apply;
    var n := |run| - 1;
    if !run[n].Subscribe? {
      CursorMoves(After(run[..n]), run[n]);
      CursorsIncrease(run[..n]);
    }
  }

  /** So of the tags a joined viewer receives it loses exactly the inter frames before the n-th write after
      Lagged(n). */
  lemma ViewerDropRule(run: seq<Action>, i: nat)
    requires ValidRun(run) && After(run).client.Live? && i < |EventsOf(run)| && EventsOf(run)[i].Received?
    ensures i < |CursorsOf(run)|
    ensures var events := EventsOf(run);
            CursorsOf(run)[i] !in After(run).client.sent
            <==> IsInterFrame(events[i].tag) && KeptSinceLag(events[..i]) < LastLag(events[..i])
  {
    hide ValidRun, After, EventsOf, CursorsOf, IsInterFrame, KeptSinceLag, LastLag, SentSinceLag, Dropped, Serve;
    var events, cursors, c := EventsOf(run), CursorsOf(run), After(run).client;
    ViewerIsServed(run);
    CursorsIncrease(run);
    DropRule(events, i);
    SentIsNotDropped(DEFAULT_POLICY, events, i);
    var served := Serve(DEFAULT_POLICY, events);
    if i in served.sent {
      var j :| 0 <= j < |served.sent| && served.sent[j] == i;
      assert c.sent[j] == cursors[i];
    }
    if cursors[i] in c.sent {
      var j :| 0 <= j < |c.sent| && c.sent[j] == cursors[i];
      assert served.sent[j] == i;
    }
  }

  // ----- what the viewer misses at the join -----

  function Adds(run: seq<Action>): nat {
    if run == [] then 0 else Adds(run[..|run| - 1]) + if run[|run| - 1].AddTag? then 1 else 0
  }

  function Broadcasts(run: seq<Action>): nat {
    if run == [] then 0 else Broadcasts(run[..|run| - 1]) + if run[|run| - 1].Broadcast? then 1 else 0
  }

  /** The cache had tag `i` before action `p`. */
  predicate CachedBefore(run: seq<Action>, p: nat, i: nat)
    requires p <= |run|
  {
    i < Adds(run[..p])
  }

  /** Tag `i` was broadcast before action `p`. */
  predicate BroadcastBefore(run: seq<Action>, p: nat, i: nat)
    requires p <= |run|
  {
    i < Broadcasts(run[..p])
  }

  ghost predicate NoLag(run: seq<Action>) {
    forall i | 0 <= i < |run| :: !run[i].Lag?
  }

  lemma {:induction false} CountsOfRun(run: seq<Action>)
    requires ValidRun(run)
    ensures After(run).cached == Adds(run)
    ensures |After(run).log| == Broadcasts(run)
  {
    if run != [] {
      CountsOfRun(run[..|run| - 1]);
    }
  }

  /** The viewer's marks are the counts at its snapshot and at its subscription. */
  lemma {:induction false} MarksOfRun(run: seq<Action>, p: nat)
    requires ValidRun(run) && p < |run|
    ensures run[p].Snapshot? ==> !After(run).client.Away? && After(run).client.snapCached == Adds(run[..p])
    ensures run[p].Subscribe? ==> After(run).client.Live? && After(run).client.start == Broadcasts(run[..p])
  {
    hide ShouldDrop, Range;
    var front := run[..|run| - 1];
    CountsOfRun(front);
    if p < |front| {
      MarksOfRun(front, p);
      assert front[..p] == run[..p];
    }
  }

  /** Without lag nothing is dropped: the viewer has every tag from its start to its cursor. */
  lemma {:induction false} NoLagSendsAll(run: seq<Action>, i: nat)
    requires ValidRun(run) && NoLag(run) && After(run).client.Live?
    ensures After(run).client.lag == 0
    ensures i in After(run).client.sent <==> After(run).client.start <= i < After(run).client.cursor
  {
    hide PacketPriority;
    var front := run[..|run| - 1];
    RunKeepsInv(front);
    if After(front).client.Live? {
      NoLagSendsAll(front, i);
    }
  }

  /** Without lag, a tag that the cache took in after the snapshot is missing from the viewer exactly
      when it was broadcast before the viewer subscribed. */
  lemma JoinGap(run: seq<Action>, snap: nat, sub: nat, i: nat)
    requires ValidRun(run) && NoLag(run)
    requires snap < |run| && run[snap].Snapshot?
    requires sub < |run| && run[sub].Subscribe?
    requires After(run).client.Live? && i < After(run).client.cursor
    requires !CachedBefore(run, snap, i)
    ensures i !in After(run).client.sent <==> BroadcastBefore(run, sub, i)
  {
    hide ValidRun, After;
    MarksOfRun(run, sub);
    NoLagSendsAll(run, i);
  }

  /** The race is real: a keyframe broadcast but not yet cached at the snapshot can be lost for good. */
  lemma RaceLosesKeyframe(key: Tag, inter: Tag)
    requires IsKeyframe(key)
    ensures var run := [Broadcast(key), Snapshot, AddTag, Subscribe, Broadcast(inter), Recv];
            && ValidRun(run)
            && After(run).client.Live?
            && After(run).client.snapCached == 0
            && After(run).client.sent == [1]
  {
    hide PacketPriority, IsKeyframe;
    var run := [Broadcast(key), Snapshot, AddTag, Subscribe, Broadcast(inter), Recv];
    assert run[..5] == [Broadcast(key), Snapshot, AddTag, Subscribe, Broadcast(inter)];
    assert run[..5][..4] == [Broadcast(key), Snapshot, AddTag, Subscribe];
    assert run[..5][..4][..3] == [Broadcast(key), Snapshot, AddTag];
    assert run[..5][..4][..3][..2] == [Broadcast(key), Snapshot];
    assert run[..5][..4][..3][..2][..1] == [Broadcast(key)];
    assert [Broadcast(key)][..0] == [];
    RunStep([], Broadcast(key));
    RunStep([Broadcast(key)], Snapshot);
    RunStep([Broadcast(key), Snapshot], AddTag);
    RunStep([Broadcast(key), Snapshot, AddTag], Subscribe);
    RunStep([Broadcast(key), Snapshot, AddTag, Subscribe], Broadcast(inter));
    RunStep([Broadcast(key), Snapshot, AddTag, Subscribe, Broadcast(inter)], Recv);
  }

  lemma RunStep(run: seq<Action>, a: Action)
    requires ValidRun(run) && Enabled(After(run), a)
    ensures ValidRun(run + [a]) && After(run + [a]) == Apply(After(run), a)
  {
    assert (run + [a])[..|run|] == run;
  }
}
