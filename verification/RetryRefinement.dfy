/**
 The monitor's methods agree with the protocol's single steps, whatever the other tasks do to the
 registrations between one lock and the next.
 */
module RetryRefinement {
  import opened Paths
  import opened Attribution
  import opened CaptureProtocol
  import Decoder

  /** One event of the retry: the check, and the resolution when its process is registered. */
  function RetryOne(m: Loop, now: nat, g: Glance): (m': Loop)
    requires m.stage.Retrying? && m.pending != []
    ensures m'.stage == m.stage && m'.pending == m.pending[1..]
  {
    var checked := RetryMove(m, g.lookup, now, CheckHead).value.loop;
    if checked.stage.RetryResolving? then
      var p := m.pending[0];
      RetryMove(checked, g.recheck, now, ResolveHead(Resolve(g.machine, g.lookup[p.pid].home, p.info))).value.loop
    else checked
  }

  /** Check after check until the buffer is through. */
  function RetryAll(m: Loop, now: nat, glances: seq<Glance>): Loop
    requires m.stage.Retrying? && |glances| == |m.pending|
    decreases |m.pending|
  {
    if m.pending == [] then m else RetryAll(RetryOne(m, now, glances[0]), now, glances[1..])
  }

  lemma {:induction false} KeptFromFront(s: seq<PendingEvent>, now: nat, glances: seq<Glance>)
    requires s != [] && |glances| == |s|
    ensures Kept(s, now, glances) ==
      (if FateOf(s[0], now, glances[0]).Keeps? then [s[0]] else []) + Kept(s[1..], now, glances[1..])
    decreases |s|
  {
    hide FateOf;
    var n := |s| - 1;
    if n > 0 {
      KeptFromFront(s[..n], now, glances[..n]);
      assert s[..n][1..] == s[1..][..n - 1] && glances[..n][1..] == glances[1..][..n - 1];
    } else {
      assert s[..n] == [] && s[1..] == [];
    }
  }

  lemma {:induction false} ResolvedFromFront(s: seq<PendingEvent>, now: nat, glances: seq<Glance>)
    requires s != [] && |glances| == |s|
    ensures var f := FateOf(s[0], now, glances[0]);
      Resolved(s, now, glances) == (if f.Emits? then [f.event] else []) + Resolved(s[1..], now, glances[1..])
    decreases |s|
  {
    hide FateOf;
    var n := |s| - 1;
    if n > 0 {
      ResolvedFromFront(s[..n], now, glances[..n]);
      assert s[..n][1..] == s[1..][..n - 1] && glances[..n][1..] == glances[1..][..n - 1];
    } else {
      assert s[..n] == [] && s[1..] == [];
    }
  }

  /** Where one event of the retry ends up is its fate. */
  lemma OneMeetsItsFate(m: Loop, now: nat, g: Glance)
    requires m.stage.Retrying? && m.pending != []
    ensures var f := FateOf(m.pending[0], m.stage.since, g); var m' := RetryOne(m, now, g);
      m' == m.(pending := m.pending[1..], kept := m.kept + (if f.Keeps? then [m.pending[0]] else []),
               batch := m.batch + if f.Emits? then [f.event] else [])
  {
    hide Resolve;
    assert m.kept + [] == m.kept && m.batch + [] == m.batch;
  }

  /** The steps of a retry leave what the one pass leaves, and emit what it emits. */
  lemma {:induction false} PassIsItsSteps(m: Loop, now: nat, glances: seq<Glance>)
    requires m.stage.Retrying? && |glances| == |m.pending|
    ensures RetryAll(m, now, glances) ==
      m.(pending := [], kept := m.kept + Kept(m.pending, m.stage.since, glances),
         batch := m.batch + Resolved(m.pending, m.stage.since, glances))
    decreases |m.pending|
  {
    hide FateOf, RetryOne;
    if m.pending == [] {
      assert m.kept + [] == m.kept && m.batch + [] == m.batch;
    } else {
      OneMeetsItsFate(m, now, glances[0]);
      var m', rest, since := RetryOne(m, now, glances[0]), glances[1..], m.stage.since;
      PassIsItsSteps(m', now, rest);
      KeptFromFront(m.pending, since, glances);
      ResolvedFromFront(m.pending, since, glances);
      assert m'.kept + Kept(m'.pending, since, rest) == m.kept + Kept(m.pending, since, glances);
      assert m'.batch + Resolved(m'.pending, since, rest) == m.batch + Resolved(m.pending, since, glances);
    }
  }

  // ---- One event of a read ----

  /** Look the event up, by its thread if need be. */
  function FindSteps(m: Loop, sc: Scene): (m': Loop)
    requires m.stage.Handling? && m.incoming != []
    ensures var owner := OwnerOf(m.incoming[0].pid, m.tidCache, sc);
      m' == m.(stage := if owner.Some? then Found(owner.value.0) else Missed)
  {
    var e := m.incoming[0];
    var looked := HandleMove(m, e, sc.direct, sc.now, LookUp).value.loop;
    var owner := if e.pid in sc.live then Some(sc.live[e.pid]) else None;
    if looked.stage.NeedsThread?
      then HandleMove(looked, e, sc.byThread, sc.now, LookUpThread(owner)).value.loop else looked
  }

  /** ... then resolve it on its owner's home, or buffer it. */
  function HandleSteps(m: Loop, sc: Scene): (m': Loop)
    requires m.stage.Handling? && m.incoming != []
    ensures m'.stage.Handling? && m'.incoming == m.incoming[1..] && m'.tidCache == m.tidCache
  {
    var e, found, owner := m.incoming[0], FindSteps(m, sc), OwnerOf(m.incoming[0].pid, m.tidCache, sc);
    if owner.Some? then
      var path := if e.info.Some? then Resolve(sc.machine, owner.value.1, e.info.value) else None;
      HandleMove(found, e, sc.recheck, sc.now, ResolveFound(path)).value.loop
    else HandleMove(found, e, sc.running, sc.now, Buffer).value.loop
  }

  lemma EventIsItsSteps(m: Loop, e: Decoder.Event, sc: Scene)
    requires m.stage.Handling? && m.incoming != []
    requires m.incoming[0] == FreshEvent(m.incoming[0].id, e.mask, e.pid, e.info)
    ensures var (pending, emitted) := HandleEvent(m.pending, e, m.incoming[0].id, m.tidCache, sc);
      HandleSteps(m, sc) == m.(incoming := m.incoming[1..], pending := pending, batch := m.batch + emitted)
  {
    hide Resolve, AttributeEvent, OwnerOf, FindSteps;
    assert m.batch + [] == m.batch;
  }

  /** Event after event until the read is through. */
  function HandleAll(m: Loop, scenes: seq<Scene>): Loop
    requires m.stage.Handling? && |scenes| == |m.incoming|
    decreases |m.incoming|
  {
    if m.incoming == [] then m else HandleAll(HandleSteps(m, scenes[0]), scenes[1..])
  }

  lemma {:induction false} HandledFromFront(pending: seq<PendingEvent>, events: seq<Decoder.Event>, from: nat,
                                            cache: map<Pid, Pid>, scenes: seq<Scene>)
    requires events != [] && |scenes| == |events|
    ensures var (first, emitted) := HandleEvent(pending, events[0], from, cache, scenes[0]);
      var (after, more) := HandleEvents(first, events[1..], from + 1, cache, scenes[1..]);
      HandleEvents(pending, events, from, cache, scenes) == (after, emitted + more)
    decreases |events|
  {
    hide HandleEvent;
    var n := |events| - 1;
    if n > 0 {
      HandledFromFront(pending, events[..n], from, cache, scenes[..n]);
      assert events[..n][1..] == events[1..][..n - 1] && scenes[..n][1..] == scenes[1..][..n - 1];
      var (first, emitted) := HandleEvent(pending, events[0], from, cache, scenes[0]);
      var (before, some) := HandleEvents(first, events[1..][..n - 1], from + 1, cache, scenes[1..][..n - 1]);
      var (after, more) := HandleEvent(before, events[n], from + n, cache, scenes[n]);
      assert HandleEvents(first, events[1..], from + 1, cache, scenes[1..]) == (after, some + more);
      assert (emitted + some) + more == emitted + (some + more);
    } else {
      var (first, emitted) := HandleEvent(pending, events[0], from, cache, scenes[0]);
      assert events[..n] == [] && events[1..] == [];
      assert [] + emitted == emitted + [];
    }
  }

  /** The steps of a read leave in the buffer and emit what the loop over its events does. */
  lemma {:induction false} ReadIsItsSteps(m: Loop, events: seq<Decoder.Event>, from: nat, scenes: seq<Scene>)
    requires m.stage.Handling? && m.incoming == Numbered(events, from) && |scenes| == |events|
    ensures var (pending, emitted) := HandleEvents(m.pending, events, from, m.tidCache, scenes);
      HandleAll(m, scenes) == m.(incoming := [], pending := pending, batch := m.batch + emitted)
    decreases |events|
  {
    hide HandleEvent, HandleSteps;
    if events == [] {
      assert m.batch + [] == m.batch;
    } else {
      EventIsItsSteps(m, events[0], scenes[0]);
      HandledFromFront(m.pending, events, from, m.tidCache, scenes);
      assert m.incoming[1..] == Numbered(events[1..], from + 1);
      ReadIsItsSteps(HandleSteps(m, scenes[0]), events[1..], from + 1, scenes[1..]);
    }
  }
}
