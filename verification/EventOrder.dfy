/** The order in which a capture loop handles events, the size of its buffer, and how long events wait. */
module EventOrder {
  import opened Paths
  import opened Attribution
  import opened CaptureProtocol
  import Decoder
  import Journal
  import MutationCapture

  ghost predicate Ascending(ids: seq<nat>) {
    forall i, j | 0 <= i < j < |ids| :: ids[i] < ids[j]
  }

  ghost predicate Below(ids: seq<nat>, bound: nat) {
    forall i | 0 <= i < |ids| :: ids[i] < bound
  }

  predicate InRetry(m: Loop) {
    m.stage.Retrying? || m.stage.RetryResolving?
  }

  predicate InRead(m: Loop) {
    m.stage.Handling? || m.stage.NeedsThread? || m.stage.Found? || m.stage.Missed?
  }

  function Waiting(m: Loop): seq<nat> {
    PendingIds(m.kept) + PendingIds(m.pending) + FreshIds(m.incoming)
  }

  /** The batch and what may still join it: during a retry the buffer, during a read the events read. */
  function Upcoming(m: Loop): seq<nat> {
    EmittedIds(m.batch) + if InRetry(m) then PendingIds(m.pending) else FreshIds(m.incoming)
  }

  /**
   Event numbers ascend from the kept through the waiting to the fresh events, and through the
   batch into whatever is handled next.
   */
  ghost predicate InOrder(m: Loop, nextEvent: nat) {
    && Ascending(Waiting(m)) && Ascending(Upcoming(m))
    && Below(Waiting(m), nextEvent) && Below(Upcoming(m), nextEvent)
    && (!InRead(m) ==> m.incoming == [])
    && (!InRetry(m) ==> m.kept == [])
    && (m.stage.Top? || m.stage.Refreshed? ==> m.batch == [])
  }

  lemma LaterBound(ids: seq<nat>, a: nat, b: nat)
    requires Below(ids, a) && a <= b
    ensures Below(ids, b)
  {
  }

  /** Taking one number out keeps the rest ascending and bounded. */
  lemma Without(a: seq<nat>, x: nat, b: seq<nat>, bound: nat)
    requires Ascending(a + [x] + b) && Below(a + [x] + b, bound)
    ensures Ascending(a + b) && Below(a + b, bound)
  {
    var whole := a + [x] + b;
    forall i | 0 <= i < |a + b| ensures (a + b)[i] == whole[if i < |a| then i else i + 1] {
    }
  }

  lemma FrontOf(a: seq<nat>, b: seq<nat>, bound: nat)
    requires Ascending(a + b) && Below(a + b, bound)
    ensures Ascending(a) && Below(a, bound) && Ascending(b) && Below(b, bound)
  {
    var whole := a + b;
    assert forall i | 0 <= i < |a| :: a[i] == whole[i];
    assert forall i | 0 <= i < |b| :: b[i] == whole[|a| + i];
  }

  lemma ThenFresh(a: seq<nat>, from: nat, events: seq<Decoder.Event>)
    requires Ascending(a) && Below(a, from)
    ensures var f := FreshIds(Numbered(events, from)); Ascending(a + f) && Below(a + f, from + |events|)
  {
  }

  lemma PendingHead(s: seq<PendingEvent>)
    requires s != []
    ensures PendingIds(s) == [s[0].id] + PendingIds(s[1..])
  {
  }

  lemma FreshHead(s: seq<FreshEvent>)
    requires s != []
    ensures FreshIds(s) == [s[0].id] + FreshIds(s[1..])
  {
  }

  lemma EmittedHead(s: seq<Emitted>)
    requires s != []
    ensures EmittedIds(s) == [s[0].id] + EmittedIds(s[1..])
  {
  }

  lemma PendingLast(s: seq<PendingEvent>, p: PendingEvent)
    ensures PendingIds(s + [p]) == PendingIds(s) + [p.id]
  {
  }

  lemma EmittedLast(s: seq<Emitted>, e: Emitted)
    ensures EmittedIds(s + [e]) == EmittedIds(s) + [e.id]
  {
  }

  // ---- One move ----

  lemma HeadSplits(m: Loop)
    requires InRetry(m) && m.pending != [] && m.incoming == []
    ensures var id, rest := m.pending[0].id, PendingIds(m.pending[1..]);
      && Waiting(m) == (PendingIds(m.kept) + [id]) + rest
      && Upcoming(m) == (EmittedIds(m.batch) + [id]) + rest
  {
    hide PendingIds, EmittedIds;
    var k, b, id, rest := PendingIds(m.kept), EmittedIds(m.batch), m.pending[0].id, PendingIds(m.pending[1..]);
    PendingHead(m.pending);
    assert FreshIds(m.incoming) == [];
    assert k + ([id] + rest) == (k + [id]) + rest && b + ([id] + rest) == (b + [id]) + rest;
  }

  /** What taking the head of the buffer leaves in order. */
  lemma HeadTaken(m: Loop, nextEvent: nat)
    requires InOrder(m, nextEvent) && InRetry(m) && m.pending != []
    ensures var id, rest := m.pending[0].id, PendingIds(m.pending[1..]); var k, b := PendingIds(m.kept),
      EmittedIds(m.batch);
      && Waiting(m) == (k + [id]) + rest && Upcoming(m) == (b + [id]) + rest
      && Ascending(k + rest) && Below(k + rest, nextEvent) && Ascending(b + rest) && Below(b + rest, nextEvent)
  {
    hide Ascending, Below, PendingIds, EmittedIds, Waiting, Upcoming;
    HeadSplits(m);
    Without(PendingIds(m.kept), m.pending[0].id, PendingIds(m.pending[1..]), nextEvent);
    Without(EmittedIds(m.batch), m.pending[0].id, PendingIds(m.pending[1..]), nextEvent);
  }

  lemma HeadDropped(m: Loop, nextEvent: nat, since: nat)
    requires InOrder(m, nextEvent) && InRetry(m) && m.pending != []
    ensures InOrder(m.(stage := Retrying(since), pending := m.pending[1..]), nextEvent)
  {
    hide Ascending, Below;
    HeadTaken(m, nextEvent);
    var m' := m.(stage := Retrying(since), pending := m.pending[1..]);
    assert Waiting(m') == PendingIds(m.kept) + PendingIds(m'.pending);
    assert Upcoming(m') == EmittedIds(m.batch) + PendingIds(m'.pending);
  }

  lemma HeadKept(m: Loop, nextEvent: nat, since: nat)
    requires InOrder(m, nextEvent) && InRetry(m) && m.pending != []
    ensures InOrder(m.(stage := Retrying(since), pending := m.pending[1..], kept := m.kept + [m.pending[0]]), nextEvent)
  {
    hide Ascending, Below;
    HeadTaken(m, nextEvent);
    var m' := m.(stage := Retrying(since), pending := m.pending[1..], kept := m.kept + [m.pending[0]]);
    PendingLast(m.kept, m.pending[0]);
    assert Waiting(m') == Waiting(m);
    assert Upcoming(m') == EmittedIds(m.batch) + PendingIds(m'.pending);
  }

  lemma HeadEmitted(m: Loop, nextEvent: nat, since: nat, e: Emitted)
    requires InOrder(m, nextEvent) && InRetry(m) && m.pending != [] && e.id == m.pending[0].id
    ensures InOrder(m.(stage := Retrying(since), pending := m.pending[1..], batch := m.batch + [e]), nextEvent)
  {
    hide Ascending, Below;
    HeadTaken(m, nextEvent);
    var m' := m.(stage := Retrying(since), pending := m.pending[1..], batch := m.batch + [e]);
    EmittedLast(m.batch, e);
    assert Waiting(m') == PendingIds(m.kept) + PendingIds(m'.pending);
    assert Upcoming(m') == Upcoming(m);
  }

  lemma SameInOrder(m: Loop, nextEvent: nat, stage: Stage)
    requires InOrder(m, nextEvent)
    requires InRetry(m) == InRetry(m.(stage := stage)) && InRead(m) == InRead(m.(stage := stage))
    requires !stage.Top? && !stage.Refreshed?
    ensures InOrder(m.(stage := stage), nextEvent)
  {
    hide Ascending, Below;
    assert Waiting(m.(stage := stage)) == Waiting(m) && Upcoming(m.(stage := stage)) == Upcoming(m);
  }

  lemma CheckHeadKeepsOrder(m: Loop, active: ActiveLaunches, now: nat, nextEvent: nat)
    requires InOrder(m, nextEvent) && RetryMove(m, active, now, CheckHead).Some?
    ensures InOrder(RetryMove(m, active, now, CheckHead).value.loop, nextEvent)
  {
    hide InOrder;
    HeadDropped(m, nextEvent, m.stage.since);
    HeadKept(m, nextEvent, m.stage.since);
    SameInOrder(m, nextEvent, RetryResolving(m.stage.since));
  }

  lemma ResolveHeadKeepsOrder(m: Loop, active: ActiveLaunches, now: nat, nextEvent: nat, path: Option<Path>)
    requires InOrder(m, nextEvent) && RetryMove(m, active, now, ResolveHead(path)).Some?
    ensures InOrder(RetryMove(m, active, now, ResolveHead(path)).value.loop, nextEvent)
  {
    hide InOrder, AttributeEvent;
    HeadDropped(m, nextEvent, m.stage.since);
    var m' := RetryMove(m, active, now, ResolveHead(path)).value.loop;
    if m'.batch != m.batch {
      HeadEmitted(m, nextEvent, m.stage.since, m'.batch[|m.batch|]);
    }
  }

  lemma OtherRetryKeepsOrder(m: Loop, active: ActiveLaunches, now: nat, nextEvent: nat, move: Move)
    requires InOrder(m, nextEvent) && RetryMove(m, active, now, move).Some? && !move.CheckHead? && !move.ResolveHead?
    ensures InOrder(RetryMove(m, active, now, move).value.loop, nextEvent)
  {
    hide Ascending, Below;
    var m' := RetryMove(m, active, now, move).value.loop;
    if move.BeginRetry? {
      assert Upcoming(m') == Waiting(m) == Waiting(m');
    } else {
      assert Waiting(m') == Waiting(m) && Upcoming(m') == Upcoming(m);
    }
  }

  /** What taking the first event of the read leaves in order. */
  lemma FirstTaken(m: Loop, nextEvent: nat)
    requires InOrder(m, nextEvent) && InRead(m) && m.incoming != []
    ensures var id, rest := m.incoming[0].id, FreshIds(m.incoming[1..]); var p, b := PendingIds(m.pending),
      EmittedIds(m.batch);
      && Waiting(m) == (p + [id]) + rest && Upcoming(m) == (b + [id]) + rest
      && Ascending(p + rest) && Below(p + rest, nextEvent) && Ascending(b + rest) && Below(b + rest, nextEvent)
  {
    hide Ascending, Below;
    var id, rest := m.incoming[0].id, FreshIds(m.incoming[1..]);
    var p, b := PendingIds(m.pending), EmittedIds(m.batch);
    FreshHead(m.incoming);
    assert Waiting(m) == (p + [id]) + rest;
    assert Upcoming(m) == (b + [id]) + rest;
    Without(p, id, rest, nextEvent);
    Without(b, id, rest, nextEvent);
  }

  lemma FirstDropped(m: Loop, nextEvent: nat)
    requires InOrder(m, nextEvent) && InRead(m) && m.incoming != []
    ensures InOrder(m.(stage := Handling, incoming := m.incoming[1..]), nextEvent)
  {
    hide Ascending, Below;
    FirstTaken(m, nextEvent);
    var m' := m.(stage := Handling, incoming := m.incoming[1..]);
    assert Waiting(m') == PendingIds(m.pending) + FreshIds(m'.incoming);
    assert Upcoming(m') == EmittedIds(m.batch) + FreshIds(m'.incoming);
  }

  lemma FirstBuffered(m: Loop, nextEvent: nat, p: PendingEvent)
    requires InOrder(m, nextEvent) && InRead(m) && m.incoming != [] && p.id == m.incoming[0].id
    ensures InOrder(m.(stage := Handling, incoming := m.incoming[1..], pending := m.pending + [p]), nextEvent)
  {
    hide Ascending, Below;
    FirstTaken(m, nextEvent);
    var m' := m.(stage := Handling, incoming := m.incoming[1..], pending := m.pending + [p]);
    PendingLast(m.pending, p);
    assert Waiting(m') == Waiting(m);
    assert Upcoming(m') == EmittedIds(m.batch) + FreshIds(m'.incoming);
  }

  lemma FirstEmitted(m: Loop, nextEvent: nat, e: Emitted)
    requires InOrder(m, nextEvent) && InRead(m) && m.incoming != [] && e.id == m.incoming[0].id
    ensures InOrder(m.(stage := Handling, incoming := m.incoming[1..], batch := m.batch + [e]), nextEvent)
  {
    hide Ascending, Below;
    FirstTaken(m, nextEvent);
    var m' := m.(stage := Handling, incoming := m.incoming[1..], batch := m.batch + [e]);
    EmittedLast(m.batch, e);
    assert Waiting(m') == PendingIds(m.pending) + FreshIds(m'.incoming);
    assert Upcoming(m') == Upcoming(m);
  }

  lemma HandleKeepsOrder(m: Loop, active: ActiveLaunches, now: nat, nextEvent: nat, move: Move)
    requires InOrder(m, nextEvent) && m.incoming != [] && HandleMove(m, m.incoming[0], active, now, move).Some?
    ensures InOrder(HandleMove(m, m.incoming[0], active, now, move).value.loop, nextEvent)
  {
    hide InOrder, AttributeEvent;
    var m' := HandleMove(m, m.incoming[0], active, now, move).value.loop;
    FirstDropped(m, nextEvent);
    if m'.incoming == m.incoming {
      SameInOrder(m, nextEvent, m'.stage);
    } else if m'.batch != m.batch {
      FirstEmitted(m, nextEvent, m'.batch[|m.batch|]);
    } else if m'.pending != m.pending {
      FirstBuffered(m, nextEvent, m'.pending[|m.pending|]);
    }
  }

  lemma ReadKeepsOrder(m: Loop, active: ActiveLaunches, now: nat, nextEvent: nat, bytes: seq<Decoder.Byte>,
      order: Decoder.Order)
    requires InOrder(m, nextEvent) && ReadMove(m, active, now, nextEvent, Read(bytes, order)).Some?
    ensures var o := ReadMove(m, active, now, nextEvent, Read(bytes, order)).value; InOrder(o.loop, nextEvent + o.read)
  {
    hide Ascending, Below, Decoder.Decode;
    var events := Decoder.Decode(bytes, order);
    var p, b := PendingIds(m.pending), EmittedIds(m.batch);
    assert Waiting(m) == p && Upcoming(m) == b;
    ThenFresh(p, nextEvent, events);
    ThenFresh(b, nextEvent, events);
    var m' := ReadMove(m, active, now, nextEvent, Read(bytes, order)).value.loop;
    assert Waiting(m') == p + FreshIds(Numbered(events, nextEvent));
    assert Upcoming(m') == b + FreshIds(Numbered(events, nextEvent));
  }

  lemma SendKeepsOrder(m: Loop, nextEvent: nat, move: Move)
    requires InOrder(m, nextEvent) && SendMove(m, move).Some?
    ensures InOrder(SendMove(m, move).value.loop, nextEvent)
  {
    hide IsExcluded;
    var m' := SendMove(m, move).value.loop;
    if move.SendHead? {
      EmittedHead(m.batch);
      assert Upcoming(m) == [m.batch[0].id] + Upcoming(m');
      FrontOf([m.batch[0].id], Upcoming(m'), nextEvent);
      assert Waiting(m') == Waiting(m);
    } else if move.EndSend? {
      assert Waiting(m') == Waiting(m);
    } else {
      assert Waiting(m') == [] && Upcoming(m') == [];
    }
  }

  lemma MoveKeepsOrder(m: Loop, active: ActiveLaunches, now: nat, nextEvent: nat, move: Move)
    requires InOrder(m, nextEvent) && Advance(m, active, now, nextEvent, move).Some?
    ensures var o := Advance(m, active, now, nextEvent, move).value; InOrder(o.loop, nextEvent + o.read)
  {
    hide InOrder, Decoder.Decode, IsExcluded, Numbered, DropAll, AttributeEvent;
    match move {
      case CheckHead => CheckHeadKeepsOrder(m, active, now, nextEvent);
      case ResolveHead(path) => ResolveHeadKeepsOrder(m, active, now, nextEvent, path);
      case Refresh(_) | BeginRetry | EndRetry => OtherRetryKeepsOrder(m, active, now, nextEvent, move);
      case SendHead(_) | EndSend | Die => SendKeepsOrder(m, nextEvent, move);
      case Read(bytes, order) => ReadKeepsOrder(m, active, now, nextEvent, bytes, order);
      case EndRead => EndReadKeepsOrder(m, nextEvent);
      case _ => HandleKeepsOrder(m, active, now, nextEvent, move);
    }
  }

  lemma EndReadKeepsOrder(m: Loop, nextEvent: nat)
    requires InOrder(m, nextEvent) && m.stage.Handling? && m.incoming == []
    ensures InOrder(m.(stage := Sending), nextEvent)
  {
    assert Waiting(m.(stage := Sending)) == Waiting(m) && Upcoming(m.(stage := Sending)) == Upcoming(m);
  }

  // ---- Buffer size and waiting time ----

  /** The buffer is bounded, and what a retry has kept so far was young enough when it began. */
  ghost predicate Bounded(m: Loop) {
    && |m.kept| + |m.pending| <= PENDING_MAX
    && (InRetry(m) ==> forall p | p in m.kept :: m.stage.since - p.firstSeen <= PENDING_RETRY_WINDOW)
  }

  lemma MoveKeepsBounded(m: Loop, active: ActiveLaunches, now: nat, nextEvent: nat, move: Move)
    requires Bounded(m) && InOrder(m, nextEvent) && Advance(m, active, now, nextEvent, move).Some?
    ensures Bounded(Advance(m, active, now, nextEvent, move).value.loop)
  {
    hide Decoder.Decode, IsExcluded, Ascending, Below, AttributeEvent, DropAll;
  }

  // ---- Whole runs ----

  ghost predicate Orderly(s: State) {
    forall k | 0 <= k < |s.loops| :: InOrder(s.loops[k], s.nextEvent) && Bounded(s.loops[k])
  }

  lemma InOrderLater(m: Loop, a: nat, b: nat)
    requires InOrder(m, a) && a <= b
    ensures InOrder(m, b)
  {
    hide Ascending;
    LaterBound(Waiting(m), a, b);
    LaterBound(Upcoming(m), a, b);
  }

  lemma TurnKeepsOrderly(s: State, k: nat, move: Move, s': State)
    requires Orderly(s) && TurnStep(s, k, move) == Some(s')
    ensures Orderly(s')
  {
    hide Advance, InOrder, Bounded, Journal.Apply;
    MoveKeepsOrder(s.loops[k], s.active, s.now, s.nextEvent, move);
    MoveKeepsBounded(s.loops[k], s.active, s.now, s.nextEvent, move);
    forall j | 0 <= j < |s'.loops| ensures InOrder(s'.loops[j], s'.nextEvent) && Bounded(s'.loops[j]) {
      if j != k {
        InOrderLater(s.loops[j], s.nextEvent, s'.nextEvent);
      }
    }
  }

  lemma NewLoopOrderly(nextEvent: nat)
    ensures InOrder(NEW_LOOP, nextEvent) && Bounded(NEW_LOOP)
  {
    assert Waiting(NEW_LOOP) == [] && Upcoming(NEW_LOOP) == [];
  }

  lemma AbortKeepsOrderly(m: Loop, nextEvent: nat)
    requires InOrder(m, nextEvent) && Bounded(m)
    ensures InOrder(m.(aborted := true), nextEvent) && Bounded(m.(aborted := true))
  {
    assert Waiting(m.(aborted := true)) == Waiting(m) && Upcoming(m.(aborted := true)) == Upcoming(m);
  }

  /** Launch steps start, abort or leave loops; nothing else. */
  lemma LaunchStepsOnLoops(s: State, step: Step, s': State, k: nat)
    requires Apply(s, step) == Some(s') && !step.Turn? && k < |s'.loops|
    ensures s'.nextEvent == s.nextEvent
    ensures (k < |s.loops| && s'.loops[k] == s.loops[k]) || s'.loops[k] == NEW_LOOP
            || (k < |s.loops| && s'.loops[k] == s.loops[k].(aborted := true))
  {
    hide MutationCapture.Started, MutationCapture.Stopped, Journal.Apply;
  }

  lemma StepKeepsOrderly(s: State, step: Step, s': State)
    requires Orderly(s) && Apply(s, step) == Some(s')
    ensures Orderly(s')
  {
    hide InOrder, Bounded, LaunchStep, TurnStep, Journal.Apply;
    if step.Turn? {
      TurnKeepsOrderly(s, step.k, step.move, s');
    } else {
      forall k | 0 <= k < |s'.loops| ensures InOrder(s'.loops[k], s'.nextEvent) && Bounded(s'.loops[k]) {
        LaunchStepsOnLoops(s, step, s', k);
        NewLoopOrderly(s'.nextEvent);
        if k < |s.loops| {
          AbortKeepsOrderly(s.loops[k], s.nextEvent);
        }
      }
    }
  }

  /**
   In every reachable state every loop handles its events in the order they were read, retried
   ones included, and its buffer never exceeds its bound.
   */
  lemma {:induction false} AlwaysOrderly(trace: seq<State>, steps: seq<Step>, n: nat)
    requires Behaviour(trace, steps) && n <= |steps|
    ensures Orderly(trace[n])
    decreases n
  {
    if n > 0 {
      AlwaysOrderly(trace, steps, n - 1);
      StepKeepsOrderly(trace[n - 1], steps[n - 1], trace[n]);
    }
  }

  // ---- Who is still waiting after a retry ----

  /** During the retry that loop `k` is in at `n`, the process was once not registered. */
  ghost predicate FoundMissing(trace: seq<State>, n: nat, k: nat, pid: Pid)
    requires n < |trace|
  {
    exists j: nat :: j <= n && pid !in trace[j].active && RetriesThrough(trace, j, n, k)
  }

  ghost predicate RetriesThrough(trace: seq<State>, j: nat, n: nat, k: nat)
    requires n < |trace|
  {
    forall i | j <= i <= n :: k < |trace[i].loops| && InRetry(trace[i].loops[k])
  }

  ghost predicate KeptWereMissing(trace: seq<State>, n: nat)
    requires n < |trace|
  {
    forall k, p | 0 <= k < |trace[n].loops| && p in trace[n].loops[k].kept :: FoundMissing(trace, n, k, p.pid)
  }

  /** A retry only sets an event aside when its process is not registered at that moment. */
  lemma KeptGrowsByMissing(m: Loop, active: ActiveLaunches, now: nat, nextEvent: nat, move: Move, p: PendingEvent)
    requires Advance(m, active, now, nextEvent, move).Some?
    requires p in Advance(m, active, now, nextEvent, move).value.loop.kept
    ensures p in m.kept || (p.pid !in active && InRetry(m)
      && InRetry(Advance(m, active, now, nextEvent, move).value.loop))
  {
    hide Decoder.Decode, IsExcluded, AttributeEvent, DropAll;
  }

  lemma KeptStaysMissing(trace: seq<State>, steps: seq<Step>, n: nat)
    requires Behaviour(trace, steps) && n < |steps| && KeptWereMissing(trace, n)
    requires Orderly(trace[n]) && Orderly(trace[n + 1])
    ensures KeptWereMissing(trace, n + 1)
  {
    hide Advance, LaunchStep, Journal.Apply, Ascending, Below;
    var s, s' := trace[n], trace[n + 1];
    forall k, p | 0 <= k < |s'.loops| && p in s'.loops[k].kept ensures FoundMissing(trace, n + 1, k, p.pid) {
      assert InOrder(s'.loops[k], s'.nextEvent) && InRetry(s'.loops[k]);
      if steps[n].Turn? && steps[n].k == k {
        KeptGrowsByMissing(s.loops[k], s.active, s.now, s.nextEvent, steps[n].move, p);
      } else if !steps[n].Turn? {
        LaunchStepsOnLoops(s, steps[n], s', k);
      }
      if p in s.loops[k].kept {
        assert FoundMissing(trace, n, k, p.pid);
        var j: nat :| j <= n && p.pid !in trace[j].active && RetriesThrough(trace, j, n, k);
        assert RetriesThrough(trace, j, n + 1, k);
        assert j <= n + 1 && p.pid !in trace[j].active;
      } else {
        assert RetriesThrough(trace, n, n + 1, k);
        assert n <= n + 1 && p.pid !in trace[n].active;
      }
    }
  }

  lemma {:induction false} AlwaysKeptWereMissing(trace: seq<State>, steps: seq<Step>, n: nat)
    requires Behaviour(trace, steps) && n <= |steps|
    ensures KeptWereMissing(trace, n)
    decreases n
  {
    if n > 0 {
      AlwaysKeptWereMissing(trace, steps, n - 1);
      AlwaysOrderly(trace, steps, n - 1);
      AlwaysOrderly(trace, steps, n);
      KeptStaysMissing(trace, steps, n - 1);
    }
  }

  /**
   Bounded waiting over every interleaving: an event still waiting when a retry ends was at most
   500 ms old when it began, and at some moment of that very retry its process was unregistered.
   So a process registered throughout a retry has none of its events left waiting by it.
   */
  lemma WaitsOnlyWhileMissing(trace: seq<State>, steps: seq<Step>, n: nat, k: nat, p: PendingEvent)
    requires Behaviour(trace, steps) && n < |steps| && steps[n] == Turn(k, EndRetry)
    requires p in trace[n + 1].loops[k].pending
    ensures k < |trace[n].loops| && trace[n].loops[k].stage.Retrying?
    ensures trace[n].loops[k].stage.since - p.firstSeen <= PENDING_RETRY_WINDOW
    ensures FoundMissing(trace, n, k, p.pid)
  {
    hide Ascending, Below, Journal.Apply, FoundMissing;
    AlwaysOrderly(trace, steps, n);
    AlwaysKeptWereMissing(trace, steps, n);
    assert Apply(trace[n], steps[n]) == Some(trace[n + 1]);
    assert Bounded(trace[n].loops[k]);
    assert p in trace[n].loops[k].kept;
  }
}
