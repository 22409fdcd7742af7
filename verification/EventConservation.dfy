/** No event is lost or duplicated between the read that delivers it and its last place. */
module EventConservation {
  import opened Paths
  import opened Attribution
  import opened CaptureProtocol
  import Decoder
  import Journal
  import MutationCapture

  // ---- Counting ----

  /** How often `id` occurs. */
  function In(ids: seq<nat>, id: nat): nat {
    if ids == [] then 0 else (if ids[0] == id then 1 else 0) + In(ids[1..], id)
  }

  lemma {:induction false} InConcat(a: seq<nat>, b: seq<nat>, id: nat)
    ensures In(a + b, id) == In(a, id) + In(b, id)
    decreases a
  {
    if a == [] {
      assert a + b == b;
    } else {
      assert (a + b)[1..] == a[1..] + b;
      InConcat(a[1..], b, id);
    }
  }

  lemma PendingTail(s: seq<PendingEvent>, id: nat)
    requires s != []
    ensures In(PendingIds(s), id) == (if s[0].id == id then 1 else 0) + In(PendingIds(s[1..]), id)
  {
    assert PendingIds(s)[1..] == PendingIds(s[1..]);
  }

  lemma FreshTail(s: seq<FreshEvent>, id: nat)
    requires s != []
    ensures In(FreshIds(s), id) == (if s[0].id == id then 1 else 0) + In(FreshIds(s[1..]), id)
  {
    assert FreshIds(s)[1..] == FreshIds(s[1..]);
  }

  lemma EmittedTail(s: seq<Emitted>, id: nat)
    requires s != []
    ensures In(EmittedIds(s), id) == (if s[0].id == id then 1 else 0) + In(EmittedIds(s[1..]), id)
  {
    assert EmittedIds(s)[1..] == EmittedIds(s[1..]);
  }

  lemma One(x: nat, id: nat)
    ensures In([x], id) == if x == id then 1 else 0
  {
    assert [x][1..] == [];
  }

  lemma PendingAdd(s: seq<PendingEvent>, p: PendingEvent, id: nat)
    ensures In(PendingIds(s + [p]), id) == In(PendingIds(s), id) + if p.id == id then 1 else 0
  {
    assert PendingIds(s + [p]) == PendingIds(s) + [p.id];
    InConcat(PendingIds(s), [p.id], id);
    One(p.id, id);
  }

  lemma EmittedAdd(s: seq<Emitted>, e: Emitted, id: nat)
    ensures In(EmittedIds(s + [e]), id) == In(EmittedIds(s), id) + if e.id == id then 1 else 0
  {
    assert EmittedIds(s + [e]) == EmittedIds(s) + [e.id];
    InConcat(EmittedIds(s), [e.id], id);
    One(e.id, id);
  }

  lemma DroppedOne(x: nat, why: Reason, id: nat)
    ensures In(DroppedIds([(x, why)]), id) == if x == id then 1 else 0
  {
    assert DroppedIds([(x, why)]) == [x];
    One(x, id);
  }

  lemma {:induction false} NumberedIds(events: seq<Decoder.Event>, from: nat, id: nat)
    ensures In(FreshIds(Numbered(events, from)), id) == if from <= id < from + |events| then 1 else 0
  {
    var ids := FreshIds(Numbered(events, from));
    if events != [] {
      var n := |events| - 1;
      NumberedIds(events[..n], from, id);
      assert ids == FreshIds(Numbered(events[..n], from)) + [from + n];
      InConcat(FreshIds(Numbered(events[..n], from)), [from + n], id);
      One(from + n, id);
    }
  }

  // ---- One move ----

  /** How often a loop holds `id`, over its four places. */
  function Held(m: Loop, id: nat): nat {
    In(PendingIds(m.kept), id) + In(PendingIds(m.pending), id) + In(FreshIds(m.incoming), id)
      + In(EmittedIds(m.batch), id)
  }

  /** What a move reads, it keeps, sends or drops. */
  ghost predicate Accounts(m: Loop, nextEvent: nat, o: Outcome, id: nat) {
    Held(m, id) + (if nextEvent <= id < nextEvent + o.read then 1 else 0) ==
    Held(o.loop, id) + In(EmittedIds(o.sent), id) + In(DroppedIds(o.dropped), id)
  }

  lemma EmitAccounts(m: Loop, next: Loop, x: nat, mask: nat, key: Pid, path: Option<Path>, active: ActiveLaunches,
                     nextEvent: nat, id: nat)
    requires next.batch == m.batch && Held(m, id) == Held(next, id) + if x == id then 1 else 0
    ensures Accounts(m, nextEvent, Emit(m, next, x, mask, key, path, active), id)
  {
    hide In, AttributeEvent;
    var o := Emit(m, next, x, mask, key, path, active);
    Nothing(id);
    DroppedOne(x, NotResolved, id);
    DroppedOne(x, NotAttributed, id);
    if o.dropped == [] {
      EmittedAdd(m.batch, o.loop.batch[|m.batch|], id);
    }
  }

  lemma Nothing(id: nat)
    ensures In(EmittedIds([]), id) == 0 && In(DroppedIds([]), id) == 0 && In(PendingIds([]), id) == 0
      && In(FreshIds([]), id) == 0
  {
  }

  lemma RetryAccounts(m: Loop, active: ActiveLaunches, now: nat, nextEvent: nat, move: Move, id: nat)
    requires RetryMove(m, active, now, move).Some?
    ensures Accounts(m, nextEvent, RetryMove(m, active, now, move).value, id)
  {
    hide In, Emit;
    Nothing(id);
    match move {
      case CheckHead =>
        PendingTail(m.pending, id);
        PendingAdd(m.kept, m.pending[0], id);
        DroppedOne(m.pending[0].id, Expired, id);
      case ResolveHead(path) =>
        var p := m.pending[0];
        PendingTail(m.pending, id);
        var next := m.(stage := Retrying(m.stage.since), pending := m.pending[1..]);
        EmitAccounts(m, next, p.id, p.mask, p.pid, path, active, nextEvent, id);
      case _ =>
    }
  }

  lemma HandleAccounts(m: Loop, active: ActiveLaunches, now: nat, nextEvent: nat, move: Move, id: nat)
    requires m.incoming != [] && HandleMove(m, m.incoming[0], active, now, move).Some?
    ensures Accounts(m, nextEvent, HandleMove(m, m.incoming[0], active, now, move).value, id)
  {
    hide In, Emit;
    var e := m.incoming[0];
    var next := m.(stage := Handling, incoming := m.incoming[1..]);
    Nothing(id);
    FreshTail(m.incoming, id);
    match move {
      case ResolveFound(path) =>
        DroppedOne(e.id, NoName, id);
        if e.info.Some? {
          EmitAccounts(m, next, e.id, e.mask, m.stage.key, path, active, nextEvent, id);
        }
      case Buffer =>
        DroppedOne(e.id, NoName, id);
        DroppedOne(e.id, Idle, id);
        DroppedOne(e.id, BufferFull, id);
        if e.info.Some? {
          PendingAdd(m.pending, PendingEvent(e.id, e.mask, e.pid, e.info.value, now), id);
        }
      case _ =>
    }
  }

  lemma SendAccounts(m: Loop, nextEvent: nat, move: Move, id: nat)
    requires SendMove(m, move).Some?
    ensures Accounts(m, nextEvent, SendMove(m, move).value, id)
  {
    hide In, IsExcluded;
    Nothing(id);
    match move {
      case SendHead(open) =>
        var e := m.batch[0];
        EmittedTail(m.batch, id);
        DroppedOne(e.id, Excluded, id);
        DroppedOne(e.id, ChannelClosed, id);
        EmittedAdd([], e, id);
        assert [] + [e] == [e];
      case Die =>
        var a, b, c, d := PendingIds(m.kept), PendingIds(m.pending), FreshIds(m.incoming), EmittedIds(m.batch);
        assert DroppedIds(DropAll(a + b + c + d, GroupStopped)) == a + b + c + d;
        InConcat(a, b, id);
        InConcat(a + b, c, id);
        InConcat(a + b + c, d, id);
      case _ =>
    }
  }

  lemma ReadAccounts(m: Loop, active: ActiveLaunches, now: nat, nextEvent: nat,
                     bytes: seq<Decoder.Byte>, order: Decoder.Order, id: nat)
    requires ReadMove(m, active, now, nextEvent, Read(bytes, order)).Some?
    ensures Accounts(m, nextEvent, ReadMove(m, active, now, nextEvent, Read(bytes, order)).value, id)
  {
    hide Decoder.Decode, In;
    Nothing(id);
    NumberedIds(Decoder.Decode(bytes, order), nextEvent, id);
  }

  lemma QuietAccounts(m: Loop, nextEvent: nat, m': Loop, id: nat)
    requires m' == m.(stage := m'.stage)
    ensures Accounts(m, nextEvent, Quiet(m'), id)
  {
    Nothing(id);
  }

  lemma MoveAccounts(m: Loop, active: ActiveLaunches, now: nat, nextEvent: nat, move: Move, id: nat)
    requires Advance(m, active, now, nextEvent, move).Some?
    ensures Accounts(m, nextEvent, Advance(m, active, now, nextEvent, move).value, id)
  {
    hide RetryMove, SendMove, HandleMove, Decoder.Decode, Accounts;
    match move {
      case Refresh(_) | BeginRetry | CheckHead | ResolveHead(_) | EndRetry => RetryAccounts(m, active, now, nextEvent,
        move, id);
      case SendHead(_) | EndSend | Die => SendAccounts(m, nextEvent, move, id);
      case Read(bytes, order) => ReadAccounts(m, active, now, nextEvent, bytes, order, id);
      case EndRead => QuietAccounts(m, nextEvent, m.(stage := Sending), id);
      case _ => HandleAccounts(m, active, now, nextEvent, move, id);
    }
  }

  // ---- All loops together ----

  function Tally(loops: seq<Loop>, id: nat): nat {
    if loops == [] then 0 else Tally(loops[..|loops| - 1], id) + Held(loops[|loops| - 1], id)
  }

  lemma {:induction false} TallyUpdate(loops: seq<Loop>, k: nat, m: Loop, id: nat)
    requires k < |loops|
    ensures Tally(loops[k := m], id) + Held(loops[k], id) == Tally(loops, id) + Held(m, id)
    decreases |loops|
  {
    hide Held;
    var n := |loops| - 1;
    if k == n {
      assert loops[k := m][..n] == loops[..n];
    } else {
      assert loops[k := m][..n] == loops[..n][k := m];
      TallyUpdate(loops[..n], k, m, id);
    }
  }

  lemma TallyAdd(loops: seq<Loop>, m: Loop, id: nat)
    ensures Tally(loops + [m], id) == Tally(loops, id) + Held(m, id)
  {
    hide Held;
    assert (loops + [m])[..|loops|] == loops;
  }

  /** In how many places event `id` is: held by a loop, sent, dropped for a reason. */
  function Places(s: State, id: nat): nat {
    Tally(s.loops, id) + In(s.sent, id) + In(DroppedIds(s.dropped), id)
  }

  /** Every number handed out so far is in exactly one place, once; no other number is anywhere. */
  ghost predicate Conserved(s: State) {
    forall id: nat :: Places(s, id) == if id < s.nextEvent then 1 else 0
  }

  lemma TurnCounts(s: State, k: nat, move: Move, s': State, id: nat)
    requires TurnStep(s, k, move) == Some(s')
    ensures Places(s', id) == Places(s, id) + if s.nextEvent <= id < s'.nextEvent then 1 else 0
    ensures s.sent <= s'.sent && s.dropped <= s'.dropped && s.nextEvent <= s'.nextEvent
  {
    hide Advance, Held, Tally, Journal.Apply, In;
    var m := s.loops[k];
    var o := Advance(m, s.active, s.now, s.nextEvent, move).value;
    MoveAccounts(m, s.active, s.now, s.nextEvent, move, id);
    TallyUpdate(s.loops, k, o.loop, id);
    InConcat(s.sent, EmittedIds(o.sent), id);
    assert DroppedIds(s.dropped + o.dropped) == DroppedIds(s.dropped) + DroppedIds(o.dropped);
    InConcat(DroppedIds(s.dropped), DroppedIds(o.dropped), id);
  }

  lemma NewLoopIsEmpty(id: nat)
    ensures Held(NEW_LOOP, id) == 0
  {
  }

  lemma AbortHoldsSame(m: Loop, id: nat)
    ensures Held(m.(aborted := true), id) == Held(m, id)
  {
  }

  /** Starting a loop adds an empty one; aborting one only marks it. */
  lemma LaunchCounts(s: State, step: Step, s': State, id: nat)
    requires Apply(s, step) == Some(s') && !step.Turn?
    ensures Tally(s'.loops, id) == Tally(s.loops, id)
    ensures s'.sent == s.sent && s'.dropped == s.dropped && s'.nextEvent == s.nextEvent
  {
    hide MutationCapture.Started, MutationCapture.Stopped, Journal.Apply, Held, Tally;
    if step.StartCapture? {
      assert s'.loops == s.loops || s'.loops == s.loops + [NEW_LOOP];
      NewLoopIsEmpty(id);
      TallyAdd(s.loops, NEW_LOOP, id);
    } else if step.StopCapture? {
      if s'.loops != s.loops {
        var g := s.group.value;
        var m := s.loops[g].(aborted := true);
        assert s'.loops == s.loops[g := m];
        TallyUpdate(s.loops, g, m, id);
        AbortHoldsSame(s.loops[g], id);
      }
    } else {
      assert s'.loops == s.loops;
    }
  }

  lemma StepConserves(s: State, step: Step, s': State)
    requires Conserved(s) && Apply(s, step) == Some(s')
    ensures Conserved(s') && s.sent <= s'.sent && s.dropped <= s'.dropped && s.nextEvent <= s'.nextEvent
  {
    hide Tally, LaunchStep, TurnStep, Journal.Apply, In;
    forall id: nat ensures Places(s', id) == if id < s'.nextEvent then 1 else 0 {
      assert Places(s, id) == if id < s.nextEvent then 1 else 0;
      if step.Turn? {
        TurnCounts(s, step.k, step.move, s', id);
      } else {
        LaunchCounts(s, step, s', id);
      }
    }
    if step.Turn? {
      TurnCounts(s, step.k, step.move, s', 0);
    } else {
      LaunchCounts(s, step, s', 0);
    }
  }

  /**
   Conservation over every run: after every step each event read so far is held by a capture
   loop, was sent, or was dropped for a named reason: exactly one of these, and once.
   */
  lemma {:induction false} AlwaysConserved(trace: seq<State>, steps: seq<Step>, n: nat)
    requires Behaviour(trace, steps) && n <= |steps|
    ensures Conserved(trace[n])
    decreases n
  {
    if n > 0 {
      AlwaysConserved(trace, steps, n - 1);
      StepConserves(trace[n - 1], steps[n - 1], trace[n]);
    } else {
      assert DroppedIds([]) == [];
    }
  }

  predicate Finished(s: State, id: nat) {
    In(s.sent, id) + In(DroppedIds(s.dropped), id) > 0
  }

  lemma PrefixCounts(a: seq<nat>, b: seq<nat>, id: nat)
    requires a <= b
    ensures In(a, id) <= In(b, id)
  {
    assert b == a + b[|a|..];
    InConcat(a, b[|a|..], id);
  }

  /** What was sent or dropped stays so, and no loop ever holds it again. */
  lemma {:induction false} FinishedForGood(trace: seq<State>, steps: seq<Step>, n: nat, n': nat, id: nat)
    requires Behaviour(trace, steps) && n <= n' <= |steps| && Finished(trace[n], id)
    ensures trace[n].sent <= trace[n'].sent && trace[n].dropped <= trace[n'].dropped
    ensures Finished(trace[n'], id) && Tally(trace[n'].loops, id) == 0
    ensures In(trace[n'].sent, id) + In(DroppedIds(trace[n'].dropped), id) == 1
    decreases n'
  {
    hide In, Tally, Apply;
    AlwaysConserved(trace, steps, n');
    assert Places(trace[n'], id) <= 1;
    if n < n' {
      FinishedForGood(trace, steps, n, n' - 1, id);
      AlwaysConserved(trace, steps, n' - 1);
      StepConserves(trace[n' - 1], steps[n' - 1], trace[n']);
      PrefixCounts(trace[n' - 1].sent, trace[n'].sent, id);
      assert DroppedIds(trace[n' - 1].dropped) <= DroppedIds(trace[n'].dropped);
      PrefixCounts(DroppedIds(trace[n' - 1].dropped), DroppedIds(trace[n'].dropped), id);
    }
  }

  /** The event is given up for the reason that is said. */
  ghost predicate TrueReason(m: Loop, active: ActiveLaunches, move: Move, why: Reason) {
    match why
    case Expired =>
      m.stage.Retrying? && m.pending != [] && m.stage.since - m.pending[0].firstSeen > 500
    case NotResolved =>
      (move.ResolveHead? || move.ResolveFound?) && move.path == None
    case NotAttributed =>
      && (move.ResolveHead? || move.ResolveFound?) && move.path.Some?
      && exists pid :: Disowned(active, pid, move.path.value)
    case NoName =>
      m.incoming != [] && m.incoming[0].info == None
    case Idle =>
      move.Buffer? && active == map[]
    case BufferFull =>
      move.Buffer? && |m.pending| >= 5000
    case Excluded =>
      move.SendHead? && m.batch != [] && IsExcluded(m.batch[0].path)
    case ChannelClosed =>
      move == SendHead(false)
    case GroupStopped =>
      m.aborted
  }

  /** The process is not registered, or the path is not below its home. */
  predicate Disowned(active: ActiveLaunches, pid: Pid, path: Path) {
    pid !in active || !(active[pid].home <= path)
  }

  lemma DroppedForReason(m: Loop, active: ActiveLaunches, now: nat, nextEvent: nat, move: Move, i: nat)
    requires Advance(m, active, now, nextEvent, move).Some?
    requires i < |Advance(m, active, now, nextEvent, move).value.dropped|
    ensures TrueReason(m, active, move, Advance(m, active, now, nextEvent, move).value.dropped[i].1)
  {
    hide Decoder.Decode, IsExcluded;
    match move {
      case ResolveHead(path) =>
        assert path.Some? ==> Disowned(active, m.pending[0].pid, path.value);
      case ResolveFound(path) =>
        assert m.incoming[0].info.Some? && path.Some? ==> Disowned(active, m.stage.key, path.value);
      case _ =>
    }
  }
}
