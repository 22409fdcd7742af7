/** Marks, groups and the journal over whole runs of the capture protocol. */
module CaptureResources {
  import opened Paths
  import opened Attribution
  import opened CaptureProtocol
  import opened AttributionSafety
  import Decoder
  import MC = MutationCapture
  import Journal

  // ---- Counted launches ----

  function CountedOn(l: Launch): multiset<MC.Device> {
    if l.counted.Some? then multiset{l.counted.value} else multiset{}
  }

  /** The device of every launch whose start was counted and that has not stopped yet. */
  function Counted(launches: seq<Launch>): multiset<MC.Device> {
    if launches == [] then multiset{} else Counted(launches[..|launches| - 1]) + CountedOn(launches[|launches| - 1])
  }

  lemma CountedLast(launches: seq<Launch>)
    requires launches != []
    ensures var n := |launches| - 1; Counted(launches) == Counted(launches[..n]) + CountedOn(launches[n])
  {
  }

  lemma Exchange<T>(all: multiset<T>, out: multiset<T>, in': multiset<T>, more: multiset<T>)
    requires out <= all
    ensures (all - out + in') + more == (all + more) - out + in'
  {
  }

  lemma {:induction false} CountedUpdate(launches: seq<Launch>, l: nat, x: Launch)
    requires l < |launches|
    ensures CountedOn(launches[l]) <= Counted(launches)
    ensures Counted(launches[l := x]) == Counted(launches) - CountedOn(launches[l]) + CountedOn(x)
    decreases |launches|
  {
    hide CountedOn, Counted;
    var n := |launches| - 1;
    CountedLast(launches);
    CountedLast(launches[l := x]);
    if l == n {
      assert launches[l := x][..n] == launches[..n];
    } else {
      assert launches[l := x][..n] == launches[..n][l := x];
      CountedUpdate(launches[..n], l, x);
      Exchange(Counted(launches[..n]), CountedOn(launches[l]), CountedOn(x), CountedOn(launches[n]));
    }
  }

  lemma CountedAdd(launches: seq<Launch>, x: Launch)
    ensures Counted(launches + [x]) == Counted(launches) + CountedOn(x)
  {
    assert (launches + [x])[..|launches|] == launches;
  }

  /** The start of a capture reports success and its stop finds the same device and can unmark it. */
  predicate CallsWork(s: State, step: Step) {
    match step
    case StartCapture(l, dev, groupWorks, markWorks) => MC.Started(s.capture, dev, groupWorks, markWorks).1
    case StopCapture(l, dev, unmarkWorks) =>
      unmarkWorks && dev.Some? && l < |s.launches| && s.launches[l].counted == dev
    case _ => true
  }

  /** Exactly the launches between start and stop are counted. */
  ghost predicate CountedWhileArmed(s: State) {
    forall l | 0 <= l < |s.launches| ::
      s.launches[l].counted.Some? <==> Armed(s.launches[l])
  }

  /** The group in charge is the one loop that is not aborted; without a group every loop is. */
  ghost predicate OneLoopInCharge(s: State) {
    && (s.capture.group <==> s.group.Some?)
    && (s.group.Some? ==> s.group.value < |s.loops|)
    && (forall k | 0 <= k < |s.loops| :: s.loops[k].aborted <==> s.group != Some(k))
  }

  ghost predicate Balance(s: State) {
    MC.Balanced(s.capture, Counted(s.launches)) && CountedWhileArmed(s)
  }

  lemma StartKeepsBalance(s: State, l: nat, dev: Option<MC.Device>, groupWorks: bool, markWorks: bool)
    requires Balance(s) && l < |s.launches| && s.launches[l].phase.Claimed?
    requires MC.Started(s.capture, dev, groupWorks, markWorks).1
    ensures Balance(StartStep(s, l, dev, groupWorks, markWorks))
  {
    hide MC.Balanced, Counted, MC.Started;
    var s' := StartStep(s, l, dev, groupWorks, markWorks);
    WorkingStart(s.capture, dev, groupWorks, markWorks);
    MC.StartBalances(s.capture, Counted(s.launches), dev.value, dev, groupWorks, markWorks);
    CountedUpdate(s.launches, l, s'.launches[l]);
    assert Counted(s'.launches) == Counted(s.launches) + multiset{dev.value};
  }

  lemma WorkingStart(c: MC.Capture, dev: Option<MC.Device>, groupWorks: bool, markWorks: bool)
    requires MC.Started(c, dev, groupWorks, markWorks).1
    ensures dev.Some?
  {
  }

  lemma StopKeepsBalance(s: State, l: nat, dev: Option<MC.Device>)
    requires Balance(s) && l < |s.launches| && dev.Some? && s.launches[l].counted == dev
    ensures Balance(StopStep(s, l, dev, true))
  {
    hide MC.Balanced, Counted, MC.Stopped;
    var s' := StopStep(s, l, dev, true);
    CountedUpdate(s.launches, l, s'.launches[l]);
    assert dev.value in CountedOn(s.launches[l]);
    MC.StopBalances(s.capture, Counted(s.launches), dev.value, dev, true);
    assert Counted(s'.launches) == Counted(s.launches) - multiset{dev.value};
  }

  predicate Armed(l: Launch) {
    l.phase.Watching? || l.phase.Grace? || l.phase.Clearing? || l.phase.TornDown?
  }

  lemma SameCount(launches: seq<Launch>, l: nat, x: Launch)
    requires l < |launches| && x.counted == launches[l].counted
    ensures Counted(launches[l := x]) == Counted(launches)
  {
    hide Counted;
    CountedUpdate(launches, l, x);
    SubAdd(Counted(launches), CountedOn(launches[l]));
  }

  lemma ClaimKeepsCounted(s: State, pid: Pid, txid: int, home: Path, opens: bool)
    ensures var s' := ClaimStep(s, pid, txid, home, opens);
      Counted(s'.launches) == Counted(s.launches) && (CountedWhileArmed(s) ==> CountedWhileArmed(s'))
  {
    hide Counted;
    var s' := ClaimStep(s, pid, txid, home, opens);
    if s'.launches != s.launches {
      CountedAdd(s.launches, s'.launches[|s.launches|]);
    }
  }

  /** The steps of one launch between its start and its stop. */
  lemma LaunchKeepsCounted(s: State, step: Step, s': State)
    requires LaunchStep(s, step) == Some(s')
    requires step.CollectList? || step.CollectActivate? || step.WatchEnds? || step.Snapshot? || step.Teardown?
    ensures Counted(s'.launches) == Counted(s.launches) && s'.capture == s.capture && s'.group == s.group
    ensures CountedWhileArmed(s) ==> CountedWhileArmed(s')
  {
    hide Counted;
    var l := step.l;
    assert s'.launches == s.launches[l := s'.launches[l]];
    assert s'.launches[l].counted == s.launches[l].counted && Armed(s'.launches[l]) == Armed(s.launches[l]);
    SameCount(s.launches, l, s'.launches[l]);
  }

  /** A step that counts and uncounts nothing. */
  lemma OthersKeepCounted(s: State, step: Step, s': State)
    requires Apply(s, step) == Some(s') && !step.StartCapture? && !step.StopCapture?
    ensures Counted(s'.launches) == Counted(s.launches) && s'.capture == s.capture && s'.group == s.group
    ensures CountedWhileArmed(s) ==> CountedWhileArmed(s')
  {
    hide Counted, Advance, Journal.Apply, CountedWhileArmed;
    if step.Claim? {
      SameLaunchesCounted(s, s.(matched := None));
      ClaimKeepsCounted(s.(matched := None), s.matched.value.pid, s.matched.value.app.txid, step.home, step.opens);
    } else if step.CollectList? || step.CollectActivate? || step.WatchEnds? || step.Snapshot? || step.Teardown? {
      hide LaunchStep;
      LaunchKeepsCounted(s, step, s');
    } else {
      OthersKeepLaunches(s, step, s');
      SameLaunchesCounted(s, s');
    }
  }

  lemma SameLaunchesCounted(s: State, s': State)
    requires s'.launches == s.launches
    ensures CountedWhileArmed(s) ==> CountedWhileArmed(s')
  {
  }

  lemma SubAdd(a: multiset<MC.Device>, b: multiset<MC.Device>)
    requires b <= a
    ensures a - b + b == a
  {
  }

  lemma StepKeepsBalance(s: State, step: Step, s': State)
    requires Balance(s) && Apply(s, step) == Some(s') && CallsWork(s, step)
    ensures Balance(s')
  {
    hide MC.Balanced, Counted, MC.Started, MC.Stopped, StartStep, StopStep, Advance, Journal.Apply;
    if step.StartCapture? {
      StartKeepsBalance(s, step.l, step.dev, step.groupWorks, step.markWorks);
    } else if step.StopCapture? {
      StopKeepsBalance(s, step.l, step.dev);
    } else {
      OthersKeepCounted(s, step, s');
    }
  }

  lemma StartKeepsOneLoop(s: State, l: nat, dev: Option<MC.Device>, groupWorks: bool, markWorks: bool)
    requires OneLoopInCharge(s) && l < |s.launches|
    ensures OneLoopInCharge(StartStep(s, l, dev, groupWorks, markWorks))
  {
  }

  lemma StopKeepsOneLoop(s: State, l: nat, dev: Option<MC.Device>, unmarkWorks: bool)
    requires OneLoopInCharge(s) && l < |s.launches|
    ensures OneLoopInCharge(StopStep(s, l, dev, unmarkWorks))
  {
  }

  lemma StepKeepsOneLoop(s: State, step: Step, s': State)
    requires OneLoopInCharge(s) && Apply(s, step) == Some(s')
    ensures OneLoopInCharge(s')
  {
    hide MC.Balanced, Journal.Apply, Advance, StartStep, StopStep;
    if step.Turn? {
      MoveKeepsAborted(s.loops[step.k], s.active, s.now, s.nextEvent, step.move);
    } else if step.StartCapture? {
      StartKeepsOneLoop(s, step.l, step.dev, step.groupWorks, step.markWorks);
    } else if step.StopCapture? {
      StopKeepsOneLoop(s, step.l, step.dev, step.unmarkWorks);
    } else {
      assert s'.loops == s.loops && s'.group == s.group && s'.capture == s.capture;
    }
  }

  lemma MoveKeepsAborted(m: Loop, active: ActiveLaunches, now: nat, nextEvent: nat, move: Move)
    ensures var o := Advance(m, active, now, nextEvent, move); o.Some? ==> o.value.loop.aborted == m.aborted
  {
    hide Decoder.Decode, IsExcluded, AttributeEvent, DropAll;
  }

  ghost predicate AllCallsWork(trace: seq<State>, steps: seq<Step>)
    requires |trace| == |steps| + 1
  {
    forall i | 0 <= i < |steps| :: CallsWork(trace[i], steps[i])
  }

  /** Never two loops in charge, whatever fails. */
  lemma {:induction false} AlwaysOneLoop(trace: seq<State>, steps: seq<Step>, n: nat)
    requires Behaviour(trace, steps) && n <= |steps|
    ensures OneLoopInCharge(trace[n])
    decreases n
  {
    if n > 0 {
      AlwaysOneLoop(trace, steps, n - 1);
      StepKeepsOneLoop(trace[n - 1], steps[n - 1], trace[n]);
    }
  }

  /**
   With working calls, in every reachable state the reference counts are the launches between
   start and stop, per device; marks and group follow them.
   */
  lemma {:induction false} AlwaysBalance(trace: seq<State>, steps: seq<Step>, n: nat)
    requires Behaviour(trace, steps) && AllCallsWork(trace, steps) && n <= |steps|
    ensures Balance(trace[n])
    decreases n
  {
    if n > 0 {
      AlwaysBalance(trace, steps, n - 1);
      StepKeepsBalance(trace[n - 1], steps[n - 1], trace[n]);
    }
  }

  lemma {:induction false} NobodyCounted(launches: seq<Launch>)
    requires forall l | 0 <= l < |launches| :: launches[l].counted.None?
    ensures Counted(launches) == multiset{}
    decreases |launches|
  {
    if launches != [] {
      NobodyCounted(launches[..|launches| - 1]);
    }
  }

  /** An idle machine pays nothing: all launches finished means no registration, no count, no mark, no group. */
  lemma IdleMeansIdle(trace: seq<State>, steps: seq<Step>, n: nat)
    requires Behaviour(trace, steps) && AllCallsWork(trace, steps) && NoStragglers(trace, steps) && n <= |steps|
    requires forall l | 0 <= l < |trace[n].launches| :: trace[n].launches[l].phase.Finished?
    ensures trace[n].active == map[] && trace[n].capture == MC.IDLE && trace[n].group == None
    ensures forall k | 0 <= k < |trace[n].loops| :: trace[n].loops[k].aborted
  {
    hide Counted, MC.Balanced;
    AlwaysBalance(trace, steps, n);
    AlwaysOneLoop(trace, steps, n);
    NothingRegisteredWhenIdle(trace, steps, n);
    NobodyCounted(trace[n].launches);
    MC.NothingHeld(trace[n].capture, Counted(trace[n].launches));
  }

  // ---- The journal of a run ----

  /** What a step does to the channel: nothing, or one send or take. */
  function ChannelMoves(s: State, step: Step): seq<Journal.Move> {
    match step
    case Turn(k, move) =>
      var sent := SentBy(s, k, move);
      if sent == [] then [] else [Journal.Send(Journal.Write(RecordOf(sent[0], s.now)))]
    case JournalTake(works) => [Journal.Take(works)]
    case FlushRequest(ticket) => [Journal.Send(Journal.Flush(ticket))]
    case _ => []
  }

  /** The event a turn sends, if it does. */
  function SentBy(s: State, k: nat, move: Move): seq<Emitted> {
    if k >= |s.loops| then []
    else
      var o := Advance(s.loops[k], s.active, s.now, s.nextEvent, move);
      if o.Some? then o.value.sent else []
  }

  function MovesOf(trace: seq<State>, steps: seq<Step>, n: nat): seq<Journal.Move>
    requires n <= |steps| < |trace|
  {
    if n == 0 then [] else MovesOf(trace, steps, n - 1) + ChannelMoves(trace[n - 1], steps[n - 1])
  }

  lemma ChannelStep(s: State, step: Step, s': State)
    requires Apply(s, step) == Some(s')
    ensures var extra := ChannelMoves(s, step);
      |extra| <= 1 && s'.channel == if extra == [] then s.channel else Journal.Apply(s.channel, extra[0])
  {
    hide Advance, MC.Started, MC.Stopped, Journal.Apply;
  }

  lemma RunMore(moves: seq<Journal.Move>, extra: seq<Journal.Move>)
    requires |extra| <= 1
    ensures var c := Journal.Run(Journal.EMPTY, moves);
      Journal.Run(Journal.EMPTY, moves + extra) == if extra == [] then c else Journal.Apply(c, extra[0])
    ensures Journal.Sent(moves + extra) ==
      Journal.Sent(moves) + if extra != [] && extra[0].Send? then [extra[0].message] else []
  {
    hide Journal.Apply;
    if extra == [] {
      assert moves + extra == moves;
    } else {
      assert (moves + extra)[..|moves|] == moves && (moves + extra)[|moves|] == extra[0];
    }
  }

  /** The channel of a run is what its sends and takes make of an empty one. */
  lemma {:induction false} ChannelOfRun(trace: seq<State>, steps: seq<Step>, n: nat)
    requires Behaviour(trace, steps) && n <= |steps|
    ensures trace[n].channel == Journal.Run(Journal.EMPTY, MovesOf(trace, steps, n))
    decreases n
  {
    hide Journal.Apply, ChannelMoves, Apply;
    if n > 0 {
      ChannelOfRun(trace, steps, n - 1);
      ChannelStep(trace[n - 1], steps[n - 1], trace[n]);
      RunMore(MovesOf(trace, steps, n - 1), ChannelMoves(trace[n - 1], steps[n - 1]));
    }
  }

  /** Step `i` puts `message` into the channel. */
  ghost predicate Sends(trace: seq<State>, steps: seq<Step>, i: nat, message: Journal.Message)
    requires i < |steps| < |trace|
  {
    ChannelMoves(trace[i], steps[i]) == [Journal.Send(message)]
  }

  function SentUpTo(trace: seq<State>, steps: seq<Step>, n: nat): seq<Journal.Message>
    requires n <= |steps| < |trace|
  {
    Journal.Sent(MovesOf(trace, steps, n))
  }

  lemma SentStep(trace: seq<State>, steps: seq<Step>, n: nat)
    requires Behaviour(trace, steps) && n < |steps|
    ensures SentUpTo(trace, steps, n) <= SentUpTo(trace, steps, n + 1)
    ensures |SentUpTo(trace, steps, n + 1)| <= |SentUpTo(trace, steps, n)| + 1
    ensures forall message :: Sends(trace, steps, n, message) <==>
      SentUpTo(trace, steps, n + 1) == SentUpTo(trace, steps, n) + [message]
  {
    hide ChannelMoves, Apply, Journal.Sent;
    ChannelStep(trace[n], steps[n], trace[n + 1]);
    var extra := ChannelMoves(trace[n], steps[n]);
    RunMore(MovesOf(trace, steps, n), extra);
    var a, b := SentUpTo(trace, steps, n), SentUpTo(trace, steps, n + 1);
    forall message ensures Sends(trace, steps, n, message) <==> b == a + [message] {
      assert (a + [message])[|a|] == message;
      if extra != [] && extra[0].Send? {
        assert b[|a|] == extra[0].message;
      }
    }
  }

  /** A message sent by step `i` keeps its place behind everything sent before. */
  lemma {:induction false} SentKeepsPlace(trace: seq<State>, steps: seq<Step>, i: nat, n: nat, message: Journal.Message)
    requires Behaviour(trace, steps) && i < n <= |steps| && Sends(trace, steps, i, message)
    ensures |SentUpTo(trace, steps, i)| < |SentUpTo(trace, steps, n)|
    ensures SentUpTo(trace, steps, n)[|SentUpTo(trace, steps, i)|] == message
    decreases n
  {
    hide SentUpTo, Sends;
    SentStep(trace, steps, n - 1);
    if i < n - 1 {
      SentKeepsPlace(trace, steps, i, n - 1, message);
    }
  }

  /** What stands behind the message of step `i` was sent by a later step. */
  lemma {:induction false} SentBehind(trace: seq<State>, steps: seq<Step>, n: nat, x: nat) returns (j: nat)
    requires Behaviour(trace, steps) && n <= |steps| && x < |SentUpTo(trace, steps, n)|
    ensures j < n && Sends(trace, steps, j, SentUpTo(trace, steps, n)[x]) && |SentUpTo(trace, steps, j)| == x
    decreases n
  {
    hide SentUpTo, Sends;
    NothingSentYet(trace, steps);
    SentStep(trace, steps, n - 1);
    if x < |SentUpTo(trace, steps, n - 1)| {
      j := SentBehind(trace, steps, n - 1, x);
    } else {
      j := n - 1;
      var message := SentUpTo(trace, steps, n)[x];
      assert SentUpTo(trace, steps, n) == SentUpTo(trace, steps, n - 1) + [message];
    }
  }

  lemma NothingSentYet(trace: seq<State>, steps: seq<Step>)
    requires |steps| < |trace|
    ensures SentUpTo(trace, steps, 0) == []
  {
  }

  lemma {:induction false} SentNeverShrinks(trace: seq<State>, steps: seq<Step>, i: nat, n: nat)
    requires Behaviour(trace, steps) && i <= n <= |steps|
    ensures |SentUpTo(trace, steps, i)| <= |SentUpTo(trace, steps, n)|
    decreases n
  {
    hide SentUpTo;
    if i < n {
      SentStep(trace, steps, n - 1);
      SentNeverShrinks(trace, steps, i, n - 1);
    }
  }

  /**
   The flush barrier over every interleaving: once a flush is acknowledged, every event sent
   before any request for it has been taken off the channel, and has a row of its transaction,
   path and operation unless the database failed on that very event.
   */
  lemma FlushBarrierOfRun(trace: seq<State>, steps: seq<Step>, i: nat, e: Emitted, ticket: nat, n: nat)
    requires Behaviour(trace, steps) && i < n <= |steps|
    requires steps[i].Turn? && SentBy(trace[i], steps[i].k, steps[i].move) == [e]
    requires ticket in trace[n].channel.acked
    requires forall j | 0 <= j < n && steps[j] == FlushRequest(ticket) :: i < j
    ensures var place, taken := |SentUpTo(trace, steps, i)|, Journal.Taken(MovesOf(trace, steps, n));
      && place < |taken|
      && (taken[place] ==>
        exists r :: r in trace[n].channel.rows && r.txid == e.txid && r.path == e.path && Tells(e.mask, r.op))
  {
    hide Journal.Taken, Journal.Run, Journal.Sent, MovesOf;
    var moves := MovesOf(trace, steps, n);
    var x := |SentUpTo(trace, steps, i)|;
    ChannelOfRun(trace, steps, n);
    SentKeepsPlace(trace, steps, i, n, Journal.Write(RecordOf(e, trace[i].now)));
    forall y | 0 <= y < |Journal.Sent(moves)| && Journal.Sent(moves)[y] == Journal.Flush(ticket) ensures x < y {
      var j := SentBehind(trace, steps, n, y);
      OnlyFlushesFlush(trace, steps, j, ticket);
      SentStep(trace, steps, i);
      SentNeverShrinks(trace, steps, i + 1, j);
    }
    Journal.FlushBarrier(moves, ticket, x);
    MaskIsTold(e.mask);
    hide Tells;
  }

  lemma OnlyFlushesFlush(trace: seq<State>, steps: seq<Step>, j: nat, ticket: nat)
    requires j < |steps| < |trace| && Sends(trace, steps, j, Journal.Flush(ticket))
    ensures steps[j] == FlushRequest(ticket)
  {
    hide SentBy;
  }

  /** In every reachable state keys are unique, and no row is ever changed or taken back. */
  lemma {:induction false} JournalOnlyGrows(trace: seq<State>, steps: seq<Step>, n: nat, n': nat)
    requires Behaviour(trace, steps) && n <= n' <= |steps|
    ensures Journal.UniqueKeys(trace[n].channel.rows) && Journal.UniqueKeys(trace[n'].channel.rows)
    ensures trace[n].channel.rows <= trace[n'].channel.rows
    decreases n'
  {
    hide Journal.UniqueKeys, Journal.Apply;
    if n' == n {
      ChannelOfRun(trace, steps, n);
      JournalStartsUnique();
      Journal.RowsOnlyGrow(Journal.EMPTY, MovesOf(trace, steps, n));
    } else {
      JournalOnlyGrows(trace, steps, n, n' - 1);
      var extra := ChannelMoves(trace[n' - 1], steps[n' - 1]);
      ChannelStep(trace[n' - 1], steps[n' - 1], trace[n']);
      Journal.RowsOnlyGrow(trace[n' - 1].channel, extra);
      if extra != [] {
        assert extra[..0] == [];
      }
    }
  }

  lemma JournalStartsUnique()
    ensures Journal.UniqueKeys(Journal.EMPTY.rows)
  {
  }
}
