/** Every journal row was written by a process of a live launch, below that launch's home. */
module AttributionSafety {
  import opened Paths
  import opened Attribution
  import opened CaptureProtocol
  import Decoder
  import Journal
  import MutationCapture

  // ---- Registered processes belong to live launches ----

  /** Launch `l` is live, lists `pid`, and is the one the registration names. */
  ghost predicate Backs(s: State, l: nat, pid: Pid, a: ActiveLaunch) {
    && l < |s.launches| && Live(s.launches[l]) && pid in s.launches[l].pids
    && s.launches[l].txid == a.txid && s.launches[l].home == a.home
  }

  ghost predicate Backed(s: State, pid: Pid, a: ActiveLaunch) {
    exists l: nat :: Backs(s, l, pid, a)
  }

  ghost predicate ActiveAgrees(s: State) {
    forall pid | pid in s.active :: Backed(s, pid, s.active[pid])
  }

  ghost predicate CollectingListed(s: State) {
    forall l | 0 <= l < |s.launches| && s.launches[l].collecting.Some? ::
      s.launches[l].collecting.value in s.launches[l].pids
  }

  /** The teardown of launch `l` passes over this registration, which no other launch backs. */
  ghost predicate LeftBehind(s: State, l: nat, pid: Pid)
    requires l < |s.launches| && s.launches[l].phase.Clearing?
  {
    && pid in s.active && pid !in s.launches[l].phase.listed
    && forall m: nat | m != l :: !Backs(s, m, pid, s.active[pid])
  }

  /**
   A collector that was stopped registers a process too late: after its launch was torn down, with
   no other live launch of the same application and home that lists it, or just before, when the
   teardown has already chosen what to take out.
   */
  ghost predicate Straggles(s: State, step: Step) {
    || (step.CollectActivate? && step.opens && step.l < |s.launches| && (
          var x := s.launches[step.l];
          x.collecting.Some? && !Live(x) && !Backed(s, x.collecting.value, ActiveLaunch(x.txid, x.home))))
    || (step.Teardown? && step.l < |s.launches| && s.launches[step.l].phase.Clearing? && exists pid ::
      LeftBehind(s, step.l, pid))
  }

  /** Launch `l` may gain processes and move on while it lives; registrations may only go away. */
  lemma LaunchGrows(s: State, s': State, l: nat)
    requires ActiveAgrees(s) && l < |s.launches| == |s'.launches|
    requires s'.launches == s.launches[l := s'.launches[l]]
    requires var x, x' := s.launches[l], s'.launches[l];
      x'.txid == x.txid && x'.home == x.home && x.pids <= x'.pids && (Live(x) ==> Live(x'))
    requires s'.active == s.active
    ensures ActiveAgrees(s')
  {
    forall pid | pid in s'.active ensures Backed(s', pid, s'.active[pid]) {
      var m: nat :| Backs(s, m, pid, s.active[pid]);
      assert Backs(s', m, pid, s.active[pid]);
    }
  }

  lemma ClaimAgrees(s: State, pid: Pid, txid: int, home: Path, opens: bool)
    requires ActiveAgrees(s)
    ensures ActiveAgrees(ClaimStep(s, pid, txid, home, opens))
  {
    var s' := ClaimStep(s, pid, txid, home, opens);
    forall p | p in s'.active ensures Backed(s', p, s'.active[p]) {
      if p in s.active {
        var m: nat :| Backs(s, m, p, s.active[p]);
        assert Backs(s', m, p, s.active[p]);
      } else {
        assert Backs(s', |s.launches|, p, s'.active[p]);
      }
    }
  }

  /** What a teardown leaves has to be backed by another launch. */
  lemma TeardownAgrees(s: State, s': State, l: nat)
    requires ActiveAgrees(s) && Apply(s, Teardown(l)) == Some(s')
    ensures ActiveAgrees(s') <==> !Straggles(s, Teardown(l))
  {
    forall p | p in s'.active ensures Backed(s', p, s'.active[p]) <==> !LeftBehind(s, l, p) {
      if Backed(s', p, s'.active[p]) {
        var m: nat :| Backs(s', m, p, s'.active[p]);
        assert m != l && Backs(s, m, p, s.active[p]);
      } else if !LeftBehind(s, l, p) {
        var m: nat :| m != l && Backs(s, m, p, s.active[p]);
        assert Backs(s', m, p, s'.active[p]);
      }
    }
  }

  lemma ActivateAgrees(s: State, s': State, l: nat, opens: bool)
    requires ActiveAgrees(s) && CollectingListed(s) && Apply(s, CollectActivate(l, opens)) == Some(s')
    ensures ActiveAgrees(s') <==> !Straggles(s, CollectActivate(l, opens))
  {
    var x := s.launches[l];
    var p, a := x.collecting.value, ActiveLaunch(x.txid, x.home);
    forall q, b ensures Backed(s', q, b) <==> Backed(s, q, b) {
      if Backed(s, q, b) {
        var m: nat :| Backs(s, m, q, b);
        assert Backs(s', m, q, b);
      }
      if Backed(s', q, b) {
        var m: nat :| Backs(s', m, q, b);
        assert Backs(s, m, q, b);
      }
    }
    if opens {
      assert s'.active[p] == a;
      if Live(x) {
        assert Backs(s, l, p, a);
      }
    }
  }

  predicate LaunchesMove(step: Step) {
    !step.Turn? && !step.JournalTake? && !step.FlushRequest? && !step.Wait? && !step.Request? && !step.Rewatch?
      && !step.Match?
  }

  /** Capture loops, the journal, the clock, requests and matches leave launches and registrations alone. */
  lemma OthersKeepLaunches(s: State, step: Step, s': State)
    requires Apply(s, step) == Some(s') && !LaunchesMove(step)
    ensures s'.launches == s.launches && s'.active == s.active
  {
    hide Advance;
  }

  lemma StepKeepsCollecting(s: State, step: Step, s': State)
    requires CollectingListed(s) && Apply(s, step) == Some(s')
    ensures CollectingListed(s')
  {
    hide Advance, Journal.Apply, LaunchStep;
    if LaunchesMove(step) {
      LaunchStepKeepsCollecting(s, step, s');
    } else {
      OthersKeepLaunches(s, step, s');
    }
  }

  lemma LaunchStepKeepsCollecting(s: State, step: Step, s': State)
    requires CollectingListed(s) && LaunchStep(s, step) == Some(s')
    ensures CollectingListed(s')
  {
    hide MutationCapture.Started, MutationCapture.Stopped;
  }

  /** The invariant survives a step exactly when the step is not a straggler's registration. */
  lemma AgreesUnlessStraggling(s: State, step: Step, s': State)
    requires ActiveAgrees(s) && CollectingListed(s) && Apply(s, step) == Some(s')
    ensures ActiveAgrees(s') <==> !Straggles(s, step)
  {
    hide Advance, MutationCapture.Started, MutationCapture.Stopped, Journal.Apply, ActiveAgrees, Backed;
    match step {
      case Claim(home, opens) =>
        SameLaunchesAgree(s, s.(matched := None));
        ClaimAgrees(s.(matched := None), s.matched.value.pid, s.matched.value.app.txid, home, opens);
      case StartCapture(l, _, _, _) => LaunchGrows(s, s', l);
      case CollectList(l, p) => LaunchGrows(s, s', l);
      case CollectActivate(l, opens) => ActivateAgrees(s, s', l, opens);
      case WatchEnds(l) => LaunchGrows(s, s', l);
      case Snapshot(l) => LaunchGrows(s, s', l);
      case Teardown(l) => TeardownAgrees(s, s', l);
      case StopCapture(l, _, _) => LaunchGrows(s, s', l);
      case _ =>
        OthersKeepLaunches(s, step, s');
        SameLaunchesAgree(s, s');
    }
  }

  lemma SameLaunchesAgree(s: State, s': State)
    requires ActiveAgrees(s) && s'.launches == s.launches && s'.active == s.active
    ensures ActiveAgrees(s')
  {
    forall p | p in s'.active ensures Backed(s', p, s'.active[p]) {
      var m: nat :| Backs(s, m, p, s.active[p]);
      assert Backs(s', m, p, s.active[p]);
    }
  }

  ghost predicate NoStragglers(trace: seq<State>, steps: seq<Step>)
    requires |trace| == |steps| + 1
  {
    forall i | 0 <= i < |steps| :: !Straggles(trace[i], steps[i])
  }

  lemma {:induction false} AlwaysListed(trace: seq<State>, steps: seq<Step>, n: nat)
    requires Behaviour(trace, steps) && n <= |steps|
    ensures CollectingListed(trace[n])
    decreases n
  {
    hide Apply;
    if n > 0 {
      AlwaysListed(trace, steps, n - 1);
      assert Apply(trace[n - 1], steps[n - 1]) == Some(trace[n]);
      StepKeepsCollecting(trace[n - 1], steps[n - 1], trace[n]);
    }
  }

  lemma {:induction false} AlwaysAgrees(trace: seq<State>, steps: seq<Step>, n: nat)
    requires Behaviour(trace, steps) && NoStragglers(trace, steps) && n <= |steps|
    ensures ActiveAgrees(trace[n]) && CollectingListed(trace[n])
    decreases n
  {
    if n > 0 {
      AlwaysAgrees(trace, steps, n - 1);
      AgreesUnlessStraggling(trace[n - 1], steps[n - 1], trace[n]);
      StepKeepsCollecting(trace[n - 1], steps[n - 1], trace[n]);
    }
  }

  /** So registrations and live launches agree throughout a run exactly when nothing straggles in it. */
  lemma AgreesExactly(trace: seq<State>, steps: seq<Step>)
    requires Behaviour(trace, steps)
    ensures (forall n | 0 <= n <= |steps| :: ActiveAgrees(trace[n])) <==> NoStragglers(trace, steps)
  {
    hide Apply, ActiveAgrees, Straggles;
    if NoStragglers(trace, steps) {
      forall n | 0 <= n <= |steps| ensures ActiveAgrees(trace[n]) {
        AlwaysAgrees(trace, steps, n);
      }
    } else {
      var i :| 0 <= i < |steps| && Straggles(trace[i], steps[i]);
      AlwaysListed(trace, steps, i);
      assert Apply(trace[i], steps[i]) == Some(trace[i + 1]);
      if ActiveAgrees(trace[i]) {
        AgreesUnlessStraggling(trace[i], steps[i], trace[i + 1]);
      }
    }
  }

  /** When no launch is live, nothing is registered. */
  lemma NothingRegisteredWhenIdle(trace: seq<State>, steps: seq<Step>, n: nat)
    requires Behaviour(trace, steps) && NoStragglers(trace, steps) && n <= |steps|
    requires forall l | 0 <= l < |trace[n].launches| :: !Live(trace[n].launches[l])
    ensures trace[n].active == map[]
  {
    AlwaysAgrees(trace, steps, n);
    forall p ensures p !in trace[n].active {
      NobodyBacks(trace[n], p, if p in trace[n].active then trace[n].active[p] else ActiveLaunch(0, []));
    }
  }

  lemma NobodyBacks(s: State, pid: Pid, a: ActiveLaunch)
    requires forall l | 0 <= l < |s.launches| :: !Live(s.launches[l])
    ensures !Backed(s, pid, a)
  {
  }

  /**
   The first claim owns a process: no later claim and nothing else changes its registration, except
   the teardown of a launch that chose it and a collector that found it among its own.
   */
  lemma RegistrationStays(s: State, step: Step, s': State, pid: Pid)
    requires Apply(s, step) == Some(s') && pid in s.active
    ensures pid in s'.active <==> !(step.Teardown? && pid in s.launches[step.l].phase.listed)
    ensures pid in s'.active && s'.active[pid] != s.active[pid] ==>
      step.CollectActivate? && step.opens && s.launches[step.l].collecting == Some(pid)
  {
    hide Advance, MutationCapture.Started, MutationCapture.Stopped, Journal.Apply;
  }

  // ---- Rows have witnesses ----

  /** In `s` a live launch of that transaction lists the process, and the path is under its home. */
  ghost predicate Vouches(s: State, l: nat, txid: int, pid: Pid, path: Path) {
    && l < |s.launches| && Live(s.launches[l]) && pid in s.launches[l].pids
    && s.launches[l].txid == txid && s.launches[l].home <= path
  }

  /** The two moves that attribute an event. */
  predicate Attributes(move: Move) {
    move.ResolveHead? || move.ResolveFound?
  }

  /** Step `i` is the emission of `e` by loop `k`, and launch `l` vouches for it in that very state. */
  ghost predicate Emission(trace: seq<State>, steps: seq<Step>, i: nat, k: nat, l: nat, e: Emitted) {
    && i < |steps| && i + 1 < |trace| && steps[i].Turn? && steps[i].k == k && Attributes(steps[i].move)
    && k < |trace[i].loops| && k < |trace[i + 1].loops|
    && e !in trace[i].loops[k].batch && e in trace[i + 1].loops[k].batch
    && Vouches(trace[i], l, e.txid, e.pid, e.path)
  }

  /** `e` was emitted before state `n` while some live launch vouched for it. */
  ghost predicate Witnessed(trace: seq<State>, steps: seq<Step>, n: nat, e: Emitted) {
    exists i: nat, k: nat, l: nat :: i < n && Emission(trace, steps, i, k, l, e)
  }

  /** The record is that of an event witnessed when it was emitted, and sent since. */
  ghost predicate RecordWitnessed(trace: seq<State>, steps: seq<Step>, n: nat, r: Journal.MutationRecord)
    requires n < |trace|
  {
    exists e: Emitted, time: nat :: WitnessedAs(trace, steps, n, r, e, time)
  }

  ghost predicate WitnessedAs(trace: seq<State>, steps: seq<Step>, n: nat, r: Journal.MutationRecord, e: Emitted,
      time: nat)
    requires n < |trace|
  {
    Witnessed(trace, steps, n, e) && r == RecordOf(e, time) && e.id in trace[n].sent && SentAt(trace, n, e, time)
  }

  /** Some step before state `n`, taken at that time, sends `e`. */
  ghost predicate SentAt(trace: seq<State>, n: nat, e: Emitted, time: nat) {
    exists j: nat :: j < n && SendsThen(trace, j, e, time)
  }

  ghost predicate SendsThen(trace: seq<State>, j: nat, e: Emitted, time: nat) {
    j + 1 < |trace| && trace[j].now == time && trace[j + 1].sent == trace[j].sent + [e.id]
  }

  ghost predicate BatchWitnessed(trace: seq<State>, steps: seq<Step>, n: nat, batch: seq<Emitted>) {
    forall e | e in batch :: Witnessed(trace, steps, n, e)
  }

  ghost predicate ChannelWitnessed(trace: seq<State>, steps: seq<Step>, n: nat, c: Journal.Channel)
    requires n < |trace|
  {
    && (forall m | m in c.queue && m.Write? :: RecordWitnessed(trace, steps, n, m.record))
    && (forall r | r in c.rows :: RecordWitnessed(trace, steps, n, r))
  }

  ghost predicate AllWitnessed(trace: seq<State>, steps: seq<Step>, n: nat)
    requires n < |trace|
  {
    && (forall k | 0 <= k < |trace[n].loops| :: BatchWitnessed(trace, steps, n, trace[n].loops[k].batch))
    && ChannelWitnessed(trace, steps, n, trace[n].channel)
  }

  /** What a move adds to the batch was attributed by that move and the registrations of that moment. */
  lemma BatchIsAttributed(m: Loop, active: ActiveLaunches, now: nat, nextEvent: nat, move: Move, e: Emitted)
    requires Advance(m, active, now, nextEvent, move).Some?
    ensures var o := Advance(m, active, now, nextEvent, move).value;
      && (e in o.loop.batch ==>
        e in m.batch || (Attributes(move) && AttributeEvent(e.pid, e.path, active) == Some(e.txid)))
      && (e in o.sent ==> e in m.batch) && |o.sent| <= 1
  {
    hide Decoder.Decode, DropAll, IsExcluded;
  }

  lemma WitnessedLater(trace: seq<State>, steps: seq<Step>, n: nat, n': nat, e: Emitted)
    requires n <= n' && Witnessed(trace, steps, n, e)
    ensures Witnessed(trace, steps, n', e)
  {
    hide Emission;
    var i: nat, k: nat, l: nat :| i < n && Emission(trace, steps, i, k, l, e);
    assert i < n' && Emission(trace, steps, i, k, l, e);
  }

  lemma AttributedIsVouched(s: State, pid: Pid, path: Path, txid: int) returns (l: nat)
    requires ActiveAgrees(s) && AttributeEvent(pid, path, s.active) == Some(txid)
    ensures Vouches(s, l, txid, pid, path)
  {
    l :| Backs(s, l, pid, s.active[pid]);
  }

  lemma RecordLater(trace: seq<State>, steps: seq<Step>, n: nat, n': nat, r: Journal.MutationRecord)
    requires n <= n' < |trace| && RecordWitnessed(trace, steps, n, r) && trace[n].sent <= trace[n'].sent
    ensures RecordWitnessed(trace, steps, n', r)
  {
    hide Witnessed, SendsThen;
    var e: Emitted, time: nat :| WitnessedAs(trace, steps, n, r, e, time);
    WitnessedLater(trace, steps, n, n', e);
    var j: nat :| j < n && SendsThen(trace, j, e, time);
    assert j < n' && SendsThen(trace, j, e, time);
    assert WitnessedAs(trace, steps, n', r, e, time);
  }

  lemma ChannelLater(trace: seq<State>, steps: seq<Step>, n: nat, n': nat, c: Journal.Channel)
    requires n <= n' < |trace| && ChannelWitnessed(trace, steps, n, c) && trace[n].sent <= trace[n'].sent
    ensures ChannelWitnessed(trace, steps, n', c)
  {
    hide RecordWitnessed;
    forall m | m in c.queue && m.Write? ensures RecordWitnessed(trace, steps, n', m.record) {
      RecordLater(trace, steps, n, n', m.record);
    }
    forall r | r in c.rows ensures RecordWitnessed(trace, steps, n', r) {
      RecordLater(trace, steps, n, n', r);
    }
  }

  lemma ChannelMove(trace: seq<State>, steps: seq<Step>, n: nat, c: Journal.Channel, move: Journal.Move)
    requires n < |trace| && ChannelWitnessed(trace, steps, n, c)
    requires move.Send? && move.message.Write? ==> RecordWitnessed(trace, steps, n, move.message.record)
    ensures ChannelWitnessed(trace, steps, n, Journal.Apply(c, move))
  {
    hide RecordWitnessed, Journal.HasKey;
  }

  lemma BatchLater(trace: seq<State>, steps: seq<Step>, n: nat, n': nat, batch: seq<Emitted>)
    requires n <= n' && BatchWitnessed(trace, steps, n, batch)
    ensures BatchWitnessed(trace, steps, n', batch)
  {
    hide Witnessed;
    forall e | e in batch ensures Witnessed(trace, steps, n', e) {
      WitnessedLater(trace, steps, n, n', e);
    }
  }

  /** The batch of the loop that moved: old events keep their witness, a new one has its own. */
  lemma MovedBatchWitnessed(trace: seq<State>, steps: seq<Step>, n: nat, k: nat, move: Move, e: Emitted)
    requires n < |steps| && n + 1 < |trace| && steps[n] == Turn(k, move)
    requires Apply(trace[n], steps[n]) == Some(trace[n + 1])
    requires ActiveAgrees(trace[n]) && AllWitnessed(trace, steps, n) && e in trace[n + 1].loops[k].batch
    ensures Witnessed(trace, steps, n + 1, e)
  {
    hide Advance, Witnessed, ActiveAgrees, AttributeEvent, Journal.Apply, ChannelWitnessed, Vouches;
    var s := trace[n];
    BatchIsAttributed(s.loops[k], s.active, s.now, s.nextEvent, move, e);
    if e in s.loops[k].batch {
      WitnessedLater(trace, steps, n, n + 1, e);
    } else {
      var l := AttributedIsVouched(s, e.pid, e.path, e.txid);
      assert Emission(trace, steps, n, k, l, e);
      NewWitness(trace, steps, n, k, l, e);
    }
  }

  lemma NewWitness(trace: seq<State>, steps: seq<Step>, n: nat, k: nat, l: nat, e: Emitted)
    requires Emission(trace, steps, n, k, l, e)
    ensures Witnessed(trace, steps, n + 1, e)
  {
  }

  lemma TurnKeepsWitnessed(trace: seq<State>, steps: seq<Step>, n: nat, k: nat, move: Move)
    requires n < |steps| && n + 1 < |trace| && steps[n] == Turn(k, move)
    requires Apply(trace[n], steps[n]) == Some(trace[n + 1])
    requires ActiveAgrees(trace[n]) && AllWitnessed(trace, steps, n)
    ensures AllWitnessed(trace, steps, n + 1)
  {
    hide Advance, Witnessed, ActiveAgrees, Journal.Apply, ChannelWitnessed, RecordWitnessed;
    var s, s' := trace[n], trace[n + 1];
    var o := Advance(s.loops[k], s.active, s.now, s.nextEvent, move).value;
    forall e | e in o.loop.batch ensures Witnessed(trace, steps, n + 1, e) {
      MovedBatchWitnessed(trace, steps, n, k, move, e);
    }
    forall j | 0 <= j < |s'.loops| ensures BatchWitnessed(trace, steps, n + 1, s'.loops[j].batch) {
      if j != k {
        assert s'.loops[j] == s.loops[j];
        BatchLater(trace, steps, n, n + 1, s.loops[j].batch);
      }
    }
    ChannelLater(trace, steps, n, n + 1, s.channel);
    if o.sent != [] {
      var e := o.sent[0];
      BatchIsAttributed(s.loops[k], s.active, s.now, s.nextEvent, move, e);
      WitnessedLater(trace, steps, n, n + 1, e);
      assert EmittedIds(o.sent)[0] == e.id && e.id in s'.sent;
      assert SendsThen(trace, n, e, s.now) by {
        assert EmittedIds(o.sent) == [e.id];
      }
      NewRecord(trace, steps, n + 1, e, s.now);
      ChannelMove(trace, steps, n + 1, s.channel, Journal.Send(Journal.Write(RecordOf(e, s.now))));
    }
  }

  lemma NewRecord(trace: seq<State>, steps: seq<Step>, n: nat, e: Emitted, time: nat)
    requires n < |trace| && Witnessed(trace, steps, n, e) && e.id in trace[n].sent && SentAt(trace, n, e, time)
    ensures RecordWitnessed(trace, steps, n, RecordOf(e, time))
  {
    hide Witnessed;
    assert WitnessedAs(trace, steps, n, RecordOf(e, time), e, time);
  }

  /** Steps of launches change no batch and not the channel, and nothing unsends an event. */
  lemma LaunchStepsKeepBatches(s: State, step: Step, s': State)
    requires Apply(s, step) == Some(s') && !step.Turn?
    ensures |s.loops| <= |s'.loops| && s'.sent == s.sent
    ensures forall k | 0 <= k < |s'.loops| :: s'.loops[k].batch == if k < |s.loops| then s.loops[k].batch else []
    ensures !step.JournalTake? && !step.FlushRequest? ==> s'.channel == s.channel
  {
    hide MutationCapture.Started, MutationCapture.Stopped, Journal.Apply;
  }

  lemma StepKeepsWitnessed(trace: seq<State>, steps: seq<Step>, n: nat)
    requires Behaviour(trace, steps) && n < |steps| && ActiveAgrees(trace[n]) && AllWitnessed(trace, steps, n)
    ensures AllWitnessed(trace, steps, n + 1)
  {
    hide ActiveAgrees, Journal.Apply, ChannelWitnessed, BatchWitnessed, LaunchStep, TurnStep;
    var s, s' := trace[n], trace[n + 1];
    if steps[n].Turn? {
      TurnKeepsWitnessed(trace, steps, n, steps[n].k, steps[n].move);
    } else {
      LaunchStepsKeepBatches(s, steps[n], s');
      forall k | 0 <= k < |s'.loops| ensures BatchWitnessed(trace, steps, n + 1, s'.loops[k].batch) {
        if k < |s.loops| {
          BatchLater(trace, steps, n, n + 1, s.loops[k].batch);
        } else {
          EmptyBatch(trace, steps, n + 1);
        }
      }
      ChannelLater(trace, steps, n, n + 1, s.channel);
      if steps[n].JournalTake? {
        ChannelMove(trace, steps, n + 1, s.channel, Journal.Take(steps[n].works));
      } else if steps[n].FlushRequest? {
        ChannelMove(trace, steps, n + 1, s.channel, Journal.Send(Journal.Flush(steps[n].ticket)));
      }
    }
  }

  lemma EmptyBatch(trace: seq<State>, steps: seq<Step>, n: nat)
    ensures BatchWitnessed(trace, steps, n, [])
  {
  }

  lemma {:induction false} AlwaysWitnessed(trace: seq<State>, steps: seq<Step>, n: nat)
    requires Behaviour(trace, steps) && NoStragglers(trace, steps) && n <= |steps|
    ensures AllWitnessed(trace, steps, n)
    decreases n
  {
    if n > 0 {
      AlwaysWitnessed(trace, steps, n - 1);
      AlwaysAgrees(trace, steps, n - 1);
      StepKeepsWitnessed(trace, steps, n - 1);
    }
  }

  /**
   Attribution safety over every interleaving: each row of the journal is the record of an event
   that some loop emitted while a live launch of the row's transaction listed the row's process,
   with the row's path under that launch's home, in the very state of the emission. Its operation is
   what the bits of the event tell, its time that of the step that sent the event.
   */
  lemma EveryRowIsWitnessed(trace: seq<State>, steps: seq<Step>, row: Journal.MutationRecord)
    returns (e: Emitted, i: nat, k: nat, l: nat, j: nat)
    requires Behaviour(trace, steps) && NoStragglers(trace, steps)
    requires row in trace[|steps|].channel.rows
    ensures Emission(trace, steps, i, k, l, e)
    ensures row.txid == e.txid && row.pid == e.pid && row.path == e.path && Tells(e.mask, row.op)
    ensures j < |steps| && trace[j + 1].sent == trace[j].sent + [e.id] && row.time == trace[j].now
  {
    hide Emission, Tells;
    AlwaysWitnessed(trace, steps, |steps|);
    assert RecordWitnessed(trace, steps, |steps|, row);
    var time: nat;
    e, time :| WitnessedAs(trace, steps, |steps|, row, e, time);
    i, k, l :| i < |steps| && Emission(trace, steps, i, k, l, e);
    j :| j < |steps| && SendsThen(trace, j, e, time);
    MaskIsTold(e.mask);
  }
}
