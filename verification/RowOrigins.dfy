/** From a tracked application to a row: whose writes the journal holds under which transaction. */
module RowOrigins {
  import opened Paths
  import opened Attribution
  import opened CaptureProtocol
  import opened AttributionSafety
  import Journal
  import MC = MutationCapture
  import T = TrackedApps

  /** The rows of an untrack of that application are written, and its entries are still there. */
  predicate Leaving(s: State, name: Name) {
    s.handling.Some? && s.handling.value.Untrack? && s.handling.value.name == name
  }

  /**
   Step `j` matches an execution by `pid` with an entry of the database's transactions. Its
   application is then being tracked, except while its untrack is between rows and entries.
   */
  ghost predicate Origin(trace: seq<State>, steps: seq<Step>, j: nat, pid: Pid, app: T.WatchedApp) {
    && j < |steps| && j < |trace| && steps[j].Match? && steps[j].pid == pid
    && steps[j].exe in trace[j].tracked.watched && trace[j].tracked.watched[steps[j].exe] == app
    && var t := trace[j].tracked;
       app.txid in t.transactions && app.name in t.apps
       && (t.apps[app.name].status.Tracking? <==> !Leaving(trace[j], app.name))
  }

  // ---- What requests keep, a half-done untrack included ----

  lemma MidwayStays(s: State, step: Step, s': State)
    requires T.Midway(s.tracked, s.handling) && !HandlesRestart(s) && Apply(s, step) == Some(s')
    ensures T.Midway(s'.tracked, s'.handling) && !HandlesRestart(s')
  {
    hide Advance, MC.Started, MC.Stopped, Journal.Apply, T.RowsDone, T.WatchDone, T.Handle, T.Midway;
    if step.Request? {
      if step.request.Restart? {
        T.RestartLeadsOut(s.tracked, step.request);
      } else {
        T.RowsLeadMidway(s.tracked, step.request);
      }
    } else if step.Rewatch? {
      T.WatchLeadsOut(s.tracked, s.handling.value);
    }
  }

  predicate HandlesRestart(s: State) {
    s.handling.Some? && s.handling.value.Restart?
  }

  lemma {:induction false} AlwaysMidway(trace: seq<State>, steps: seq<Step>, n: nat)
    requires Behaviour(trace, steps) && n <= |steps|
    ensures T.Midway(trace[n].tracked, trace[n].handling) && !HandlesRestart(trace[n])
  {
    hide Apply;
    if n > 0 {
      var before := n - 1;
      AlwaysMidway(trace, steps, before);
      assert Apply(trace[before], steps[before]) == Some(trace[before + 1]);
      MidwayStays(trace[before], steps[before], trace[n]);
    }
  }

  // ---- Where a launch comes from ----

  /** Only a match fills the hand that a claim empties. */
  lemma StepOfMatch(s: State, step: Step, s': State)
    requires Apply(s, step) == Some(s')
    ensures s'.matched == None || s'.matched == s.matched || (
      step.Match? && step.exe in s.tracked.watched
        && s'.matched == Some(Matched(step.pid, s.tracked.watched[step.exe])))
  {
    hide Advance, MC.Started, MC.Stopped, Journal.Apply, T.Handle, T.RowsDone, T.WatchDone;
  }

  /** Launches keep their transaction and their processes, and only a claim adds one: for the match in hand. */
  lemma StepOfLaunches(s: State, step: Step, s': State)
    requires Apply(s, step) == Some(s')
    ensures |s.launches| <= |s'.launches| <= |s.launches| + 1
    ensures forall l | 0 <= l < |s.launches| ::
      s'.launches[l].txid == s.launches[l].txid && s.launches[l].pids <= s'.launches[l].pids
    ensures |s'.launches| > |s.launches| ==>
      var x := s'.launches[|s.launches|];
      step.Claim? && s.matched.Some? && x.txid == s.matched.value.app.txid && s.matched.value.pid in x.pids
  {
    hide Advance, MC.Started, MC.Stopped, Journal.Apply, T.Handle, T.RowsDone, T.WatchDone;
    if !LaunchesMove(step) {
      OthersKeepLaunches(s, step, s');
    } else if !step.Claim? {
      hide LaunchStep;
      LaunchStepKeeps(s, step, s');
    }
  }

  lemma LaunchStepKeeps(s: State, step: Step, s': State)
    requires LaunchStep(s, step) == Some(s') && !step.Claim?
    ensures |s'.launches| == |s.launches|
    ensures forall l | 0 <= l < |s.launches| ::
      s'.launches[l].txid == s.launches[l].txid && s.launches[l].pids <= s'.launches[l].pids
  {
    hide MC.Started, MC.Stopped;
  }

  lemma {:induction false} MatchHasOrigin(trace: seq<State>, steps: seq<Step>, n: nat) returns (j: nat)
    requires Behaviour(trace, steps) && n <= |steps| && trace[n].matched.Some?
    ensures j < n && Origin(trace, steps, j, trace[n].matched.value.pid, trace[n].matched.value.app)
  {
    hide Apply, T.OwnTransactions;
    var before := n - 1;
    assert Apply(trace[before], steps[before]) == Some(trace[before + 1]);
    StepOfMatch(trace[before], steps[before], trace[n]);
    if trace[n].matched == trace[before].matched {
      j := MatchHasOrigin(trace, steps, before);
    } else {
      j := before;
      AlwaysMidway(trace, steps, before);
    }
  }

  /** Every launch began with a match on an entry, as `Origin` says. */
  lemma {:induction false} LaunchHasOrigin(trace: seq<State>, steps: seq<Step>, n: nat, l: nat)
    returns (j: nat, pid: Pid, app: T.WatchedApp)
    requires Behaviour(trace, steps) && n <= |steps| && l < |trace[n].launches|
    ensures j < n && Origin(trace, steps, j, pid, app)
    ensures trace[n].launches[l].txid == app.txid && pid in trace[n].launches[l].pids
  {
    hide Apply, Origin;
    var before := n - 1;
    assert Apply(trace[before], steps[before]) == Some(trace[before + 1]);
    StepOfLaunches(trace[before], steps[before], trace[n]);
    if l < |trace[before].launches| {
      j, pid, app := LaunchHasOrigin(trace, steps, before, l);
    } else {
      j := MatchHasOrigin(trace, steps, before);
      pid, app := trace[before].matched.value.pid, trace[before].matched.value.app;
    }
  }

  /**
   From end to end, over every interleaving: each row is the record of an event that was emitted
   while a live launch of the row's transaction listed the row's process, and that launch began
   with the execution of a binary watched under that same transaction for an application that was
   then being tracked, or whose untrack had written its rows and not yet removed its entries.
   */
  lemma EveryRowHasAnOrigin(trace: seq<State>, steps: seq<Step>, row: Journal.MutationRecord)
    returns (e: Emitted, i: nat, k: nat, l: nat, j: nat, pid: Pid, app: T.WatchedApp)
    requires Behaviour(trace, steps) && NoStragglers(trace, steps)
    requires row in trace[|steps|].channel.rows
    ensures Emission(trace, steps, i, k, l, e) && row.pid == e.pid && row.path == e.path && Tells(e.mask, row.op)
    ensures j < i && Origin(trace, steps, j, pid, app) && row.txid == app.txid && pid in trace[i].launches[l].pids
  {
    hide Origin, Tells;
    var sending;
    e, i, k, l, sending := EveryRowIsWitnessed(trace, steps, row);
    j, pid, app := LaunchHasOrigin(trace, steps, i, l);
  }

  // ---- Where a launch may write ----

  /** Homes stay, and a claim without one starts nothing. */
  lemma StepOfHomes(s: State, step: Step, s': State)
    requires Apply(s, step) == Some(s')
    ensures |s.launches| <= |s'.launches|
    ensures forall l | 0 <= l < |s'.launches| ::
      if l < |s.launches| then s'.launches[l].home == s.launches[l].home else s'.launches[l].home != []
  {
    hide Advance, MC.Started, MC.Stopped, Journal.Apply, T.Handle, T.RowsDone, T.WatchDone;
    if !LaunchesMove(step) {
      OthersKeepLaunches(s, step, s');
    }
  }

  /** No launch is without a home, so none vouches for every path. */
  lemma {:induction false} LaunchHasHome(trace: seq<State>, steps: seq<Step>, n: nat, l: nat)
    requires Behaviour(trace, steps) && n <= |steps| && l < |trace[n].launches|
    ensures trace[n].launches[l].home != []
  {
    hide Apply;
    var before := n - 1;
    assert Apply(trace[before], steps[before]) == Some(trace[before + 1]);
    StepOfHomes(trace[before], steps[before], trace[n]);
    if l < |trace[before].launches| {
      LaunchHasHome(trace, steps, before, l);
    }
  }
}
