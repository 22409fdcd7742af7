/** A match between the two halves of an untrack: a launch of an application no longer tracked. */
module LateMatch {
  import opened Paths
  import opened Attribution
  import opened CaptureProtocol
  import opened RowOrigins
  import opened Straggler
  import T = TrackedApps

  /** The rows say untracked, the entry is still there. */
  const LEFT: T.State :=
    T.State(map[APP := T.App(T.Untracked, 1, [EXE])], map[1 := T.TxUntracked], 2, map[EXE := T.WatchedApp(APP, 1)])

  const GONE: T.State := LEFT.(watched := map[])

  function Between(): State {
    INITIAL.(tracked := LEFT, handling := Some(T.Untrack(APP, WORKING)))
  }

  function Caught(): State {
    Between().(matched := Some(Matched(10, T.WatchedApp(APP, 1))))
  }

  function Started(): State {
    INITIAL.(tracked := GONE, active := AT_10, launches := [Launch(1, HOME, {10}, None, Claimed, None)])
  }

  lemma UntrackSteps()
    ensures Apply(INITIAL.(tracked := TRACKED), Request(T.Untrack(APP, WORKING))) == Some(Between())
    ensures Apply(Between(), Match(10, EXE)) == Some(Caught())
    ensures Apply(Caught(), Rewatch) == Some(Caught().(tracked := GONE, handling := None))
  {
    var rows := T.RowsDone(TRACKED, T.Untrack(APP, WORKING)).0;
    assert rows.apps == LEFT.apps && rows.transactions == LEFT.transactions;
    assert T.Unwatch(LEFT.watched, APP) == map[];
  }

  lemma ClaimStep10()
    ensures Apply(Caught().(tracked := GONE, handling := None), Claim(HOME, true)) == Some(Started())
  {
    var active: ActiveLaunches := map[];
    assert active[10 := ActiveLaunch(1, HOME)] == AT_10;
    assert INITIAL.launches + [Launch(1, HOME, {10}, None, Claimed, None)] ==
      [Launch(1, HOME, {10}, None, Claimed, None)];
  }

  /** The untrack has answered and the launch is claimed all the same, under the closed transaction. */
  lemma ClaimedAfterUntrack() returns (trace: seq<State>, steps: seq<Step>, j: nat, app: T.WatchedApp)
    ensures Behaviour(trace, steps) && Origin(trace, steps, j, 10, app) && Leaving(trace[j], app.name)
    ensures var s := trace[|steps|];
      && |s.launches| == 1 && Live(s.launches[0]) && s.launches[0].txid == app.txid && s.handling.None?
      && app.name in s.tracked.apps && s.tracked.apps[app.name].status.Untracked?
      && app.txid in s.tracked.transactions && s.tracked.transactions[app.txid] == T.TxUntracked
  {
    hide Apply, Behaviour;
    trace, steps := [INITIAL], [];
    NothingHappened();
    TrackWorks();
    UntrackSteps();
    ClaimStep10();
    trace, steps := Then(trace, steps, Request(T.Track(APP, WORKING)), Recorded1());
    trace, steps := Then(trace, steps, Rewatch, INITIAL.(tracked := TRACKED));
    trace, steps := Then(trace, steps, Request(T.Untrack(APP, WORKING)), Between());
    trace, steps := Then(trace, steps, Match(10, EXE), Caught());
    trace, steps := Then(trace, steps, Rewatch, Caught().(tracked := GONE, handling := None));
    trace, steps := Then(trace, steps, Claim(HOME, true), Started());
    j, app := 3, T.WatchedApp(APP, 1);
    assert trace[3] == Between() && steps[3] == Match(10, EXE);
  }
}
