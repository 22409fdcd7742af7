/**
 Why stragglers are excluded from the attribution theorem: a collector stopped between listing a
 process and registering it registers it after its launch was torn down, and an event of that
 process is then recorded although no launch is live.
 */
module Straggler {
  import opened Paths
  import opened Attribution
  import opened CaptureProtocol
  import opened AttributionSafety
  import Classifier
  import Decoder
  import Journal
  import MC = MutationCapture
  import T = TrackedApps

  const HOME: Path := ["home", "alice"]
  const FILE: Path := ["home", "alice", "f"]

  const APP: Name := "app"
  const EXE: Path := ["usr", "bin", "app"]

  /** Everything about tracking it works. */
  const WORKING: T.Answers := T.Answers(Some([EXE]), 5, 1, map[])

  const TRACKED: T.State :=
    T.State(map[APP := T.App(T.Tracking, 1, [EXE])], map[1 := T.TxTracking], 2, map[EXE := T.WatchedApp(APP, 1)])

  function Torn(phase: Phase, pids: set<Pid>, collecting: Option<Pid>): Launch {
    Launch(1, HOME, pids, collecting, phase, Some(0))
  }

  const ARMED: MC.Capture := MC.Capture(map[0 := 1], true, {0})

  /** One launch, one loop, and what is registered. */
  function Scene(l: Launch, active: ActiveLaunches, m: Loop): State {
    State([l], active, 0, [m], Some(0), ARMED, Journal.EMPTY, 0, [], [], TRACKED, None, None)
  }

  const AT_10: ActiveLaunches := map[10 := ActiveLaunch(1, HOME)]
  const AT_11: ActiveLaunches := map[11 := ActiveLaunch(1, HOME)]

  /** Claimed, listed, torn down, and only then registered. */
  lemma RegisteredTooLate() returns (trace: seq<State>, steps: seq<Step>)
    ensures Behaviour(trace, steps) && |steps| == 10 && |trace| == 11
    ensures Straggles(trace[9], steps[9]) && !NoStragglers(trace, steps) && !ActiveAgrees(trace[10])
    ensures trace[10] == Scene(Torn(TornDown, {10, 11}, None), AT_11, NEW_LOOP)
    ensures forall i | 0 <= i < 10 :: !steps[i].Turn?
  {
    hide Apply, Behaviour, ActiveAgrees;
    trace, steps := LaunchedTen();
    var s2 := Scene(Torn(Watching, {10}, None), AT_10, NEW_LOOP);
    var s3 := Scene(Torn(Watching, {10, 11}, Some(11)), AT_10, NEW_LOOP);
    Listed(s2, s3);
    trace, steps := Then(trace, steps, CollectList(0, 11), s3);
    var s4 := Scene(Torn(Grace, {10, 11}, Some(11)), AT_10, NEW_LOOP);
    var s5 := Scene(Torn(TornDown, {10, 11}, Some(11)), map[], NEW_LOOP);
    var s6 := Scene(Torn(TornDown, {10, 11}, None), AT_11, NEW_LOOP);
    TornThenRegistered(s3, s4, s5, s6);
    trace, steps := Then(trace, steps, WatchEnds(0), s4);
    trace, steps := Then(trace, steps, Snapshot(0), s4.(launches := [Torn(Clearing({10, 11}), {10, 11}, Some(11))]));
    trace, steps := Then(trace, steps, Teardown(0), s5);
    trace, steps := Then(trace, steps, CollectActivate(0, true), s6);
    NobodyBacks(s5, 11, ActiveLaunch(1, HOME));
    assert trace[9] == s5 && steps[9] == CollectActivate(0, true) && Straggles(trace[9], steps[9]);
    NotAgreeing(s6);
  }

  function Matched1(): State {
    INITIAL.(tracked := TRACKED, matched := Some(Matched(10, T.WatchedApp(APP, 1))))
  }

  function Claimed1(): State {
    INITIAL.(tracked := TRACKED, active := AT_10, launches := [Launch(1, HOME, {10}, None, Claimed, None)])
  }

  /** The rows of the track are written, and nothing is watched yet. */
  function Recorded1(): State {
    INITIAL.(tracked := TRACKED.(watched := map[]), handling := Some(T.Track(APP, WORKING)))
  }

  lemma TrackWorks()
    ensures Apply(INITIAL, Request(T.Track(APP, WORKING))) == Some(Recorded1())
    ensures Apply(Recorded1(), Rewatch) == Some(INITIAL.(tracked := TRACKED))
  {
    var s := T.RowsDone(T.EMPTY, T.Track(APP, WORKING)).0;
    assert s.apps == TRACKED.apps && s.transactions == TRACKED.transactions && s.watched == map[];
    assert [EXE][..0] == [];
    assert T.Watch(map[], APP, 1, [EXE], WORKING) == map[EXE := T.WatchedApp(APP, 1)];
  }

  lemma MatchWorks()
    ensures Apply(INITIAL.(tracked := TRACKED), Match(10, EXE)) == Some(Matched1())
  {
  }

  lemma ClaimWorks()
    ensures Apply(Matched1(), Claim(HOME, true)) == Some(Claimed1())
  {
    var active: ActiveLaunches := map[];
    assert active[10 := ActiveLaunch(1, HOME)] == AT_10;
    assert INITIAL.launches + [Launch(1, HOME, {10}, None, Claimed, None)] ==
      [Launch(1, HOME, {10}, None, Claimed, None)];
  }

  lemma StartArms()
    ensures MC.Started(MC.IDLE, Some(0), true, true) == (ARMED, true)
  {
    var none: map<MC.Device, nat> := map[];
    assert none[0 := 1] == map[0 := 1];
    var r := MC.Started(MC.IDLE, Some(0), true, true);
    assert r.0.refcounts == map[0 := 1] && r.0.marked == {0};
  }

  lemma StartWorks()
    ensures Apply(Claimed1(), StartCapture(0, Some(0), true, true)) ==
      Some(Scene(Torn(Watching, {10}, None), AT_10, NEW_LOOP))
  {
    hide MC.Started;
    StartArms();
    var s := Claimed1();
    assert s.launches[0 := Torn(Watching, {10}, None)] == [Torn(Watching, {10}, None)];
    assert s.loops + [NEW_LOOP] == [NEW_LOOP];
  }

  /** The application is tracked, its executable matched and claimed, and its launch captured. */
  lemma LaunchedTen() returns (trace: seq<State>, steps: seq<Step>)
    ensures Behaviour(trace, steps) && |steps| == 5 && |trace| == 6
    ensures trace[5] == Scene(Torn(Watching, {10}, None), AT_10, NEW_LOOP)
    ensures forall i | 0 <= i < 5 :: !steps[i].Turn?
  {
    hide Apply, Behaviour;
    trace, steps := [INITIAL], [];
    NothingHappened();
    TrackWorks();
    MatchWorks();
    ClaimWorks();
    StartWorks();
    trace, steps := Then(trace, steps, Request(T.Track(APP, WORKING)), Recorded1());
    trace, steps := Then(trace, steps, Rewatch, INITIAL.(tracked := TRACKED));
    trace, steps := Then(trace, steps, Match(10, EXE), Matched1());
    trace, steps := Then(trace, steps, Claim(HOME, true), Claimed1());
    trace, steps := Then(trace, steps, StartCapture(0, Some(0), true, true),
      Scene(Torn(Watching, {10}, None), AT_10, NEW_LOOP));
  }

  lemma Listed(s2: State, s3: State)
    requires s2 == Scene(Torn(Watching, {10}, None), AT_10, NEW_LOOP)
    requires s3 == Scene(Torn(Watching, {10, 11}, Some(11)), AT_10, NEW_LOOP)
    ensures Apply(s2, CollectList(0, 11)) == Some(s3)
  {
    assert {10} + {11} == {10, 11};
    assert s2.launches[0 := s3.launches[0]] == s3.launches;
  }

  lemma TornThenRegistered(s3: State, s4: State, s5: State, s6: State)
    requires s3 == Scene(Torn(Watching, {10, 11}, Some(11)), AT_10, NEW_LOOP)
    requires s4 == Scene(Torn(Grace, {10, 11}, Some(11)), AT_10, NEW_LOOP)
    requires s5 == Scene(Torn(TornDown, {10, 11}, Some(11)), map[], NEW_LOOP)
    requires s6 == Scene(Torn(TornDown, {10, 11}, None), AT_11, NEW_LOOP)
    ensures Apply(s3, WatchEnds(0)) == Some(s4)
    ensures Apply(s4, Snapshot(0)) == Some(s4.(launches := [Torn(Clearing({10, 11}), {10, 11}, Some(11))]))
    ensures Apply(s4.(launches := [Torn(Clearing({10, 11}), {10, 11}, Some(11))]), Teardown(0)) == Some(s5)
    ensures Apply(s5, CollectActivate(0, true)) == Some(s6)
  {
    var active: ActiveLaunches := map[];
    assert active[11 := ActiveLaunch(1, HOME)] == AT_11;
    assert s3.launches[0 := s4.launches[0]] == s4.launches;
    var chosen := [Torn(Clearing({10, 11}), {10, 11}, Some(11))];
    assert s4.launches[0 := chosen[0]] == chosen;
    assert chosen[0 := s5.launches[0]] == s5.launches && AT_10 - {10, 11} == map[];
    assert s5.launches[0 := s6.launches[0]] == s6.launches;
  }

  lemma NotAgreeing(s: State)
    requires s == Scene(Torn(TornDown, {10, 11}, None), AT_11, NEW_LOOP)
    ensures !ActiveAgrees(s)
  {
    NobodyBacks(s, 11, ActiveLaunch(1, HOME));
    assert 11 in s.active;
  }

  /** Listed and registered between the teardown's choice and the teardown. */
  lemma RegisteredBetween() returns (trace: seq<State>, steps: seq<Step>)
    ensures Behaviour(trace, steps) && steps != [] && steps[|steps| - 1] == Teardown(0)
    ensures Straggles(trace[|steps| - 1], Teardown(0)) && 11 in trace[|steps|].active
    ensures forall l | 0 <= l < |trace[|steps|].launches| :: !Live(trace[|steps|].launches[l])
  {
    hide Apply, Behaviour, Straggles;
    trace, steps := LaunchedTen();
    ChosenThenListed();
    RegisteredThenTorn();
    LeavesEleven(Scene(Torn(Clearing({10}), {10, 11}, None), AT_BOTH, NEW_LOOP));
    trace, steps := Then(trace, steps, WatchEnds(0), Scene(Torn(Grace, {10}, None), AT_10, NEW_LOOP));
    trace, steps := Then(trace, steps, Snapshot(0), Scene(Torn(Clearing({10}), {10}, None), AT_10, NEW_LOOP));
    trace, steps := Then(trace, steps, CollectList(0, 11),
      Scene(Torn(Clearing({10}), {10, 11}, Some(11)), AT_10, NEW_LOOP));
    trace, steps := Then(trace, steps, CollectActivate(0, true),
      Scene(Torn(Clearing({10}), {10, 11}, None), AT_BOTH, NEW_LOOP));
    trace, steps := Then(trace, steps, Teardown(0), Scene(Torn(TornDown, {10, 11}, None), AT_11, NEW_LOOP));
  }

  const AT_BOTH: ActiveLaunches := map[10 := ActiveLaunch(1, HOME), 11 := ActiveLaunch(1, HOME)]

  /** The one launch of a scene moves. */
  lemma Moves(x: Launch, y: Launch, active: ActiveLaunches, active': ActiveLaunches, step: Step)
    requires LaunchesMove(step)
    requires LaunchStep(Scene(x, active, NEW_LOOP), step) ==
      Some(WithLaunch(Scene(x, active, NEW_LOOP), 0, y).(active := active'))
    ensures Apply(Scene(x, active, NEW_LOOP), step) == Some(Scene(y, active', NEW_LOOP))
  {
    hide LaunchStep;
    assert [x][0 := y] == [y];
  }

  lemma ChosenThenListed()
    ensures var on, off := Scene(Torn(Watching, {10}, None), AT_10, NEW_LOOP),
      Scene(Torn(Grace, {10}, None), AT_10, NEW_LOOP);
      var chosen := Scene(Torn(Clearing({10}), {10}, None), AT_10, NEW_LOOP);
      && Apply(on, WatchEnds(0)) == Some(off) && Apply(off, Snapshot(0)) == Some(chosen)
      && Apply(chosen, CollectList(0, 11)) == Some(Scene(Torn(Clearing({10}), {10, 11}, Some(11)), AT_10, NEW_LOOP))
  {
    hide Apply;
    assert {10} + {11} == {10, 11};
    Moves(Torn(Watching, {10}, None), Torn(Grace, {10}, None), AT_10, AT_10, WatchEnds(0));
    Moves(Torn(Grace, {10}, None), Torn(Clearing({10}), {10}, None), AT_10, AT_10, Snapshot(0));
    Moves(Torn(Clearing({10}), {10}, None), Torn(Clearing({10}), {10, 11}, Some(11)), AT_10, AT_10, CollectList(0, 11));
  }

  lemma RegisteredThenTorn()
    ensures var both := Scene(Torn(Clearing({10}), {10, 11}, None), AT_BOTH, NEW_LOOP);
      && Apply(Scene(Torn(Clearing({10}), {10, 11}, Some(11)), AT_10, NEW_LOOP), CollectActivate(0, true)) == Some(both)
      && Apply(both, Teardown(0)) == Some(Scene(Torn(TornDown, {10, 11}, None), AT_11, NEW_LOOP))
  {
    hide Apply;
    assert AT_10[11 := ActiveLaunch(1, HOME)] == AT_BOTH && AT_BOTH - {10} == AT_11;
    var torn := Torn(Clearing({10}), {10, 11}, None);
    Moves(Torn(Clearing({10}), {10, 11}, Some(11)), torn, AT_10, AT_BOTH, CollectActivate(0, true));
    Moves(torn, Torn(TornDown, {10, 11}, None), AT_BOTH, AT_11, Teardown(0));
  }

  lemma LeavesEleven(s: State)
    requires s == Scene(Torn(Clearing({10}), {10, 11}, None), AT_BOTH, NEW_LOOP)
    ensures Straggles(s, Teardown(0))
  {
    assert LeftBehind(s, 0, 11);
  }

  // ---- Its event ----

  /** What the kernel writes for a file created by that process. */
  const CREATED: Decoder.KernelEvent := Decoder.KernelEvent(0, FAN_CREATE, -1, 11, [Decoder.InfoRecord(2, 0, [])])

  lemma CreatedDecodes() returns (bytes: seq<Decoder.Byte>, info: seq<Decoder.Byte>)
    ensures Decoder.Decode(bytes, Decoder.Little) == [Decoder.Event(FAN_CREATE, -1, 11, Some(info))]
  {
    hide Decoder.Decode, Decoder.BufferBytes;
    assert Decoder.Pow(2) == 65536 && Decoder.Pow(4) == 0x1_0000_0000;
    var record := CREATED.records[0];
    assert CREATED.records[1..] == [];
    assert |Decoder.RecordsBytes(CREATED.records, Decoder.Little)| == 4;
    assert FAN_CREATE < Decoder.Pow(8) by {
      assert Decoder.Pow(8) == 256 * Decoder.Pow(7) && Decoder.Pow(7) == 256 * Decoder.Pow(6) && Decoder.Pow(6) > 0;
    }
    assert Decoder.Representable(CREATED, Decoder.Little);
    bytes := Decoder.BufferBytes([CREATED], Decoder.Little);
    info := Decoder.RecordBytes(record, Decoder.Little);
    Decoder.EventsReadBack([CREATED], [], Decoder.Little);
    assert bytes + [] == bytes;
    assert Decoder.LastNameRecord(CREATED.records, None, Decoder.Little) == Some(info) by {
      assert Decoder.LastNameRecord([], Some(info), Decoder.Little) == Some(info);
    }
  }

  lemma FileIsNotExcluded()
    ensures !IsExcluded(FILE)
  {
    var s := Classifier.Render(FILE);
    Classifier.TailStart(FILE);
    assert s[0] == '/' && s[1] == 'h';
  }

  /** The torn-down launch, the late registration, and the loop at some point of its turn. */
  function Late(m: Loop, nextEvent: nat): State {
    Scene(Torn(TornDown, {10, 11}, None), AT_11, m).(nextEvent := nextEvent)
  }

  /** A move that only changes the loop. */
  lemma QuietTurn(m: Loop, m': Loop, nextEvent: nat, move: Move)
    requires Advance(m, AT_11, 0, nextEvent, move) == Some(Quiet(m'))
    ensures Apply(Late(m, nextEvent), Turn(0, move)) == Some(Late(m', nextEvent))
  {
    hide Advance;
    var s := Late(m, nextEvent);
    assert s.loops[0 := m'] == [m'];
    assert s.sent + EmittedIds([]) == s.sent && s.dropped + [] == s.dropped;
  }

  lemma RetryMoves()
    ensures var m0 := NEW_LOOP; var m1, m2 := m0.(stage := Refreshed),
      m0.(stage := Retrying(0)); var m3 := m0.(stage := Reading);
      && Advance(m0, AT_11, 0, 0, Refresh(map[])) == Some(Quiet(m1))
      && Advance(m1, AT_11, 0, 0, BeginRetry) == Some(Quiet(m2))
      && Advance(m2, AT_11, 0, 0, EndRetry) == Some(Quiet(m3))
  {
  }

  function Incoming(info: seq<Decoder.Byte>, stage: Stage): Loop {
    NEW_LOOP.(stage := stage, incoming := [FreshEvent(0, FAN_CREATE, 11, Some(info))])
  }

  const EMITTED: Emitted := Emitted(0, FAN_CREATE, 11, FILE, 1)

  lemma HandleMoves(info: seq<Decoder.Byte>)
    ensures Advance(Incoming(info, Handling), AT_11, 0, 1, LookUp) == Some(Quiet(Incoming(info, Found(11))))
    ensures Advance(Incoming(info, Found(11)), AT_11, 0, 1, ResolveFound(Some(FILE))) ==
      Some(Quiet(NEW_LOOP.(stage := Handling, batch := [EMITTED])))
    ensures Advance(NEW_LOOP.(stage := Handling, batch := [EMITTED]), AT_11, 0, 1, EndRead) ==
      Some(Quiet(NEW_LOOP.(stage := Sending, batch := [EMITTED])))
  {
    assert HOME == FILE[..2];
    var m := Incoming(info, Found(11));
    assert m.incoming[1..] == [] && m.batch + [EMITTED] == [EMITTED];
  }

  lemma ReadTurn(bytes: seq<Decoder.Byte>, info: seq<Decoder.Byte>)
    requires Decoder.Decode(bytes, Decoder.Little) == [Decoder.Event(FAN_CREATE, -1, 11, Some(info))]
    ensures Apply(Late(NEW_LOOP.(stage := Reading), 0), Turn(0, Read(bytes, Decoder.Little))) ==
      Some(Late(Incoming(info, Handling), 1))
  {
    hide Decoder.Decode;
    var s := Late(NEW_LOOP.(stage := Reading), 0);
    var events := Decoder.Decode(bytes, Decoder.Little);
    assert Numbered(events, 0) == [FreshEvent(0, FAN_CREATE, 11, Some(info))];
    assert s.loops[0 := Incoming(info, Handling)] == [Incoming(info, Handling)];
    assert s.sent + EmittedIds([]) == s.sent && s.dropped + [] == s.dropped;
  }

  const ROW: Journal.MutationRecord := RecordOf(EMITTED, 0)

  function Sent(channel: Journal.Channel): State {
    Late(NEW_LOOP.(stage := Sending), 1).(sent := [0], channel := channel)
  }

  lemma SendAdvances()
    ensures Advance(NEW_LOOP.(stage := Sending, batch := [EMITTED]), AT_11, 0, 1, SendHead(true)) ==
      Some(Outcome(NEW_LOOP.(stage := Sending), 0, [EMITTED], []))
  {
    hide IsExcluded;
    FileIsNotExcluded();
    var m := NEW_LOOP.(stage := Sending, batch := [EMITTED]);
    assert m.batch[1..] == [];
  }

  lemma SendTurn()
    ensures Apply(Late(NEW_LOOP.(stage := Sending, batch := [EMITTED]), 1), Turn(0, SendHead(true))) ==
      Some(Sent(Journal.Channel([Journal.Write(ROW)], [], {})))
  {
    hide Advance, MaskToOperation;
    SendAdvances();
    var s := Late(NEW_LOOP.(stage := Sending, batch := [EMITTED]), 1);
    assert s.loops[0 := NEW_LOOP.(stage := Sending)] == [NEW_LOOP.(stage := Sending)];
    assert EmittedIds([EMITTED]) == [0] && s.sent + [0] == [0] && s.dropped + [] == s.dropped;
    assert Journal.EMPTY.queue + [Journal.Write(ROW)] == [Journal.Write(ROW)];
  }

  lemma JournalTurn()
    ensures Apply(Sent(Journal.Channel([Journal.Write(ROW)], [], {})), JournalTake(true)) ==
      Some(Sent(Journal.Channel([], [ROW], {})))
  {
    hide MaskToOperation;
    assert [Journal.Write(ROW)][1..] == [];
    var rows: seq<Journal.MutationRecord> := [];
    assert Journal.Append(rows, ROW, true) == [ROW];
  }

  /** The steps after the late registration, up to the journal. */
  function Tail(bytes: seq<Decoder.Byte>): (steps: seq<Step>)
    ensures |steps| == 9
  {
    [Turn(0, Refresh(map[])), Turn(0, BeginRetry), Turn(0, EndRetry), Turn(0, Read(bytes, Decoder.Little)),
      Turn(0, LookUp),
     Turn(0, ResolveFound(Some(FILE))), Turn(0, EndRead), Turn(0, SendHead(true)), JournalTake(true)]
  }

  /** The states they lead to. */
  function Late9(info: seq<Decoder.Byte>): (states: seq<State>)
    ensures |states| == 9
  {
    [Late(NEW_LOOP.(stage := Refreshed), 0), Late(NEW_LOOP.(stage := Retrying(0)), 0),
      Late(NEW_LOOP.(stage := Reading), 0),
     Late(Incoming(info, Handling), 1), Late(Incoming(info, Found(11)), 1),
       Late(NEW_LOOP.(stage := Handling, batch := [EMITTED]), 1),
     Late(NEW_LOOP.(stage := Sending, batch := [EMITTED]), 1), Sent(Journal.Channel([Journal.Write(ROW)], [], {})),
     Sent(Journal.Channel([], [ROW], {}))]
  }

  lemma TailRuns(bytes: seq<Decoder.Byte>, info: seq<Decoder.Byte>, i: nat)
    requires Decoder.Decode(bytes, Decoder.Little) == [Decoder.Event(FAN_CREATE, -1, 11, Some(info))]
    requires i < 9
    ensures Apply(if i == 0 then Late(NEW_LOOP, 0) else Late9(info)[i - 1], Tail(bytes)[i]) == Some(Late9(info)[i])
  {
    hide Apply, Advance, Late, Sent, Incoming, Decoder.Decode;
    RetryMoves();
    HandleMoves(info);
    ReadTurn(bytes, info);
    SendTurn();
    JournalTurn();
    QuietTurn(NEW_LOOP, NEW_LOOP.(stage := Refreshed), 0, Refresh(map[]));
    QuietTurn(NEW_LOOP.(stage := Refreshed), NEW_LOOP.(stage := Retrying(0)), 0, BeginRetry);
    QuietTurn(NEW_LOOP.(stage := Retrying(0)), NEW_LOOP.(stage := Reading), 0, EndRetry);
    QuietTurn(Incoming(info, Handling), Incoming(info, Found(11)), 1, LookUp);
    QuietTurn(Incoming(info, Found(11)), NEW_LOOP.(stage := Handling, batch := [EMITTED]), 1, ResolveFound(Some(FILE)));
    QuietTurn(NEW_LOOP.(stage := Handling, batch := [EMITTED]), NEW_LOOP.(stage := Sending, batch := [EMITTED]), 1,
      EndRead);
  }

  /** From the late registration on no launch is live. */
  lemma NobodyVouches(info: seq<Decoder.Byte>, i: nat, l: nat, e: Emitted)
    requires i < 9
    ensures !Vouches(Late9(info)[i], l, e.txid, e.pid, e.path)
  {
  }

  /** The only emission of the run is its sixth late step, and then nobody vouches. */
  lemma NoEmission(start: seq<State>, first: seq<Step>, bytes: seq<Decoder.Byte>, info: seq<Decoder.Byte>,
                   e: Emitted, i: nat, k: nat, l: nat)
    requires |start| == 11 && |first| == 10 && forall j | 0 <= j < 10 :: !first[j].Turn?
    ensures !Emission(start + Late9(info), first + Tail(bytes), i, k, l, e)
  {
    hide Late9, Vouches;
    var steps := first + Tail(bytes);
    if 10 <= i < 19 {
      assert steps[i] == Tail(bytes)[i - 10];
      if i > 10 {
        assert (start + Late9(info))[i] == Late9(info)[i - 11];
        NobodyVouches(info, i - 11, l, e);
      }
    }
  }

  /** A run whose journal holds a row that no live launch vouched for when it was emitted. */
  lemma StragglerRowHasNoWitness() returns (trace: seq<State>, steps: seq<Step>, row: Journal.MutationRecord)
    ensures Behaviour(trace, steps) && !NoStragglers(trace, steps)
    ensures row in trace[|steps|].channel.rows
    ensures forall e: Emitted, i: nat, k: nat, l: nat :: !Emission(trace, steps, i, k, l, e)
  {
    hide Apply, Late9, Tail, Vouches, Behaviour, ActiveAgrees, Decoder.Decode, Emission, Straggles;
    var bytes, info := CreatedDecodes();
    trace, steps := RegisteredTooLate();
    var start, first := trace, steps;
    var n := 0;
    while n < 9
      invariant n <= 9
      invariant trace == start + Late9(info)[..n] && steps == first + Tail(bytes)[..n]
      invariant Behaviour(trace, steps)
    {
      TailRuns(bytes, info, n);
      trace, steps := Then(trace, steps, Tail(bytes)[n], Late9(info)[n]);
      n := n + 1;
    }
    assert Late9(info)[..9] == Late9(info) && Tail(bytes)[..9] == Tail(bytes);
    forall e: Emitted, i: nat, k: nat, l: nat ensures !Emission(trace, steps, i, k, l, e) {
      NoEmission(start, first, bytes, info, e, i, k, l);
    }
    assert trace[9] == start[9] && steps[9] == first[9] && Straggles(trace[9], steps[9]);
    row := ROW;
    LastState(info);
  }

  lemma LastState(info: seq<Decoder.Byte>)
    ensures ROW in Late9(info)[8].channel.rows
  {
  }
}
