/**
 The live-capture protocol: launches being claimed, discovered and torn down, capture loops
 reading and attributing kernel events, and the journal draining their channel, as one
 transition system. Every step is what one task does between two points where another task
 can come in: one locked section, or one wait. Events carry numbers so that they can be followed.
 */
module CaptureProtocol {
  import opened Paths
  import opened Attribution
  import Decoder
  import Journal
  import MutationCapture
  import TrackedApps

  // ---- Launches ----

  /** `Clearing`: the processes to take out of the registrations are chosen, and not yet out. */
  datatype Phase = Claimed | Watching | Grace | Clearing(listed: set<Pid>) | TornDown | Finished

  /** `collecting`: a process the collector has listed but not yet registered. */
  datatype Launch = Launch(txid: int, home: Path, pids: set<Pid>, collecting: Option<Pid>, phase: Phase,
                           counted: Option<MutationCapture.Device>)

  predicate Live(l: Launch) {
    l.phase.Claimed? || l.phase.Watching? || l.phase.Grace? || l.phase.Clearing?
  }

  // ---- The capture loop ----

  datatype FreshEvent = FreshEvent(id: nat, mask: nat, pid: Pid, info: Option<seq<Decoder.Byte>>)

  datatype Stage =
    | Top
    | Refreshed
    | Retrying(since: nat)
    | RetryResolving(since: nat)
    | Reading
    | Handling
    | NeedsThread
    | Found(key: Pid)
    | Missed
    | Sending
    | Dead

  datatype Loop = Loop(stage: Stage, kept: seq<PendingEvent>, pending: seq<PendingEvent>, incoming: seq<FreshEvent>,
                       batch: seq<Emitted>, tidCache: map<Pid, Pid>, aborted: bool)

  const NEW_LOOP: Loop := Loop(Top, [], [], [], [], map[], false)

  datatype Reason =
    Expired | NotResolved | NotAttributed | NoName | Idle | BufferFull | Excluded | ChannelClosed | GroupStopped

  datatype Move =
    | Refresh(tidCache: map<Pid, Pid>)
    | BeginRetry
    | CheckHead
    | ResolveHead(path: Option<Path>)
    | EndRetry
    | Read(bytes: seq<Decoder.Byte>, order: Decoder.Order)
    | LookUp
    | LookUpThread(live: Option<Pid>)
    | ResolveFound(path: Option<Path>)
    | Buffer
    | EndRead
    | SendHead(open: bool)
    | EndSend
    | Die

  /** What a move does besides changing the loop: events read, sent and given up. */
  datatype Outcome = Outcome(loop: Loop, read: nat, sent: seq<Emitted>, dropped: seq<(nat, Reason)>)

  function Quiet(m: Loop): Outcome {
    Outcome(m, 0, [], [])
  }

  function Numbered(events: seq<Decoder.Event>, from: nat): (r: seq<FreshEvent>)
    ensures |r| == |events|
    ensures forall i | 0 <= i < |r| :: r[i].id == from + i
  {
    seq(|events|, i requires 0 <= i < |events| => FreshEvent(from + i, events[i].mask, events[i].pid, events[i].info))
  }

  function DropAll(ids: seq<nat>, why: Reason): (r: seq<(nat, Reason)>)
    ensures |r| == |ids| && forall i | 0 <= i < |ids| :: r[i] == (ids[i], why)
  {
    seq(|ids|, i requires 0 <= i < |ids| => (ids[i], why))
  }

  /** A resolved path is attributed by what is registered now; failing that the event is given up. */
  function Emit(m: Loop, next: Loop, id: nat, mask: nat, key: Pid, path: Option<Path>,
      active: ActiveLaunches): Outcome {
    if path.None? then Outcome(next, 0, [], [(id, NotResolved)])
    else
      var txid := AttributeEvent(key, path.value, active);
      if txid.None? then Outcome(next, 0, [], [(id, NotAttributed)])
      else Quiet(next.(batch := m.batch + [Emitted(id, mask, key, path.value, txid.value)]))
  }

  function RetryMove(m: Loop, active: ActiveLaunches, now: nat, move: Move): Option<Outcome> {
    match move
    case Refresh(cache) => if m.stage.Top? then Some(Quiet(m.(stage := Refreshed, tidCache := cache))) else None
    case BeginRetry => if m.stage.Refreshed? then Some(Quiet(m.(stage := Retrying(now)))) else None
    case CheckHead =>
      if m.stage.Retrying? && m.pending != [] then
        var p := m.pending[0];
        if m.stage.since - p.firstSeen > PENDING_RETRY_WINDOW then
          Some(Outcome(m.(pending := m.pending[1..]), 0, [], [(p.id, Expired)]))
        else if p.pid !in active then
          Some(Quiet(m.(pending := m.pending[1..], kept := m.kept + [p])))
        else Some(Quiet(m.(stage := RetryResolving(m.stage.since))))
      else None
    case ResolveHead(path) =>
      if m.stage.RetryResolving? && m.pending != [] then
        var p := m.pending[0];
        Some(Emit(m, m.(stage := Retrying(m.stage.since), pending := m.pending[1..]), p.id, p.mask, p.pid, path,
          active))
      else None
    case EndRetry =>
      if m.stage.Retrying? && m.pending == []
        then Some(Quiet(m.(stage := Reading, pending := m.kept, kept := []))) else None
    case _ => None
  }

  function ReadMove(m: Loop, active: ActiveLaunches, now: nat, nextEvent: nat, move: Move): Option<Outcome> {
    match move
    case Read(bytes, order) =>
      var events := Decoder.Decode(bytes, order);
      if m.stage.Reading? && m.incoming == [] then
        Some(Outcome(m.(stage := Handling, incoming := Numbered(events, nextEvent)), |events|, [], []))
      else None
    case EndRead => if m.stage.Handling? && m.incoming == [] then Some(Quiet(m.(stage := Sending))) else None
    case _ => if m.incoming == [] then None else HandleMove(m, m.incoming[0], active, now, move)
  }

  /** One event of the read: the reported process itself, else the process of that thread, else the buffer. */
  function HandleMove(m: Loop, e: FreshEvent, active: ActiveLaunches, now: nat, move: Move): Option<Outcome>
    requires m.incoming != []
  {
    var next := m.(stage := Handling, incoming := m.incoming[1..]);
    match move
    case LookUp =>
      if m.stage.Handling? then Some(Quiet(m.(stage := if e.pid in active then Found(e.pid) else NeedsThread)))
        else None
    case LookUpThread(live) =>
      if m.stage.NeedsThread? then
        var owner := if e.pid in m.tidCache then Some(m.tidCache[e.pid]) else live;
        Some(Quiet(m.(stage := if owner.Some? && owner.value in active then Found(owner.value) else Missed)))
      else None
    case ResolveFound(path) =>
      if !m.stage.Found? then None
      else if e.info.None? then Some(Outcome(next, 0, [], [(e.id, NoName)]))
      else Some(Emit(m, next, e.id, e.mask, m.stage.key, path, active))
    case Buffer =>
      if !m.stage.Missed? then None
      else if e.info.None? then Some(Outcome(next, 0, [], [(e.id, NoName)]))
      else if active == map[] then Some(Outcome(next, 0, [], [(e.id, Idle)]))
      else if |m.pending| >= PENDING_MAX then Some(Outcome(next, 0, [], [(e.id, BufferFull)]))
      else Some(Quiet(next.(pending := m.pending + [PendingEvent(e.id, e.mask, e.pid, e.info.value, now)])))
    case _ => None
  }

  function SendMove(m: Loop, move: Move): Option<Outcome> {
    match move
    case SendHead(open) =>
      if m.stage.Sending? && m.batch != [] then
        var e := m.batch[0];
        var next := m.(batch := m.batch[1..]);
        if IsExcluded(e.path) then Some(Outcome(next, 0, [], [(e.id, Excluded)]))
        else if !open then Some(Outcome(next, 0, [], [(e.id, ChannelClosed)]))
        else Some(Outcome(next, 0, [e], []))
      else None
    case EndSend => if m.stage.Sending? && m.batch == [] then Some(Quiet(m.(stage := Top))) else None
    case Die =>
      // An aborted loop is dropped where it waits, with all it still holds.
      if m.aborted && (m.stage.Top? || m.stage.Sending?) then
        Some(Outcome(m.(stage := Dead, kept := [], pending := [], incoming := [], batch := []), 0, [],
                     DropAll(PendingIds(m.kept) + PendingIds(m.pending) + FreshIds(m.incoming) + EmittedIds(m.batch),
                       GroupStopped)))
      else None
    case _ => None
  }

  function Advance(m: Loop, active: ActiveLaunches, now: nat, nextEvent: nat, move: Move): Option<Outcome> {
    match move
    case Refresh(_) | BeginRetry | CheckHead | ResolveHead(_) | EndRetry => RetryMove(m, active, now, move)
    case SendHead(_) | EndSend | Die => SendMove(m, move)
    case _ => ReadMove(m, active, now, nextEvent, move)
  }

  function PendingIds(s: seq<PendingEvent>): (r: seq<nat>)
    ensures |r| == |s| && forall i | 0 <= i < |s| :: r[i] == s[i].id
  {
    seq(|s|, i requires 0 <= i < |s| => s[i].id)
  }

  function FreshIds(s: seq<FreshEvent>): (r: seq<nat>)
    ensures |r| == |s| && forall i | 0 <= i < |s| :: r[i] == s[i].id
  {
    seq(|s|, i requires 0 <= i < |s| => s[i].id)
  }

  function EmittedIds(s: seq<Emitted>): (r: seq<nat>)
    ensures |r| == |s| && forall i | 0 <= i < |s| :: r[i] == s[i].id
  {
    seq(|s|, i requires 0 <= i < |s| => s[i].id)
  }

  function DroppedIds(s: seq<(nat, Reason)>): (r: seq<nat>)
    ensures |r| == |s| && forall i | 0 <= i < |s| :: r[i] == s[i].0
  {
    seq(|s|, i requires 0 <= i < |s| => s[i].0)
  }

  // ---- The whole ----

  /** An execution that matched an exec-watch entry. */
  datatype Matched = Matched(pid: Pid, app: TrackedApps.WatchedApp)

  /**
   Launches and loops are numbered in the order they came up; `group` is the loop in charge,
   `handling` the request whose rows are written and whose watching is still to come, and `matched`
   the execution the exec-watch loop is about to claim.
   */
  datatype State = State(launches: seq<Launch>, active: ActiveLaunches, now: nat, loops: seq<Loop>, group: Option<nat>,
                         capture: MutationCapture.Capture, channel: Journal.Channel, nextEvent: nat,
                         sent: seq<nat>, dropped: seq<(nat, Reason)>,
                         tracked: TrackedApps.State, handling: Option<TrackedApps.Request>, matched: Option<Matched>)

  const INITIAL: State := State([], map[], 0, [], None, MutationCapture.IDLE, Journal.EMPTY, 0, [], [],
                               TrackedApps.EMPTY, None, None)

  datatype Step =
    | Request(request: TrackedApps.Request)
    | Rewatch
    | Match(pid: Pid, exe: Path)
    | Claim(home: Path, opens: bool)
    | StartCapture(l: nat, dev: Option<MutationCapture.Device>, groupWorks: bool, markWorks: bool)
    | CollectList(l: nat, newPid: Pid)
    | CollectActivate(l: nat, opens: bool)
    | WatchEnds(l: nat)
    | Snapshot(l: nat)
    | Teardown(l: nat)
    | StopCapture(l: nat, dev: Option<MutationCapture.Device>, unmarkWorks: bool)
    | Turn(k: nat, move: Move)
    | JournalTake(works: bool)
    | FlushRequest(ticket: nat)
    | Wait(ms: nat)

  function WithLaunch(s: State, l: nat, x: Launch): State
    requires l < |s.launches|
  {
    s.(launches := s.launches[l := x])
  }

  /** The first claim of a process wins; a later one backs off. */
  function ClaimStep(s: State, pid: Pid, txid: int, home: Path, opens: bool): State {
    if home == [] || pid in s.active || !opens then s
    else s.(active := s.active[pid := ActiveLaunch(txid, home)],
            launches := s.launches + [Launch(txid, home, {pid}, None, Claimed, None)])
  }

  function StartStep(s: State, l: nat, dev: Option<MutationCapture.Device>, groupWorks: bool, markWorks: bool): State
    requires l < |s.launches|
  {
    var (c, ok) := MutationCapture.Started(s.capture, dev, groupWorks, markWorks);
    var s1 := WithLaunch(s, l, s.launches[l].(phase := Watching, counted := if ok then dev else None)).(capture := c);
    if c.group && !s.capture.group then s1.(loops := s1.loops + [NEW_LOOP], group := Some(|s1.loops|)) else s1
  }

  function StopStep(s: State, l: nat, dev: Option<MutationCapture.Device>, unmarkWorks: bool): State
    requires l < |s.launches|
  {
    var c := MutationCapture.Stopped(s.capture, dev, unmarkWorks);
    var s1 := WithLaunch(s, l, s.launches[l].(phase := Finished, counted := None)).(capture := c);
    if s.capture.group && !c.group && s.group.Some? && s.group.value < |s.loops| then
      s1.(loops := s1.loops[s.group.value := s1.loops[s.group.value].(aborted := true)], group := None)
    else s1
  }

  function LaunchStep(s: State, step: Step): Option<State> {
    match step
    case Claim(home, opens) =>
      if s.matched.None? then None
      else Some(ClaimStep(s.(matched := None), s.matched.value.pid, s.matched.value.app.txid, home, opens))
    case StartCapture(l, dev, groupWorks, markWorks) =>
      if l < |s.launches| && s.launches[l].phase.Claimed?
        then Some(StartStep(s, l, dev, groupWorks, markWorks)) else None
    case CollectList(l, p) =>
      // Stopping a collector takes effect only when it next waits.
      if l < |s.launches| && !s.launches[l].phase.Claimed? && s.launches[l].collecting.None? then
        if p in s.launches[l].pids then Some(s)
        else Some(WithLaunch(s, l, s.launches[l].(pids := s.launches[l].pids + {p}, collecting := Some(p))))
      else None
    case CollectActivate(l, opens) =>
      if l < |s.launches| && s.launches[l].collecting.Some? then
        var x := s.launches[l];
        var s1 := WithLaunch(s, l, x.(collecting := None));
        // Unlike a claim, this replaces whatever is registered for the process.
        Some(if opens then s1.(active := s.active[x.collecting.value := ActiveLaunch(x.txid, x.home)]) else s1)
      else None
    case WatchEnds(l) =>
      if l < |s.launches| && s.launches[l].phase.Watching?
        then Some(WithLaunch(s, l, s.launches[l].(phase := Grace))) else None
    case Snapshot(l) =>
      if l < |s.launches| && s.launches[l].phase.Grace? then
        Some(WithLaunch(s, l, s.launches[l].(phase := Clearing(s.launches[l].pids))))
      else None
    case Teardown(l) =>
      if l < |s.launches| && s.launches[l].phase.Clearing? then
        Some(WithLaunch(s, l, s.launches[l].(phase := TornDown)).(active := s.active - s.launches[l].phase.listed))
      else None
    case StopCapture(l, dev, unmarkWorks) =>
      if l < |s.launches| && s.launches[l].phase.TornDown? then Some(StopStep(s, l, dev, unmarkWorks)) else None
    case _ => None
  }

  /** The record a sent event becomes. */
  function RecordOf(e: Emitted, now: nat): Journal.MutationRecord {
    Journal.MutationRecord(e.txid, e.pid, MaskToOperation(e.mask), e.path, now)
  }

  function TurnStep(s: State, k: nat, move: Move): Option<State> {
    if k >= |s.loops| then None
    else
      var o := Advance(s.loops[k], s.active, s.now, s.nextEvent, move);
      if o.None? then None else Some(Settle(s, k, o.value))
  }

  function Settle(s: State, k: nat, o: Outcome): State
    requires k < |s.loops|
  {
    s.(loops := s.loops[k := o.loop], nextEvent := s.nextEvent + o.read,
       sent := s.sent + EmittedIds(o.sent), dropped := s.dropped + o.dropped,
       channel := if o.sent == [] then s.channel
                  else Journal.Apply(s.channel, Journal.Send(Journal.Write(RecordOf(o.sent[0], s.now)))))
  }

  function Apply(s: State, step: Step): Option<State> {
    match step
    case Turn(k, move) => TurnStep(s, k, move)
    case JournalTake(works) => Some(s.(channel := Journal.Apply(s.channel, Journal.Take(works))))
    case FlushRequest(ticket) => Some(s.(channel := Journal.Apply(s.channel, Journal.Send(Journal.Flush(ticket)))))
    case Wait(ms) => Some(s.(now := s.now + ms))
    case Request(request) =>
      // The daemon starts once: its restarts come before the first launch.
      if s.handling.Some? || (request.Restart? && (s.launches != [] || s.matched.Some?)) then None
      else if request.Restart? then Some(s.(tracked := TrackedApps.Handle(s.tracked, request)))
      else
        var (tracked, works) := TrackedApps.RowsDone(s.tracked, request);
        Some(s.(tracked := tracked, handling := if works then Some(request) else None))
    case Rewatch =>
      if s.handling.None? then None
      else Some(s.(tracked := TrackedApps.WatchDone(s.tracked, s.handling.value), handling := None))
    case Match(pid, exe) =>
      if s.matched.Some? then None
      else if exe !in s.tracked.watched then Some(s)
      else Some(s.(matched := Some(Matched(pid, s.tracked.watched[exe]))))
    case _ => LaunchStep(s, step)
  }

  /** A run: one state more than steps, from the initial state, every step enabled. */
  ghost predicate Behaviour(trace: seq<State>, steps: seq<Step>) {
    && |trace| == |steps| + 1 && trace[0] == INITIAL
    && forall i | 0 <= i < |steps| :: Apply(trace[i], steps[i]) == Some(trace[i + 1])
  }

  lemma NothingHappened()
    ensures Behaviour([INITIAL], [])
  {
  }

  /** A run, extended by one step. */
  lemma Then(trace: seq<State>, steps: seq<Step>, step: Step, s': State) returns (t: seq<State>, ss: seq<Step>)
    requires Behaviour(trace, steps) && |trace| == |steps| + 1 && Apply(trace[|steps|], step) == Some(s')
    ensures t == trace + [s'] && ss == steps + [step] && Behaviour(t, ss)
  {
    hide Apply;
    t, ss := trace + [s'], steps + [step];
    forall i | 0 <= i < |ss| ensures Apply(t[i], ss[i]) == Some(t[i + 1]) {
      if i < |steps| {
        assert t[i] == trace[i] && t[i + 1] == trace[i + 1] && ss[i] == steps[i];
      }
    }
  }
}
