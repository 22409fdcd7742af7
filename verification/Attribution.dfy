/**
 Attributing kernel events to launches: which launch a process belongs to, the buffer of
 events whose process is not registered yet, and the cache from threads to processes.
 */
module Attribution {
  import opened Paths
  import opened Review
  import Decoder
  import Classifier

  type Pid = int

  /** A running launch as the capture loop sees it; its mount descriptor is open on `home`. */
  datatype ActiveLaunch = ActiveLaunch(txid: int, home: Path)

  type ActiveLaunches = map<Pid, ActiveLaunch>

  datatype PendingEvent = PendingEvent(id: nat, mask: nat, pid: Pid, info: seq<Decoder.Byte>, firstSeen: nat)

  datatype Emitted = Emitted(id: nat, mask: nat, pid: Pid, path: Path, txid: int)

  /** Milliseconds. */
  const PENDING_RETRY_WINDOW: nat := 500
  const PENDING_MAX: nat := 5000

  function AttributeEvent(pid: Pid, path: Path, active: ActiveLaunches): Option<int> {
    if pid in active && active[pid].home <= path then Some(active[pid].txid) else None
  }

  // ---- Operations ----

  const FAN_CLOSE_WRITE: nat := 0x8
  const FAN_MOVED_FROM: nat := 0x40
  const FAN_MOVED_TO: nat := 0x80
  const FAN_CREATE: nat := 0x100
  const FAN_DELETE: nat := 0x200

  predicate HasFlag(mask: nat, flag: nat)
    requires flag > 0
  {
    mask / flag % 2 == 1
  }

  function MaskToOperation(mask: nat): Operation {
    if HasFlag(mask, FAN_CREATE) then Create
    else if HasFlag(mask, FAN_CLOSE_WRITE) then Modify
    else if HasFlag(mask, FAN_DELETE) then Delete
    else if HasFlag(mask, FAN_MOVED_TO) then RenameTo
    else if HasFlag(mask, FAN_MOVED_FROM) then RenameFrom
    else Other
  }

  /** A mask put together from the five bits that matter and whatever else is set. */
  function Mask(low: nat, mid: nat, high: nat, written: bool, movedFrom: bool, movedTo: bool, created: bool,
      deleted: bool): nat
    requires low < 8 && mid < 4
  {
    low + (if written then 0x8 else 0) + 0x10 * mid + (if movedFrom then 0x40 else 0) + (if movedTo then 0x80 else 0)
    + (if created then 0x100 else 0) + (if deleted then 0x200 else 0) + 0x400 * high
  }

  /** However `mask` is put together: a creation counts most, then a write, a deletion, a move here, a move away. */
  ghost predicate Tells(mask: nat, op: Operation) {
    forall low: nat, mid: nat, high: nat, written, movedFrom, movedTo, created, deleted |
      low < 8 && mid < 4 && mask == Mask(low, mid, high, written, movedFrom, movedTo, created, deleted) ::
      op == if created then Create else if written then Modify else if deleted then Delete
            else if movedTo then RenameTo else if movedFrom then RenameFrom else Other
  }

  const EXCLUDED: seq<string> := ["/proc", "/sys", "/dev", "/run/user", "/var/lib/pkgundo"]

  /** A test on the rendered path, so `/device` is excluded as well. */
  predicate IsExcluded(path: Path) {
    exists i | 0 <= i < |EXCLUDED| :: EXCLUDED[i] <= Classifier.Render(path)
  }

  // ---- Resolving ----

  /** What opening a handle through a mount on a home answers at one moment. */
  datatype Machine = Machine(mounts: map<Path, Decoder.System>, order: Decoder.Order)

  function Resolve(m: Machine, home: Path, info: seq<Decoder.Byte>): Option<Path> {
    if home in m.mounts then Decoder.ResolveInfoRecord(m.mounts[home], info, m.order) else None
  }

  // ---- One retry ----

  /**
   What one buffered event meets: the registrations where it is looked up, the handles when it is
   resolved, and the registrations where the resolved path is attributed. Each is locked anew.
   */
  datatype Glance = Glance(lookup: ActiveLaunches, machine: Machine, recheck: ActiveLaunches)

  datatype Fate = Keeps | Emits(event: Emitted) | Expires | Unresolved | Unattributed

  /** What one retry makes of one buffered event. */
  function FateOf(p: PendingEvent, now: nat, g: Glance): Fate {
    if now - p.firstSeen > PENDING_RETRY_WINDOW then Expires
    else if p.pid !in g.lookup then Keeps
    else
      var path := Resolve(g.machine, g.lookup[p.pid].home, p.info);
      if path.None? then Unresolved
      else
        var txid := AttributeEvent(p.pid, path.value, g.recheck);
        if txid.None? then Unattributed else Emits(Emitted(p.id, p.mask, p.pid, path.value, txid.value))
  }

  function Kept(pending: seq<PendingEvent>, now: nat, glances: seq<Glance>): seq<PendingEvent>
    requires |glances| == |pending|
    decreases |pending|
  {
    if pending == [] then []
    else
      var n := |pending| - 1;
      Kept(pending[..n], now, glances[..n]) + if FateOf(pending[n], now, glances[n]).Keeps? then [pending[n]] else []
  }

  function Resolved(pending: seq<PendingEvent>, now: nat, glances: seq<Glance>): seq<Emitted>
    requires |glances| == |pending|
    decreases |pending|
  {
    if pending == [] then []
    else
      var n := |pending| - 1;
      var f := FateOf(pending[n], now, glances[n]);
      Resolved(pending[..n], now, glances[..n]) + if f.Emits? then [f.event] else []
  }

  // ---- One read ----

  /**
   What one event of a read meets: the registrations where its process is looked up, the owner of
   its thread if that is alive, the registrations where the owner is looked up, the handles, the
   registrations where the path is attributed, those that tell whether anybody runs, and the clock.
   */
  datatype Scene = Scene(direct: ActiveLaunches, live: map<Pid, Pid>, byThread: ActiveLaunches, machine: Machine,
                         recheck: ActiveLaunches, running: ActiveLaunches, now: nat)

  /** The registered process an event is put down to, with its home: the reported one, else the owner of that thread. */
  function OwnerOf(pid: Pid, cache: map<Pid, Pid>, sc: Scene): Option<(Pid, Path)> {
    if pid in sc.direct then Some((pid, sc.direct[pid].home))
    else
      var owner := if pid in cache then Some(cache[pid]) else if pid in sc.live then Some(sc.live[pid]) else None;
      if owner.Some? && owner.value in sc.byThread then Some((owner.value, sc.byThread[owner.value].home)) else None
  }

  /** One decoded event is emitted, buffered or given up. */
  function HandleEvent(pending: seq<PendingEvent>, e: Decoder.Event, id: nat, cache: map<Pid, Pid>, sc: Scene)
    : (seq<PendingEvent>, seq<Emitted>)
  {
    var owner := OwnerOf(e.pid, cache, sc);
    if e.info.None? then (pending, [])
    else if owner.Some? then
      var path := Resolve(sc.machine, owner.value.1, e.info.value);
      if path.None? then (pending, [])
      else
        var txid := AttributeEvent(owner.value.0, path.value, sc.recheck);
        (pending, if txid.Some? then [Emitted(id, e.mask, owner.value.0, path.value, txid.value)] else [])
    else if sc.running == map[] || |pending| >= PENDING_MAX then (pending, [])
    else (pending + [PendingEvent(id, e.mask, e.pid, e.info.value, sc.now)], [])
  }

  function HandleEvents(pending: seq<PendingEvent>, events: seq<Decoder.Event>, from: nat, cache: map<Pid, Pid>,
                        scenes: seq<Scene>): (seq<PendingEvent>, seq<Emitted>)
    requires |scenes| == |events|
    decreases |events|
  {
    if events == [] then (pending, [])
    else
      var n := |events| - 1;
      var (before, emitted) := HandleEvents(pending, events[..n], from, cache, scenes[..n]);
      var (after, more) := HandleEvent(before, events[n], from + n, cache, scenes[n]);
      (after, emitted + more)
  }

  /** The records of what was emitted, in its order, without the excluded paths. */
  function Forwarded(events: seq<Emitted>): seq<Emitted> {
    if events == [] then []
    else
      var e := events[|events| - 1];
      Forwarded(events[..|events| - 1]) + if IsExcluded(e.path) then [] else [e]
  }

  class FanotifyMonitor {
    var pending: seq<PendingEvent>
    var tidCache: map<Pid, Pid>

    constructor ()
      ensures pending == [] && tidCache == map[]
    {
      pending, tidCache := [], map[];
    }

    /** Forget threads of processes no longer active, then enter every live thread of the active ones. */
    method RefreshTidCache(active: ActiveLaunches, threads: map<Pid, seq<Pid>>, order: seq<Pid>)
      requires forall tgid :: tgid in order <==> tgid in active
      modifies this`tidCache
      ensures forall tid | tid in tidCache :: tidCache[tid] in active && (
                (tidCache[tid] in threads && tid in threads[tidCache[tid]])
                || (tid in old(tidCache) && old(tidCache)[tid] == tidCache[tid]))
      ensures forall tgid, tid | tgid in active && tgid in threads && tid in threads[tgid] :: tid in tidCache
      ensures forall tid | tid in old(tidCache) && old(tidCache)[tid] in active :: tid in tidCache
    {
      tidCache := map tid | tid in tidCache && tidCache[tid] in active :: tidCache[tid];
      for i := 0 to |order|
        invariant forall tid | tid in tidCache :: tidCache[tid] in active && (
                    (tidCache[tid] in threads && tid in threads[tidCache[tid]])
                    || (tid in old(tidCache) && old(tidCache)[tid] == tidCache[tid]))
        invariant forall j, tid | 0 <= j < i && order[j] in threads && tid in threads[order[j]] :: tid in tidCache
        invariant forall tid | tid in old(tidCache) && old(tidCache)[tid] in active :: tid in tidCache
      {
        if order[i] in threads {
          var tids := threads[order[i]];
          ghost var before := tidCache;
          for j := 0 to |tids|
            invariant forall tid | tid in before :: tid in tidCache
            invariant forall tid | tid in tidCache :: (tid in before && tidCache[tid] == before[tid])
                                                     || (tid in tids && tidCache[tid] == order[i])
            invariant forall k | 0 <= k < j :: tids[k] in tidCache
          {
            tidCache := tidCache[tids[j] := order[i]];
          }
        }
      }
    }

    /** A full buffer drops the event. */
    method BufferPending(id: nat, mask: nat, pid: Pid, info: seq<Decoder.Byte>, now: nat)
      modifies this`pending
      ensures pending == if |old(pending)| >= PENDING_MAX then old(pending)
                         else old(pending) + [PendingEvent(id, mask, pid, info, now)]
      ensures |old(pending)| <= PENDING_MAX ==> |pending| <= PENDING_MAX
    {
      if |pending| >= PENDING_MAX {
        return;
      }
      pending := pending + [PendingEvent(id, mask, pid, info, now)];
    }

    /** One pass over the buffer, in its order; `glances[i]` is what the `i`th event meets. */
    method RetryPending(now: nat, glances: seq<Glance>) returns (events: seq<Emitted>)
      requires |glances| == |pending|
      modifies this`pending
      ensures pending == Kept(old(pending), now, glances)
      ensures events == Resolved(old(pending), now, glances)
    {
      hide Resolve, AttributeEvent;
      events := [];
      var kept := [];
      assert pending[..|pending|] == pending && glances[..|pending|] == glances;
      for i := 0 to |pending|
        invariant kept == Kept(pending[..i], now, glances[..i])
        invariant events == Resolved(pending[..i], now, glances[..i])
      {
        var p, g := pending[i], glances[i];
        assert pending[..i + 1][..i] == pending[..i] && glances[..i + 1][..i] == glances[..i];
        if now - p.firstSeen > PENDING_RETRY_WINDOW {
          continue;
        }
        if p.pid !in g.lookup {
          kept := kept + [p];
          continue;
        }
        var path := Resolve(g.machine, g.lookup[p.pid].home, p.info);
        if path.Some? {
          var txid := AttributeEvent(p.pid, path.value, g.recheck);
          if txid.Some? {
            events := events + [Emitted(p.id, p.mask, p.pid, path.value, txid.value)];
          }
        }
      }
      pending := kept;
    }

    /** One event of a read: the reported process itself, else the owner of that thread, else the buffer. */
    method HandleOne(e: Decoder.Event, id: nat, sc: Scene) returns (emitted: seq<Emitted>)
      modifies this`pending
      ensures (pending, emitted) == HandleEvent(old(pending), e, id, tidCache, sc)
    {
      hide Resolve, AttributeEvent;
      var owner := None;
      if e.pid in sc.direct {
        owner := Some((e.pid, sc.direct[e.pid].home));
      } else {
        var tgid := if e.pid in tidCache then Some(tidCache[e.pid]) else if e.pid in sc.live
          then Some(sc.live[e.pid]) else None;
        if tgid.Some? && tgid.value in sc.byThread {
          owner := Some((tgid.value, sc.byThread[tgid.value].home));
        }
      }
      emitted := [];
      if owner.Some? {
        var (tgid, home) := owner.value;
        if e.info.Some? {
          var path := Resolve(sc.machine, home, e.info.value);
          if path.Some? {
            var txid := AttributeEvent(tgid, path.value, sc.recheck);
            if txid.Some? {
              emitted := [Emitted(id, e.mask, tgid, path.value, txid.value)];
            }
          }
        }
      } else if e.info.Some? && sc.running != map[] {
        BufferPending(id, e.mask, e.pid, e.info.value, sc.now);
      }
    }

    /**
     A retry, then one read of `n` bytes: every event decoded is emitted, buffered or given up,
     and every real descriptor is closed. `full` says that more may be waiting.
     */
    method ReadEventsFiltered(now: nat, glances: seq<Glance>, buf: array<Decoder.Byte>, n: nat, order: Decoder.Order,
                              from: nat, scenes: seq<Scene>)
      returns (events: seq<Emitted>, full: bool, closed: seq<int>)
      requires |glances| == |pending|
      requires n <= buf.Length && |scenes| == |Decoder.Decode(buf[..n], order)|
      modifies this`pending
      ensures var decoded := Decoder.Decode(buf[..n], order);
        var kept := Kept(old(pending), now, glances);
        && pending == HandleEvents(kept, decoded, from, tidCache, scenes).0
        && events == Resolved(old(pending), now, glances) + HandleEvents(kept, decoded, from, tidCache, scenes).1
        && closed == Decoder.RealFds(decoded)
      ensures full <==> n == buf.Length && n > 0
    {
      hide Decoder.Decode, Decoder.RealFds, Kept, Resolved, HandleEvent;
      events := RetryPending(now, glances);
      ghost var kept, retried := pending, events;
      var decoded;
      decoded, closed := Decoder.ReadEvents(buf, n, order);
      full := n == buf.Length && n > 0;
      assert decoded[..|decoded|] == decoded && scenes[..|decoded|] == scenes;
      for i := 0 to |decoded|
        invariant pending == HandleEvents(kept, decoded[..i], from, tidCache, scenes[..i]).0
        invariant events == retried + HandleEvents(kept, decoded[..i], from, tidCache, scenes[..i]).1
      {
        assert decoded[..i + 1][..i] == decoded[..i] && scenes[..i + 1][..i] == scenes[..i];
        var emitted := HandleOne(decoded[i], from + i, scenes[i]);
        events := events + emitted;
      }
    }

    /** What the loop sends on: everything not excluded, as a record of its operation. */
    method Forward(events: seq<Emitted>) returns (sent: seq<(Emitted, Operation)>)
      ensures |sent| == |Forwarded(events)|
      ensures forall i | 0 <= i < |sent| :: sent[i].0 == Forwarded(events)[i] && Tells(sent[i].0.mask, sent[i].1)
    {
      hide MaskToOperation, IsExcluded, Tells;
      sent := [];
      assert events[..|events|] == events;
      for i := 0 to |events|
        invariant |sent| == |Forwarded(events[..i])|
        invariant forall j | 0 <= j < |sent| ::
          sent[j].0 == Forwarded(events[..i])[j] && Tells(sent[j].0.mask, sent[j].1)
      {
        assert events[..i + 1][..i] == events[..i];
        if IsExcluded(events[i].path) {
          continue;
        }
        MaskIsTold(events[i].mask);
        sent := sent + [(events[i], MaskToOperation(events[i].mask))];
      }
    }
  }

  /** A bit is read off whatever stands below and above it. */
  lemma BitIsRead(n: nat, unit: nat, low: nat, bit: bool, rest: nat)
    requires low < unit && n == low + unit * (2 * rest + if bit then 1 else 0)
    ensures HasFlag(n, unit) == bit
  {
    var k := 2 * rest + if bit then 1 else 0;
    QuotientIs(n, unit, low, k);
  }

  lemma QuotientIs(n: nat, unit: nat, low: nat, k: nat)
    requires low < unit && n == low + unit * k
    ensures n / unit == k
  {
    var q, r := n / unit, n % unit;
    assert n == unit * q + r && 0 <= r < unit;
    assert unit * (q - k) == unit * q - unit * k;
    Multiple(unit, q - k);
  }

  lemma Multiple(unit: nat, x: int)
    requires unit > 0 && 0 < unit + unit * x && unit * x < unit
    ensures x == 0
  {
  }

  lemma FlagsOfMask(low: nat, mid: nat, high: nat, written: bool, movedFrom: bool, movedTo: bool, created: bool,
      deleted: bool)
    requires low < 8 && mid < 4
    ensures var mask := Mask(low, mid, high, written, movedFrom, movedTo, created, deleted);
      && HasFlag(mask, FAN_CLOSE_WRITE) == written && HasFlag(mask, FAN_MOVED_FROM) == movedFrom
      && HasFlag(mask, FAN_MOVED_TO) == movedTo && HasFlag(mask, FAN_CREATE) == created
      && HasFlag(mask, FAN_DELETE) == deleted
  {
    var mask := Mask(low, mid, high, written, movedFrom, movedTo, created, deleted);
    var d := 2 * high + if deleted then 1 else 0;
    var c := 2 * d + if created then 1 else 0;
    var t := 2 * c + if movedTo then 1 else 0;
    var below40 := low + (if written then 0x8 else 0) + 0x10 * mid;
    var below80 := below40 + if movedFrom then 0x40 else 0;
    var below100 := below80 + if movedTo then 0x80 else 0;
    var below200 := below100 + if created then 0x100 else 0;
    BitIsRead(mask, 0x8, low, written, mid + 4 * (2 * t + if movedFrom then 1 else 0));
    BitIsRead(mask, 0x40, below40, movedFrom, t);
    BitIsRead(mask, 0x80, below80, movedTo, c);
    BitIsRead(mask, 0x100, below100, created, d);
    BitIsRead(mask, 0x200, below200, deleted, high);
  }

  /** Every mask is put together in some such way. */
  lemma EveryMask(mask: nat)
    returns (low: nat, mid: nat, high: nat, written: bool, movedFrom: bool, movedTo: bool, created: bool, deleted: bool)
    ensures low < 8 && mid < 4 && mask == Mask(low, mid, high, written, movedFrom, movedTo, created, deleted)
  {
    var from3 := mask / 8;
    var from4 := from3 / 2;
    var from6 := from4 / 4;
    var from7 := from6 / 2;
    var from8 := from7 / 2;
    var from9 := from8 / 2;
    low, mid, high := mask % 8, from4 % 4, from9 / 2;
    written, movedFrom, movedTo := from3 % 2 == 1, from6 % 2 == 1, from7 % 2 == 1;
    created, deleted := from8 % 2 == 1, from9 % 2 == 1;
  }

  lemma MaskIsTold(mask: nat)
    ensures forall op :: Tells(mask, op) <==> op == MaskToOperation(mask)
  {
    hide Mask, HasFlag;
    forall low: nat, mid: nat, high: nat, written, movedFrom, movedTo, created, deleted |
      low < 8 && mid < 4 && mask == Mask(low, mid, high, written, movedFrom, movedTo, created, deleted)
      ensures MaskToOperation(mask) == if created then Create else if written then Modify else if deleted then Delete
        else if movedTo then RenameTo else if movedFrom then RenameFrom else Other
    {
      FlagsOfMask(low, mid, high, written, movedFrom, movedTo, created, deleted);
    }
    var low, mid, high, written, movedFrom, movedTo, created, deleted := EveryMask(mask);
  }

  /**
   The bits by their numbers: what goes out for a mask is a creation when 0x100 is among them, else a
   write for 0x8, else a deletion for 0x200, else a move here for 0x80, else a move away for 0x40.
   */
  lemma BitsTell(low: nat, mid: nat, high: nat, written: bool, movedFrom: bool, movedTo: bool, created: bool,
      deleted: bool, op: Operation)
    requires low < 8 && mid < 4
    ensures Tells(low + (if written then 0x8 else 0) + 0x10 * mid + (if movedFrom then 0x40 else 0)
                  + (if movedTo then 0x80 else 0) + (if created then 0x100 else 0) + (if deleted then 0x200 else 0)
                  + 0x400 * high, op) <==>
      op == if created then Create else if written then Modify else if deleted then Delete
        else if movedTo then RenameTo else if movedFrom then RenameFrom else Other
  {
    var mask := Mask(low, mid, high, written, movedFrom, movedTo, created, deleted);
    MaskIsTold(mask);
    FlagsOfMask(low, mid, high, written, movedFrom, movedTo, created, deleted);
    hide HasFlag;
  }

  /** `r` picks elements of `s` without changing their order. */
  ghost predicate Subsequence<T(!new)>(r: seq<T>, s: seq<T>) {
    if r == [] then true
    else if s == [] then false
    else Subsequence(r, s[..|s| - 1]) || (r[|r| - 1] == s[|s| - 1] && Subsequence(r[..|r| - 1], s[..|s| - 1]))
  }

  lemma {:induction false} RemainsInOrder(pending: seq<PendingEvent>, now: nat, glances: seq<Glance>)
    requires |glances| == |pending|
    ensures Subsequence(Kept(pending, now, glances), pending)
    ensures |Kept(pending, now, glances)| <= |pending|
    decreases |pending|
  {
    hide FateOf;
    if pending != [] {
      var n := |pending| - 1;
      RemainsInOrder(pending[..n], now, glances[..n]);
      var kept := Kept(pending[..n], now, glances[..n]);
      if FateOf(pending[n], now, glances[n]).Keeps? {
        assert Kept(pending, now, glances) == kept + [pending[n]];
        assert (kept + [pending[n]])[..|kept|] == kept;
      } else {
        assert Kept(pending, now, glances) == kept;
      }
    }
  }

  /**
   Bounded waiting: after a retry exactly the events that are at most 500 ms old and whose
   process was not registered when they were looked up remain, in their order.
   */
  lemma {:induction false} RemainsExactly(pending: seq<PendingEvent>, now: nat, glances: seq<Glance>, p: PendingEvent)
    requires |glances| == |pending|
    ensures p in Kept(pending, now, glances) <==>
      exists i | 0 <= i < |pending| :: pending[i] == p && StillWaits(p, now, glances[i])
    ensures Subsequence(Kept(pending, now, glances), pending)
    ensures |Kept(pending, now, glances)| <= |pending|
    decreases |pending|
  {
    hide FateOf, StillWaits, Subsequence;
    RemainsInOrder(pending, now, glances);
    if pending != [] {
      var n := |pending| - 1;
      RemainsExactly(pending[..n], now, glances[..n], p);
      KeepsExactly(pending[n], now, glances[n]);
      if p in Kept(pending[..n], now, glances[..n]) {
        var i :| 0 <= i < n && pending[..n][i] == p && StillWaits(p, now, glances[..n][i]);
        assert pending[i] == p && StillWaits(p, now, glances[i]);
      }
      if i :| 0 <= i < n && pending[i] == p && StillWaits(p, now, glances[i]) {
        assert pending[..n][i] == p && StillWaits(p, now, glances[..n][i]);
      }
    }
  }

  ghost predicate StillWaits(p: PendingEvent, now: nat, g: Glance) {
    now - p.firstSeen <= 500 && p.pid !in g.lookup
  }

  lemma KeepsExactly(p: PendingEvent, now: nat, g: Glance)
    ensures FateOf(p, now, g).Keeps? <==> StillWaits(p, now, g)
  {
    hide Resolve;
  }

  /**
   A buffered event is emitted by the first retry inside the window that finds its process
   registered, exactly when its record resolves on that launch's home to a path that is still
   that process's to write when the registrations are locked again.
   */
  lemma {:induction false} EmittedExactly(pending: seq<PendingEvent>, now: nat, glances: seq<Glance>, e: Emitted)
    requires |glances| == |pending|
    ensures e in Resolved(pending, now, glances) <==>
      exists i | 0 <= i < |pending| :: EmittedFor(pending[i], now, glances[i], e)
    decreases |pending|
  {
    hide FateOf, EmittedFor;
    if pending != [] {
      var n := |pending| - 1;
      EmittedExactly(pending[..n], now, glances[..n], e);
      EmitsExactly(pending[n], now, glances[n], e);
      if e in Resolved(pending[..n], now, glances[..n]) {
        var i :| 0 <= i < n && EmittedFor(pending[..n][i], now, glances[..n][i], e);
        assert EmittedFor(pending[i], now, glances[i], e);
      }
      if i :| 0 <= i < n && EmittedFor(pending[i], now, glances[i], e) {
        assert EmittedFor(pending[..n][i], now, glances[..n][i], e);
      }
    }
  }

  lemma EmitsExactly(p: PendingEvent, now: nat, g: Glance, e: Emitted)
    ensures FateOf(p, now, g) == Emits(e) <==> EmittedFor(p, now, g, e)
  {
    hide Resolve;
  }

  ghost predicate EmittedFor(p: PendingEvent, now: nat, g: Glance, e: Emitted) {
    && now - p.firstSeen <= 500 && p.pid in g.lookup
    && Resolve(g.machine, g.lookup[p.pid].home, p.info) == Some(e.path)
    && p.pid in g.recheck && g.recheck[p.pid].home <= e.path
    && e.id == p.id && e.mask == p.mask && e.pid == p.pid && e.txid == g.recheck[p.pid].txid
  }

  // ---- What one read makes of an event ----

  /** The process an event is put down to: the reported one, else the owner of that thread, cached or alive. */
  predicate IsOwner(pid: Pid, cache: map<Pid, Pid>, sc: Scene, owner: Pid, home: Path) {
    if pid in sc.direct then owner == pid && home == sc.direct[pid].home
    else
      && owner in sc.byThread && home == sc.byThread[owner].home
      && if pid in cache then owner == cache[pid] else pid in sc.live && owner == sc.live[pid]
  }

  ghost predicate EmittedBy(e: Decoder.Event, id: nat, cache: map<Pid, Pid>, sc: Scene, x: Emitted) {
    && e.info.Some?
    && (exists home ::
          IsOwner(e.pid, cache, sc, x.pid, home) && Resolve(sc.machine, home, e.info.value) == Some(x.path))
    && x.pid in sc.recheck && sc.recheck[x.pid].home <= x.path && sc.recheck[x.pid].txid == x.txid
    && x.id == id && x.mask == e.mask
  }

  /** Nobody registered, a name to wait with, somebody to wait for, and room. */
  ghost predicate BufferedBy(pending: seq<PendingEvent>, e: Decoder.Event, cache: map<Pid, Pid>, sc: Scene) {
    && e.info.Some? && e.pid !in sc.direct && sc.running != map[] && |pending| < 5000
    && (e.pid in cache ==> cache[e.pid] !in sc.byThread)
    && (e.pid !in cache && e.pid in sc.live ==> sc.live[e.pid] !in sc.byThread)
  }

  /** One event is emitted exactly for its owner and under its home, and buffered exactly when it has none. */
  lemma HandledExactly(pending: seq<PendingEvent>, e: Decoder.Event, id: nat, cache: map<Pid, Pid>, sc: Scene,
      x: Emitted)
    ensures var (after, emitted) := HandleEvent(pending, e, id, cache, sc);
      && (x in emitted <==> EmittedBy(e, id, cache, sc, x)) && |emitted| <= 1
      && (after == if BufferedBy(pending, e, cache, sc)
        then pending + [PendingEvent(id, e.mask, e.pid, e.info.value, sc.now)]
                   else pending)
      && (|pending| <= PENDING_MAX ==> |after| <= PENDING_MAX)
  {
    hide Resolve;
  }

  /** Over a whole read: what is emitted is emitted for exactly one of its events. */
  lemma {:induction false} ReadExactly(pending: seq<PendingEvent>, events: seq<Decoder.Event>, from: nat,
      cache: map<Pid, Pid>, scenes: seq<Scene>, x: Emitted)
    requires |scenes| == |events|
    ensures x in HandleEvents(pending, events, from, cache, scenes).1 <==>
      exists i | 0 <= i < |events| :: EmittedBy(events[i], from + i, cache, scenes[i], x)
    ensures |pending| <= PENDING_MAX ==> |HandleEvents(pending, events, from, cache, scenes).0| <= PENDING_MAX
    decreases |events|
  {
    hide HandleEvent, EmittedBy, BufferedBy;
    if events != [] {
      var n := |events| - 1;
      ReadExactly(pending, events[..n], from, cache, scenes[..n], x);
      HandledExactly(HandleEvents(pending, events[..n], from, cache, scenes[..n]).0, events[n], from + n, cache,
        scenes[n], x);
      assert forall i | 0 <= i < n :: events[..n][i] == events[i] && scenes[..n][i] == scenes[i];
    }
  }

  /** What is never sent on, by name: the texts are not ended by a slash, so `/device` goes too. */
  lemma ExcludedByName(p: Path)
    requires p != [] && Classifier.SlashFree(p)
    ensures IsExcluded(p) <==>
      || "proc" <= p[0] || "sys" <= p[0] || "dev" <= p[0]
      || (|p| >= 2 && p[0] == "run" && "user" <= p[1])
      || (|p| >= 3 && p[0] == "var" && p[1] == "lib" && "pkgundo" <= p[2])
  {
    hide IsExcluded, Classifier.Render;
    ExcludedByText(p);
    Classifier.TopText(p, "proc");
    Classifier.TopText(p, "sys");
    Classifier.TopText(p, "dev");
    Classifier.BehindText(p, "run", "user");
    Classifier.LibByName(p, "pkgundo");
    hide Classifier.SlashFree;
    ExcludedTexts();
  }

  lemma ExcludedByText(p: Path)
    ensures var s := Classifier.Render(p);
      IsExcluded(p) <==> "/proc" <= s || "/sys" <= s || "/dev" <= s || "/run/user" <= s || "/var/lib/pkgundo" <= s
  {
    hide Classifier.Render;
    var s := Classifier.Render(p);
    assert IsExcluded(p) <==>
      EXCLUDED[0] <= s || EXCLUDED[1] <= s || EXCLUDED[2] <= s || EXCLUDED[3] <= s || EXCLUDED[4] <= s;
  }

  lemma ExcludedTexts()
    ensures "/" + "proc" == "/proc" && "/" + "sys" == "/sys" && "/" + "dev" == "/dev"
    ensures "/" + "run" + "/" + "user" == "/run/user" && "/var/lib/" + "pkgundo" == "/var/lib/pkgundo"
  {
  }

  /** Everything emitted is sent on unless its path is excluded; nothing else is, and the order stays. */
  lemma {:induction false} ForwardedExactly(events: seq<Emitted>, e: Emitted)
    ensures e in Forwarded(events) <==> e in events && !IsExcluded(e.path)
    ensures Subsequence(Forwarded(events), events)
  {
    hide IsExcluded;
    if events != [] {
      var before, last := events[..|events| - 1], events[|events| - 1];
      assert events == before + [last];
      ForwardedExactly(before, e);
      var f := Forwarded(before);
      if IsExcluded(last.path) {
        assert Forwarded(events) == f;
      } else {
        assert Forwarded(events) == f + [last];
        assert (f + [last])[..|f|] == f;
      }
    }
  }
}
