/**
 Tracking applications: one database row per name, one transaction per tracking, and the
 exec-watch entries that turn an execution of a binary into a launch.
 */
module TrackedApps {
  import opened Paths

  datatype AppStatus = Tracking | Untracked

  datatype TxStatus = TxRunning | TxTracking | TxUntracked

  datatype App = App(status: AppStatus, txid: int, paths: seq<Path>)

  datatype WatchedApp = WatchedApp(name: Name, txid: int)

  /** `apps` is unique on the name; `nextTxid` is the autoincrement counter. */
  datatype State = State(apps: map<Name, App>, transactions: map<int, TxStatus>, nextTxid: int,
                         watched: map<Path, WatchedApp>)

  const EMPTY: State := State(map[], map[], 1, map[])

  /** What the machine answers while a request runs. */
  datatype Answers = Answers(
    /** The binaries a name resolves to, if it does. */
    resolved: Option<seq<Path>>,
    /** How many of a request's database calls work before one fails. */
    calls: nat,
    /** How many marks can be set before one fails. */
    marks: nat,
    /** Where each path really is; a path that cannot be canonicalized stands for itself. */
    canonical: map<Path, Path>)

  function Canonical(a: Answers, p: Path): Path {
    if p in a.canonical then a.canonical[p] else p
  }

  // ---- Watching ----

  /** Mark and enter the paths one by one; the first failing mark ends it. */
  function Watch(watched: map<Path, WatchedApp>, name: Name, txid: int, paths: seq<Path>, a: Answers): map<Path,
      WatchedApp> {
    if paths == [] then watched
    else
      var before := Watch(watched, name, txid, paths[..|paths| - 1], a);
      if |paths| <= a.marks then before[Canonical(a, paths[|paths| - 1]) := WatchedApp(name, txid)] else before
  }

  function Unwatch(watched: map<Path, WatchedApp>, name: Name): map<Path, WatchedApp> {
    map p | p in watched && watched[p].name != name :: watched[p]
  }

  // ---- Requests ----

  /**
   Transaction, its status, a look for an old row, the row, and the row read back: a failure
   leaves what was written so far, the row included when only reading it back fails.
   */
  function TrackRows(s: State, name: Name, a: Answers): (State, bool) {
    if a.resolved.None? || a.calls < 1 then (s, false)
    else
      var txid := s.nextTxid;
      var s1 := s.(transactions := s.transactions[txid := TxRunning], nextTxid := txid + 1);
      if a.calls < 2 then (s1, false)
      else
        var s2 := s1.(transactions := s1.transactions[txid := TxTracking]);
        if a.calls < 4 then (s2, false)
        else (s2.(apps := s2.apps[name := App(Tracking, txid, a.resolved.value)]), a.calls >= 5)
  }

  /** The row, its transaction's status, then the row's own. */
  function UntrackRows(s: State, name: Name, a: Answers): (State, bool) {
    if a.calls < 2 || name !in s.apps || !s.apps[name].status.Tracking? then (s, false)
    else
      var app := s.apps[name];
      var s1 := s.(transactions := if app.txid in s.transactions
                                   then s.transactions[app.txid := TxUntracked] else s.transactions);
      if a.calls < 3 then (s1, false)
      else (s1.(apps := s1.apps[name := app.(status := Untracked)]), true)
  }

  datatype Request =
    | Track(name: Name, answers: Answers)
    | Untrack(name: Name, answers: Answers)
      /** A restart: marks are gone, and armed again for these rows in this order. */
    | Restart(order: seq<Name>, perApp: Name -> Answers)

  function Rearm(s: State, order: seq<Name>, answers: Name -> Answers): map<Path, WatchedApp> {
    if order == [] then map[]
    else
      var before := Rearm(s, order[..|order| - 1], answers);
      var name := order[|order| - 1];
      if name in s.apps && s.apps[name].status.Tracking?
      then Watch(before, name, s.apps[name].txid, s.apps[name].paths, answers(name)) else before
  }

  /** The database part of a request, and whether its watching is still to come. */
  function RowsDone(s: State, r: Request): (State, bool) {
    match r
    case Track(name, a) => TrackRows(s, name, a)
    case Untrack(name, a) => UntrackRows(s, name, a)
    case Restart(_, _) => (s, true)
  }

  /** The other part, under another lock. */
  function WatchDone(s: State, r: Request): State {
    match r
    case Track(name, a) =>
      if name in s.apps then s.(watched := Watch(s.watched, name, s.apps[name].txid, s.apps[name].paths, a)) else s
    case Untrack(name, a) => s.(watched := Unwatch(s.watched, name))
    case Restart(order, answers) => s.(watched := Rearm(s, order, answers))
  }

  function Handle(s: State, r: Request): State {
    var (s', ok) := RowsDone(s, r);
    if ok then WatchDone(s', r) else s'
  }

  function HandleAll(s: State, rs: seq<Request>): State {
    if rs == [] then s else Handle(HandleAll(s, rs[..|rs| - 1]), rs[|rs| - 1])
  }

  class Daemon {
    var apps: map<Name, App>
    var transactions: map<int, TxStatus>
    var nextTxid: int
    var watched: map<Path, WatchedApp>

    function Contents(): State
      reads this
    {
      State(apps, transactions, nextTxid, watched)
    }

    constructor ()
      ensures Contents() == EMPTY
    {
      apps, transactions, nextTxid, watched := map[], map[], 1, map[];
    }

    method WatchApp(name: Name, txid: int, paths: seq<Path>, a: Answers)
      modifies this`watched
      ensures watched == Watch(old(watched), name, txid, paths, a)
    {
      ghost var before := watched;
      assert paths[..|paths|] == paths;
      for i := 0 to |paths|
        invariant i <= a.marks
        invariant watched == Watch(before, name, txid, paths[..i], a)
      {
        assert paths[..i + 1][..i] == paths[..i];
        if i >= a.marks {
          MarksRunOut(before, name, txid, paths, a, i);
          return;
        }
        watched := watched[Canonical(a, paths[i]) := WatchedApp(name, txid)];
      }
    }

    method UnwatchApp(name: Name)
      modifies this`watched
      ensures watched == Unwatch(old(watched), name)
    {
      ghost var before := watched;
      var stale := set p | p in watched && watched[p].name == name;
      ghost var all := stale;
      while stale != {}
        invariant stale <= all
        invariant watched == before - (all - stale)
        decreases stale
      {
        var p :| p in stale;
        watched := watched - {p};
        stale := stale - {p};
        assert before - (all - stale) == (before - (all - stale - {p})) - {p};
      }
    }

    method TrackRequest(name: Name, a: Answers) returns (ok: bool)
      modifies this
      ensures ok == TrackRows(old(Contents()), name, a).1
      ensures Contents() == Handle(old(Contents()), Track(name, a))
    {
      if a.resolved.None? || a.calls < 1 {
        return false;
      }
      var txid := nextTxid;
      transactions, nextTxid := transactions[txid := TxRunning], nextTxid + 1;
      if a.calls < 2 {
        return false;
      }
      transactions := transactions[txid := TxTracking];
      if a.calls < 4 {
        return false;
      }
      apps := apps[name := App(Tracking, txid, a.resolved.value)];
      if a.calls < 5 {
        return false;
      }
      WatchApp(name, txid, a.resolved.value, a);
      return true;
    }

    method UntrackRequest(name: Name, a: Answers) returns (ok: bool)
      modifies this
      ensures ok == UntrackRows(old(Contents()), name, a).1
      ensures Contents() == Handle(old(Contents()), Untrack(name, a))
    {
      if a.calls < 1 || name !in apps || !apps[name].status.Tracking? || a.calls < 2 {
        return false;
      }
      var app := apps[name];
      if app.txid in transactions {
        transactions := transactions[app.txid := TxUntracked];
      }
      if a.calls < 3 {
        return false;
      }
      apps := apps[name := app.(status := Untracked)];
      UnwatchApp(name);
      return true;
    }

    method LoadFromDb(order: seq<Name>, answers: Name -> Answers)
      modifies this`watched
      ensures Contents() == Handle(old(Contents()), Restart(order, answers))
    {
      watched := map[];
      assert order[..|order|] == order;
      ghost var s := Contents();
      for i := 0 to |order|
        invariant watched == Rearm(s, order[..i], answers)
      {
        assert order[..i + 1][..i] == order[..i];
        var name := order[i];
        if name in apps && apps[name].status.Tracking? {
          WatchApp(name, apps[name].txid, apps[name].paths, answers(name));
        }
      }
      RearmIgnoresWatched(old(Contents()), s, order, answers);
    }
  }

  lemma {:induction false} RearmIgnoresWatched(s: State, t: State, order: seq<Name>, answers: Name -> Answers)
    requires s.apps == t.apps
    ensures Rearm(s, order, answers) == Rearm(t, order, answers)
  {
    if order != [] {
      RearmIgnoresWatched(s, t, order[..|order| - 1], answers);
    }
  }

  lemma {:induction false} MarksRunOut(watched: map<Path, WatchedApp>, name: Name, txid: int, paths: seq<Path>,
      a: Answers, i: nat)
    requires a.marks <= i <= |paths|
    ensures Watch(watched, name, txid, paths, a) == Watch(watched, name, txid, paths[..i], a)
    decreases |paths|
  {
    if i == |paths| {
      assert paths[..i] == paths;
    } else {
      assert paths[..|paths| - 1][..i] == paths[..i];
      MarksRunOut(watched, name, txid, paths[..|paths| - 1], a, i);
    }
  }

  // ---- What every request keeps ----

  /** No two rows share a transaction, and every transaction in use is older than the counter. */
  ghost predicate OwnTransactions(s: State) {
    && (forall t | t in s.transactions :: t < s.nextTxid)
    && (forall n | n in s.apps :: s.apps[n].txid in s.transactions)
    && (forall m, n | m in s.apps && n in s.apps && m != n :: s.apps[m].txid != s.apps[n].txid)
  }

  /** Every row that is tracking has a transaction that is. */
  ghost predicate OpenTransactions(s: State) {
    forall n | n in s.apps && s.apps[n].status.Tracking? ::
      s.apps[n].txid in s.transactions && s.transactions[s.apps[n].txid] == TxTracking
  }

  ghost predicate NamesTracked(s: State, w: WatchedApp) {
    w.name in s.apps && s.apps[w.name].status.Tracking? && w.txid in s.transactions
  }

  /** Every exec-watch entry names an application that is being tracked. */
  ghost predicate WatchesTracked(s: State) {
    forall p | p in s.watched :: NamesTracked(s, s.watched[p])
  }

  /** The same while the application `leaving` is untracked in its row but not yet in the entries. */
  ghost predicate WatchesKnown(s: State, leaving: Option<Name>) {
    forall p | p in s.watched :: var w := s.watched[p];
      w.txid in s.transactions && w.name in s.apps && (s.apps[w.name].status.Tracking? <==> leaving != Some(w.name))
  }

  ghost predicate Sound(s: State) {
    OwnTransactions(s) && OpenTransactions(s) && WatchesTracked(s)
  }

  lemma {:induction false} WatchAddsOnly(watched: map<Path, WatchedApp>, name: Name, txid: int, paths: seq<Path>,
      a: Answers)
    ensures var w := Watch(watched, name, txid, paths, a);
      forall p | p in w :: (p in watched && w[p] == watched[p]) || w[p] == WatchedApp(name, txid)
  {
    if paths != [] {
      WatchAddsOnly(watched, name, txid, paths[..|paths| - 1], a);
    }
  }

  /** Re-armed entries name tracked applications, and carry their current transactions. */
  lemma {:induction false} RearmWatchesTracked(s: State, order: seq<Name>, answers: Name -> Answers, p: Path)
    requires p in Rearm(s, order, answers)
    ensures var w := Rearm(s, order, answers);
      w[p].name in s.apps && s.apps[w[p].name].status.Tracking? && w[p].txid == s.apps[w[p].name].txid
  {
    var name := order[|order| - 1];
    var before := Rearm(s, order[..|order| - 1], answers);
    if p in before {
      RearmWatchesTracked(s, order[..|order| - 1], answers, p);
    }
    if name in s.apps && s.apps[name].status.Tracking? {
      WatchAddsOnly(before, name, s.apps[name].txid, s.apps[name].paths, answers(name));
    }
  }

  /** The only request that can break soundness: an untrack that closes the transaction and then fails. */
  predicate HalfUntracked(s: State, r: Request) {
    r.Untrack? && r.name in s.apps && s.apps[r.name].status.Tracking? && r.answers.calls == 2
  }

  lemma TransactionsStay(s: State, t: State)
    requires OwnTransactions(s) && t.apps == s.apps && t.nextTxid == s.nextTxid + 1
    requires t.transactions.Keys == s.transactions.Keys + {s.nextTxid}
    requires forall x | x in s.transactions :: t.transactions[x] == s.transactions[x]
    ensures OwnTransactions(t) && (OpenTransactions(s) ==> OpenTransactions(t))
    ensures t.watched == s.watched && WatchesTracked(s) ==> WatchesTracked(t)
  {
  }

  lemma NewRowKeeps(s: State, name: Name, txid: int, paths: seq<Path>)
    requires OwnTransactions(s) && WatchesTracked(s) && txid in s.transactions && s.transactions[txid] == TxTracking
    requires forall n | n in s.apps :: s.apps[n].txid != txid
    ensures var s' := s.(apps := s.apps[name := App(Tracking, txid, paths)]);
      && OwnTransactions(s') && WatchesTracked(s') && NamesTracked(s', WatchedApp(name, txid))
      && (OpenTransactions(s) ==> OpenTransactions(s'))
  {
    var s' := s.(apps := s.apps[name := App(Tracking, txid, paths)]);
    assert WatchesTracked(s');
  }

  lemma TrackRowsKeep(s: State, name: Name, a: Answers)
    requires OwnTransactions(s) && WatchesTracked(s)
    ensures var (s', ok) := TrackRows(s, name, a);
      && OwnTransactions(s') && WatchesTracked(s') && (OpenTransactions(s) ==> OpenTransactions(s'))
      && s'.watched == s.watched
      && (ok ==> name in s'.apps && NamesTracked(s', WatchedApp(name, s'.apps[name].txid)))
  {
    if a.resolved.Some? && a.calls >= 1 {
      var txid := s.nextTxid;
      var s1 := s.(transactions := s.transactions[txid := TxRunning], nextTxid := txid + 1);
      TransactionsStay(s, s1);
      if a.calls >= 2 {
        var s2 := s1.(transactions := s1.transactions[txid := TxTracking]);
        assert s2.transactions == s.transactions[txid := TxTracking];
        TransactionsStay(s, s2);
        if a.calls >= 4 {
          assert forall n | n in s.apps :: s.apps[n].txid < txid;
          NewRowKeeps(s2, name, txid, a.resolved.value);
        }
      }
    }
  }

  lemma TrackKeepsWatching(s: State, name: Name, a: Answers)
    requires OwnTransactions(s) && WatchesTracked(s)
    ensures var s' := Handle(s, Track(name, a));
      OwnTransactions(s') && WatchesTracked(s') && (OpenTransactions(s) ==> OpenTransactions(s'))
  {
    hide TrackRows, NamesTracked;
    TrackRowsKeep(s, name, a);
    var (s', ok) := TrackRows(s, name, a);
    if ok {
      WatchAddsOnly(s'.watched, name, s'.apps[name].txid, s'.apps[name].paths, a);
      EntriesStay(s', Handle(s, Track(name, a)).watched);
    }
  }

  lemma EntriesStay(s: State, watched: map<Path, WatchedApp>)
    requires forall p | p in watched :: NamesTracked(s, watched[p])
    ensures WatchesTracked(s.(watched := watched))
    ensures OwnTransactions(s.(watched := watched)) <==> OwnTransactions(s)
    ensures OpenTransactions(s.(watched := watched)) <==> OpenTransactions(s)
  {
  }

  lemma UntrackKeepsWatching(s: State, name: Name, a: Answers)
    requires OwnTransactions(s) && WatchesTracked(s)
    ensures var s' := Handle(s, Untrack(name, a)); OwnTransactions(s') && WatchesTracked(s')
    ensures OpenTransactions(s) ==>
      (OpenTransactions(Handle(s, Untrack(name, a))) <==> !HalfUntracked(s, Untrack(name, a)))
  {
    if HalfUntracked(s, Untrack(name, a)) {
      var s' := Handle(s, Untrack(name, a));
      assert s'.apps[name].status.Tracking? && s'.transactions[s'.apps[name].txid] == TxUntracked;
    }
  }

  lemma RestartKeepsWatching(s: State, order: seq<Name>, answers: Name -> Answers)
    requires OwnTransactions(s)
    ensures var s' := Handle(s, Restart(order, answers)); OwnTransactions(s') && WatchesTracked(s')
    ensures OpenTransactions(s) ==> OpenTransactions(Handle(s, Restart(order, answers)))
  {
    var s' := Handle(s, Restart(order, answers));
    forall p | p in s'.watched ensures NamesTracked(s', s'.watched[p]) {
      RearmWatchesTracked(s, order, answers, p);
    }
  }

  /**
   Whatever fails, a request keeps whose transactions and which entries there are; it keeps
   tracking rows on open transactions exactly when it is not a half-done untrack.
   */
  lemma HandleKeepsSound(s: State, r: Request)
    requires OwnTransactions(s) && WatchesTracked(s)
    ensures OwnTransactions(Handle(s, r)) && WatchesTracked(Handle(s, r))
    ensures Sound(s) ==> (Sound(Handle(s, r)) <==> !HalfUntracked(s, r))
  {
    hide Handle, OwnTransactions, OpenTransactions, WatchesTracked;
    match r {
      case Track(name, a) => TrackKeepsWatching(s, name, a);
      case Untrack(name, a) => UntrackKeepsWatching(s, name, a);
      case Restart(order, answers) => RestartKeepsWatching(s, order, answers);
    }
  }

  // ---- Between the rows and the entries ----

  /** What holds with the watching of `pending` still to come. */
  ghost predicate Midway(s: State, pending: Option<Request>) {
    && OwnTransactions(s)
    && WatchesKnown(s, if pending.Some? && pending.value.Untrack? then Some(pending.value.name) else None)
    && (pending.Some? && pending.value.Track? ==>
      pending.value.name in s.apps && s.apps[pending.value.name].status.Tracking?)
  }

  lemma RowsLeadMidway(s: State, r: Request)
    requires Midway(s, None) && !r.Restart?
    ensures var (s', ok) := RowsDone(s, r); Midway(s', if ok then Some(r) else None)
  {
    assert WatchesTracked(s);
    if r.Track? {
      hide TrackRows;
      TrackRowsKeep(s, r.name, r.answers);
    }
  }

  lemma WatchLeadsOut(s: State, r: Request)
    requires Midway(s, Some(r)) && !r.Restart?
    ensures Midway(WatchDone(s, r), None)
  {
    if r.Track? {
      WatchAddsOnly(s.watched, r.name, s.apps[r.name].txid, s.apps[r.name].paths, r.answers);
    }
  }

  lemma RestartLeadsOut(s: State, r: Request)
    requires Midway(s, None) && r.Restart?
    ensures Midway(Handle(s, r), None)
  {
    assert WatchesTracked(s);
    RestartKeepsWatching(s, r.order, r.perApp);
    assert WatchesTracked(Handle(s, r));
  }

  /** Whatever fails and however often the daemon restarts, short of a half-done untrack. */
  lemma {:induction false} AlwaysSound(rs: seq<Request>)
    requires forall i | 0 <= i < |rs| :: !HalfUntracked(HandleAll(EMPTY, rs[..i]), rs[i])
    ensures Sound(HandleAll(EMPTY, rs))
  {
    if rs != [] {
      var before := rs[..|rs| - 1];
      assert forall i | 0 <= i < |before| :: before[i] == rs[i] && before[..i] == rs[..i];
      AlwaysSound(before);
      HandleKeepsSound(HandleAll(EMPTY, before), rs[|rs| - 1]);
    }
  }

  /** Each successful track takes a transaction nobody ever had. */
  lemma TrackTakesFreshTransaction(s: State, name: Name, a: Answers)
    requires OwnTransactions(s) && TrackRows(s, name, a).1
    ensures var s' := Handle(s, Track(name, a));
      && s'.apps[name].txid !in s.transactions && s'.apps[name].status.Tracking?
      && forall n | n != name :: (n in s'.apps <==> n in s.apps) && (n in s.apps ==> s'.apps[n] == s.apps[n])
  {
  }

  /**
   A failed track leaves the rows of the applications alone, except when only reading the row back
   fails: then the name is tracking in the database while nothing of it is watched anew.
   */
  lemma FailedTrackIsHidden(s: State, name: Name, a: Answers)
    requires OwnTransactions(s) && a.resolved.Some? && !TrackRows(s, name, a).1
    ensures var s' := Handle(s, Track(name, a));
      s'.watched == s.watched && (s'.apps == s.apps <==> a.calls != 4)
  {
    if a.calls == 4 {
      var s' := Handle(s, Track(name, a));
      assert s'.apps[name].txid == s.nextTxid;
    }
  }

  /** What a track leaves after so many working database calls: two for the transaction, a look, the row. */
  lemma TrackLeaves(s: State, name: Name, a: Answers)
    ensures var s', begun := Handle(s, Track(name, a)), a.resolved.Some? && a.calls >= 1;
      && s'.nextTxid == s.nextTxid + (if begun then 1 else 0)
      && s'.transactions.Keys == s.transactions.Keys + (if begun then {s.nextTxid} else {})
      && (begun ==> s'.transactions[s.nextTxid] == if a.calls == 1 then TxRunning else TxTracking)
      && (forall t | t in s.transactions && t != s.nextTxid :: s'.transactions[t] == s.transactions[t])
      && (begun && a.calls >= 4 ==> s'.apps == s.apps[name := App(Tracking, s.nextTxid, a.resolved.value)])
      && (!begun || a.calls < 4 ==> s'.apps == s.apps)
      && (!begun || a.calls < 5 ==> s'.watched == s.watched)
    ensures TrackRows(s, name, a).1 <==> a.resolved.Some? && a.calls >= 5
  {
    hide Watch;
  }

  /** What an untrack leaves: the transaction closed by the second call, row and entries by the third. */
  lemma UntrackLeaves(s: State, name: Name, a: Answers)
    requires OwnTransactions(s)
    ensures var s', tracked := Handle(s, Untrack(name, a)), name in s.apps && s.apps[name].status == Tracking;
      && s'.nextTxid == s.nextTxid && s'.transactions.Keys == s.transactions.Keys && s'.apps.Keys == s.apps.Keys
      && (forall t | t in s.transactions :: s'.transactions[t] ==
            if tracked && a.calls >= 2 && t == s.apps[name].txid then TxUntracked else s.transactions[t])
      && (forall n | n in s.apps :: s'.apps[n] ==
            if tracked && a.calls >= 3 && n == name then App(Untracked, s.apps[n].txid, s.apps[n].paths) else s.apps[n])
      && (!tracked || a.calls < 3 ==> s'.watched == s.watched)
    ensures UntrackRows(s, name, a).1 <==> name in s.apps && s.apps[name].status == Tracking && a.calls >= 3
  {
    hide Unwatch;
  }

  // ---- Tracking again what is already tracked ----

  ghost predicate EntriesCarry(watched: map<Path, WatchedApp>, name: Name, txid: int) {
    forall p | p in watched && watched[p].name == name :: watched[p].txid == txid
  }

  function Keys(a: Answers, paths: seq<Path>): set<Path> {
    set i | 0 <= i < |paths| && i < a.marks :: Canonical(a, paths[i])
  }

  lemma {:induction false} WatchSets(watched: map<Path, WatchedApp>, name: Name, txid: int, paths: seq<Path>,
      a: Answers, p: Path)
    ensures var w := Watch(watched, name, txid, paths, a);
      if p in Keys(a, paths) then p in w && w[p] == WatchedApp(name, txid)
      else (p in w <==> p in watched) && (p in w ==> w[p] == watched[p])
  {
    if paths != [] {
      var n := |paths| - 1;
      WatchSets(watched, name, txid, paths[..n], a, p);
      KeysSplit(a, paths);
    }
  }

  lemma KeysSplit(a: Answers, paths: seq<Path>)
    requires paths != []
    ensures var n := |paths| - 1;
      Keys(a, paths) == Keys(a, paths[..n]) + if n < a.marks then {Canonical(a, paths[n])} else {}
  {
    var n := |paths| - 1;
    var before := Keys(a, paths[..n]);
    forall p ensures p in Keys(a, paths) <==> p in before || (n < a.marks && p == Canonical(a, paths[n])) {
      if p in Keys(a, paths) {
        var i :| 0 <= i < |paths| && i < a.marks && p == Canonical(a, paths[i]);
        assert i < n ==> paths[..n][i] == paths[i];
      }
      if p in before {
        var i :| 0 <= i < n && i < a.marks && p == Canonical(a, paths[..n][i]);
        assert paths[..n][i] == paths[i];
      }
    }
  }

  /**
   A launch is recorded under the transaction of its exec-watch entry. After tracking a name
   again, every entry of that name carries the new transaction exactly when every old entry's
   path is among the real paths marked now; the others still feed the abandoned transaction.
   */
  lemma RetrackMovesEntries(s: State, name: Name, a: Answers)
    requires Sound(s) && TrackRows(s, name, a).1
    ensures var s' := Handle(s, Track(name, a));
      EntriesCarry(s'.watched, name, s'.apps[name].txid) <==>
      forall r | r in s.watched && s.watched[r].name == name ::
        exists i | 0 <= i < |a.resolved.value| && i < a.marks ::
          var p := a.resolved.value[i]; r == if p in a.canonical then a.canonical[p] else p
  {
    var s' := Handle(s, Track(name, a));
    forall r ensures r in Keys(a, a.resolved.value) <==>
      exists i | 0 <= i < |a.resolved.value| && i < a.marks ::
        var p := a.resolved.value[i]; r == if p in a.canonical then a.canonical[p] else p
    {
      KeysAreReal(a, a.resolved.value, r);
    }
    forall p
      ensures p in Keys(a, a.resolved.value) ==> p in s'.watched && s'.watched[p] == WatchedApp(name, s.nextTxid)
    {
      WatchSets(s.watched, name, s.nextTxid, a.resolved.value, a, p);
    }
    forall p ensures p !in Keys(a, a.resolved.value) ==>
      (p in s'.watched <==> p in s.watched) && (p in s.watched ==> s'.watched[p] == s.watched[p])
    {
      WatchSets(s.watched, name, s.nextTxid, a.resolved.value, a, p);
    }
  }

  lemma KeysAreReal(a: Answers, paths: seq<Path>, r: Path)
    ensures r in Keys(a, paths) <==>
      exists i | 0 <= i < |paths| && i < a.marks ::
        r == if paths[i] in a.canonical then a.canonical[paths[i]] else paths[i]
  {
    if r in Keys(a, paths) {
      var i :| 0 <= i < |paths| && i < a.marks && r == Canonical(a, paths[i]);
      assert r == if paths[i] in a.canonical then a.canonical[paths[i]] else paths[i];
    }
    if i :| 0 <= i < |paths| && i < a.marks && r == (if paths[i] in a.canonical
                                                       then a.canonical[paths[i]] else paths[i]) {
      assert r == Canonical(a, paths[i]);
    }
  }

  /**
   A track enters exactly the real paths before its first failing mark, under the new transaction, and
   leaves every other entry alone; an untrack takes out exactly the entries of the name.
   */
  lemma TrackedAreWatched(s: State, name: Name, a: Answers, r: Path)
    ensures TrackRows(s, name, a).1 ==>
      var w, paths := Handle(s, Track(name, a)).watched, a.resolved.value;
      if exists i | 0 <= i < |paths| && i < a.marks ::
           r == if paths[i] in a.canonical then a.canonical[paths[i]] else paths[i]
      then r in w && w[r] == WatchedApp(name, s.nextTxid)
      else (r in w <==> r in s.watched) && (r in w ==> w[r] == s.watched[r])
    ensures UntrackRows(s, name, a).1 ==>
      var w := Handle(s, Untrack(name, a)).watched;
      (r in w <==> r in s.watched && s.watched[r].name != name) && (r in w ==> w[r] == s.watched[r])
  {
    hide Keys;
    if TrackRows(s, name, a).1 {
      var paths := a.resolved.value;
      WatchSets(s.watched, name, s.nextTxid, paths, a, r);
      KeysAreReal(a, paths, r);
    }
  }
}
