/**
 Rollback under any faults, then recovery without: the identity on files and links exactly when
 the list of mutations acts on each of them at most once.
 */
module FaultyRoundTrip {
  import opened Paths
  import opened Ordering
  import opened FileSystem
  import opened Archive
  import opened Review
  import opened Rollback
  import opened NoLoss
  import opened NeverDelete
  import opened Pruning
  import opened RoundTrip
  import opened ArchivePlaces
  import opened StepFrames
  import opened ArchiveKinds
  import opened Recovery
  import opened TornCopy

  /** A file or link with room for it in the archive. */
  ghost predicate CanBeArchived(cfg: Config, t: Tree, p: Path) {
    LeafAt(t, p) && p != [] && RoomFor(cfg, t, p)
  }

  /** No file or link that can be archived is acted on by two mutations of the list. */
  ghost predicate ActsOnce(cfg: Config, t: Tree, ms: seq<Mutation>) {
    forall i, j | 0 <= i < j < |ms| && Acts(cfg, ms[i]) && Acts(cfg, ms[j]) && ms[i].path == ms[j].path ::
      !CanBeArchived(cfg, t, ms[i].path)
  }

  /** With that fault script for the rollback, every order of rows brings every file and link back. */
  ghost predicate RoundTripsDespite(cfg: Config, d: Disk, ms: seq<Mutation>, faults: seq<Fault>) {
    var after := Faulty(Execute(cfg, Faulty(d, faults), ms).disk, []);
    forall rows | RowsOf(after, cfg.txid, rows) ::
      Leaves(RecoverRows(after, rows).disk.tree, Zone(cfg.root, cfg.txid)) ==
      Leaves(d.tree, Zone(cfg.root, cfg.txid))
  }

  // ---- Acting once is enough ----

  /** The state of the mutation loop, faults aside: rows belong to paths with room acted on before mutation `k`. */
  ghost predicate MidwayFaulty(cfg: Config, t0: Tree, ms: seq<Mutation>, k: nat, d: Disk) {
    && Between(cfg, t0, Faulty(d, [])) && Complete(cfg, t0, d)
    && forall p | (cfg.txid, p) in d.rows ::
      p != [] && Touched(cfg, t0, ms, p) && RoomFor(cfg, t0, p) && ActedBefore(cfg, ms, k, p)
  }

  ghost predicate ActedBefore(cfg: Config, ms: seq<Mutation>, k: nat, p: Path) {
    exists i | 0 <= i < |ms| && i < k :: ms[i].path == p && Acts(cfg, ms[i])
  }

  lemma NotActedBefore(cfg: Config, t0: Tree, ms: seq<Mutation>, k: nat)
    requires ActsOnce(cfg, t0, ms) && k < |ms| && Acts(cfg, ms[k]) && LeafAt(t0, ms[k].path)
    ensures !ActedBefore(cfg, ms, k, ms[k].path) || !CanBeArchived(cfg, t0, ms[k].path)
    ensures ActedBefore(cfg, ms, k + 1, ms[k].path)
  {
    hide CanBeArchived;
  }

  lemma ActedBeforeLater(cfg: Config, ms: seq<Mutation>, k: nat, p: Path)
    requires ActedBefore(cfg, ms, k, p)
    ensures ActedBefore(cfg, ms, k + 1, p)
  {
  }

  /** The rows after sweeping a leaf that has none yet, whatever fails. */
  lemma FaultySweepRows(cfg: Config, t0: Tree, ms: seq<Mutation>, d: Disk, q: Path)
    requires WellFormed(t0) && NoClash(cfg, t0, ms) && WellFormed(d.tree) && Sealed(cfg, d.tree)
    requires LeafAt(d.tree, q) && q != [] && !(Zone(cfg.root, cfg.txid) <= q)
    requires Touched(cfg, t0, ms, q) && d.tree[q] == t0[q] && (cfg.txid, q) !in d.rows
    requires forall p | (cfg.txid, p) in d.rows :: Touched(cfg, t0, ms, p) && p != [] && InArchive(cfg, d, p, t0[p])
    ensures var d' := Sweep(cfg, d, q).disk;
      && (forall p | (cfg.txid, p) in d'.rows :: Touched(cfg, t0, ms, p) && p != [] && InArchive(cfg, d', p, t0[p]))
      && (forall p | (cfg.txid, p) in d'.rows :: p == q || (cfg.txid, p) in d.rows)
      && (forall p | (cfg.txid, p) in d.rows :: (cfg.txid, p) in d'.rows)
      && (q !in d'.tree ==> (cfg.txid, q) in d'.rows)
      && ((cfg.txid, q) in d'.rows ==> RoomFor(cfg, d.tree, q))
  {
    hide ArchiveFile, Discard, OnlySlots, SidecarAt, NoClash, RoomFor;
    ArchiveFrame(cfg, d, q, false);
    var r := ArchiveFile(cfg.root, cfg.txid, d, q, false);
    RowMeansArchived(cfg, d, q, false);
    ArchiveStaysInZone(cfg, d, q, false);
    var d' := Sweep(cfg, d, q).disk;
    if r.ok {
      DiscardFrame(r.disk, q);
      ArchivedHadRoom(cfg, d, q, false);
    }
    forall p | (cfg.txid, p) in r.disk.rows ensures Touched(cfg, t0, ms, p) && p != [] && InArchive(cfg, d', p, t0[p]) {
      if p != q {
        assert (cfg.txid, p) in d.rows;
        ArchivedSurvives(cfg, t0, ms, d, q, p, false);
      }
      if r.ok {
        DiscardKeepsArchived(cfg, r.disk, q, p, t0[p]);
      }
    }
  }

  lemma RecordRow(cfg: Config, d: Disk, p: Path, n: Node, modified: bool)
    requires !n.Dir?
    ensures var dest := Dest(cfg, p); var r := StoreRecord(d, cfg.txid, p, n, dest, modified);
      r.disk.rows == if r.ok then d.rows[(cfg.txid, p) := Row(dest, modified)] else d.rows
  {
  }

  lemma ContentRows(d: Disk, p: Path, dest: Path)
    requires p in d.tree && dest != []
    ensures StoreContent(d, p, dest).disk.rows == d.rows
    ensures MakeDirs(d, Parent(dest)).disk.rows == d.rows && p in MakeDirs(d, Parent(dest)).disk.tree
  {
  }

  /** A row is the last thing an archiving writes: a new one means that all of it worked. */
  lemma RowMeansArchived(cfg: Config, d: Disk, p: Path, modified: bool)
    requires p != [] && LeafAt(d.tree, p) && (cfg.txid, p) !in d.rows
    ensures var r := ArchiveFile(cfg.root, cfg.txid, d, p, modified);
      (cfg.txid, p) in r.disk.rows <==> r.ok
  {
    hide StoreRecord, StoreContent, MakeDirs;
    var dest := Dest(cfg, p);
    var d1 := MakeDirs(d, Parent(dest)).disk;
    ContentRows(d, p, dest);
    ContentRows(d1, p, dest);
    RecordRow(cfg, StoreContent(d1, p, dest).disk, p, d.tree[p], modified);
  }

  lemma FaultyLeafStep(cfg: Config, t0: Tree, ms: seq<Mutation>, k: nat, d: Disk, q: Path)
    requires WellFormed(t0) && NoClash(cfg, t0, ms) && RootUsable(cfg, t0) && MidwayFaulty(cfg, t0, ms, k, d)
    requires LeafAt(d.tree, q) && q != [] && !(Zone(cfg.root, cfg.txid) <= q) && Touched(cfg, t0, ms, q)
    requires !ActedBefore(cfg, ms, k, q) || !CanBeArchived(cfg, t0, q)
    requires ActedBefore(cfg, ms, k + 1, q) && KeepsKindsIn(Zone(cfg.root, cfg.txid), t0, d.tree)
    ensures MidwayFaulty(cfg, t0, ms, k + 1, Sweep(cfg, d, q).disk)
  {
    hide Sweep, NoClash, InArchive, ActedBefore, RoomFor;
    if RoomFor(cfg, d.tree, q) {
      RoomWasThere(cfg, t0, d.tree, q);
    }
    assert (cfg.txid, q) !in d.rows;
    forall p | (cfg.txid, p) in d.rows ensures InArchive(cfg, d, p, t0[p]) {
      SameDiskInArchive(cfg, d, p, t0[p]);
    }
    FaultySweepRows(cfg, t0, ms, d, q);
    LeafSweepFrame(cfg, d, q);
    var d' := Sweep(cfg, d, q).disk;
    forall p | (cfg.txid, p) in d'.rows
      ensures InArchive(cfg, Faulty(d', []), p, t0[p]) && ActedBefore(cfg, ms, k + 1, p)
    {
      SameDiskInArchive(cfg, d', p, t0[p]);
      if p != q {
        ActedBeforeLater(cfg, ms, k, p);
      }
    }
    forall p | LeafAt(t0, p) && !(Zone(cfg.root, cfg.txid) <= p) && p in d'.tree ensures d'.tree[p] == t0[p] {
      if p !in d.tree && p <= Zone(cfg.root, cfg.txid) {
        assert false;
      }
    }
  }

  lemma SameDiskInArchive(cfg: Config, d: Disk, p: Path, n: Node)
    requires !n.Dir?
    ensures InArchive(cfg, Faulty(d, []), p, n) <==> InArchive(cfg, d, p, n)
  {
  }

  lemma FaultyDirStep(cfg: Config, t0: Tree, ms: seq<Mutation>, k: nat, d: Disk, q: Path)
    requires MidwayFaulty(cfg, t0, ms, k, d) && DirAt(d.tree, q)
    ensures MidwayFaulty(cfg, t0, ms, k + 1, Sweep(cfg, d, q).disk)
  {
    hide InArchive, ActedBefore, Touched;
    if q != [] {
      DiscardFrame(d, q);
    }
    var d' := Sweep(cfg, d, q).disk;
    forall p | (cfg.txid, p) in d'.rows
      ensures InArchive(cfg, Faulty(d', []), p, t0[p]) && ActedBefore(cfg, ms, k + 1, p)
    {
      DirRemovalKeepsArchive(cfg, Faulty(d, []), Faulty(d', []), q, p, t0[p]);
      ActedBeforeLater(cfg, ms, k, p);
    }
  }

  lemma FaultyStep(cfg: Config, t0: Tree, ms: seq<Mutation>, k: nat, d: Disk)
    requires TrackedApp(cfg) && WellFormed(t0) && NoClash(cfg, t0, ms) && OutsideZone(cfg, ms) && RootUsable(cfg, t0)
    requires ActsOnce(cfg, t0, ms) && k < |ms| && MidwayFaulty(cfg, t0, ms, k, d)
    requires KeepsKindsIn(Zone(cfg.root, cfg.txid), t0, d.tree)
    ensures MidwayFaulty(cfg, t0, ms, k + 1, Step(cfg, d, ms[k]).disk)
    ensures KeepsKindsIn(Zone(cfg.root, cfg.txid), t0, Step(cfg, d, ms[k]).disk.tree)
  {
    hide Step, NoClash, RootUsable, InArchive, ActsOnce, Acts, WellFormed, CanBeArchived, RoomFor, KeepsKindsIn;
    var m := ms[k];
    StepSweeps(cfg, d, m);
    StepKeepsKinds(cfg, d, m);
    KindsInTwice(Zone(cfg.root, cfg.txid), t0, d.tree, Step(cfg, d, m).disk.tree);
    if Acts(cfg, m) && LeafAt(d.tree, m.path) {
      assert LeafAt(t0, m.path);
      LeafIsChildless(t0, m.path);
      NotActedBefore(cfg, t0, ms, k);
      FaultyLeafStep(cfg, t0, ms, k, d, m.path);
    } else if Acts(cfg, m) && m.path in d.tree {
      FaultyDirStep(cfg, t0, ms, k, d, m.path);
    } else {
      forall p | (cfg.txid, p) in d.rows ensures ActedBefore(cfg, ms, k + 1, p) {
        ActedBeforeLater(cfg, ms, k, p);
      }
    }
  }

  lemma {:induction false} FaultyRun(cfg: Config, t0: Tree, ms: seq<Mutation>, d: Disk, rep: Report, k: nat)
    requires TrackedApp(cfg) && WellFormed(t0) && NoClash(cfg, t0, ms) && OutsideZone(cfg, ms) && RootUsable(cfg, t0)
    requires ActsOnce(cfg, t0, ms) && k <= |ms| && MidwayFaulty(cfg, t0, ms, k, d)
    requires KeepsKindsIn(Zone(cfg.root, cfg.txid), t0, d.tree)
    ensures MidwayFaulty(cfg, t0, ms, |ms|, RunAll(cfg, d, rep, ms[k..]).disk)
    decreases |ms| - k
  {
    hide Step, NoClash, RootUsable, MidwayFaulty, ActsOnce, WellFormed, OutsideZone, TrackedApp, KeepsKindsIn;
    if k < |ms| {
      var m := ms[k];
      assert ms[k..][0] == m && ms[k..][1..] == ms[k + 1..];
      var v := Step(cfg, d, m);
      FaultyStep(cfg, t0, ms, k, d);
      FaultyRun(cfg, t0, ms, v.disk, Note(rep, m.path, v.outcome), k + 1);
    }
  }

  /** Pruning, too, may fail anywhere. */
  lemma FaultyPruning(cfg: Config, t0: Tree, ms: seq<Mutation>, d: Disk, starts: seq<Path>)
    requires MidwayFaulty(cfg, t0, ms, |ms|, d)
    ensures MidwayFaulty(cfg, t0, ms, |ms|, PruneAll(d, starts))
  {
    hide PruneAll, ActedBefore, Touched;
    PruneAllRemains(d.tree, (set p | p in starts), d, starts);
    var d' := PruneAll(d, starts);
    forall x | x in d.tree && x !in d'.tree ensures d.tree[x].Dir? {
      assert Doomed(d.tree, (set p | p in starts), x);
    }
    forall p | (cfg.txid, p) in d'.rows ensures InArchive(cfg, Faulty(d', []), p, t0[p]) {
      assert InArchive(cfg, Faulty(d, []), p, t0[p]);
    }
  }

  lemma FaultyStart(cfg: Config, d: Disk, ms: seq<Mutation>, faults: seq<Fault>)
    requires FreshStart(cfg, d)
    ensures MidwayFaulty(cfg, d.tree, ms, 0, Faulty(d, faults))
  {
  }

  /**
   Whatever fails and wherever: acting once on each file and link, rollback loses nothing recovery
   cannot give back.
   */
  lemma ActingOnceSurvivesFaults(cfg: Config, d: Disk, ms: seq<Mutation>, faults: seq<Fault>)
    requires TrackedApp(cfg) && FreshStart(cfg, d) && OutsideZone(cfg, ms) && NoClash(cfg, d.tree, ms)
    requires ActsOnce(cfg, d.tree, ms)
    ensures RoundTripsDespite(cfg, d, ms, faults)
  {
    hide ActsOnce, NoClash, RunAll, Step, Leaves, RecoverRows;
    var start := Faulty(d, faults);
    assert ms[0..] == ms;
    FaultyStart(cfg, d, ms, faults);
    FaultyRun(cfg, d.tree, ms, start, EMPTY_REPORT, 0);
    var run := RunAll(cfg, start, EMPTY_REPORT, ms);
    FaultyPruning(cfg, d.tree, ms, run.disk, ParentsOf(run.report.removed + run.report.archived));
    var after := Faulty(Execute(cfg, start, ms).disk, []);
    assert Between(cfg, d.tree, after) && Complete(cfg, d.tree, after);
    forall rows | RowsOf(after, cfg.txid, rows)
      ensures Leaves(RecoverRows(after, rows).disk.tree, Zone(cfg.root, cfg.txid)) ==
        Leaves(d.tree, Zone(cfg.root, cfg.txid))
    {
      BetweenRecovers(cfg, d.tree, after, rows);
    }
  }

  // ---- Acting twice is too much ----

  /** A spoiled archive stays spoiled when directories below homes are pruned. */
  lemma PruningKeepsSpoiled(cfg: Config, d: Disk, starts: seq<Path>, p: Path, n: Node)
    requires Spoiled(cfg, d, p, n)
    ensures Spoiled(cfg, PruneAll(d, starts), p, n)
  {
    hide PruneAll;
    PruneAllRemains(d.tree, (set x | x in starts), d, starts);
    var dest := Dest(cfg, p);
    assert LeafAt(d.tree, p) && LeafAt(d.tree, SidecarOf(dest)) && (n.File? ==> LeafAt(d.tree, dest));
    assert forall x | Doomed(d.tree, (set x | x in starts), x) :: x in d.tree && d.tree[x].Dir?;
  }

  /** The only row of a spoiled path does not give it back. */
  lemma SpoiledIsLost(cfg: Config, t0: Tree, after: Disk, p: Path, rows: seq<(Path, Path)>)
    requires p in t0 && Spoiled(cfg, after, p, t0[p]) && after.faults == []
    requires forall q | (cfg.txid, q) in after.rows :: q == p
    requires RowsOf(after, cfg.txid, rows)
    ensures var z := Zone(cfg.root, cfg.txid); Leaves(RecoverRows(after, rows).disk.tree, z) != Leaves(t0, z)
  {
    hide RecoverRow;
    var dest, z := Dest(cfg, p), Zone(cfg.root, cfg.txid);
    assert (p, dest) in rows;
    assert forall i | 0 <= i < |rows| :: rows[i] == (p, dest) by {
      forall i | 0 <= i < |rows| ensures rows[i] == (p, dest) {
        assert (cfg.txid, rows[i].0) in after.rows;
      }
    }
    assert |rows| > 1 ==> rows[0].0 == rows[1].0;
    assert |rows| == 1 && rows[1..] == [];
    RecoveryOverwritesIntact(cfg, after, p, t0[p]);
    var r, t := RecoverRow(after, dest, p).disk, RecoverRows(after, rows).disk.tree;
    assert RecoverRows(r, rows[1..]).disk == r;
    assert t == r.tree;
    assert p in Leaves(t0, z) && Leaves(t0, z)[p] == t0[p];
  }

  /** The part of a script that archives `p` and then fails to remove it. */
  const KEEPING: seq<Fault> := [Works, Works, Works, Works, Breaks(0, None)]

  /** First a list, then one mutation that sweeps `p`, then another list. */
  lemma RunThrough(cfg: Config, d: Disk, rep: Report, a: seq<Mutation>, m: Mutation, b: seq<Mutation>, mid: Disk,
      next: Disk)
    returns (rep': Report)
    requires TrackedApp(cfg) && Acts(cfg, m) && RunAll(cfg, d, rep, a).disk == mid
    requires Sweep(cfg, mid, m.path).disk == next
    ensures RunAll(cfg, d, rep, a + ([m] + b)).disk == RunAll(cfg, next, rep', b).disk
  {
    hide Step, Sweep;
    RunSplit(cfg, d, rep, a, [m] + b);
    StepSweeps(cfg, mid, m);
    assert ([m] + b)[0] == m && ([m] + b)[1..] == b;
    rep' := Note(RunAll(cfg, d, rep, a).report, m.path, Step(cfg, mid, m).outcome);
  }

  /** The disk on which `p` is archived and in place, and the one on which its archive is torn. */
  function KeptDisk(cfg: Config, d: Disk, p: Path): Disk
    requires LeafAt(d.tree, p)
  {
    Disk(ArchivedTree(cfg, d.tree, p), d.rows[(cfg.txid, p) := Row(Dest(cfg, p), false)], [])
  }

  lemma KeptIsInPlace(cfg: Config, d: Disk, p: Path, rest: seq<Fault>)
    requires p != [] && WellFormed(d.tree) && Sealed(cfg, d.tree) && RoomFor(cfg, d.tree, p)
    requires LeafAt(d.tree, p) && !(Zone(cfg.root, cfg.txid) <= p)
    ensures Sweep(cfg, Faulty(d, KEEPING + rest), p).disk == Faulty(KeptDisk(cfg, d, p), rest)
    ensures ArchivedInPlace(cfg, Faulty(KeptDisk(cfg, d, p), rest), p) && KeptDisk(cfg, d, p).tree[p] == d.tree[p]
  {
    ArchiveAndStay(cfg, Faulty(d, KEEPING + rest), p, rest);
  }

  lemma TearKept(cfg: Config, d: Disk, p: Path, rest: seq<Fault>)
    requires ArchivedInPlace(cfg, d, p)
    ensures Sweep(cfg, Faulty(d, TearingScript(d.tree[p]) + rest), p).disk ==
      Faulty(Disk(TornTree(cfg, d.tree, p), d.rows, []), rest)
    ensures Spoiled(cfg, Faulty(Disk(TornTree(cfg, d.tree, p), d.rows, []), rest), p, d.tree[p])
  {
    var d' := Faulty(d, TearingScript(d.tree[p]) + rest);
    assert ArchivedInPlace(cfg, d', p);
    TearingSpoils(cfg, d', p, rest);
  }

  /**
   Acted on at `i` and again at `j`: everything else idles, the first archiving works and its
   removal fails, the second archiving tears. The loop ends with a spoiled archive.
   */
  lemma SpoilingScript(cfg: Config, d: Disk, ms: seq<Mutation>, i: nat, j: nat) returns (faults: seq<Fault>, end: Disk)
    requires TrackedApp(cfg) && WellFormed(d.tree) && Sealed(cfg, d.tree)
    requires i < j < |ms| && Acts(cfg, ms[i]) && Acts(cfg, ms[j])
    requires ms[i].path == ms[j].path
    requires CanBeArchived(cfg, d.tree, ms[i].path) && !(Zone(cfg.root, cfg.txid) <= ms[i].path)
    ensures var p := ms[i].path;
      && RunAll(cfg, Faulty(d, faults), EMPTY_REPORT, ms).disk == end && end.faults == []
      && Spoiled(cfg, end, p, d.tree[p]) && end.rows == d.rows[(cfg.txid, p) := Row(Dest(cfg, p), false)]
  {
    hide RunAll, Sweep, TrackedApp, Acts, ArchivedInPlace, Spoiled, RoomFor, ArchivedTree, TornTree;
    hide TearingScript, WellFormed;
    var p, n := ms[i].path, d.tree[ms[i].path];
    var a, b, c := ms[..i], ms[i + 1..j], ms[j + 1..];
    assert ms == a + ([ms[i]] + (b + ([ms[j]] + c)));
    var kept := KeptDisk(cfg, d, p);
    KeptIsInPlace(cfg, d, p, []);
    assert Faulty(kept, []) == kept;
    var torn := Disk(TornTree(cfg, kept.tree, p), kept.rows, []);
    TearKept(cfg, kept, p, []);
    assert Faulty(torn, []) == torn;
    WellFormedOnes(cfg, kept, torn, p, n);
    var g3 := IdleRun(cfg, torn, c, []);
    assert g3 + [] == g3;
    var s2 := TearingScript(n) + g3;
    var g2 := IdleRun(cfg, kept, b, s2);
    var s1 := KEEPING + (g2 + s2);
    var g1 := IdleRun(cfg, d, a, s1);
    faults, end := g1 + s1, torn;
    KeptIsInPlace(cfg, d, p, g2 + s2);
    TearKept(cfg, kept, p, g3);
    var rep1 := RunThrough(cfg, Faulty(d, faults), EMPTY_REPORT, a, ms[i], b + ([ms[j]] + c), Faulty(d, s1),
      Faulty(kept, g2 + s2));
    var rep2 := RunThrough(cfg, Faulty(kept, g2 + s2), rep1, b, ms[j], c, Faulty(kept, s2), Faulty(torn, g3));
  }

  lemma WellFormedOnes(cfg: Config, kept: Disk, torn: Disk, p: Path, n: Node)
    requires ArchivedInPlace(cfg, kept, p) && Spoiled(cfg, torn, p, n)
    ensures WellFormed(kept.tree) && WellFormed(torn.tree)
  {
  }

  lemma LosingScript(cfg: Config, d: Disk, ms: seq<Mutation>, i: nat, j: nat) returns (faults: seq<Fault>)
    requires TrackedApp(cfg) && FreshStart(cfg, d) && OutsideZone(cfg, ms)
    requires i < j < |ms| && Acts(cfg, ms[i]) && Acts(cfg, ms[j])
    requires ms[i].path == ms[j].path && CanBeArchived(cfg, d.tree, ms[i].path)
    ensures !RoundTripsDespite(cfg, d, ms, faults)
  {
    hide RunAll, RootUsable, RoomFor, Leaves, RecoverRows, SidecarAt, PruneAll;
    var p, n := ms[i].path, d.tree[ms[i].path];
    var end;
    faults, end := SpoilingScript(cfg, d, ms, i, j);
    var run := RunAll(cfg, Faulty(d, faults), EMPTY_REPORT, ms);
    var starts := ParentsOf(run.report.removed + run.report.archived);
    PruneAllRows(end, starts);
    PruningKeepsSpoiled(cfg, end, starts, p, n);
    var after := Faulty(Execute(cfg, Faulty(d, faults), ms).disk, []);
    assert after == PruneAll(end, starts);
    var rows := SomeRows(after, cfg.txid);
    SpoiledIsLost(cfg, d.tree, after, p, rows);
  }

  lemma PruneAllRows(d: Disk, starts: seq<Path>)
    requires WellFormed(d.tree) && d.faults == []
    ensures PruneAll(d, starts).rows == d.rows && PruneAll(d, starts).faults == []
  {
    PruneAllRemains(d.tree, (set x | x in starts), d, starts);
  }

  /**
   Rollback under an arbitrary fault script, then a recovery whose calls work, gives back every
   file and link for every script exactly when none that can be archived is acted on twice.
   */
  lemma SurvivesFaultsExactly(cfg: Config, d: Disk, ms: seq<Mutation>)
    requires TrackedApp(cfg) && FreshStart(cfg, d) && OutsideZone(cfg, ms)
    requires NoClash(cfg, d.tree, ms)
    ensures (forall faults :: RoundTripsDespite(cfg, d, ms, faults)) <==> ActsOnce(cfg, d.tree, ms)
  {
    hide RoundTripsDespite, NoClash, FreshStart, Acts, CanBeArchived;
    if ActsOnce(cfg, d.tree, ms) {
      forall faults ensures RoundTripsDespite(cfg, d, ms, faults) {
        ActingOnceSurvivesFaults(cfg, d, ms, faults);
      }
    } else {
      var i, j :| 0 <= i < j < |ms| && Acts(cfg, ms[i]) && Acts(cfg, ms[j]) && ms[i].path == ms[j].path
        && CanBeArchived(cfg, d.tree, ms[i].path);
      var faults := LosingScript(cfg, d, ms, i, j);
    }
  }
}
