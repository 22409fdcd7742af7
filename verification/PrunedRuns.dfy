/**
 Which directories a whole rollback leaves behind, said of the tree before, the tree after and the
 list alone.
 */
module PrunedRuns {
  import opened Paths
  import opened FileSystem
  import opened Archive
  import opened Review
  import opened Rollback
  import opened NoLoss
  import opened StepFrames
  import opened Pruning
  import opened Preview
  import B = Baseline

  /** A home is `/root` or a directory in `/home`. */
  lemma BelowHomeByName(p: Path)
    ensures BelowHome(p) <==> (|p| >= 2 && p[0] == "root") || (|p| >= 3 && p[0] == "home")
  {
    if p != [] && p[0] == "root" {
      assert ["root"] <= p;
    } else if |p| >= 2 && p[0] == "home" {
      assert p[..2] <= p;
    }
  }

  // ---- The loop, whatever fails ----

  lemma ArchivingLosesNothing(cfg: Config, d: Disk, p: Path, modified: bool)
    ensures forall x | x in d.tree :: x in ArchiveFile(cfg.root, cfg.txid, d, p, modified).disk.tree
  {
    hide Follow;
    if p in d.tree {
      var dest := ArchivePath(cfg.root, cfg.txid, p);
      assert dest != [];
      var r1 := MakeDirs(d, Parent(dest));
      var r2 := StoreContent(r1.disk, p, dest);
      assert forall x | x in d.tree :: x in r1.disk.tree && x in r2.disk.tree;
      if r1.ok && r2.ok && !d.tree[p].Dir? {
        RecordLosesNothing(r2.disk, cfg.txid, p, d.tree[p], dest, modified);
      }
    }
  }

  lemma RecordLosesNothing(d: Disk, txid: int, p: Path, n: Node, dest: Path, modified: bool)
    requires dest != [] && !n.Dir?
    ensures forall x | x in d.tree :: x in StoreRecord(d, txid, p, n, dest, modified).disk.tree
  {
    hide MetaOf, Follow, SidecarOf;
  }

  lemma RestoringLosesNothing(cfg: Config, d: Disk, p: Path)
    ensures forall x | x in d.tree :: x in RestoreBlob(cfg, d, p).disk.tree
  {
    hide Write, SetMode, ChangeOwner;
    if p in cfg.blobs {
      var b := cfg.blobs[p];
      var d1 := if p == [] then d else MakeDirs(d, Parent(p)).disk;
      var d2 := Write(d1, p, b.content).disk;
      WriteKeepsEntries(d1, p, b.content);
      MetadataLosesNothing(d2, p, b);
    }
  }

  lemma MetadataLosesNothing(d: Disk, p: Path, b: Blob)
    ensures forall x | x in d.tree :: x in ChangeOwner(SetMode(d, p, b.mode), p, b.uid, b.gid).tree
  {
    hide Follow;
  }

  /** Only the mutation's own path can go, and then it is reported removed or archived. */
  lemma StepLoses(cfg: Config, d: Disk, m: Mutation)
    ensures var v := Step(cfg, d, m);
      forall x | x in d.tree && x !in v.disk.tree ::
        x == m.path && (v.outcome.Removed? || v.outcome.Archived?) && !cfg.dryRun
  {
    hide ArchiveFile, RestoreBlob, Compare, GroupKey;
    var p := m.path;
    forall e: Disk ensures forall x | x in e.tree :: x in RestoreBlob(cfg, e, p).disk.tree {
      RestoringLosesNothing(cfg, e, p);
    }
    forall e: Disk, b: bool
      ensures forall x | x in e.tree :: x in ArchiveFile(cfg.root, cfg.txid, e, p, b).disk.tree
    {
      ArchivingLosesNothing(cfg, e, p, b);
    }
  }

  /** All that is gone after the loop is in the report. */
  lemma {:induction false} GoneIsReported(cfg: Config, d: Disk, rep: Report, ms: seq<Mutation>)
    ensures var r := RunAll(cfg, d, rep, ms);
      && Reported(rep) <= Reported(r.report)
      && (forall x | x in d.tree && x !in r.disk.tree :: x in Reported(r.report))
    decreases ms
  {
    hide Step, Note, Reported;
    if ms != [] {
      var v := Step(cfg, d, ms[0]);
      StepLoses(cfg, d, ms[0]);
      ReportedNote(rep, ms[0].path, v.outcome);
      GoneIsReported(cfg, v.disk, Note(rep, ms[0].path, v.outcome), ms[1..]);
    }
  }

  lemma {:induction false} GoneIsListed(cfg: Config, d: Disk, rep: Report, ms: seq<Mutation>)
    ensures forall x | x in d.tree && x !in RunAll(cfg, d, rep, ms).disk.tree ::
      !cfg.dryRun && exists i | 0 <= i < |ms| :: ms[i].path == x
    decreases ms
  {
    hide Step, Note;
    if ms != [] {
      var v := Step(cfg, d, ms[0]);
      StepLoses(cfg, d, ms[0]);
      GoneIsListed(cfg, v.disk, Note(rep, ms[0].path, v.outcome), ms[1..]);
      forall x | x in d.tree && x !in RunAll(cfg, d, rep, ms).disk.tree
        ensures exists i | 0 <= i < |ms| :: ms[i].path == x
      {
        if x in v.disk.tree {
          var i :| 0 <= i < |ms[1..]| && ms[1..][i].path == x;
          assert ms[i + 1].path == x;
        }
      }
    }
  }

  lemma {:induction false} RunStaysWellFormed(cfg: Config, d: Disk, rep: Report, ms: seq<Mutation>)
    requires WellFormed(d.tree) && Sealed(cfg, d.tree)
    ensures var d' := RunAll(cfg, d, rep, ms).disk;
      WellFormed(d'.tree) && Sealed(cfg, d'.tree) && (d.faults == [] ==> d'.faults == [])
    decreases ms
  {
    hide Step, Note, WellFormed, Sealed;
    if ms != [] {
      var v := Step(cfg, d, ms[0]);
      StepKeepsLinks(cfg, d, ms[0]);
      if d.faults == [] {
        B.StepFaultFree(cfg, d, ms[0]);
      }
      RunStaysWellFormed(cfg, v.disk, Note(rep, ms[0].path, v.outcome), ms[1..]);
    }
  }

  // ---- What a cleanup leaves behind ----

  lemma ChildOnTheWay(t: Tree, x: Path, q: Path)
    requires WellFormed(t) && q in t && x < q
    ensures var p := q[..|x| + 1]; p in t && p != [] && Parent(p) == x && x < p
  {
    var p := q[..|x| + 1];
    if p != q {
      assert p < q && DirAt(t, p);
    }
  }

  /**
   After a home cleanup with working calls no directory strictly below a home is left that the
   rollback emptied: what is empty afterwards was empty before.
   */
  lemma NothingEmptiedStays(cfg: Config, d: Disk, ms: seq<Mutation>, x: Path)
    requires cfg.homeCleanup && !cfg.dryRun && WellFormed(d.tree) && Sealed(cfg, d.tree) && d.faults == []
    requires (|x| >= 2 && x[0] == "root") || (|x| >= 3 && x[0] == "home")
    requires var t := Execute(cfg, d, ms).disk.tree; DirAt(t, x) && Childless(t, x)
    ensures Childless(d.tree, x)
    ensures forall m | m in ms && m.path in d.tree && m.path != [] :: Parent(m.path) != x
  {
    hide RunAll, HomeRootOf, BelowHome;
    var run := RunAll(cfg, d, EMPTY_REPORT, ms);
    RunStaysWellFormed(cfg, d, EMPTY_REPORT, ms);
    GoneIsReported(cfg, d, EMPTY_REPORT, ms);
    BelowHomeByName(x);
    forall q | q in d.tree && x < q ensures exists p :: p in d.tree && p != [] && Parent(p) == x {
      ChildOnTheWay(d.tree, x, q);
    }
    EmptyAfterwards(run.disk, run.report.removed + run.report.archived, x);
    forall m | m in ms && m.path in d.tree && m.path != [] ensures Parent(m.path) != x {
      assert Parent(m.path) < m.path;
    }
  }

  /**
   Whatever fails, an entry goes only as the path of a recorded mutation or as a directory strictly
   below a home, and the latter only in a home cleanup; a dry run takes nothing.
   */
  lemma OnlyListedOrPrunedGoes(cfg: Config, d: Disk, ms: seq<Mutation>, x: Path)
    requires WellFormed(d.tree) && Sealed(cfg, d.tree)
    requires x in d.tree && x !in Execute(cfg, d, ms).disk.tree
    ensures !cfg.dryRun
    ensures (exists i | 0 <= i < |ms| :: ms[i].path == x) ||
      (cfg.homeCleanup && ((|x| >= 2 && x[0] == "root") || (|x| >= 3 && x[0] == "home")))
  {
    hide RunAll, HomeRootOf, BelowHome;
    var run := RunAll(cfg, d, EMPTY_REPORT, ms);
    GoneIsListed(cfg, d, EMPTY_REPORT, ms);
    if x in run.disk.tree {
      RunStaysWellFormed(cfg, d, EMPTY_REPORT, ms);
      var starts := ParentsOf(run.report.removed + run.report.archived);
      PruneAllRemains(run.disk.tree, (set p | p in starts), run.disk, starts);
      BelowHomeByName(x);
    }
  }

  // ---- A tracked application's rollback, exactly ----

  predicate OnTheWay(cfg: Config, p: Path) {
    p <= Zone(cfg.root, cfg.txid) || Zone(cfg.root, cfg.txid) <= p
  }

  /** What holds from one disk to a later one: outside the archive nothing is new and no kind changes. */
  ghost predicate OnlyShrinks(cfg: Config, t: Tree, t': Tree) {
    && (forall p | p in t' && p !in t :: OnTheWay(cfg, p))
    && (forall p | p in t && p in t' && !OnTheWay(cfg, p) :: t'[p] == t[p])
  }

  lemma StepShrinks(cfg: Config, d: Disk, m: Mutation)
    requires TrackedApp(cfg) && WellFormed(d.tree) && Sealed(cfg, d.tree)
    ensures var v := Step(cfg, d, m);
      && OnlyShrinks(cfg, d.tree, v.disk.tree)
      && (v.outcome.Removed? || v.outcome.Archived? ==> m.path in d.tree)
      && (m.path in d.tree && m.path !in v.disk.tree ==> Acts(cfg, m))
      && (Acts(cfg, m) && m.path != [] && DirAt(d.tree, m.path) && Childless(d.tree, m.path) && d.faults == [] ==>
        m.path !in v.disk.tree)
  {
    hide ArchiveThenDiscard, WellFormed, Sealed, Compare, GroupKey, Zone;
    StepSweeps(cfg, d, m);
    if Acts(cfg, m) && m.path in d.tree {
      SweepShrinks(cfg, d, m.path);
    }
  }

  lemma SweepShrinks(cfg: Config, d: Disk, p: Path)
    requires WellFormed(d.tree) && Sealed(cfg, d.tree) && p in d.tree
    ensures var r := Sweep(cfg, d, p);
      && OnlyShrinks(cfg, d.tree, r.disk.tree)
      && (p != [] && DirAt(d.tree, p) && Childless(d.tree, p) && d.faults == [] ==> p !in r.disk.tree)
  {
    hide ArchiveFile, Discard, Zone, Sealed;
    if LeafAt(d.tree, p) {
      ArchivingShrinks(cfg, d, p);
      DiscardShrinks(cfg, ArchiveFile(cfg.root, cfg.txid, d, p, false).disk, p);
    } else {
      DiscardShrinks(cfg, d, p);
    }
  }

  lemma ArchivingShrinks(cfg: Config, d: Disk, p: Path)
    requires WellFormed(d.tree) && Sealed(cfg, d.tree) && LeafAt(d.tree, p)
    ensures OnlyShrinks(cfg, d.tree, ArchiveFile(cfg.root, cfg.txid, d, p, false).disk.tree)
  {
    hide ArchiveFile;
    LeafIsChildless(d.tree, p);
    ArchiveStaysInZone(cfg, d, p, false);
  }

  lemma DiscardShrinks(cfg: Config, d: Disk, p: Path)
    ensures var r := Discard(d, p);
      && OnlyShrinks(cfg, d.tree, r.disk.tree)
      && (p != [] && DirAt(d.tree, p) && Childless(d.tree, p) && d.faults == [] ==> p !in r.disk.tree)
  {
  }

  /** What the run has done by now, and what its report may hold. */
  ghost predicate Shrunk(cfg: Config, t0: Tree, t: Tree, rep: Report) {
    && WellFormed(t) && Sealed(cfg, t) && OnlyShrinks(cfg, t0, t)
    && (forall p | p in Reported(rep) :: p in t0 || OnTheWay(cfg, p))
  }

  lemma ShrunkStep(cfg: Config, t0: Tree, d: Disk, rep: Report, m: Mutation)
    requires TrackedApp(cfg) && Shrunk(cfg, t0, d.tree, rep)
    ensures var v := Step(cfg, d, m); Shrunk(cfg, t0, v.disk.tree, Note(rep, m.path, v.outcome))
  {
    hide Step, Note, Reported, OnTheWay, WellFormed, Sealed, TrackedApp;
    StepShrinks(cfg, d, m);
    StepKeepsLinks(cfg, d, m);
    ReportedNote(rep, m.path, Step(cfg, d, m).outcome);
  }

  lemma {:induction false} RunShrinks(cfg: Config, t0: Tree, d: Disk, rep: Report, ms: seq<Mutation>)
    requires TrackedApp(cfg) && Shrunk(cfg, t0, d.tree, rep)
    ensures var r := RunAll(cfg, d, rep, ms); Shrunk(cfg, t0, r.disk.tree, r.report)
    decreases ms
  {
    hide Step, Note, Shrunk, TrackedApp;
    if ms != [] {
      var v := Step(cfg, d, ms[0]);
      ShrunkStep(cfg, t0, d, rep, ms[0]);
      RunShrinks(cfg, t0, v.disk, Note(rep, ms[0].path, v.outcome), ms[1..]);
    }
  }

  /** Some mutation of the list acts on `p`. */
  ghost predicate ActedOn(cfg: Config, ms: seq<Mutation>, p: Path) {
    exists i | 0 <= i < |ms| :: ms[i].path == p && Acts(cfg, ms[i])
  }

  lemma ActedOnFirst(cfg: Config, ms: seq<Mutation>, p: Path)
    requires ms != []
    ensures ActedOn(cfg, ms, p) <==> (ms[0].path == p && Acts(cfg, ms[0])) || ActedOn(cfg, ms[1..], p)
  {
    hide Acts;
    if ActedOn(cfg, ms, p) {
      var i :| 0 <= i < |ms| && ms[i].path == p && Acts(cfg, ms[i]);
      assert i > 0 ==> ms[1..][i - 1] == ms[i];
    }
    if ActedOn(cfg, ms[1..], p) {
      var i :| 0 <= i < |ms[1..]| && ms[1..][i].path == p && Acts(cfg, ms[1..][i]);
      assert ms[i + 1] == ms[1..][i];
    }
  }

  /** The loop takes an empty directory exactly when some mutation acts on it. */
  lemma {:induction false} EmptyDirInTheLoop(cfg: Config, d: Disk, rep: Report, ms: seq<Mutation>, x: Path)
    requires TrackedApp(cfg) && WellFormed(d.tree) && Sealed(cfg, d.tree) && d.faults == []
    requires x != [] && DirAt(d.tree, x) && Childless(d.tree, x) && !OnTheWay(cfg, x)
    ensures x !in RunAll(cfg, d, rep, ms).disk.tree <==> ActedOn(cfg, ms, x)
    decreases ms
  {
    hide Step, Note, TrackedApp, ActedOn, Acts, WellFormed, Sealed;
    if ms != [] {
      var m := ms[0];
      var v := Step(cfg, d, m);
      ActedOnFirst(cfg, ms, x);
      StepShrinks(cfg, d, m);
      StepLoses(cfg, d, m);
      StepKeepsLinks(cfg, d, m);
      B.StepFaultFree(cfg, d, m);
      if x in v.disk.tree {
        StaysChildless(cfg, d.tree, v.disk.tree, x);
        EmptyDirInTheLoop(cfg, v.disk, Note(rep, m.path, v.outcome), ms[1..], x);
      } else {
        StaysGone(cfg, v.disk, Note(rep, m.path, v.outcome), ms[1..], x);
      }
    } else {
      NobodyActs(cfg, x);
    }
  }

  lemma NobodyActs(cfg: Config, x: Path)
    ensures !ActedOn(cfg, [], x)
  {
  }

  lemma StaysChildless(cfg: Config, t: Tree, t': Tree, x: Path)
    requires OnlyShrinks(cfg, t, t') && Childless(t, x) && !OnTheWay(cfg, x)
    ensures Childless(t', x)
  {
    var z := Zone(cfg.root, cfg.txid);
    forall q | q in t' ensures !(x < q) {
      if x < q && z <= q {
        PrefixesChain(x, z, q);
      }
    }
  }

  lemma StaysGone(cfg: Config, d: Disk, rep: Report, ms: seq<Mutation>, x: Path)
    requires TrackedApp(cfg) && WellFormed(d.tree) && Sealed(cfg, d.tree) && x !in d.tree && !OnTheWay(cfg, x)
    ensures x !in RunAll(cfg, d, rep, ms).disk.tree
  {
    var none := EMPTY_REPORT;
    assert Shrunk(cfg, d.tree, d.tree, none);
    RunShrinks(cfg, d.tree, d, none, ms);
    ReportsDoNotMatter(cfg, d, none, rep, ms);
  }

  lemma {:induction false} ReportsDoNotMatter(cfg: Config, d: Disk, a: Report, b: Report, ms: seq<Mutation>)
    ensures RunAll(cfg, d, a, ms).disk == RunAll(cfg, d, b, ms).disk
    decreases ms
  {
    hide Step, Note;
    if ms != [] {
      var v := Step(cfg, d, ms[0]);
      ReportsDoNotMatter(cfg, v.disk, Note(a, ms[0].path, v.outcome), Note(b, ms[0].path, v.outcome), ms[1..]);
    }
  }

  lemma RunHasShrunk(cfg: Config, d: Disk, ms: seq<Mutation>)
    requires TrackedApp(cfg) && WellFormed(d.tree) && Sealed(cfg, d.tree)
    ensures var r := RunAll(cfg, d, EMPTY_REPORT, ms); Shrunk(cfg, d.tree, r.disk.tree, r.report)
  {
    hide RunAll, TrackedApp;
    assert Shrunk(cfg, d.tree, d.tree, EMPTY_REPORT);
    RunShrinks(cfg, d.tree, d, EMPTY_REPORT, ms);
  }

  /** A directory that was empty is nobody's candidate. */
  lemma NoCandidate(cfg: Config, t0: Tree, t: Tree, rep: Report, x: Path)
    requires Shrunk(cfg, t0, t, rep) && Childless(t0, x) && !OnTheWay(cfg, x)
    ensures Childless(t, x) && x !in ParentsOf(rep.removed + rep.archived)
  {
    StaysChildless(cfg, t0, t, x);
    ParentsOfMembers(rep.removed + rep.archived, x);
    forall p: Path | p != [] && Parent(p) == x ensures p !in Reported(rep) {
      assert x < p;
      OffTheWayBelow(cfg, x, p);
    }
    assert forall p | p in rep.removed + rep.archived :: p in Reported(rep);
  }

  /** The whole rollback takes an empty directory exactly when some mutation acts on it. */
  lemma EmptyDirGoes(cfg: Config, d: Disk, ms: seq<Mutation>, x: Path)
    requires TrackedApp(cfg) && WellFormed(d.tree) && Sealed(cfg, d.tree) && d.faults == []
    requires x != [] && DirAt(d.tree, x) && Childless(d.tree, x) && !OnTheWay(cfg, x)
    ensures x !in Execute(cfg, d, ms).disk.tree <==> ActedOn(cfg, ms, x)
  {
    hide RunAll, ActedOn, OnTheWay, Shrunk, WellFormed, Sealed, HomeRootOf, ParentsOf;
    var run := RunAll(cfg, d, EMPTY_REPORT, ms);
    var starts := ParentsOf(run.report.removed + run.report.archived);
    EmptyDirInTheLoop(cfg, d, EMPTY_REPORT, ms, x);
    RunStaysWellFormed(cfg, d, EMPTY_REPORT, ms);
    RunHasShrunk(cfg, d, ms);
    NoCandidate(cfg, d.tree, run.disk.tree, run.report, x);
    PruneAllRemains(run.disk.tree, (set p | p in starts), run.disk, starts);
  }

  lemma ExecuteShrinks(cfg: Config, d: Disk, ms: seq<Mutation>)
    requires TrackedApp(cfg) && WellFormed(d.tree) && Sealed(cfg, d.tree)
    ensures var t := Execute(cfg, d, ms).disk.tree; WellFormed(t) && OnlyShrinks(cfg, d.tree, t)
  {
    hide RunAll, OnTheWay, WellFormed, Sealed, HomeRootOf, ParentsOf;
    var run := RunAll(cfg, d, EMPTY_REPORT, ms);
    var starts := ParentsOf(run.report.removed + run.report.archived);
    RunStaysWellFormed(cfg, d, EMPTY_REPORT, ms);
    RunHasShrunk(cfg, d, ms);
    PruneAllRemains(run.disk.tree, (set p | p in starts), run.disk, starts);
  }

  /** Nothing that stood in `x` is left, and every directory in it that was empty has been acted on. */
  ghost predicate Cleared(cfg: Config, t0: Tree, t: Tree, ms: seq<Mutation>, x: Path) {
    && (forall q | LeafAt(t0, q) && x <= q :: q !in t)
    && (forall q | DirAt(t0, q) && x <= q && Childless(t0, q) ::
          exists i | 0 <= i < |ms| :: ms[i].path == q && Acts(cfg, ms[i]))
  }

  /**
   In a tracked application's rollback with working calls a directory strictly below a home goes
   exactly when no file or link is left in it at any depth and every directory at or below it that
   was empty before is itself a path some mutation acts on, in whatever order the list comes.
   */
  lemma DirectoriesGoExactly(cfg: Config, d: Disk, ms: seq<Mutation>, x: Path)
    requires TrackedApp(cfg) && WellFormed(d.tree) && Sealed(cfg, d.tree) && d.faults == []
    requires DirAt(d.tree, x) && ((|x| >= 2 && x[0] == "root") || (|x| >= 3 && x[0] == "home"))
    requires !(x <= Zone(cfg.root, cfg.txid)) && !(Zone(cfg.root, cfg.txid) <= x)
    ensures x !in Execute(cfg, d, ms).disk.tree <==> Cleared(cfg, d.tree, Execute(cfg, d, ms).disk.tree, ms, x)
  {
    hide Execute, Sealed, HomeRootOf, Acts;
    var t := Execute(cfg, d, ms).disk.tree;
    ExecuteShrinks(cfg, d, ms);
    forall q | DirAt(d.tree, q) && x <= q && Childless(d.tree, q) ensures q !in t <==> ActedOn(cfg, ms, q) {
      OffTheWayBelow(cfg, x, q);
      EmptyDirGoes(cfg, d, ms, q);
    }
    if x in t {
      var y := Bottom(t, x);
      OffTheWayBelow(cfg, x, y);
      if DirAt(t, y) {
        NothingEmptiedStays(cfg, d, ms, y);
        assert DirAt(d.tree, y) && Childless(d.tree, y) && !ActedOn(cfg, ms, y);
      } else {
        assert LeafAt(d.tree, y);
      }
      assert !Cleared(cfg, d.tree, t, ms, x);
    } else {
      NothingBelow(t, x);
      assert Cleared(cfg, d.tree, t, ms, x);
    }
  }

  lemma NothingBelow(t: Tree, x: Path)
    requires WellFormed(t) && x !in t
    ensures forall q | x <= q :: q !in t
  {
    forall q | x <= q ensures q !in t {
      assert x == q || x < q;
      assert q in t && x < q ==> DirAt(t, x);
    }
  }

  lemma OffTheWayBelow(cfg: Config, x: Path, q: Path)
    requires !OnTheWay(cfg, x) && x <= q
    ensures !OnTheWay(cfg, q)
  {
    var z := Zone(cfg.root, cfg.txid);
    if z <= q {
      PrefixesChain(x, z, q);
    }
  }
}
