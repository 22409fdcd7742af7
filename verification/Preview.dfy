/** A dry run changes nothing and reports the paths the real run will remove or archive. */
module Preview {
  import opened Paths
  import opened FileSystem
  import opened Archive
  import opened Review
  import opened Rollback
  import opened NoLoss
  import opened RoundTrip
  import opened ArchivePlaces
  import opened ArchiveKinds
  import C = Classifier

  function Reported(rep: Report): set<Path> {
    (set p | p in rep.removed) + (set p | p in rep.archived)
  }

  /** The existing paths some mutation acts on. */
  function Targets(cfg: Config, t: Tree, ms: seq<Mutation>): set<Path> {
    set i | 0 <= i < |ms| && Acts(cfg, ms[i]) && ms[i].path in t :: ms[i].path
  }

  predicate Cleanup(cfg: Config) {
    cfg.homeCleanup && cfg.pre == map[] && cfg.blobs == map[]
  }

  lemma ReportedNote(rep: Report, p: Path, o: Outcome)
    ensures Reported(Note(rep, p, o)) == Reported(rep) + if o.Removed? || o.Archived? then {p} else {}
  {
    var rep' := Note(rep, p, o);
    forall x ensures x in Reported(rep') <==> x in Reported(rep) || (x == p && (o.Removed? || o.Archived?)) {
    }
  }

  lemma TargetsSplit(cfg: Config, t: Tree, ms: seq<Mutation>)
    requires ms != []
    ensures Targets(cfg, t, ms) ==
      Targets(cfg, t, ms[1..]) + if Acts(cfg, ms[0]) && ms[0].path in t then {ms[0].path} else {}
  {
    var s := Targets(cfg, t, ms);
    forall x | x in Targets(cfg, t, ms[1..]) ensures x in s {
      var i :| 0 <= i < |ms[1..]| && Acts(cfg, ms[1..][i]) && ms[1..][i].path in t && ms[1..][i].path == x;
      assert ms[i + 1] == ms[1..][i];
    }
    forall x | x in s ensures x in Targets(cfg, t, ms[1..]) || (Acts(cfg, ms[0]) && x == ms[0].path) {
      var i :| 0 <= i < |ms| && Acts(cfg, ms[i]) && ms[i].path in t && ms[i].path == x;
      if i > 0 {
        assert ms[1..][i - 1] == ms[i];
      }
    }
  }

  // ---- The dry run ----

  lemma {:induction false} DryRunReports(cfg: Config, d: Disk, rep: Report, ms: seq<Mutation>)
    requires Cleanup(cfg) && cfg.dryRun
    ensures var r := RunAll(cfg, d, rep, ms);
      r.disk == d && Reported(r.report) == Reported(rep) + Targets(cfg, d.tree, ms)
    decreases ms
  {
    if ms != [] {
      var v := Step(cfg, d, ms[0]);
      assert v.disk == d;
      ReportedNote(rep, ms[0].path, v.outcome);
      TargetsSplit(cfg, d.tree, ms);
      DryRunReports(cfg, d, Note(rep, ms[0].path, v.outcome), ms[1..]);
    }
  }

  // ---- The real run ----

  lemma RealOutcome(cfg: Config, t0: Tree, all: seq<Mutation>, d: Disk, m: Mutation)
    requires TrackedApp(cfg) && WellFormed(t0) && NoNesting(cfg, t0, all)
    requires WayOpen(cfg, t0, all) && RootUsable(cfg, t0)
    requires InProgress(cfg, t0, all, d) && OutsideZone(cfg, all)
    requires !(Zone(cfg.root, cfg.txid) <= m.path) && m.path != []
    requires m.path in d.tree && LeafAt(d.tree, m.path) && Acts(cfg, m) ==> Touched(cfg, t0, all, m.path)
    ensures var o := Step(cfg, d, m).outcome;
      if Acts(cfg, m) && m.path in d.tree then o.Removed? || o.Archived? else o.Skipped?
  {
    if Acts(cfg, m) && LeafAt(d.tree, m.path) {
      ExplainedAfterArchive(cfg, t0, all, d, m.path);
      ArchivingSameOrGone(cfg, t0, d, m.path);
      assert Sweep(cfg, d, m.path).ok;
    }
  }

  /** No mutation of the archive, of the way to it, or of "/". */
  ghost predicate Disjoint(cfg: Config, ms: seq<Mutation>) {
    forall i | 0 <= i < |ms| ::
      var p := ms[i].path; var z := Zone(cfg.root, cfg.txid); p != [] && !(z <= p) && !(p <= z)
  }

  /** Nothing but the way to the archive is new, and all that is gone is in the report. */
  ghost predicate Accounted(cfg: Config, t0: Tree, d: Disk, rep: Report) {
    && (forall p | p in d.tree && p !in t0 :: p <= Zone(cfg.root, cfg.txid) || Zone(cfg.root, cfg.txid) <= p)
    && (forall p | p in t0 && p !in d.tree :: p in Reported(rep))
  }

  lemma AccountedStep(cfg: Config, t0: Tree, d: Disk, rep: Report, q: Path, rep': Report)
    requires WellFormed(d.tree) && Sealed(cfg, d.tree) && q != [] && Accounted(cfg, t0, d, rep)
    requires Reported(rep') == Reported(rep) + {q}
    ensures Accounted(cfg, t0, Sweep(cfg, d, q).disk, rep')
  {
    if q in d.tree {
      var r := if LeafAt(d.tree, q) then ArchiveFile(cfg.root, cfg.txid, d, q, false) else Result(d, true);
      ArchiveFrame(cfg, d, q, false);
      ArchiveStaysInZone(cfg, d, q, false);
      ArchiveKeepsEntries(cfg, d, q);
      DiscardFrame(r.disk, q);
      assert forall p | p in d.tree :: p in r.disk.tree;
      assert forall p | p in Sweep(cfg, d, q).disk.tree :: p in r.disk.tree;
    }
  }

  lemma RealStep(cfg: Config, t0: Tree, all: seq<Mutation>, d: Disk, rep: Report, m: Mutation)
    requires TrackedApp(cfg) && WellFormed(t0) && NoNesting(cfg, t0, all)
    requires WayOpen(cfg, t0, all) && RootUsable(cfg, t0)
    requires Disjoint(cfg, all) && m in all && InProgress(cfg, t0, all, d) && Accounted(cfg, t0, d, rep)
    ensures var v := Step(cfg, d, m); var rep' := Note(rep, m.path, v.outcome);
      && InProgress(cfg, t0, all, v.disk) && Accounted(cfg, t0, v.disk, rep')
      && Reported(rep') == Reported(rep) + if Acts(cfg, m) && m.path in t0 then {m.path} else {}
  {
    hide NoNesting, WayOpen, RootUsable, WellFormed, Sweep, Step, Note, Reported, ArchiveExplained, Stored;
    assert OutsideZone(cfg, all);
    StepSweeps(cfg, d, m);
    var v := Step(cfg, d, m);
    var rep' := Note(rep, m.path, v.outcome);
    RealOutcome(cfg, t0, all, d, m);
    ReportedNote(rep, m.path, v.outcome);
    if Acts(cfg, m) && m.path in d.tree {
      RunningSweep(cfg, t0, all, d, m.path);
      AccountedStep(cfg, t0, d, rep, m.path, rep');
    } else {
      SweepOfNothing(cfg, d, m.path);
    }
  }

  lemma SweepOfNothing(cfg: Config, d: Disk, p: Path)
    ensures p !in d.tree ==> Sweep(cfg, d, p).disk == d
  {
  }

  lemma {:induction false} RealRunReports(cfg: Config, t0: Tree, all: seq<Mutation>, d: Disk, rep: Report, k: nat)
    requires TrackedApp(cfg) && WellFormed(t0) && NoNesting(cfg, t0, all)
    requires WayOpen(cfg, t0, all) && RootUsable(cfg, t0)
    requires Disjoint(cfg, all) && k <= |all| && InProgress(cfg, t0, all, d) && Accounted(cfg, t0, d, rep)
    ensures Reported(RunAll(cfg, d, rep, all[k..]).report) == Reported(rep) + Targets(cfg, t0, all[k..])
    decreases |all| - k
  {
    hide NoNesting, WayOpen, RootUsable, Disjoint, InProgress, Accounted, Reported, Note, Step, Acts, WellFormed;
    if k < |all| {
      assert all[k..][0] == all[k] && all[k..][1..] == all[k + 1..];
      RealStep(cfg, t0, all, d, rep, all[k]);
      TargetsSplit(cfg, t0, all[k..]);
      var v := Step(cfg, d, all[k]);
      RealRunReports(cfg, t0, all, v.disk, Note(rep, all[k].path, v.outcome), k + 1);
    }
  }

  // ---- What is in the way of a real run ----

  /** Of entries outside the way to the archive only old ones are there, and archive entries keep their kind. */
  ghost predicate Kindred(cfg: Config, t0: Tree, t: Tree) {
    var z := Zone(cfg.root, cfg.txid);
    && WellFormed(t) && Sealed(cfg, t)
    && (forall x | x in t && x !in t0 :: x <= z || z <= x)
    && (forall x | x in t && x in t0 :: SameKind(t0[x], t[x]))
    && (forall x | x in t0 && (z <= x || x <= z) :: x in t)
  }

  /** `p` is gone, and its places in the archive are regular files. */
  ghost predicate PutAway(cfg: Config, t0: Tree, t: Tree, p: Path)
    requires p in t0 && p != []
  {
    var dest := Dest(cfg, p);
    && p !in t && SidecarOf(dest) in t && t[SidecarOf(dest)].File?
    && (t0[p].File? ==> dest in t && t[dest].File?)
  }

  /** Nothing is reported of a touched path before it is put away. */
  ghost predicate ReportedArePutAway(cfg: Config, t0: Tree, ms: seq<Mutation>, t: Tree, rep: Report) {
    forall p | p in Reported(rep) && Touched(cfg, t0, ms, p) && p != [] :: PutAway(cfg, t0, t, p)
  }

  /** From `t` to `t'` everything but perhaps `q` keeps its kind, and only the archive gains. */
  ghost predicate KindsStay(cfg: Config, t: Tree, t': Tree, q: Path) {
    var z := Zone(cfg.root, cfg.txid);
    && WellFormed(t') && Sealed(cfg, t')
    && (forall x | x in t && x != q :: x in t' && SameKind(t[x], t'[x]))
    && (forall x | x in t' && x !in t :: x <= z || z <= x)
    && (q in t' ==> q in t && SameKind(t[q], t'[q]))
  }

  lemma SweepKinds(cfg: Config, d: Disk, q: Path)
    requires WellFormed(d.tree) && Sealed(cfg, d.tree) && q in d.tree && q != [] && !(Zone(cfg.root, cfg.txid) <= q)
    ensures KindsStay(cfg, d.tree, Sweep(cfg, d, q).disk.tree, q)
  {
    hide ArchiveFile, Discard;
    if LeafAt(d.tree, q) {
      LeafSweepFrame(cfg, d, q);
      ArchivingKeepsKinds(cfg, d, q, false);
      var r := ArchiveFile(cfg.root, cfg.txid, d, q, false);
      ArchiveFrame(cfg, d, q, false);
      if r.ok {
        DiscardFrame(r.disk, q);
      }
    } else {
      DiscardFrame(d, q);
    }
  }

  lemma KindredStep(cfg: Config, t0: Tree, t: Tree, t': Tree, q: Path)
    requires RootUsable(cfg, t0) && Kindred(cfg, t0, t) && KindsStay(cfg, t, t', q)
    requires !(Zone(cfg.root, cfg.txid) <= q) && !(q <= Zone(cfg.root, cfg.txid))
    ensures Kindred(cfg, t0, t')
  {
  }

  lemma PutAwayStays(cfg: Config, t0: Tree, t: Tree, t': Tree, q: Path, p: Path)
    requires p in t0 && p != [] && PutAway(cfg, t0, t, p) && KindsStay(cfg, t, t', q)
    requires var z := Zone(cfg.root, cfg.txid); !(z <= q) && !(z <= p) && !(p <= z)
    ensures PutAway(cfg, t0, t', p)
  {
    SidecarInArchive(cfg.root, cfg.txid, p);
    assert Zone(cfg.root, cfg.txid) <= Dest(cfg, p);
  }

  lemma ReportedSweepWorks(cfg: Config, d: Disk, m: Mutation)
    requires TrackedApp(cfg)
    requires var o := Step(cfg, d, m).outcome; o.Removed? || o.Archived?
    ensures m.path in d.tree && Step(cfg, d, m).disk == Sweep(cfg, d, m.path).disk && Sweep(cfg, d, m.path).ok
  {
    hide ArchiveFile, Discard, RestoreBlob;
  }

  /** A touched path is reported by a step that puts it away. */
  lemma ReportedStep(cfg: Config, t0: Tree, d: Disk, m: Mutation)
    requires TrackedApp(cfg) && Kindred(cfg, t0, d.tree) && LeafAt(t0, m.path) && m.path != []
    requires !(Zone(cfg.root, cfg.txid) <= m.path)
    requires var o := Step(cfg, d, m).outcome; o.Removed? || o.Archived?
    ensures PutAway(cfg, t0, Step(cfg, d, m).disk.tree, m.path)
  {
    hide ArchiveFile, Discard, WellFormed, Step, TrackedApp;
    ReportedSweepWorks(cfg, d, m);
    var q := m.path;
    assert LeafAt(d.tree, q);
    var r := ArchiveFile(cfg.root, cfg.txid, d, q, false);
    ArchiveFrame(cfg, d, q, false);
    DiscardFrame(r.disk, q);
    SidecarInArchive(cfg.root, cfg.txid, q);
    assert Zone(cfg.root, cfg.txid) <= Dest(cfg, q);
  }

  lemma {:induction false} RunPutsAway(cfg: Config, t0: Tree, all: seq<Mutation>, d: Disk, rep: Report, k: nat)
    requires TrackedApp(cfg) && RootUsable(cfg, t0) && Disjoint(cfg, all) && k <= |all|
    requires Kindred(cfg, t0, d.tree) && ReportedArePutAway(cfg, t0, all, d.tree, rep)
    ensures var r := RunAll(cfg, d, rep, all[k..]);
      Kindred(cfg, t0, r.disk.tree) && ReportedArePutAway(cfg, t0, all, r.disk.tree, r.report)
    decreases |all| - k
  {
    hide Kindred, RootUsable, KindsStay, PutAway, Step, Reported, Sweep, TrackedApp;
    if k < |all| {
      var m := all[k];
      assert all[k..][0] == m && all[k..][1..] == all[k + 1..];
      var v := Step(cfg, d, m);
      var rep' := Note(rep, m.path, v.outcome);
      ReportedNote(rep, m.path, v.outcome);
      StepKeepsKindred(cfg, t0, all, d, k);
      forall p | p in Reported(rep') && Touched(cfg, t0, all, p) && p != [] ensures PutAway(cfg, t0, v.disk.tree, p) {
        StepKeepsPutAway(cfg, t0, all, d, rep, k, p);
      }
      RunPutsAway(cfg, t0, all, v.disk, rep', k + 1);
    }
  }

  lemma StepKeepsKindred(cfg: Config, t0: Tree, all: seq<Mutation>, d: Disk, k: nat)
    requires TrackedApp(cfg) && RootUsable(cfg, t0) && Disjoint(cfg, all) && k < |all| && Kindred(cfg, t0, d.tree)
    ensures Kindred(cfg, t0, Step(cfg, d, all[k]).disk.tree)
    ensures Step(cfg, d, all[k]).disk == d || KindsStay(cfg, d.tree, Step(cfg, d, all[k]).disk.tree, all[k].path)
  {
    hide Step, KindsStay, RootUsable;
    StepSweeps(cfg, d, all[k]);
    if all[k].path in d.tree {
      SweepKinds(cfg, d, all[k].path);
      KindredStep(cfg, t0, d.tree, Sweep(cfg, d, all[k].path).disk.tree, all[k].path);
    }
  }

  lemma StepKeepsPutAway(cfg: Config, t0: Tree, all: seq<Mutation>, d: Disk, rep: Report, k: nat, p: Path)
    requires TrackedApp(cfg) && RootUsable(cfg, t0) && Disjoint(cfg, all) && k < |all|
    requires Kindred(cfg, t0, d.tree) && ReportedArePutAway(cfg, t0, all, d.tree, rep)
    requires var v := Step(cfg, d, all[k]); p in Reported(Note(rep, all[k].path, v.outcome))
    requires Touched(cfg, t0, all, p) && p != []
    ensures PutAway(cfg, t0, Step(cfg, d, all[k]).disk.tree, p)
  {
    hide Kindred, KindsStay, PutAway, Step, RootUsable, Reported;
    var m := all[k];
    var v := Step(cfg, d, m);
    ReportedNote(rep, m.path, v.outcome);
    if p in Reported(rep) {
      StepKeepsKindred(cfg, t0, all, d, k);
      assert PutAway(cfg, t0, d.tree, p);
      if v.disk != d {
        PutAwayStays(cfg, t0, d.tree, v.disk.tree, m.path, p);
      }
    } else {
      ReportedStep(cfg, t0, d, m);
    }
  }

  /** What was put away had room, and nothing put away lies below its sidecar. */
  lemma PutAwayHadRoom(cfg: Config, t0: Tree, t: Tree, p: Path)
    requires RootUsable(cfg, t0) && Kindred(cfg, t0, t) && p in t0 && p != [] && PutAway(cfg, t0, t, p)
    ensures RoomFor(cfg, t0, p)
  {
    var z, dest := Zone(cfg.root, cfg.txid), Dest(cfg, p);
    SidecarInArchive(cfg.root, cfg.txid, p);
    assert z <= dest;
    forall x | x in t0 && x < dest ensures t0[x].Dir? {
      PrefixesChain(x, z, dest);
      if z <= x {
        assert x < SidecarOf(dest);
        assert DirAt(t, x);
      }
    }
  }

  lemma PutAwayIsNotNested(cfg: Config, t0: Tree, t: Tree, p: Path, q: Path)
    requires Kindred(cfg, t0, t) && p in t0 && q in t0 && p != [] && q != []
    requires PutAway(cfg, t0, t, p) && PutAway(cfg, t0, t, q)
    ensures !(SidecarOf(p) < q)
  {
    SidecarInArchive(cfg.root, cfg.txid, p);
    DestBelow(cfg, SidecarOf(p), q);
    var a, b := SidecarOf(Dest(cfg, p)), Dest(cfg, q);
    assert a < b ==> a < SidecarOf(b);
    assert a < SidecarOf(b) ==> DirAt(t, a);
  }

  lemma TouchedIsTarget(cfg: Config, t0: Tree, ms: seq<Mutation>, p: Path)
    requires Touched(cfg, t0, ms, p)
    ensures p in Targets(cfg, t0, ms)
  {
    var i :| 0 <= i < |ms| && ms[i].path == p && Acts(cfg, ms[i]);
    assert ms[i].path in t0;
  }

  lemma FullReportNeedsRoom(cfg: Config, d: Disk, ms: seq<Mutation>)
    requires TrackedApp(cfg) && FreshStart(cfg, d) && Disjoint(cfg, ms)
    requires Targets(cfg, d.tree, ms) <= Reported(RunAll(cfg, d, EMPTY_REPORT, ms).report)
    ensures NoNesting(cfg, d.tree, ms) && WayOpen(cfg, d.tree, ms)
  {
    hide Reported, Kindred, PutAway, RoomFor, RootUsable, RunAll;
    assert ms[0..] == ms;
    StartsKindred(cfg, d.tree, ms);
    RunPutsAway(cfg, d.tree, ms, d, EMPTY_REPORT, 0);
    var t := RunAll(cfg, d, EMPTY_REPORT, ms).disk.tree;
    forall p | Touched(cfg, d.tree, ms, p) && p != [] ensures PutAway(cfg, d.tree, t, p) && RoomFor(cfg, d.tree, p) {
      TouchedIsTarget(cfg, d.tree, ms, p);
      PutAwayHadRoom(cfg, d.tree, t, p);
    }
    forall p, q | Touched(cfg, d.tree, ms, p) && Touched(cfg, d.tree, ms, q) && p != [] ensures !(SidecarOf(p) < q) {
      if q != [] {
        PutAwayIsNotNested(cfg, d.tree, t, p, q);
      }
    }
  }

  lemma StartsKindred(cfg: Config, t: Tree, ms: seq<Mutation>)
    requires WellFormed(t) && Sealed(cfg, t)
    ensures Kindred(cfg, t, t) && ReportedArePutAway(cfg, t, ms, t, EMPTY_REPORT)
  {
  }

  /**
   From the same state a dry run leaves the disk alone and names every existing path some
   mutation acts on. The real run removes or archives exactly these if and only if nothing in
   the archive is in the way of one of them and none lies below another one's sidecar name.
   */
  lemma DryRunPredicts(cfg: Config, d: Disk, ms: seq<Mutation>)
    requires TrackedApp(cfg) && FreshStart(cfg, d) && d.faults == [] && Disjoint(cfg, ms)
    ensures var dry := Execute(cfg.(dryRun := true), d, ms);
      dry.disk == d && Reported(dry.report) == Targets(cfg, d.tree, ms)
    ensures Reported(Execute(cfg, d, ms).report) == Reported(Execute(cfg.(dryRun := true), d, ms).report) <==>
      NoNesting(cfg, d.tree, ms) && WayOpen(cfg, d.tree, ms)
  {
    hide NoNesting, WayOpen, Step, Touched;
    var dryCfg := cfg.(dryRun := true);
    DryRunReports(dryCfg, d, EMPTY_REPORT, ms);
    SameTargets(cfg, d.tree, ms);
    assert ms[0..] == ms;
    if NoNesting(cfg, d.tree, ms) && WayOpen(cfg, d.tree, ms) {
      FreshIsInProgress(cfg, d, ms);
      RealRunReports(cfg, d.tree, ms, d, EMPTY_REPORT, 0);
    } else if Reported(Execute(cfg, d, ms).report) == Targets(cfg, d.tree, ms) {
      FullReportNeedsRoom(cfg, d, ms);
    }
  }

  lemma FreshIsInProgress(cfg: Config, d: Disk, ms: seq<Mutation>)
    requires FreshStart(cfg, d) && d.faults == []
    ensures InProgress(cfg, d.tree, ms, d) && Accounted(cfg, d.tree, d, EMPTY_REPORT)
  {
  }

  lemma SameTargets(cfg: Config, t: Tree, ms: seq<Mutation>)
    ensures Targets(cfg.(dryRun := true), t, ms) == Targets(cfg, t, ms)
  {
    assert forall i | 0 <= i < |ms| :: Acts(cfg.(dryRun := true), ms[i]) == Acts(cfg, ms[i]);
  }

  /** A file below a directory named like another file's sidecar. */
  function NestedTree(content: Content): Tree {
    var file := File(content, 420, 1000, 1000);
    map[[] := Dir, ["home"] := Dir, ["home", "f"] := file, ["home", "f" + SUFFIX] := Dir,
      ["home", "f" + SUFFIX, "g"] := file]
  }

  lemma NestedTreeIsWellFormed(content: Content)
    ensures WellFormed(NestedTree(content))
    ensures forall x | x in NestedTree(content) :: x == [] || x[0] == "home"
  {
    var t := NestedTree(content);
    assert DirAt(t, []) && DirAt(t, ["home"]) && DirAt(t, ["home", "f" + SUFFIX]);
    forall x, y | x in t && y < x ensures DirAt(t, y) {
      assert y == x[..|y|] && |y| < |x| <= 3;
      if |y| == 0 {
        assert y == [];
      } else if |y| == 1 {
        assert y == ["home"];
      } else {
        assert x == ["home", "f" + SUFFIX, "g"] && y == ["home", "f" + SUFFIX];
      }
    }
  }

  function NestedList(): seq<Mutation> {
    [Mutation(["home", "f"], Create, C.Never), Mutation(["home", "f" + SUFFIX, "g"], Create, C.Never)]
  }

  lemma NestedListNests(cfg: Config, content: Content)
    requires TrackedApp(cfg) && cfg.selected == None
    ensures !NoNesting(cfg, NestedTree(content), NestedList())
  {
    var ms, t := NestedList(), NestedTree(content);
    var p, q := ms[0].path, ms[1].path;
    assert Acts(cfg, ms[0]) && Acts(cfg, ms[1]);
    assert Touched(cfg, t, ms, p) && Touched(cfg, t, ms, q);
    assert SidecarOf(p) == q[..2] && SidecarOf(p) < q;
  }

  /** One of the two stays behind, unreported, although the dry run names both. */
  lemma NestedListMispredicts(cfg: Config, content: Content) returns (d: Disk, ms: seq<Mutation>)
    requires TrackedApp(cfg) && cfg.selected == None && cfg.root == ["archive"]
    ensures FreshStart(cfg, d) && d.faults == [] && Disjoint(cfg, ms) && WayOpen(cfg, d.tree, ms)
    ensures Reported(Execute(cfg, d, ms).report) != Reported(Execute(cfg.(dryRun := true), d, ms).report)
  {
    hide WellFormed, WayOpen, Execute, Targets, Reported, NoNesting, Touched;
    d, ms := Disk(NestedTree(content), map[], []), NestedList();
    NestedTreeIsWellFormed(content);
    assert Zone(cfg.root, cfg.txid)[0] == "archive";
    EmptyArchiveIsOpen(cfg, d.tree, ms);
    NestedListNests(cfg, content);
    DryRunPredicts(cfg, d, ms);
  }
}
