/**
 The one naming convention the round trip rests on. An archived file whose name is another
 archived file's name plus the sidecar suffix shares that sidecar's place in the archive: the
 one archived later decides what stands there, and that decides what comes back.
 */
module SidecarClash {
  import opened Paths
  import opened FileSystem
  import opened Archive
  import opened Review
  import opened Rollback
  import opened NoLoss
  import opened Pruning
  import opened RoundTrip
  import opened ArchivePlaces
  import opened ArchiveLedger
  import opened Recovery

  ghost predicate CleanRun(cfg: Config, d: Disk, ms: seq<Mutation>) {
    TrackedApp(cfg) && FreshStart(cfg, d) && d.faults == [] && OutsideZone(cfg, ms)
  }

  /**
   What the ledger says of an archived path serves it: content written over its sidecar, or a sidecar
   over its content.
   */
  ghost predicate Served(cfg: Config, t0: Tree, l: Ledger, p: Path)
    requires Sound(cfg, t0, l) && p in l.taken
  {
    && (p in l.covered ==> Describes(t0[SidecarOf(p)].content, t0[p]))
    && (p in l.hidden ==> forall o | Hides(l, o, p) :: t0[p].content == Document(MetaOf(o, t0[o], false)))
  }

  ghost predicate AllServed(cfg: Config, t0: Tree, l: Ledger)
    requires Sound(cfg, t0, l)
  {
    forall p | p in l.taken :: Served(cfg, t0, l, p)
  }

  // ---- After loop and pruning ----

  /** What recovery starts from. */
  ghost predicate Harvest(cfg: Config, t0: Tree, l: Ledger, after: Disk) {
    var z := Zone(cfg.root, cfg.txid);
    && WellFormed(after.tree) && after.faults == [] && Sound(cfg, t0, l)
    && (forall p :: (cfg.txid, p) in after.rows <==> p in l.taken)
    && (forall p | p in l.taken ::
          p !in after.tree && after.rows[(cfg.txid, p)].archivePath == Dest(cfg, p)
            && Shelved(cfg, t0, l, after.tree, p))
    && (forall x | LeafAt(after.tree, x) && !(z <= x) :: x in t0 && t0[x] == after.tree[x])
    && (forall x | LeafAt(t0, x) && !(z <= x) && x !in l.taken :: StandsAs(after.tree, x, t0[x]))
  }

  lemma HoldsIsHarvest(cfg: Config, t0: Tree, l: Ledger, d: Disk)
    requires Holds(cfg, t0, l, d)
    ensures Harvest(cfg, t0, l, d)
  {
    hide Shelved, Accounted;
    forall p | p in l.taken ensures LeafAt(t0, p) && !(Zone(cfg.root, cfg.txid) <= p) {
      assert p in l.reached;
    }
  }

  lemma DoomedAreDirs(t: Tree, starts: set<Path>)
    ensures forall x | Doomed(t, starts, x) :: x in t && t[x].Dir?
  {
  }

  lemma PruningKeepsHarvest(cfg: Config, t0: Tree, l: Ledger, d: Disk, starts: seq<Path>)
    requires Harvest(cfg, t0, l, d)
    ensures Harvest(cfg, t0, l, PruneAll(d, starts))
  {
    hide Doomed, PruneAll, Shelved, Sound;
    PruneAllRemains(d.tree, (set p | p in starts), d, starts);
    DoomedAreDirs(d.tree, (set p | p in starts));
    forall p | p in l.taken ensures Shelved(cfg, t0, l, PruneAll(d, starts).tree, p) {
      ShelvedStays(cfg, t0, l, d.tree, PruneAll(d, starts).tree, p);
    }
  }

  lemma ExecuteHarvests(cfg: Config, d: Disk, ms: seq<Mutation>)
    requires CleanRun(cfg, d, ms)
    ensures Harvest(cfg, d.tree, LedgerOf(cfg, d.tree, ms), Execute(cfg, d, ms).disk)
  {
    hide Harvest, RunAll, Holds, LedgerOf;
    LoopIsItsLedger(cfg, d, ms);
    var run, l := RunAll(cfg, d, EMPTY_REPORT, ms), LedgerOf(cfg, d.tree, ms);
    HoldsIsHarvest(cfg, d.tree, l, run.disk);
    PruningKeepsHarvest(cfg, d.tree, l, run.disk, ParentsOf(run.report.removed + run.report.archived));
  }

  // ---- Which paths come back ----

  lemma RowsAreTaken(cfg: Config, t0: Tree, l: Ledger, after: Disk, rows: seq<(Path, Path)>)
    requires WellFormed(t0) && RowsOf(after, cfg.txid, rows) && Harvest(cfg, t0, l, after)
    ensures forall i | 0 <= i < |rows| :: rows[i].0 in l.taken && LeafAt(t0, rows[i].0) && rows[i].0 != []
    ensures forall i | 0 <= i < |rows| :: !(Zone(cfg.root, cfg.txid) <= rows[i].0) && rows[i].1 == Dest(cfg, rows[i].0)
    ensures forall i, j | 0 <= i < |rows| && 0 <= j < |rows| && i != j :: rows[i].0 != rows[j].0
    ensures Landable(after.tree, rows)
  {
    hide Shelved;
  }

  lemma TakenIsLeaf(cfg: Config, t0: Tree, l: Ledger, after: Disk, p: Path)
    requires Harvest(cfg, t0, l, after) && p in l.taken
    ensures LeafAt(t0, p) && p != [] && Sound(cfg, t0, l) && Shelved(cfg, t0, l, after.tree, p)
    ensures WellFormed(after.tree) && after.faults == []
  {
    hide Shelved;
  }

  /** What the rollback left for `p`, wherever recovery has got to. */
  lemma PlacesOf(cfg: Config, t0: Tree, l: Ledger, after: Disk, rows: seq<(Path, Path)>, k: nat, p: Path)
    requires WellFormed(t0) && Harvest(cfg, t0, l, after) && RowsOf(after, cfg.txid, rows) && k <= |rows|
      && p in l.taken
    ensures var before, dest := RecoverRows(after, rows[..k]).disk, Dest(cfg, p);
      && p != [] && LeafAt(t0, p) && SidecarOf(dest) in after.tree && after.tree[SidecarOf(dest)].File?
      && WellFormed(before.tree) && before.faults == []
      && StandsAs(before.tree, SidecarOf(dest), after.tree[SidecarOf(dest)])
      && (t0[p].File? ==> dest in after.tree && after.tree[dest].File? && StandsAs(before.tree, dest, after.tree[dest]))
  {
    hide RecoverRow, RecoverRows, Harvest, SidecarOf, MetaOf, Sound;
    var dest := Dest(cfg, p);
    RowsAreTaken(cfg, t0, l, after, rows);
    TakenIsLeaf(cfg, t0, l, after, p);
    SidecarInArchive(cfg.root, cfg.txid, p);
    assert Zone(cfg.root, cfg.txid) <= dest;
    RecoverRowsFrame(after, rows[..k], SidecarOf(dest));
    RecoverRowsFrame(after, rows[..k], dest);
  }

  /** Before its own row `p` is free and its places are as the rollback left them. */
  lemma RowIsReady(cfg: Config, t0: Tree, l: Ledger, after: Disk, rows: seq<(Path, Path)>, k: nat)
    requires WellFormed(t0) && Harvest(cfg, t0, l, after) && RowsOf(after, cfg.txid, rows) && k < |rows|
    ensures var p, before := rows[k].0, RecoverRows(after, rows[..k]).disk; var dest := Dest(cfg, p);
      && p in l.taken && LeafAt(t0, p) && p != [] && rows[k].1 == dest
      && SidecarOf(dest) in after.tree && after.tree[SidecarOf(dest)].File?
      && ReadyRow(before, dest, p, after.tree[SidecarOf(dest)].content)
      && (t0[p].File? ==> dest in after.tree && after.tree[dest].File? && StandsAs(before.tree, dest, after.tree[dest]))
  {
    hide RecoverRow, RecoverRows, Harvest;
    var p := rows[k].0;
    var before := RecoverRows(after, rows[..k]).disk;
    RowsAreTaken(cfg, t0, l, after, rows);
    PlacesOf(cfg, t0, l, after, rows, k, p);
    SidecarInArchive(cfg.root, cfg.txid, p);
    assert Zone(cfg.root, cfg.txid) <= Dest(cfg, p);
    forall q | q in before.tree && q <= p ensures q != p && before.tree[q].Dir? {
      AboveIsDir(cfg, t0, l, after, rows, k, q);
    }
  }

  lemma NoLeafAbove(t: Tree, q: Path, p: Path)
    requires WellFormed(t) && LeafAt(t, q) && p in t && q <= p
    ensures q == p
  {
    LeafIsChildless(t, q);
    assert q == p || q < p;
  }

  lemma AboveIsDir(cfg: Config, t0: Tree, l: Ledger, after: Disk, rows: seq<(Path, Path)>, k: nat, q: Path)
    requires WellFormed(t0) && Harvest(cfg, t0, l, after) && RowsOf(after, cfg.txid, rows) && k < |rows|
    requires var before := RecoverRows(after, rows[..k]).disk; q in before.tree && q <= rows[k].0
    ensures q != rows[k].0 && RecoverRows(after, rows[..k]).disk.tree[q].Dir?
  {
    hide RecoverRow, RecoverRows, Shelved, Sound;
    var p := rows[k].0;
    var before := RecoverRows(after, rows[..k]).disk;
    RowsAreTaken(cfg, t0, l, after, rows);
    RecoverRowsNew(after, rows[..k], q);
    LeafIsChildless(t0, p);
    forall i | 0 <= i < |rows|
      ensures LeafAt(t0, rows[i].0) && !(rows[i].0 < p) && (p <= rows[i].0 ==> p == rows[i].0)
    {
      LeafIsChildless(t0, rows[i].0);
    }
    RecoverRowsFrame(after, rows[..k], q);
    assert p in l.taken && p !in after.tree && !(Zone(cfg.root, cfg.txid) <= q);
    if LeafAt(after.tree, q) {
      NoLeafAbove(t0, q, p);
    }
  }

  lemma TakenDecided(cfg: Config, t0: Tree, l: Ledger, after: Disk, rows: seq<(Path, Path)>, k: nat)
    requires WellFormed(t0) && Harvest(cfg, t0, l, after) && RowsOf(after, cfg.txid, rows) && k < |rows|
    ensures rows[k].0 in l.taken && Sound(cfg, t0, l)
    ensures StandsAs(RecoverRows(after, rows).disk.tree, rows[k].0, t0[rows[k].0]) <==> Served(cfg, t0, l, rows[k].0)
  {
    hide RecoverRow, RecoverRows, ReadyRow, Describes, Harvest, Sound, MetaOf;
    var p := rows[k].0;
    var dest := Dest(cfg, p);
    RowsAreTaken(cfg, t0, l, after, rows);
    TakenIsLeaf(cfg, t0, l, after, p);
    RowIsReady(cfg, t0, l, after, rows, k);
    OwnSidecarDescribes(p, t0[p], false);
    RowRebuilds(RecoverRows(after, rows[..k]).disk, dest, p, t0[p], after.tree[SidecarOf(dest)].content);
    RowDecides(after, rows, k, t0[p]);
    HiddenHasOne(cfg, t0, l, p);
  }

  lemma HiddenHasOne(cfg: Config, t0: Tree, l: Ledger, p: Path)
    requires Sound(cfg, t0, l)
    ensures p in l.hidden ==> p in t0 && t0[p].File? && exists o :: Hides(l, o, p)
  {
  }

  /** All rows recovered: the leaves outside the archive are those of `t0` exactly when every archived path stands. */
  lemma LeavesDecided(cfg: Config, t0: Tree, l: Ledger, after: Disk, rows: seq<(Path, Path)>)
    requires WellFormed(t0) && Harvest(cfg, t0, l, after) && RowsOf(after, cfg.txid, rows)
    ensures forall i | 0 <= i < |rows| :: rows[i].0 in t0
    ensures var t := RecoverRows(after, rows).disk.tree; var z := Zone(cfg.root, cfg.txid);
      Leaves(t, z) == Leaves(t0, z) <==> forall i | 0 <= i < |rows| :: StandsAs(t, rows[i].0, t0[rows[i].0])
  {
    hide Harvest, RecoverRows;
    var t, z := RecoverRows(after, rows).disk.tree, Zone(cfg.root, cfg.txid);
    RowsAreTaken(cfg, t0, l, after, rows);
    if Leaves(t, z) == Leaves(t0, z) {
      forall i | 0 <= i < |rows| ensures StandsAs(t, rows[i].0, t0[rows[i].0]) {
        assert rows[i].0 in Leaves(t0, z);
        assert Leaves(t, z)[rows[i].0] == Leaves(t0, z)[rows[i].0];
      }
    }
    if forall i | 0 <= i < |rows| :: StandsAs(t, rows[i].0, t0[rows[i].0]) {
      forall x ensures (x in Leaves(t, z) <==> x in Leaves(t0, z)) && (x in Leaves(t0, z) ==> t[x] == t0[x]) {
        LeafDecided(cfg, t0, l, after, rows, x);
      }
    }
  }

  lemma LeafDecided(cfg: Config, t0: Tree, l: Ledger, after: Disk, rows: seq<(Path, Path)>, x: Path)
    requires WellFormed(t0) && Harvest(cfg, t0, l, after) && RowsOf(after, cfg.txid, rows)
    requires var t := RecoverRows(after, rows).disk.tree;
      forall i | 0 <= i < |rows| :: rows[i].0 in t0 && StandsAs(t, rows[i].0, t0[rows[i].0])
    ensures var t := RecoverRows(after, rows).disk.tree; !(Zone(cfg.root, cfg.txid) <= x) ==>
      (LeafAt(t, x) <==> LeafAt(t0, x)) && (LeafAt(t0, x) ==> t[x] == t0[x])
  {
    hide RecoverRows, Shelved, Sound;
    RowsAreTaken(cfg, t0, l, after, rows);
    if !(Zone(cfg.root, cfg.txid) <= x) {
      if x in l.taken {
        assert (x, Dest(cfg, x)) in rows;
        var i :| 0 <= i < |rows| && rows[i] == (x, Dest(cfg, x));
        assert StandsAs(RecoverRows(after, rows).disk.tree, rows[i].0, t0[rows[i].0]);
      } else {
        assert forall i | 0 <= i < |rows| :: rows[i].0 != x;
        RecoverRowsFrame(after, rows, x);
      }
    }
  }

  lemma RowsDecided(cfg: Config, t0: Tree, l: Ledger, after: Disk, rows: seq<(Path, Path)>)
    requires WellFormed(t0) && Harvest(cfg, t0, l, after) && RowsOf(after, cfg.txid, rows)
    ensures Sound(cfg, t0, l)
    ensures var z := Zone(cfg.root, cfg.txid);
      Leaves(RecoverRows(after, rows).disk.tree, z) == Leaves(t0, z) <==> AllServed(cfg, t0, l)
  {
    hide Served, RecoverRows, Harvest, Sound;
    assert Sound(cfg, t0, l) by {
      HarvestIsSound(cfg, t0, l, after);
    }
    LeavesDecided(cfg, t0, l, after, rows);
    forall k | 0 <= k < |rows|
      ensures rows[k].0 in l.taken
      ensures StandsAs(RecoverRows(after, rows).disk.tree, rows[k].0, t0[rows[k].0]) <==> Served(cfg, t0, l, rows[k].0)
    {
      TakenDecided(cfg, t0, l, after, rows, k);
    }
    forall p | p in l.taken ensures exists k | 0 <= k < |rows| :: rows[k].0 == p {
      TakenHasRow(cfg, t0, l, after, rows, p);
    }
  }

  lemma HarvestIsSound(cfg: Config, t0: Tree, l: Ledger, after: Disk)
    requires Harvest(cfg, t0, l, after)
    ensures Sound(cfg, t0, l)
  {
    hide Shelved;
  }

  lemma TakenHasRow(cfg: Config, t0: Tree, l: Ledger, after: Disk, rows: seq<(Path, Path)>, p: Path)
    requires Harvest(cfg, t0, l, after) && RowsOf(after, cfg.txid, rows) && p in l.taken
    ensures exists k | 0 <= k < |rows| :: rows[k].0 == p
  {
    hide Shelved, Sound;
    assert (p, Dest(cfg, p)) in rows;
    var k :| 0 <= k < |rows| && rows[k] == (p, Dest(cfg, p));
    assert rows[k].0 == p;
  }

  /**
   Rollback then recovery, decided for the tree at hand: everything comes back, in whatever
   order the rows are read, exactly when whatever the ledger finds written over a sidecar or a
   content serves the path it was written over.
   */
  lemma RoundTripDecided(cfg: Config, d: Disk, ms: seq<Mutation>)
    requires CleanRun(cfg, d, ms)
    ensures Sound(cfg, d.tree, LedgerOf(cfg, d.tree, ms))
    ensures RoundTrips(cfg, d, ms) <==> AllServed(cfg, d.tree, LedgerOf(cfg, d.tree, ms))
  {
    hide AllServed, Execute, RootUsable, RecoverRows, Harvest, Leaves, LedgerOf, Sound;
    ExecuteHarvests(cfg, d, ms);
    var after, l := Execute(cfg, d, ms).disk, LedgerOf(cfg, d.tree, ms);
    HarvestIsSound(cfg, d.tree, l, after);
    var some := SomeRows(after, cfg.txid);
    forall rows | RowsOf(after, cfg.txid, rows)
      ensures var z := Zone(cfg.root, cfg.txid);
        Leaves(RecoverRows(after, rows).disk.tree, z) == Leaves(d.tree, z) <==> AllServed(cfg, d.tree, l)
    {
      RowsDecided(cfg, d.tree, l, after, rows);
    }
  }

  // ---- All contents of one shape ----

  /** Same entries of the same kinds: only contents, owners and targets may differ. */
  ghost predicate SameShape(d: Disk, e: Disk) {
    && d.rows == e.rows && d.faults == e.faults
    && (forall p :: p in d.tree <==> p in e.tree)
    && (forall p | p in d.tree :: (d.tree[p].Dir? <==> e.tree[p].Dir?) && (d.tree[p].File? <==> e.tree[p].File?))
  }

  lemma ShapeDecides(cfg: Config, d: Disk, e: Disk, ms: seq<Mutation>)
    requires SameShape(d, e)
    ensures FreshStart(cfg, d) ==> FreshStart(cfg, e)
    ensures forall p :: Touched(cfg, d.tree, ms, p) <==> Touched(cfg, e.tree, ms, p)
    ensures NoClash(cfg, d.tree, ms) ==> NoClash(cfg, e.tree, ms)
  {
    if WellFormed(d.tree) {
      forall p, q | p in e.tree && q < p ensures DirAt(e.tree, q) {
        assert DirAt(d.tree, q);
      }
      assert DirAt(e.tree, []);
    }
    forall p ensures Touched(cfg, d.tree, ms, p) <==> Touched(cfg, e.tree, ms, p) {
      assert LeafAt(d.tree, p) <==> LeafAt(e.tree, p);
    }
  }

  lemma SameShapeSameEntry(cfg: Config, d: Disk, e: Disk, l: Ledger, q: Path)
    requires SameShape(d, e) && q != []
    ensures Enter(cfg, d.tree, l, q) == Enter(cfg, e.tree, l, q)
  {
    hide Dest, SidecarOf;
    assert DirsOpen(cfg, d.tree, q) <==> DirsOpen(cfg, e.tree, q);
  }

  /** The ledger does not look at contents, owners or targets. */
  lemma {:induction false} ShapeKeepsLedger(cfg: Config, d: Disk, e: Disk, ms: seq<Mutation>)
    requires SameShape(d, e)
    ensures LedgerOf(cfg, d.tree, ms) == LedgerOf(cfg, e.tree, ms)
  {
    hide Enter, Acts;
    if ms != [] {
      ShapeKeepsLedger(cfg, d, e, ms[..|ms| - 1]);
      var m := ms[|ms| - 1];
      if m.path != [] {
        SameShapeSameEntry(cfg, d, e, LedgerOf(cfg, d.tree, ms[..|ms| - 1]), m.path);
      }
    }
  }

  /**
   For a tree of a given shape, rollback then recovery gives back every content exactly when the
   ledger finds nothing written over a sidecar or a content.
   */
  lemma RoundTripExactly(cfg: Config, d: Disk, ms: seq<Mutation>)
    requires CleanRun(cfg, d, ms)
    ensures (forall e | SameShape(d, e) :: RoundTrips(cfg, e, ms)) <==>
      var l := LedgerOf(cfg, d.tree, ms); l.covered == {} && l.hidden == {}
  {
    hide SameShape, CleanRun, RoundTrips, LedgerOf, Sound;
    var l := LedgerOf(cfg, d.tree, ms);
    if l.covered == {} && l.hidden == {} {
      forall e | SameShape(d, e) ensures RoundTrips(cfg, e, ms) {
        ShapeKeepsClean(cfg, d, e, ms);
        ShapeKeepsLedger(cfg, d, e, ms);
        RoundTripDecided(cfg, e, ms);
      }
    } else {
      RoundTripDecided(cfg, d, ms);
      var e := LosingShape(cfg, d, ms);
    }
  }

  lemma ShapeKeepsClean(cfg: Config, d: Disk, e: Disk, ms: seq<Mutation>)
    requires SameShape(d, e) && CleanRun(cfg, d, ms)
    ensures CleanRun(cfg, e, ms)
  {
    hide Touched, FreshStart;
    ShapeDecides(cfg, d, e, ms);
  }

  /** Content at `q` that is no sidecar document for what stands at `p`. */
  lemma ForeignContent(d: Disk, p: Path, q: Path) returns (e: Disk)
    requires LeafAt(d.tree, p) && p != q && q in d.tree && d.tree[q].File?
    ensures SameShape(d, e) && e.tree[p] == d.tree[p] && e.tree[q].File? && !Describes(e.tree[q].content, e.tree[p])
  {
    var target := if d.tree[p].Link? then d.tree[p].target + "x" else "x";
    assert |target| > 0 && (d.tree[p].Link? ==> |target| == |d.tree[p].target| + 1);
    e := d.(tree := d.tree[q := d.tree[q].(content := Document(Meta([], false, None, None, None, Some(target))))]);
  }

  lemma ContentOtherThan(d: Disk, p: Path, c: Content) returns (e: Disk)
    requires p in d.tree && d.tree[p].File?
    ensures SameShape(d, e) && (forall x | x in d.tree && x != p :: e.tree[x] == d.tree[x])
    ensures e.tree[p].File? && e.tree[p].content != c
  {
    e := d.(tree := d.tree[p := d.tree[p].(content := Altered(c))]);
  }

  lemma LosingShape(cfg: Config, d: Disk, ms: seq<Mutation>) returns (e: Disk)
    requires CleanRun(cfg, d, ms) && Sound(cfg, d.tree, LedgerOf(cfg, d.tree, ms))
    requires var l := LedgerOf(cfg, d.tree, ms); l.covered != {} || l.hidden != {}
    ensures SameShape(d, e) && !RoundTrips(cfg, e, ms)
  {
    hide CleanRun, RoundTrips, LedgerOf, Describes, SameShape, MetaOf;
    var l := LedgerOf(cfg, d.tree, ms);
    var p: Path;
    if l.covered != {} {
      p :| p in l.covered;
      SidecarInArchive(cfg.root, cfg.txid, p);
      e := ForeignContent(d, p, SidecarOf(p));
    } else {
      p :| p in l.hidden;
      var o :| Hides(l, o, p);
      SidecarInArchive(cfg.root, cfg.txid, o);
      e := ContentOtherThan(d, p, Document(MetaOf(o, d.tree[o], false)));
    }
    ShapeKeepsClean(cfg, d, e, ms);
    ShapeKeepsLedger(cfg, d, e, ms);
    RoundTripDecided(cfg, e, ms);
    assert p in l.taken && !Served(cfg, e.tree, l, p);
  }

  // ---- Without nesting: told by names and order alone ----

  /** The first mutation that acts on `p`; the length of the list if there is none. */
  function FirstAct(cfg: Config, ms: seq<Mutation>, p: Path): (i: nat)
    ensures i <= |ms|
    ensures i < |ms| ==> ms[i].path == p && Acts(cfg, ms[i])
    ensures forall j | 0 <= j < i :: !(ms[j].path == p && Acts(cfg, ms[j]))
  {
    if ms == [] then 0
    else
      var i := FirstAct(cfg, ms[..|ms| - 1], p);
      var m := ms[|ms| - 1];
      if i < |ms| - 1 || (m.path == p && Acts(cfg, m)) then i else |ms|
  }

  /** `q` is the name of `p`'s sidecar, and both are archived, `q` with content. */
  ghost predicate Clash(cfg: Config, t0: Tree, ms: seq<Mutation>, p: Path, q: Path) {
    Touched(cfg, t0, ms, p) && Touched(cfg, t0, ms, q) && p != [] && q == SidecarOf(p) && t0[q].File?
  }

  /**
   What the shared place holds in the end serves both: the content of `q` if it was archived
   later, and then it must describe `p` as well; otherwise the sidecar of `p`, and then it must
   be the content of `q` as well.
   */
  predicate ServesBoth(cfg: Config, t0: Tree, ms: seq<Mutation>, p: Path, q: Path)
    requires LeafAt(t0, p) && q in t0 && t0[q].File?
  {
    if FirstAct(cfg, ms, p) < FirstAct(cfg, ms, q) then Describes(t0[q].content, t0[p])
    else t0[q].content == Document(MetaOf(p, t0[p], false))
  }

  ghost predicate ClashesAreHarmless(cfg: Config, t0: Tree, ms: seq<Mutation>) {
    forall p, q | Clash(cfg, t0, ms, p, q) :: ServesBoth(cfg, t0, ms, p, q)
  }

  /** By mutation `k` the content of `q` has overwritten the sidecar of `p`. */
  ghost predicate Covers(cfg: Config, t0: Tree, ms: seq<Mutation>, k: nat, p: Path, q: Path) {
    Clash(cfg, t0, ms, p, q) && FirstAct(cfg, ms, p) < FirstAct(cfg, ms, q) < k
  }

  /** By mutation `k` the sidecar of `o` has overwritten the content of `p`. */
  ghost predicate CoveredBy(cfg: Config, t0: Tree, ms: seq<Mutation>, k: nat, p: Path, o: Path) {
    && Touched(cfg, t0, ms, o) && o != [] && SidecarOf(o) == p
    && FirstAct(cfg, ms, p) < FirstAct(cfg, ms, o) < k
  }

  lemma SameActSamePath(cfg: Config, ms: seq<Mutation>, p: Path, q: Path)
    requires FirstAct(cfg, ms, p) == FirstAct(cfg, ms, q) < |ms|
    ensures p == q
  {
  }

  lemma TouchedIsActed(cfg: Config, t0: Tree, ms: seq<Mutation>, p: Path)
    requires Touched(cfg, t0, ms, p)
    ensures FirstAct(cfg, ms, p) < |ms|
  {
  }

  /** After `k` mutations, nothing nested and nothing in the way. */
  ghost predicate Plain(cfg: Config, t0: Tree, ms: seq<Mutation>, k: nat, l: Ledger) {
    && (forall p :: p in l.taken <==> Touched(cfg, t0, ms, p) && p != [] && FirstAct(cfg, ms, p) < k)
    && l.reached == l.taken
    && (forall p | p in l.taken :: p in l.covered <==> Covers(cfg, t0, ms, k, p, SidecarOf(p)))
    && (forall p | p in l.taken :: p in l.hidden <==> t0[p].File? && exists o :: CoveredBy(cfg, t0, ms, k, p, o))
    && l.covered <= l.taken && l.hidden <= l.taken
  }

  lemma TouchedIsLeaf(cfg: Config, t0: Tree, ms: seq<Mutation>, p: Path)
    requires Touched(cfg, t0, ms, p)
    ensures LeafAt(t0, p)
  {
  }

  lemma PlainEntry(cfg: Config, t0: Tree, ms: seq<Mutation>, k: nat, l: Ledger, q: Path)
    requires WellFormed(t0) && NoNesting(cfg, t0, ms) && WayOpen(cfg, t0, ms) && Plain(cfg, t0, ms, k, l)
    requires Touched(cfg, t0, ms, q) && q != []
    ensures Takes(cfg, t0, l, q) && Reaches(cfg, t0, l, q) && (PutsContent(cfg, t0, l, q) <==> t0[q].File?)
  {
    hide FirstAct, Covers, CoveredBy;
    assert RoomFor(cfg, t0, q);
  }

  lemma PlainFinds(cfg: Config, t0: Tree, ms: seq<Mutation>, k: nat, l: Ledger)
    requires k < |ms| && Plain(cfg, t0, ms, k, l)
    ensures var q := ms[k].path;
      Finds(cfg, t0, l, ms[k]) <==> Touched(cfg, t0, ms, q) && q != [] && FirstAct(cfg, ms, q) == k
  {
    hide Covers, CoveredBy;
  }

  lemma NobodyNow(cfg: Config, t0: Tree, ms: seq<Mutation>, k: nat, l: Ledger, p: Path)
    requires k < |ms| && Plain(cfg, t0, ms, k, l) && !Finds(cfg, t0, l, ms[k]) && Touched(cfg, t0, ms, p) && p != []
    ensures FirstAct(cfg, ms, p) != k
  {
    PlainFinds(cfg, t0, ms, k, l);
  }

  lemma PlainIdle(cfg: Config, t0: Tree, ms: seq<Mutation>, k: nat, l: Ledger)
    requires WellFormed(t0) && k < |ms| && Plain(cfg, t0, ms, k, l) && !Finds(cfg, t0, l, ms[k])
    ensures var k1 := k + 1; Plain(cfg, t0, ms, k1, l)
  {
    hide FirstAct, Touched, Finds;
    var k1 := k + 1;
    forall p | Touched(cfg, t0, ms, p) && p != [] ensures FirstAct(cfg, ms, p) != k {
      NobodyNow(cfg, t0, ms, k, l, p);
    }
    NotTheRoot(cfg, t0, ms);
    forall p, q ensures Covers(cfg, t0, ms, k1, p, q) <==> Covers(cfg, t0, ms, k, p, q) {
    }
    forall p, o ensures CoveredBy(cfg, t0, ms, k1, p, o) <==> CoveredBy(cfg, t0, ms, k, p, o) {
    }
  }

  lemma NotTheRoot(cfg: Config, t0: Tree, ms: seq<Mutation>)
    requires WellFormed(t0)
    ensures !Touched(cfg, t0, ms, [])
  {
    assert DirAt(t0, []);
  }

  lemma PlainMove(cfg: Config, t0: Tree, ms: seq<Mutation>, k: nat, l: Ledger)
    requires WellFormed(t0) && NoNesting(cfg, t0, ms) && WayOpen(cfg, t0, ms)
    requires k < |ms| && Plain(cfg, t0, ms, k, l) && Finds(cfg, t0, l, ms[k])
    ensures var k1 := k + 1; Plain(cfg, t0, ms, k1, Enter(cfg, t0, l, ms[k].path))
  {
    hide FirstAct, Touched, Takes, Reaches, PutsContent, NoNesting, WayOpen, Finds, Covers, CoveredBy;
    var q, k1 := ms[k].path, k + 1;
    PlainFinds(cfg, t0, ms, k, l);
    PlainEntry(cfg, t0, ms, k, l, q);
    var l' := Enter(cfg, t0, l, q);
    forall p ensures p in l'.taken <==> Touched(cfg, t0, ms, p) && p != [] && FirstAct(cfg, ms, p) < k1 {
      if p != q && FirstAct(cfg, ms, p) == k {
        SameActSamePath(cfg, ms, p, q);
      }
    }
    forall p | p in l'.taken
      ensures p in l'.covered <==> Covers(cfg, t0, ms, k1, p, SidecarOf(p))
      ensures p in t0 && (p in l'.hidden <==> t0[p].File? && exists o :: CoveredBy(cfg, t0, ms, k1, p, o))
    {
      TouchedIsLeaf(cfg, t0, ms, p);
      CoversNow(cfg, t0, ms, k, p, q);
      CoveredByNow(cfg, t0, ms, k, p, q);
    }
  }

  /** Who acts first at `k` covers its namesake, and nothing covers it yet. */
  lemma CoversNow(cfg: Config, t0: Tree, ms: seq<Mutation>, k: nat, p: Path, q: Path)
    requires k < |ms| && Touched(cfg, t0, ms, q) && q != [] && FirstAct(cfg, ms, q) == k
    requires Touched(cfg, t0, ms, p) && p != [] && (p == q || FirstAct(cfg, ms, p) < k)
    ensures var k1, s := k + 1, SidecarOf(p);
      Covers(cfg, t0, ms, k1, p, s) <==> Covers(cfg, t0, ms, k, p, s) || (p != q && s == q && t0[q].File?)
    ensures p == q ==> !Covers(cfg, t0, ms, k, p, SidecarOf(p))
  {
    hide Touched;
    var s := SidecarOf(p);
    SidecarInArchive(cfg.root, cfg.txid, p);
    if s != q && FirstAct(cfg, ms, s) == k {
      SameActSamePath(cfg, ms, s, q);
    }
  }

  lemma CoveredByNow(cfg: Config, t0: Tree, ms: seq<Mutation>, k: nat, p: Path, q: Path)
    requires k < |ms| && Touched(cfg, t0, ms, q) && q != [] && FirstAct(cfg, ms, q) == k
    requires Touched(cfg, t0, ms, p) && p != [] && (p == q || FirstAct(cfg, ms, p) < k)
    ensures var k1 := k + 1;
      (exists o :: CoveredBy(cfg, t0, ms, k1, p, o)) <==>
        (exists o :: CoveredBy(cfg, t0, ms, k, p, o)) || (p != q && SidecarOf(q) == p)
    ensures p == q ==> !exists o :: CoveredBy(cfg, t0, ms, k, p, o)
  {
    hide Touched;
    var k1 := k + 1;
    SidecarInArchive(cfg.root, cfg.txid, q);
    if p != q && SidecarOf(q) == p {
      assert CoveredBy(cfg, t0, ms, k1, p, q);
    }
    forall o ensures CoveredBy(cfg, t0, ms, k, p, o) ==> CoveredBy(cfg, t0, ms, k1, p, o) {
    }
    forall o ensures CoveredBy(cfg, t0, ms, k1, p, o) && o != q ==> CoveredBy(cfg, t0, ms, k, p, o) {
      if CoveredBy(cfg, t0, ms, k1, p, o) && o != q && FirstAct(cfg, ms, o) == k {
        SameActSamePath(cfg, ms, o, q);
      }
    }
  }

  lemma {:induction false} AlwaysPlain(cfg: Config, t0: Tree, ms: seq<Mutation>, k: nat)
    requires WellFormed(t0) && NoNesting(cfg, t0, ms) && WayOpen(cfg, t0, ms) && k <= |ms|
    ensures Plain(cfg, t0, ms, k, LedgerOf(cfg, t0, ms[..k]))
  {
    hide Enter, Finds, NoNesting, WayOpen;
    if k > 0 {
      var before := k - 1;
      AlwaysPlain(cfg, t0, ms, before);
      assert ms[..k][..before] == ms[..before] && ms[..k][before] == ms[before];
      var l := LedgerOf(cfg, t0, ms[..before]);
      hide Plain;
      if Finds(cfg, t0, l, ms[before]) {
        PlainMove(cfg, t0, ms, before, l);
      } else {
        PlainIdle(cfg, t0, ms, before, l);
      }
    }
  }

  /** Of two clashing paths one is in the ledger, for the other. */
  lemma ClashIsEntered(cfg: Config, t0: Tree, ms: seq<Mutation>, l: Ledger, p: Path, q: Path)
    requires Plain(cfg, t0, ms, |ms|, l) && Clash(cfg, t0, ms, p, q)
    ensures p in l.taken && q in l.taken
    ensures if FirstAct(cfg, ms, p) < FirstAct(cfg, ms, q) then p in l.covered else q in l.hidden && Hides(l, p, q)
  {
    hide Touched, FirstAct;
    TouchedIsActed(cfg, t0, ms, p);
    TouchedIsActed(cfg, t0, ms, q);
    SidecarInArchive(cfg.root, cfg.txid, p);
    if FirstAct(cfg, ms, p) == FirstAct(cfg, ms, q) {
      SameActSamePath(cfg, ms, p, q);
    }
    if FirstAct(cfg, ms, p) < FirstAct(cfg, ms, q) {
      assert Covers(cfg, t0, ms, |ms|, p, q);
    } else {
      assert CoveredBy(cfg, t0, ms, |ms|, q, p);
    }
  }

  lemma EnteredIsClash(cfg: Config, t0: Tree, ms: seq<Mutation>, l: Ledger, p: Path, o: Path)
    requires Plain(cfg, t0, ms, |ms|, l) && p in l.taken
    ensures p in l.covered ==>
      Clash(cfg, t0, ms, p, SidecarOf(p)) && FirstAct(cfg, ms, p) < FirstAct(cfg, ms, SidecarOf(p))
    ensures p in l.hidden && Hides(l, o, p) ==> Clash(cfg, t0, ms, o, p) && FirstAct(cfg, ms, p) < FirstAct(cfg, ms, o)
  {
    hide Touched, FirstAct;
    if p in l.hidden && Hides(l, o, p) {
      var o' :| CoveredBy(cfg, t0, ms, |ms|, p, o');
      SidecarInjective(o, o');
    }
  }

  lemma ServedMeansHarmless(cfg: Config, t0: Tree, ms: seq<Mutation>, l: Ledger)
    requires Plain(cfg, t0, ms, |ms|, l) && Sound(cfg, t0, l) && AllServed(cfg, t0, l)
    ensures ClashesAreHarmless(cfg, t0, ms)
  {
    hide Plain, Describes, FirstAct, MetaOf;
    forall p, q | Clash(cfg, t0, ms, p, q) ensures ServesBoth(cfg, t0, ms, p, q) {
      ClashIsEntered(cfg, t0, ms, l, p, q);
      assert Served(cfg, t0, l, p) && Served(cfg, t0, l, q);
    }
  }

  lemma HarmlessMeansServed(cfg: Config, t0: Tree, ms: seq<Mutation>, l: Ledger)
    requires Plain(cfg, t0, ms, |ms|, l) && Sound(cfg, t0, l) && ClashesAreHarmless(cfg, t0, ms)
    ensures AllServed(cfg, t0, l)
  {
    hide Plain, Describes, FirstAct, MetaOf;
    forall p | p in l.taken ensures Served(cfg, t0, l, p) {
      EnteredIsClash(cfg, t0, ms, l, p, []);
      forall o | p in l.hidden && Hides(l, o, p)
        ensures ServesBoth(cfg, t0, ms, o, p) && FirstAct(cfg, ms, p) < FirstAct(cfg, ms, o)
      {
        EnteredIsClash(cfg, t0, ms, l, p, o);
      }
    }
  }

  lemma NoClashNoEntry(cfg: Config, t0: Tree, ms: seq<Mutation>, l: Ledger)
    requires Plain(cfg, t0, ms, |ms|, l) && Sound(cfg, t0, l)
    ensures l.covered == {} && l.hidden == {} <==> NoClash(cfg, t0, ms)
  {
    hide Plain, FirstAct;
    if NoClash(cfg, t0, ms) {
      forall p ensures p !in l.covered && p !in l.hidden {
        if p in l.covered {
          EnteredIsClash(cfg, t0, ms, l, p, []);
        } else if p in l.hidden {
          var o :| Hides(l, o, p);
          EnteredIsClash(cfg, t0, ms, l, p, o);
        }
      }
    } else {
      var p, q :| Touched(cfg, t0, ms, p) && Touched(cfg, t0, ms, q) && p != [] && q == SidecarOf(p) && t0[q].File?;
      ClashIsEntered(cfg, t0, ms, l, p, q);
    }
  }

  /** Then the order in which two clashing paths are first acted on decides. */
  lemma UnnestedClashes(cfg: Config, t0: Tree, ms: seq<Mutation>)
    requires WellFormed(t0) && NoNesting(cfg, t0, ms) && WayOpen(cfg, t0, ms) && Sound(cfg, t0, LedgerOf(cfg, t0, ms))
    ensures AllServed(cfg, t0, LedgerOf(cfg, t0, ms)) <==> ClashesAreHarmless(cfg, t0, ms)
    ensures var l := LedgerOf(cfg, t0, ms); l.covered == {} && l.hidden == {} <==> NoClash(cfg, t0, ms)
  {
    hide LedgerOf, NoNesting, WayOpen, Plain, AllServed, ClashesAreHarmless, NoClash, Sound;
    var l := LedgerOf(cfg, t0, ms);
    assert ms[..|ms|] == ms;
    AlwaysPlain(cfg, t0, ms, |ms|);
    NoClashNoEntry(cfg, t0, ms, l);
    if AllServed(cfg, t0, l) {
      ServedMeansHarmless(cfg, t0, ms, l);
    }
    if ClashesAreHarmless(cfg, t0, ms) {
      HarmlessMeansServed(cfg, t0, ms, l);
    }
  }

  /** A clash whose second file holds a document for some other link loses one of the two. */
  lemma ClashLoses(cfg: Config, d: Disk, ms: seq<Mutation>, p: Path, q: Path, target: string)
    requires CleanRun(cfg, d, ms) && NoNesting(cfg, d.tree, ms) && WayOpen(cfg, d.tree, ms)
      && Clash(cfg, d.tree, ms, p, q)
    requires d.tree[q].content == Document(Meta([], false, None, None, None, Some(target)))
    requires d.tree[p].Link? ==> d.tree[p].target != target
    ensures !RoundTrips(cfg, d, ms)
  {
    hide RoundTrips, Touched, FirstAct, LedgerOf, NoNesting, WayOpen, RootUsable, AllServed, Sound;
    TouchedIsLeaf(cfg, d.tree, ms, p);
    TouchedIsLeaf(cfg, d.tree, ms, q);
    assert !ServesBoth(cfg, d.tree, ms, p, q);
    RoundTripDecided(cfg, d, ms);
    UnnestedClashes(cfg, d.tree, ms);
  }
}
