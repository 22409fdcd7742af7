/** A rollback followed by `recover` gives back every file and link. */
module RoundTrip {
  import opened Paths
  import opened Ordering
  import opened FileSystem
  import opened Archive
  import opened Review
  import opened Rollback
  import opened NoLoss
  import opened Pruning

  /** Nothing but directories stands on the way to the transaction's archive. */
  ghost predicate RootUsable(cfg: Config, t: Tree) {
    forall q | q in t && q <= Zone(cfg.root, cfg.txid) :: t[q].Dir?
  }

  // ---- The disk between the two ----

  /**
   Outside the archive every file and link stands where and as it stood, or is gone; every
   row belongs to one that is gone and completely archived.
   */
  ghost predicate Between(cfg: Config, t0: Tree, d: Disk) {
    && WellFormed(d.tree) && Sealed(cfg, d.tree) && d.faults == []
    && (forall p | LeafAt(d.tree, p) && !(Zone(cfg.root, cfg.txid) <= p) :: p in t0 && t0[p] == d.tree[p])
    && (forall p | LeafAt(t0, p) && !(Zone(cfg.root, cfg.txid) <= p) && p in d.tree :: d.tree[p] == t0[p])
    && (forall p | (cfg.txid, p) in d.rows ::
          LeafAt(t0, p) && !(Zone(cfg.root, cfg.txid) <= p) && InArchive(cfg, d, p, t0[p]))
  }

  /** ... and what is gone has its row. */
  ghost predicate Complete(cfg: Config, t0: Tree, d: Disk) {
    forall p | LeafAt(t0, p) && !(Zone(cfg.root, cfg.txid) <= p) && p !in d.tree :: (cfg.txid, p) in d.rows
  }

  /** Without faults a row is only written when everything before it worked. */
  lemma ArchiveAllOrNothing(cfg: Config, d: Disk, p: Path, modified: bool)
    requires d.faults == []
    ensures var r := ArchiveFile(cfg.root, cfg.txid, d, p, modified);
      r.disk.faults == [] && (!r.ok ==> r.disk.rows == d.rows)
      && (r.ok && p in d.tree ==>
            r.disk.rows == d.rows[(cfg.txid, p) := Row(ArchivePath(cfg.root, cfg.txid, p), modified)])
  {
    if p in d.tree {
      var dest := ArchivePath(cfg.root, cfg.txid, p);
      var r1 := MakeDirs(d, Parent(dest));
      assert r1.disk.faults == [] && r1.disk.rows == d.rows;
      if r1.ok {
        assert p in r1.disk.tree;
        var r2 := StoreContent(r1.disk, p, dest);
        assert r2.disk.faults == [] && r2.disk.rows == d.rows;
        if r2.ok && !d.tree[p].Dir? {
          RecordAllOrNothing(cfg, r2.disk, p, d.tree[p], modified);
        }
      }
    }
  }

  lemma RecordAllOrNothing(cfg: Config, d: Disk, p: Path, n: Node, modified: bool)
    requires d.faults == [] && !n.Dir?
    ensures var dest := ArchivePath(cfg.root, cfg.txid, p); var r := StoreRecord(d, cfg.txid, p, n, dest, modified);
      r.disk.faults == [] && r.disk.rows == if r.ok then d.rows[(cfg.txid, p) := Row(dest, modified)] else d.rows
  {
  }

  lemma SweepRows(cfg: Config, t0: Tree, ms: seq<Mutation>, d: Disk, q: Path)
    requires WellFormed(t0) && NoClash(cfg, t0, ms) && WellFormed(d.tree) && Sealed(cfg, d.tree) && d.faults == []
    requires LeafAt(d.tree, q) && q != [] && !(Zone(cfg.root, cfg.txid) <= q)
    requires Touched(cfg, t0, ms, q) && d.tree[q] == t0[q]
    requires forall p | (cfg.txid, p) in d.rows ::
      Touched(cfg, t0, ms, p) && p != q && p != [] && InArchive(cfg, d, p, t0[p])
    ensures var d' := Sweep(cfg, d, q).disk;
      && d'.faults == []
      && (forall p | (cfg.txid, p) in d'.rows :: Touched(cfg, t0, ms, p) && p != [] && InArchive(cfg, d', p, t0[p]))
      && (forall p | (cfg.txid, p) in d'.rows :: p == q || (cfg.txid, p) in d.rows)
      && (forall p | (cfg.txid, p) in d.rows :: (cfg.txid, p) in d'.rows)
      && ((cfg.txid, q) in d'.rows <==> q !in d'.tree)
  {
    ArchiveFrame(cfg, d, q, false);
    ArchiveAllOrNothing(cfg, d, q, false);
    ArchiveStaysInZone(cfg, d, q, false);
    var r := ArchiveFile(cfg.root, cfg.txid, d, q, false);
    var d' := Sweep(cfg, d, q).disk;
    forall p | (cfg.txid, p) in r.disk.rows ensures InArchive(cfg, d', p, t0[p]) && Touched(cfg, t0, ms, p) && p != [] {
      if p != q {
        ArchivedSurvives(cfg, t0, ms, d, q, p, false);
      }
      if r.ok {
        DiscardKeepsArchived(cfg, r.disk, q, p, t0[p]);
      }
    }
  }

  /** The state of the mutation loop of a fault-free rollback. */
  ghost predicate Midway(cfg: Config, t0: Tree, ms: seq<Mutation>, d: Disk) {
    && Between(cfg, t0, d) && Complete(cfg, t0, d)
    && forall p | (cfg.txid, p) in d.rows :: p !in d.tree && p != [] && Touched(cfg, t0, ms, p)
  }

  lemma MidwaySweep(cfg: Config, t0: Tree, ms: seq<Mutation>, d: Disk, q: Path)
    requires WellFormed(t0) && NoClash(cfg, t0, ms) && RootUsable(cfg, t0)
    requires Midway(cfg, t0, ms, d) && q in d.tree && !(Zone(cfg.root, cfg.txid) <= q)
    requires LeafAt(d.tree, q) ==> Touched(cfg, t0, ms, q)
    ensures Midway(cfg, t0, ms, Sweep(cfg, d, q).disk)
  {
    if LeafAt(d.tree, q) {
      MidwayLeaf(cfg, t0, ms, d, q);
    } else {
      hide NoClash, RootUsable, Touched, SidecarAt;
      if q != [] {
        DiscardFrame(d, q);
      }
      var d' := Sweep(cfg, d, q).disk;
      forall p | (cfg.txid, p) in d'.rows ensures InArchive(cfg, d', p, t0[p]) {
        DirRemovalKeepsArchive(cfg, d, d', q, p, t0[p]);
      }
    }
  }

  /** What a leaf's sweep leaves outside the archive. */
  lemma LeafSweepFrame(cfg: Config, d: Disk, q: Path)
    requires WellFormed(d.tree) && Sealed(cfg, d.tree) && LeafAt(d.tree, q)
    requires q != [] && !(Zone(cfg.root, cfg.txid) <= q)
    ensures var t' := Sweep(cfg, d, q).disk.tree;
      && WellFormed(t') && Sealed(cfg, t')
      && forall p {:trigger p in t'} | p != q && !(Zone(cfg.root, cfg.txid) <= p) :: (
           (p in d.tree ==> p in t' && t'[p] == d.tree[p])
             && (p in t' && p !in d.tree ==> t'[p].Dir? && p <= Zone(cfg.root, cfg.txid)))
    ensures var t' := Sweep(cfg, d, q).disk.tree; q in t' ==> t'[q] == d.tree[q]
  {
    hide ArchiveFile, Discard, OnlySlots, InArchive;
    ArchiveFrame(cfg, d, q, false);
    ArchiveStaysInZone(cfg, d, q, false);
    var r := ArchiveFile(cfg.root, cfg.txid, d, q, false);
    if r.ok {
      DiscardFrame(r.disk, q);
    }
  }

  lemma MidwayLeaf(cfg: Config, t0: Tree, ms: seq<Mutation>, d: Disk, q: Path)
    requires WellFormed(t0) && NoClash(cfg, t0, ms) && RootUsable(cfg, t0)
    requires Midway(cfg, t0, ms, d) && LeafAt(d.tree, q) && !(Zone(cfg.root, cfg.txid) <= q) && Touched(cfg, t0, ms, q)
    ensures Midway(cfg, t0, ms, Sweep(cfg, d, q).disk)
  {
    hide Sweep, NoClash, InArchive;
    LeafIsChildless(d.tree, q);
    SweepRows(cfg, t0, ms, d, q);
    LeafSweepFrame(cfg, d, q);
    var d' := Sweep(cfg, d, q).disk;
    forall p | LeafAt(t0, p) && !(Zone(cfg.root, cfg.txid) <= p) && p in d'.tree ensures d'.tree[p] == t0[p] {
      if p !in d.tree && p <= Zone(cfg.root, cfg.txid) {
        assert false;
      }
    }
  }

  lemma TouchedHere(cfg: Config, t0: Tree, all: seq<Mutation>, d: Disk, k: nat)
    requires Between(cfg, t0, d) && OutsideZone(cfg, all) && k < |all| && Acts(cfg, all[k])
    ensures !(Zone(cfg.root, cfg.txid) <= all[k].path)
    ensures LeafAt(d.tree, all[k].path) ==> Touched(cfg, t0, all, all[k].path)
  {
    hide Acts, InArchive, WellFormed;
  }

  lemma {:induction false} RunStaysMidway(cfg: Config, t0: Tree, all: seq<Mutation>, d: Disk, rep: Report, k: nat)
    requires TrackedApp(cfg) && WellFormed(t0) && NoClash(cfg, t0, all) && OutsideZone(cfg, all) && RootUsable(cfg, t0)
    requires k <= |all| && Midway(cfg, t0, all, d)
    ensures Midway(cfg, t0, all, RunAll(cfg, d, rep, all[k..]).disk)
    decreases |all| - k
  {
    hide Step, NoClash, RootUsable, Between, Complete, Touched, WellFormed, Acts, TrackedApp, InArchive;
    if k < |all| {
      var m := all[k];
      assert all[k..][0] == m && all[k..][1..] == all[k + 1..];
      StepSweeps(cfg, d, m);
      var v := Step(cfg, d, m);
      if Acts(cfg, m) && m.path in d.tree {
        TouchedHere(cfg, t0, all, d, k);
        MidwaySweep(cfg, t0, all, d, m.path);
      }
      RunStaysMidway(cfg, t0, all, v.disk, Note(rep, m.path, v.outcome), k + 1);
    }
  }

  // ---- Recovering ----

  ghost predicate SameElsewhere(t: Tree, t': Tree, p: Path) {
    && (forall q | q in t && q != p :: q in t' && t'[q] == t[q])
    && (forall q | q in t' && q !in t && q != p :: t'[q].Dir? && q < p)
  }

  lemma OwnershipRestored(d: Disk, src: Path, dest: Path, n: Node)
    requires d.faults == [] && src != [] && !n.Dir? && LeafAt(d.tree, dest) && SidecarOf(src) != dest
    requires var m := SidecarAt(d.tree, src); m.Some? && m.value == MetaOf(dest, n, m.value.modified)
    requires n.File? ==> d.tree[dest].File? && d.tree[dest].content == n.content
    requires n.Link? ==> d.tree[dest].Link? && d.tree[dest].target == n.target
    ensures RestoreOwnership(d, src, dest) == d.(tree := d.tree[dest := n])
  {
    var m := SidecarAt(d.tree, src).value;
    if n.File? {
      assert m.mode.value % 4096 == n.perm by {
        assert S_IFREG == 8 * 4096;
      }
      var c := d.tree[dest];
      assert SetOwner(SetMode(d, dest, m.mode.value), dest, n.uid, n.gid).tree[dest] == n;
    }
  }

  lemma ParentCanBeMade(cfg: Config, t0: Tree, d: Disk, p: Path)
    requires WellFormed(t0) && Between(cfg, t0, d)
    requires LeafAt(t0, p) && !(Zone(cfg.root, cfg.txid) <= p)
    ensures p != [] && CanMakeDirs(d.tree, Parent(p))
  {
    LeafIsChildless(t0, p);
    forall q | q in d.tree && q <= Parent(p) ensures d.tree[q].Dir? {
      assert q < p && DirAt(t0, q);
      if !d.tree[q].Dir? {
        assert LeafAt(d.tree, q) && !(Zone(cfg.root, cfg.txid) <= q);
        assert false;
      }
    }
  }

  /** The sidecar beside `src` describes `n`, which once stood at `p`, and `p` is free for it. */
  ghost predicate Recoverable(d: Disk, src: Path, p: Path, n: Node) {
    && WellFormed(d.tree) && d.faults == [] && src != [] && p != [] && !n.Dir?
    && CanMakeDirs(d.tree, Parent(p)) && SidecarOf(src) != p
    && (p in d.tree ==> d.tree[p] == n)
    && var m := SidecarAt(d.tree, src); m.Some? && m.value == MetaOf(p, n, m.value.modified)
  }

  ghost predicate BackInPlace(d: Disk, r: Result, p: Path, n: Node) {
    && r.ok && r.disk.faults == [] && r.disk.rows == d.rows
    && p in r.disk.tree && r.disk.tree[p] == n
    && WellFormed(r.disk.tree) && SameElsewhere(d.tree, r.disk.tree, p)
  }

  lemma DirsWithoutFaults(d: Disk, p: Path)
    requires d.faults == [] && CanMakeDirs(d.tree, p)
    ensures MakeDirs(d, p).ok && MakeDirs(d, p).disk.faults == []
  {
  }

  lemma MakeRoom(d: Disk, p: Path, n: Node)
    requires WellFormed(d.tree) && d.faults == [] && p != [] && DirAt(d.tree, Parent(p))
    requires p in d.tree ==> d.tree[p] == n && !n.Dir?
    ensures var d' := RemoveFile(d, p).disk;
      && WellFormed(d'.tree) && d'.faults == [] && d'.rows == d.rows && p !in d'.tree && DirAt(d'.tree, Parent(p))
      && d'.tree == d.tree - {p}
  {
    if p in d.tree {
      LeafIsChildless(d.tree, p);
      RemoveFrame(d.tree, p);
    }
  }

  lemma LinkRecovers(d: Disk, src: Path, p: Path, n: Node)
    requires Recoverable(d, src, p, n) && n.Link?
    ensures BackInPlace(d, RecoverLink(d, n.target, src, p), p, n)
  {
    hide MetaOf, RestoreOwnership, WellFormed, MakeDirs, RemoveFile;
    MakeDirsFrame(d, Parent(p));
    DirsWithoutFaults(d, Parent(p));
    var d1 := MakeDirs(d, Parent(p)).disk;
    var d2 := RemoveFile(d1, p).disk;
    MakeRoom(d1, p, n);
    var r := MakeLink(d2, n.target, p);
    LinkFrame(d2.tree, n.target, p);
    OwnershipRestored(r.disk, src, p, n);
    ReplaceKeepsShape(r.disk.tree, p, n);
  }

  lemma ContentRecovers(d: Disk, src: Path, p: Path, n: Node)
    requires Recoverable(d, src, p, n) && n.File? && src != p
    requires src in d.tree && d.tree[src].File? && d.tree[src].content == n.content
    ensures BackInPlace(d, RecoverContent(d, src, p), p, n)
  {
    hide MetaOf, RestoreOwnership, WellFormed, MakeDirs;
    MakeDirsFrame(d, Parent(p));
    DirsWithoutFaults(d, Parent(p));
    var d1 := MakeDirs(d, Parent(p)).disk;
    CopyFrame(d1, src, p);
    var r := Copy(d1, src, p);
    OwnershipRestored(r.disk, src, p, n);
    ReplaceKeepsShape(r.disk.tree, p, n);
  }

  lemma RowRecovers(cfg: Config, t0: Tree, d: Disk, p: Path)
    requires WellFormed(t0) && Between(cfg, t0, d) && (cfg.txid, p) in d.rows
    ensures BackInPlace(d, RecoverRow(d, d.rows[(cfg.txid, p)].archivePath, p), p, t0[p])
  {
    hide WellFormed, RecoverLink, RecoverContent, CanMakeDirs;
    var n := t0[p];
    var src := d.rows[(cfg.txid, p)].archivePath;
    ParentCanBeMade(cfg, t0, d, p);
    SidecarInArchive(cfg.root, cfg.txid, p);
    assert src == ArchivePath(cfg.root, cfg.txid, p) && Zone(cfg.root, cfg.txid) <= src;
    assert Read(d).disk == d;
    if n.Link? {
      LinkRecovers(d, src, p, n);
    } else {
      ContentRecovers(d, src, p, n);
    }
  }

  lemma LinkFrame(t: Tree, target: string, p: Path)
    requires WellFormed(t) && p != [] && p !in t && DirAt(t, Parent(p))
    ensures WellFormed(t[p := Link(target, 0, 0)])
  {
    var t' := t[p := Link(target, 0, 0)];
    forall x, y | x in t' && y < x ensures DirAt(t', y) {
      if x == p {
        PrefixesChain(y, Parent(p), p);
        assert y == Parent(p) || DirAt(t, y);
      } else {
        assert DirAt(t, y);
      }
    }
  }

  lemma ReplaceKeepsShape(t: Tree, p: Path, n: Node)
    requires WellFormed(t) && LeafAt(t, p) && !n.Dir?
    ensures WellFormed(t[p := n])
  {
    var t' := t[p := n];
    forall x, y | x in t' && y < x ensures DirAt(t', y) {
      assert x in t && DirAt(t, y);
    }
  }

  lemma RowKeepsBetween(cfg: Config, t0: Tree, d: Disk, p: Path)
    requires WellFormed(t0) && Between(cfg, t0, d) && (cfg.txid, p) in d.rows
    ensures Between(cfg, t0, RecoverRow(d, d.rows[(cfg.txid, p)].archivePath, p).disk)
  {
    RowRecovers(cfg, t0, d, p);
    var d' := RecoverRow(d, d.rows[(cfg.txid, p)].archivePath, p).disk;
    forall q | LeafAt(t0, q) && !(Zone(cfg.root, cfg.txid) <= q) && q in d'.tree ensures d'.tree[q] == t0[q] {
      if q !in d.tree && q < p {
        LeafIsChildless(t0, q);
        assert false;
      }
    }
    forall q | (cfg.txid, q) in d'.rows ensures InArchive(cfg, d', q, t0[q]) {
      LeafIsChildless(t0, q);
      SidecarInArchive(cfg.root, cfg.txid, q);
      assert Zone(cfg.root, cfg.txid) <= ArchivePath(cfg.root, cfg.txid, q);
    }
  }

  lemma {:induction false} RowsRecover(cfg: Config, t0: Tree, d: Disk, rows: seq<(Path, Path)>)
    requires WellFormed(t0) && Between(cfg, t0, d)
    requires forall i | 0 <= i < |rows| ::
      (cfg.txid, rows[i].0) in d.rows && d.rows[(cfg.txid, rows[i].0)].archivePath == rows[i].1
    ensures var r := RecoverRows(d, rows);
      && Between(cfg, t0, r.disk) && r.disk.rows == d.rows
      && r.recovered == seq(|rows|, i requires 0 <= i < |rows| => rows[i].0)
      && (forall p | InPlaceLeaf(cfg, t0, d, p) :: InPlace(t0, r.disk, p))
      && (forall i | 0 <= i < |rows| :: InPlace(t0, r.disk, rows[i].0))
    decreases rows
  {
    hide RecoverRow, Between, InArchive;
    if rows != [] {
      var (p, src) := rows[0];
      RowRecovers(cfg, t0, d, p);
      RowKeepsBetween(cfg, t0, d, p);
      var r := RecoverRow(d, src, p);
      RowsRecover(cfg, t0, r.disk, rows[1..]);
      forall q | InPlaceLeaf(cfg, t0, d, q) ensures InPlaceLeaf(cfg, t0, r.disk, q) {
      }
      assert InPlaceLeaf(cfg, t0, r.disk, p);
      assert forall i | 1 <= i < |rows| :: rows[i] == rows[1..][i - 1];
    }
  }

  ghost predicate InPlaceLeaf(cfg: Config, t0: Tree, d: Disk, p: Path) {
    LeafAt(t0, p) && !(Zone(cfg.root, cfg.txid) <= p) && InPlace(t0, d, p)
  }

  // ---- The theorem ----

  /** A transaction that has archived nothing yet. */
  ghost predicate FreshStart(cfg: Config, d: Disk) {
    WellFormed(d.tree) && Sealed(cfg, d.tree) && RootUsable(cfg, d.tree) && forall p :: (cfg.txid, p) !in d.rows
  }

  lemma ExecuteReachesBetween(cfg: Config, d: Disk, ms: seq<Mutation>)
    requires TrackedApp(cfg) && FreshStart(cfg, d) && d.faults == []
    requires OutsideZone(cfg, ms) && NoClash(cfg, d.tree, ms)
    ensures Between(cfg, d.tree, Execute(cfg, d, ms).disk) && Complete(cfg, d.tree, Execute(cfg, d, ms).disk)
  {
    assert ms == ms[0..];
    RunStaysMidway(cfg, d.tree, ms, d, EMPTY_REPORT, 0);
    var run := RunAll(cfg, d, EMPTY_REPORT, ms);
    var starts := ParentsOf(run.report.removed + run.report.archived);
    PruneAllRemains(run.disk.tree, (set p | p in starts), run.disk, starts);
    var d' := Execute(cfg, d, ms).disk;
    forall p | p in run.disk.tree && p !in d'.tree ensures run.disk.tree[p].Dir? {
      assert Doomed(run.disk.tree, (set p | p in starts), p);
    }
    forall p | (cfg.txid, p) in d'.rows ensures InArchive(cfg, d', p, d.tree[p]) {
      assert InArchive(cfg, run.disk, p, d.tree[p]);
    }
  }

  ghost predicate RoundTrips(cfg: Config, d: Disk, ms: seq<Mutation>) {
    var after := Execute(cfg, d, ms).disk;
    forall rows | RowsOf(after, cfg.txid, rows) ::
      Leaves(RecoverRows(after, rows).disk.tree, Zone(cfg.root, cfg.txid)) ==
      Leaves(d.tree, Zone(cfg.root, cfg.txid))
  }

  /** After all rows of such a disk every file and link outside the archive is back. */
  lemma BetweenRecovers(cfg: Config, t0: Tree, after: Disk, rows: seq<(Path, Path)>)
    requires WellFormed(t0) && Between(cfg, t0, after) && Complete(cfg, t0, after) && RowsOf(after, cfg.txid, rows)
    ensures Leaves(RecoverRows(after, rows).disk.tree, Zone(cfg.root, cfg.txid)) == Leaves(t0, Zone(cfg.root, cfg.txid))
  {
    hide RecoverRows, InArchive, Between;
    RowsRecover(cfg, t0, after, rows);
    var t, zone := RecoverRows(after, rows).disk.tree, Zone(cfg.root, cfg.txid);
    forall p | LeafAt(t0, p) && !(zone <= p) ensures p in t && t[p] == t0[p] {
      OnePathRecovers(cfg, t0, after, rows, p);
    }
    forall p | LeafAt(t, p) && !(zone <= p) ensures p in t0 && t0[p] == t[p] {
      OnlyOldLeaves(cfg, t0, RecoverRows(after, rows).disk, p);
    }
  }

  lemma OnlyOldLeaves(cfg: Config, t0: Tree, d: Disk, p: Path)
    requires Between(cfg, t0, d) && LeafAt(d.tree, p) && !(Zone(cfg.root, cfg.txid) <= p)
    ensures p in t0 && t0[p] == d.tree[p]
  {
    hide InArchive, WellFormed;
  }

  /** A path still in its place stays, one that is gone is in some row. */
  lemma OnePathRecovers(cfg: Config, t0: Tree, after: Disk, rows: seq<(Path, Path)>, p: Path)
    requires WellFormed(t0) && Between(cfg, t0, after) && Complete(cfg, t0, after) && RowsOf(after, cfg.txid, rows)
    requires LeafAt(t0, p) && !(Zone(cfg.root, cfg.txid) <= p)
    ensures InPlace(t0, RecoverRows(after, rows).disk, p)
  {
    hide RecoverRows, InArchive;
    RowsRecover(cfg, t0, after, rows);
    if p in after.tree {
      assert InPlaceLeaf(cfg, t0, after, p);
    } else {
      assert (p, after.rows[(cfg.txid, p)].archivePath) in rows;
    }
  }

  /**
   Rollback, pruning and recovery are the identity on files and links outside the archive:
   bytes, permission bits, owners and link targets, for every list of mutations and every
   order in which the rows come back.
   */
  lemma RollbackThenRecover(cfg: Config, d: Disk, ms: seq<Mutation>)
    requires TrackedApp(cfg) && FreshStart(cfg, d) && d.faults == []
    requires OutsideZone(cfg, ms) && NoClash(cfg, d.tree, ms)
    ensures RoundTrips(cfg, d, ms)
  {
    hide NoClash, Execute, RecoverRows, Leaves, Between, Complete;
    ExecuteReachesBetween(cfg, d, ms);
    var after := Execute(cfg, d, ms).disk;
    forall rows | RowsOf(after, cfg.txid, rows)
      ensures Leaves(RecoverRows(after, rows).disk.tree, Zone(cfg.root, cfg.txid)) ==
        Leaves(d.tree, Zone(cfg.root, cfg.txid))
    {
      BetweenRecovers(cfg, d.tree, after, rows);
    }
  }
}
