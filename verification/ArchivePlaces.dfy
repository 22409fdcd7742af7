/**
 The places a rollback uses in the archive: what each archived path writes there, what may
 stand in its way, and that without anything in the way every touched path is archived.
 */
module ArchivePlaces {
  import opened Paths
  import opened FileSystem
  import opened Archive
  import opened Review
  import opened Rollback
  import opened NoLoss
  import opened Pruning
  import opened RoundTrip

  /** Nothing is archived below another archived path's sidecar. */
  ghost predicate NoNesting(cfg: Config, t: Tree, ms: seq<Mutation>) {
    forall p, q | Touched(cfg, t, ms, p) && Touched(cfg, t, ms, q) && p != [] :: !(SidecarOf(p) < q)
  }

  /** What stands in the archive leaves room for `p`: its directories, its content, its sidecar. */
  ghost predicate RoomFor(cfg: Config, t: Tree, p: Path)
    requires p != []
  {
    var dest := Dest(cfg, p);
    && (forall x | x in t && x < dest :: t[x].Dir?)
    && (p in t && t[p].File? && dest in t ==> t[dest].File?)
    && (SidecarOf(dest) in t ==> t[SidecarOf(dest)].File?)
  }

  /** Nothing in the archive stands in the way of a touched path. */
  ghost predicate WayOpen(cfg: Config, t: Tree, ms: seq<Mutation>) {
    forall p | Touched(cfg, t, ms, p) && p != [] :: RoomFor(cfg, t, p)
  }

  /** For one, nothing does in an archive that holds nothing yet. */
  lemma EmptyArchiveIsOpen(cfg: Config, t: Tree, ms: seq<Mutation>)
    requires RootUsable(cfg, t) && forall x | x in t :: !(Zone(cfg.root, cfg.txid) < x)
    ensures WayOpen(cfg, t, ms)
  {
    forall p | Touched(cfg, t, ms, p) && p != [] ensures RoomFor(cfg, t, p) {
      var z, dest := Zone(cfg.root, cfg.txid), Dest(cfg, p);
      SidecarInArchive(cfg.root, cfg.txid, p);
      DestBelow(cfg, p, p);
      DestBelow(cfg, SidecarOf(p), p);
      forall x | x in t && x < dest ensures t[x].Dir? {
        PrefixesChain(x, z, dest);
      }
    }
  }

  function Dest(cfg: Config, p: Path): (r: Path)
    ensures r != []
  {
    ArchivePath(cfg.root, cfg.txid, p)
  }

  // ---- What the archive can hold ----

  ghost predicate IsContentOf(cfg: Config, t0: Tree, ms: seq<Mutation>, p: Path, x: Path, n: Node) {
    Touched(cfg, t0, ms, p) && x == Dest(cfg, p) && t0[p].File? && n.File? && n.content == t0[p].content
  }

  ghost predicate IsSidecarOf(cfg: Config, t0: Tree, ms: seq<Mutation>, p: Path, x: Path, n: Node) {
    Touched(cfg, t0, ms, p) && x == SidecarOf(Dest(cfg, p)) && n.File? && n.content == Document(MetaOf(p, t0[p], false))
  }

  ghost predicate IsDirAbove(cfg: Config, t0: Tree, ms: seq<Mutation>, p: Path, x: Path, n: Node) {
    Touched(cfg, t0, ms, p) && x < Dest(cfg, p) && n.Dir?
  }

  ghost predicate Explained(cfg: Config, t0: Tree, ms: seq<Mutation>, p: Path, x: Path, n: Node) {
    IsContentOf(cfg, t0, ms, p, x, n) || IsSidecarOf(cfg, t0, ms, p, x, n) || IsDirAbove(cfg, t0, ms, p, x, n)
  }

  /** It was there before, or it is a content, a sidecar or a directory for some touched path. */
  ghost predicate Known(cfg: Config, t0: Tree, ms: seq<Mutation>, x: Path, n: Node) {
    (x in t0 && t0[x] == n) || exists p :: Explained(cfg, t0, ms, p, x, n)
  }

  ghost predicate ArchiveExplained(cfg: Config, t0: Tree, ms: seq<Mutation>, t: Tree) {
    forall x | x in t && Zone(cfg.root, cfg.txid) < x :: Known(cfg, t0, ms, x, t[x])
  }

  ghost predicate Stored(cfg: Config, t0: Tree, d: Disk, p: Path)
    requires p in t0
  {
    && (cfg.txid, p) in d.rows && d.rows[(cfg.txid, p)].archivePath == Dest(cfg, p)
    && SidecarOf(Dest(cfg, p)) in d.tree && (t0[p].File? ==> Dest(cfg, p) in d.tree)
  }

  /** Outside the archive: what stood, unless it is gone. */
  ghost predicate SameOrGone(cfg: Config, t0: Tree, t: Tree) {
    && WellFormed(t) && Sealed(cfg, t)
    && (forall p | LeafAt(t, p) && !(Zone(cfg.root, cfg.txid) < p) :: p in t0 && t0[p] == t[p])
    && (forall p | LeafAt(t0, p) && !(Zone(cfg.root, cfg.txid) <= p) && p in t :: t[p] == t0[p])
  }

  ghost predicate InProgress(cfg: Config, t0: Tree, ms: seq<Mutation>, d: Disk) {
    && SameOrGone(cfg, t0, d.tree) && d.faults == []
    && ArchiveExplained(cfg, t0, ms, d.tree)
    && (forall p | Touched(cfg, t0, ms, p) && p !in d.tree :: Stored(cfg, t0, d, p))
    && (forall p | (cfg.txid, p) in d.rows :: Touched(cfg, t0, ms, p) && p !in d.tree)
  }

  lemma DestBelow(cfg: Config, p: Path, q: Path)
    ensures Dest(cfg, p) <= Dest(cfg, q) <==> p <= q
    ensures Dest(cfg, p) < Dest(cfg, q) <==> p < q
    ensures Dest(cfg, p) == Dest(cfg, q) <==> p == q
    ensures Zone(cfg.root, cfg.txid) < Dest(cfg, p) <==> p != []
  {
    var z := Zone(cfg.root, cfg.txid);
    assert Dest(cfg, p)[|z|..] == p && Dest(cfg, q)[|z|..] == q;
    if Dest(cfg, p) <= Dest(cfg, q) {
      assert q[..|p|] == Dest(cfg, q)[..|z| + |p|][|z|..] == p;
    }
  }

  /** Nothing in the archive stands in the way of archiving one more touched path. */
  lemma WayIsClear(cfg: Config, t0: Tree, ms: seq<Mutation>, d: Disk, q: Path, x: Path)
    requires WellFormed(t0) && NoNesting(cfg, t0, ms) && WayOpen(cfg, t0, ms) && RootUsable(cfg, t0)
    requires InProgress(cfg, t0, ms, d) && Touched(cfg, t0, ms, q) && q != [] && x in d.tree
    ensures x < Dest(cfg, q) ==> d.tree[x].Dir?
    ensures x == Dest(cfg, q) && t0[q].File? ==> d.tree[x].File?
    ensures x == SidecarOf(Dest(cfg, q)) ==> d.tree[x].File?
  {
    var z := Zone(cfg.root, cfg.txid);
    if z < x {
      assert Known(cfg, t0, ms, x, d.tree[x]);
      if x in t0 && t0[x] == d.tree[x] {
        assert RoomFor(cfg, t0, q);
      } else {
        var p :| Explained(cfg, t0, ms, p, x, d.tree[x]);
        ExplainedIsClear(cfg, t0, ms, p, q, x, d.tree[x]);
      }
    } else {
      SidecarInArchive(cfg.root, cfg.txid, q);
      DestBelow(cfg, q, q);
      DestBelow(cfg, SidecarOf(q), q);
      if x < Dest(cfg, q) {
        PrefixesChain(x, z, Dest(cfg, q));
        if LeafAt(d.tree, x) {
          assert false;
        }
      }
    }
  }

  lemma ExplainedIsClear(cfg: Config, t0: Tree, ms: seq<Mutation>, p: Path, q: Path, x: Path, n: Node)
    requires WellFormed(t0) && NoNesting(cfg, t0, ms) && Touched(cfg, t0, ms, q) && q != []
    requires Explained(cfg, t0, ms, p, x, n)
    ensures x < Dest(cfg, q) ==> n.Dir?
    ensures x == Dest(cfg, q) ==> n.File?
    ensures x == SidecarOf(Dest(cfg, q)) ==> n.File?
  {
    LeafIsChildless(t0, p);
    LeafIsChildless(t0, q);
    SidecarInArchive(cfg.root, cfg.txid, p);
    SidecarInArchive(cfg.root, cfg.txid, q);
    DestBelow(cfg, p, q);
    DestBelow(cfg, q, p);
    DestBelow(cfg, SidecarOf(p), q);
    DestBelow(cfg, SidecarOf(q), p);
    DestBelow(cfg, SidecarOf(p), SidecarOf(q));
  }

  lemma ExplainedAfterArchive(cfg: Config, t0: Tree, ms: seq<Mutation>, d: Disk, q: Path)
    requires WellFormed(t0) && NoNesting(cfg, t0, ms) && WayOpen(cfg, t0, ms) && RootUsable(cfg, t0)
    requires InProgress(cfg, t0, ms, d)
    requires Touched(cfg, t0, ms, q) && q != [] && LeafAt(d.tree, q) && d.tree[q] == t0[q]
    requires !(Zone(cfg.root, cfg.txid) <= q)
    ensures var r := ArchiveFile(cfg.root, cfg.txid, d, q, false);
      r.ok && r.disk.faults == [] && ArchiveExplained(cfg, t0, ms, r.disk.tree) && Stored(cfg, t0, r.disk, q)
  {
    hide Known, NoNesting, WayOpen, RootUsable, StoreRecord, StoreContent, RoomFor, Stored;
    var dest := Dest(cfg, q);
    ClearForArchiving(cfg, t0, ms, d, q);
    MakeDirsFrame(d, Parent(dest));
    DirsWithoutFaults(d, Parent(dest));
    var d1 := MakeDirs(d, Parent(dest)).disk;
    forall x | x in d1.tree && Zone(cfg.root, cfg.txid) < x ensures Known(cfg, t0, ms, x, d1.tree[x]) {
      if x !in d.tree {
        NewDirIsKnown(cfg, t0, ms, q, x, d1.tree[x]);
      }
    }
    StoreExplained(cfg, t0, ms, d1, q);
  }

  lemma ClearForArchiving(cfg: Config, t0: Tree, ms: seq<Mutation>, d: Disk, q: Path)
    requires WellFormed(t0) && NoNesting(cfg, t0, ms) && WayOpen(cfg, t0, ms) && RootUsable(cfg, t0)
    requires InProgress(cfg, t0, ms, d) && Touched(cfg, t0, ms, q) && q != []
    ensures var dest := Dest(cfg, q);
      && CanMakeDirs(d.tree, Parent(dest))
      && (t0[q].File? && dest in d.tree ==> d.tree[dest].File?)
      && (SidecarOf(dest) in d.tree ==> d.tree[SidecarOf(dest)].File?)
  {
    hide InProgress, NoNesting, WayOpen, RootUsable;
    var dest := Dest(cfg, q);
    forall x | x in d.tree && x <= Parent(dest) ensures d.tree[x].Dir? {
      assert x < dest;
      WayIsClear(cfg, t0, ms, d, q, x);
    }
    if dest in d.tree {
      WayIsClear(cfg, t0, ms, d, q, dest);
    }
    if SidecarOf(dest) in d.tree {
      WayIsClear(cfg, t0, ms, d, q, SidecarOf(dest));
    }
  }

  lemma NewDirIsKnown(cfg: Config, t0: Tree, ms: seq<Mutation>, q: Path, x: Path, n: Node)
    requires Touched(cfg, t0, ms, q) && n.Dir? && x <= Parent(Dest(cfg, q))
    ensures Known(cfg, t0, ms, x, n)
  {
    assert IsDirAbove(cfg, t0, ms, q, x, n);
    assert Explained(cfg, t0, ms, q, x, n);
  }

  lemma ContentIsKnown(cfg: Config, t0: Tree, ms: seq<Mutation>, q: Path, n: Node)
    requires Touched(cfg, t0, ms, q) && t0[q].File? && n.File? && n.content == t0[q].content
    ensures Known(cfg, t0, ms, Dest(cfg, q), n)
  {
    assert Explained(cfg, t0, ms, q, Dest(cfg, q), n);
  }

  lemma SidecarIsKnown(cfg: Config, t0: Tree, ms: seq<Mutation>, q: Path, n: Node)
    requires Touched(cfg, t0, ms, q) && n.File? && n.content == Document(MetaOf(q, t0[q], false))
    ensures Known(cfg, t0, ms, SidecarOf(Dest(cfg, q)), n)
  {
    assert Explained(cfg, t0, ms, q, SidecarOf(Dest(cfg, q)), n);
  }

  // ---- The two writes of an archiving, once the directories are there ----

  lemma ContentEffect(cfg: Config, d: Disk, q: Path)
    requires WellFormed(d.tree) && Sealed(cfg, d.tree) && d.faults == [] && LeafAt(d.tree, q) && q != []
    requires DirAt(d.tree, Parent(Dest(cfg, q)))
    ensures var r := StoreContent(d, q, Dest(cfg, q)); var x := Dest(cfg, q);
      && r.disk.faults == [] && r.disk.rows == d.rows && WellFormed(r.disk.tree) && Sealed(cfg, r.disk.tree)
      && (r.ok <==> (d.tree[q].File? ==> !DirAt(d.tree, x)))
      && (forall y | y != x :: (y in r.disk.tree <==> y in d.tree) && (y in d.tree ==> r.disk.tree[y] == d.tree[y]))
      && (if d.tree[q].File? && r.ok
          then x in r.disk.tree && r.disk.tree[x].File? && r.disk.tree[x].content == d.tree[q].content
            && r.disk.tree[x].perm == d.tree[q].perm
          else r.disk.tree == d.tree)
  {
    hide FollowUpTo;
    assert Zone(cfg.root, cfg.txid) <= Dest(cfg, q);
    ContentFrame(cfg, d, q);
  }

  lemma RecordEffect(cfg: Config, d: Disk, q: Path, n: Node)
    requires WellFormed(d.tree) && Sealed(cfg, d.tree) && d.faults == [] && !n.Dir? && q != []
    requires DirAt(d.tree, Parent(Dest(cfg, q)))
    ensures var r := StoreRecord(d, cfg.txid, q, n, Dest(cfg, q), false); var s := SidecarOf(Dest(cfg, q));
      && r.disk.faults == [] && (r.ok <==> !DirAt(d.tree, s))
      && (!r.ok ==> r.disk == d)
      && (r.ok ==> r.disk.rows == d.rows[(cfg.txid, q) := Row(Dest(cfg, q), false)]
                   && s in r.disk.tree && r.disk.tree[s].File?
                     && r.disk.tree[s].content == Document(MetaOf(q, n, false))
                   && (s in d.tree && d.tree[s].File? ==> r.disk.tree[s].perm == d.tree[s].perm))
      && (forall y | y != s :: (y in r.disk.tree <==> y in d.tree) && (y in d.tree ==> r.disk.tree[y] == d.tree[y]))
  {
    hide FollowUpTo, MetaOf;
    SidecarInArchive(cfg.root, cfg.txid, q);
  }

  lemma StoreExplained(cfg: Config, t0: Tree, ms: seq<Mutation>, d: Disk, q: Path)
    requires WellFormed(d.tree) && Sealed(cfg, d.tree) && d.faults == [] && ArchiveExplained(cfg, t0, ms, d.tree)
    requires Touched(cfg, t0, ms, q) && q != [] && q in d.tree && d.tree[q] == t0[q]
    requires DirAt(d.tree, Parent(Dest(cfg, q)))
    requires t0[q].File? && Dest(cfg, q) in d.tree ==> d.tree[Dest(cfg, q)].File?
    requires SidecarOf(Dest(cfg, q)) in d.tree ==> d.tree[SidecarOf(Dest(cfg, q))].File?
    ensures var dest := Dest(cfg, q); var r2 := StoreContent(d, q, dest);
      var r := StoreRecord(r2.disk, cfg.txid, q, t0[q], dest, false);
      && r2.ok && r.ok && r.disk.faults == [] && ArchiveExplained(cfg, t0, ms, r.disk.tree)
      && Stored(cfg, t0, r.disk, q)
  {
    hide Known, StoreContent, StoreRecord, SidecarOf, ArchivePath;
    var dest := Dest(cfg, q);
    SidecarInArchive(cfg.root, cfg.txid, q);
    DestBelow(cfg, q, SidecarOf(q));
    ContentEffect(cfg, d, q);
    var t2 := StoreContent(d, q, dest).disk.tree;
    forall x | x in t2 && Zone(cfg.root, cfg.txid) < x ensures Known(cfg, t0, ms, x, t2[x]) {
      if t0[q].File? && x == dest {
        ContentIsKnown(cfg, t0, ms, q, t2[x]);
      }
    }
    var d2 := StoreContent(d, q, dest).disk;
    RecordEffect(cfg, d2, q, t0[q]);
    var t3 := StoreRecord(d2, cfg.txid, q, t0[q], dest, false).disk.tree;
    forall x | x in t3 && Zone(cfg.root, cfg.txid) < x ensures Known(cfg, t0, ms, x, t3[x]) {
      if x == SidecarOf(dest) {
        SidecarIsKnown(cfg, t0, ms, q, t3[x]);
      }
    }
  }

  /** Taking away one entry outside the archive changes nothing in it. */
  lemma RemovalKeepsArchive(cfg: Config, t0: Tree, ms: seq<Mutation>, t: Tree, t': Tree, q: Path)
    requires ArchiveExplained(cfg, t0, ms, t) && !(Zone(cfg.root, cfg.txid) <= q)
    requires t' == t || t' == t - {q}
    ensures ArchiveExplained(cfg, t0, ms, t')
  {
    hide Known;
  }

  lemma StoredSurvives(cfg: Config, t0: Tree, d: Disk, d': Disk, p: Path)
    requires p in t0 && p != [] && Stored(cfg, t0, d, p)
    requires (cfg.txid, p) in d'.rows && d'.rows[(cfg.txid, p)] == d.rows[(cfg.txid, p)]
    requires forall x | x in d.tree && Zone(cfg.root, cfg.txid) < x :: x in d'.tree
    ensures Stored(cfg, t0, d', p)
  {
    SidecarInArchive(cfg.root, cfg.txid, p);
    DestBelow(cfg, p, p);
    DestBelow(cfg, SidecarOf(p), p);
  }

  lemma ArchivingSameOrGone(cfg: Config, t0: Tree, d: Disk, q: Path)
    requires WellFormed(t0) && RootUsable(cfg, t0) && SameOrGone(cfg, t0, d.tree)
    requires LeafAt(d.tree, q) && q != [] && !(Zone(cfg.root, cfg.txid) <= q)
    ensures var t := ArchiveFile(cfg.root, cfg.txid, d, q, false).disk.tree;
      && SameOrGone(cfg, t0, t) && LeafAt(t, q)
      && (forall p | LeafAt(t0, p) && !(Zone(cfg.root, cfg.txid) <= p) :: p in t <==> p in d.tree)
  {
    ArchiveFrame(cfg, d, q, false);
    ArchiveStaysInZone(cfg, d, q, false);
    DestBelow(cfg, q, q);
    DestBelow(cfg, SidecarOf(q), q);
    SidecarInArchive(cfg.root, cfg.txid, q);
  }

  lemma RemovalSameOrGone(cfg: Config, t0: Tree, t: Tree, q: Path)
    requires SameOrGone(cfg, t0, t) && LeafAt(t, q) && q != []
    ensures SameOrGone(cfg, t0, t - {q})
  {
    LeafIsChildless(t, q);
    RemoveFrame(t, q);
  }

  lemma RunningSweepsLeaf(cfg: Config, t0: Tree, ms: seq<Mutation>, d: Disk, q: Path)
    requires WellFormed(t0) && NoNesting(cfg, t0, ms) && WayOpen(cfg, t0, ms) && RootUsable(cfg, t0)
    requires InProgress(cfg, t0, ms, d)
    requires OutsideZone(cfg, ms)
    requires LeafAt(d.tree, q) && q != [] && !(Zone(cfg.root, cfg.txid) <= q) && Touched(cfg, t0, ms, q)
    ensures var d' := Sweep(cfg, d, q).disk;
      && InProgress(cfg, t0, ms, d') && q !in d'.tree
      && (forall p | LeafAt(t0, p) && !(Zone(cfg.root, cfg.txid) <= p) && p !in d.tree :: p !in d'.tree)
  {
    hide ArchiveFile, Stored, NoNesting, WayOpen, RootUsable, Known, ArchiveExplained, StoreRecord;
    ArchivingSameOrGone(cfg, t0, d, q);
    ExplainedAfterArchive(cfg, t0, ms, d, q);
    ArchiveAllOrNothing(cfg, d, q, false);
    var r := ArchiveFile(cfg.root, cfg.txid, d, q, false).disk;
    RemovalSameOrGone(cfg, t0, r.tree, q);
    var d' := Sweep(cfg, d, q).disk;
    assert d' == Discard(r, q).disk && d'.tree == r.tree - {q} && d'.rows == r.rows && d'.faults == [];
    RemovalKeepsArchive(cfg, t0, ms, r.tree, d'.tree, q);
    StoredAfterSweep(cfg, t0, ms, d, r, d', q);
  }

  lemma StoredAfterSweep(cfg: Config, t0: Tree, ms: seq<Mutation>, d: Disk, r: Disk, d': Disk, q: Path)
    requires WellFormed(t0) && WellFormed(d.tree) && Touched(cfg, t0, ms, q)
    requires q != [] && !(Zone(cfg.root, cfg.txid) <= q)
    requires r == ArchiveFile(cfg.root, cfg.txid, d, q, false).disk && Stored(cfg, t0, r, q)
    requires r.rows == d.rows[(cfg.txid, q) := Row(Dest(cfg, q), false)]
    requires d'.tree == r.tree - {q} && d'.rows == r.rows
    requires forall p | Touched(cfg, t0, ms, p) && p !in d.tree :: Stored(cfg, t0, d, p)
    requires forall p | LeafAt(t0, p) && !(Zone(cfg.root, cfg.txid) <= p) :: p in r.tree <==> p in d.tree
    requires OutsideZone(cfg, ms)
    ensures forall p | Touched(cfg, t0, ms, p) && p !in d'.tree :: Stored(cfg, t0, d', p)
  {
    hide ArchiveFile, Stored;
    ArchiveKeepsEntries(cfg, d, q);
    forall p | Touched(cfg, t0, ms, p) && p !in d'.tree ensures Stored(cfg, t0, d', p) {
      LeafIsChildless(t0, p);
      if p == q {
        StoredIn(cfg, t0, r, p);
        StoredSurvives(cfg, t0, r, d', p);
      } else {
        StoredIn(cfg, t0, d, p);
        StoredSurvives(cfg, t0, d, d', p);
      }
    }
  }

  lemma StoredIn(cfg: Config, t0: Tree, d: Disk, p: Path)
    requires p in t0 && Stored(cfg, t0, d, p)
    ensures (cfg.txid, p) in d.rows
  {
  }

  lemma ArchiveKeepsEntries(cfg: Config, d: Disk, q: Path)
    requires WellFormed(d.tree) && q != []
    ensures forall x | x in d.tree :: x in ArchiveFile(cfg.root, cfg.txid, d, q, false).disk.tree
  {
    hide MakeDirs, StoreContent, StoreRecord;
    if q in d.tree {
      var dest := Dest(cfg, q);
      MakeDirsFrame(d, Parent(dest));
      var r1 := MakeDirs(d, Parent(dest));
      if r1.ok {
        StoringKeepsEntries(r1.disk, cfg.txid, q, dest);
      }
    }
  }

  lemma StoringKeepsEntries(d: Disk, txid: int, q: Path, dest: Path)
    requires q in d.tree && dest != []
    ensures var r := StoreContent(d, q, dest);
      && (forall x | x in d.tree :: x in r.disk.tree)
      && (!d.tree[q].Dir? ==> forall x | x in d.tree ::
        x in StoreRecord(r.disk, txid, q, d.tree[q], dest, false).disk.tree)
  {
  }

  lemma RunningSweep(cfg: Config, t0: Tree, ms: seq<Mutation>, d: Disk, q: Path)
    requires WellFormed(t0) && NoNesting(cfg, t0, ms) && WayOpen(cfg, t0, ms) && RootUsable(cfg, t0)
    requires InProgress(cfg, t0, ms, d)
    requires q in d.tree && !(Zone(cfg.root, cfg.txid) <= q) && OutsideZone(cfg, ms)
    requires LeafAt(d.tree, q) ==> Touched(cfg, t0, ms, q)
    ensures var d' := Sweep(cfg, d, q).disk;
      && InProgress(cfg, t0, ms, d') && (LeafAt(d.tree, q) ==> q !in d'.tree)
      && (forall p | LeafAt(t0, p) && !(Zone(cfg.root, cfg.txid) <= p) && p !in d.tree :: p !in d'.tree)
  {
    if LeafAt(d.tree, q) {
      LeafIsChildless(d.tree, q);
      RunningSweepsLeaf(cfg, t0, ms, d, q);
    } else if q != [] {
      var d' := Sweep(cfg, d, q).disk;
      DiscardFrame(d, q);
      RemovalKeepsArchive(cfg, t0, ms, d.tree, d'.tree, q);
      forall p | Touched(cfg, t0, ms, p) && p !in d'.tree ensures Stored(cfg, t0, d', p) {
        LeafIsChildless(t0, p);
        assert p !in d.tree;
        StoredSurvives(cfg, t0, d, d', p);
      }
    }
  }
}
