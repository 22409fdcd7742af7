/** A path with a pre-install blob ends with the blob's bytes and metadata. */
module Baseline {
  import opened Paths
  import opened FileSystem
  import opened Links
  import opened Archive
  import opened Review
  import opened Rollback
  import opened NoLoss
  import opened NeverDelete
  import opened Pruning
  import opened ArchiveKinds
  import opened ArchivePlaces
  import opened Recovery
  import opened StepFrames
  import opened Limits

  // ---- All a step on `q` can put on the disk ----

  /** `l` is where a blob written back at `q` lands. */
  ghost predicate Appears(cfg: Config, t: Tree, q: Path, l: Path, x: Path, n: Node) {
    || (x == l && n.File? && q in cfg.blobs)
    || (n.Dir? && ((x < q && q in cfg.blobs) || (x < Dest(cfg, q) && q in t)))
    || (x == Dest(cfg, q) && n.File? && q in t && t[q].File?)
    || (x == SidecarOf(Dest(cfg, q)) && n.File? && q in t)
  }

  ghost predicate Shaped(cfg: Config, t: Tree, t': Tree, q: Path, l: Path) {
    && (forall x | x in t' :: (x in t && t'[x] == t[x]) || Appears(cfg, t, q, l, x, t'[x]))
    && (forall x | LeafAt(t, x) && x != q && !(x == l && q in cfg.blobs) && x != Dest(cfg, q)
      && x != SidecarOf(Dest(cfg, q)) ::
          x in t' && t'[x] == t[x])
  }

  lemma ShapedTwice(cfg: Config, t: Tree, t1: Tree, t2: Tree, q: Path, l: Path)
    requires Shaped(cfg, t, t1, q, l) && Shaped(cfg, t1, t2, q, l) && q in t && q in t1 && t1[q] == t[q]
    ensures Shaped(cfg, t, t2, q, l)
  {
  }

  lemma ContentShaped(cfg: Config, d: Disk, q: Path, l: Path)
    requires WellFormed(d.tree) && Sealed(cfg, d.tree) && q in d.tree && !d.tree[q].Dir? && q != []
    ensures Shaped(cfg, d.tree, StoreContent(d, q, Dest(cfg, q)).disk.tree, q, l)
  {
    hide FollowUpTo;
    CopyFrame(d, q, Dest(cfg, q));
    assert Zone(cfg.root, cfg.txid) <= Dest(cfg, q);
  }

  lemma RecordShaped(cfg: Config, d: Disk, q: Path, n: Node, modified: bool, l: Path)
    requires WellFormed(d.tree) && Sealed(cfg, d.tree) && q in d.tree && !n.Dir? && q != []
    ensures Shaped(cfg, d.tree, StoreRecord(d, cfg.txid, q, n, Dest(cfg, q), modified).disk.tree, q, l)
  {
    hide FollowUpTo;
    WriteFrame(d, SidecarOf(Dest(cfg, q)), Document(MetaOf(q, n, modified)));
    SidecarInArchive(cfg.root, cfg.txid, q);
  }

  lemma StoreShaped(cfg: Config, d: Disk, q: Path, modified: bool, l: Path)
    requires WellFormed(d.tree) && Sealed(cfg, d.tree)
    requires q in d.tree && !d.tree[q].Dir? && !(Zone(cfg.root, cfg.txid) <= q) && q != []
    ensures var dest := Dest(cfg, q); var r2 := StoreContent(d, q, dest);
      var r := StoreRecord(r2.disk, cfg.txid, q, d.tree[q], dest, modified);
      Shaped(cfg, d.tree, r2.disk.tree, q, l) && Shaped(cfg, d.tree, r.disk.tree, q, l)
  {
    hide FollowUpTo, Shaped, StoreRecord;
    var dest := Dest(cfg, q);
    var r2 := StoreContent(d, q, dest);
    CopyFrame(d, q, dest);
    ContentShaped(cfg, d, q, l);
    assert Zone(cfg.root, cfg.txid) <= dest;
    assert Sealed(cfg, r2.disk.tree);
    RecordShaped(cfg, r2.disk, q, d.tree[q], modified, l);
    ShapedTwice(cfg, d.tree, r2.disk.tree, StoreRecord(r2.disk, cfg.txid, q, d.tree[q], dest, modified).disk.tree, q,
      l);
  }

  lemma ArchiveShaped(cfg: Config, d: Disk, q: Path, modified: bool, l: Path)
    requires WellFormed(d.tree) && Sealed(cfg, d.tree) && !(Zone(cfg.root, cfg.txid) <= q)
    ensures Shaped(cfg, d.tree, ArchiveFile(cfg.root, cfg.txid, d, q, modified).disk.tree, q, l)
  {
    hide FollowUpTo, Copy, Write;
    if q in d.tree {
      var dest := Dest(cfg, q);
      MakeDirsFrame(d, Parent(dest));
      var r1 := MakeDirs(d, Parent(dest));
      assert Shaped(cfg, d.tree, r1.disk.tree, q, l);
      if r1.ok {
        if d.tree[q].Dir? {
          DirIsNotStored(r1.disk, q, dest);
        } else {
          LeafIsChildless(d.tree, q);
          StoreShaped(cfg, r1.disk, q, modified, l);
          var r2 := StoreContent(r1.disk, q, dest);
          ShapedTwice(cfg, d.tree, r1.disk.tree, r2.disk.tree, q, l);
          if r2.ok {
            var r3 := StoreRecord(r2.disk, cfg.txid, q, d.tree[q], dest, modified);
            ShapedTwice(cfg, d.tree, r1.disk.tree, r3.disk.tree, q, l);
          }
        }
      }
    }
  }

  lemma BlobShaped(cfg: Config, d: Disk, q: Path)
    requires WellFormed(d.tree)
    ensures Shaped(cfg, d.tree, RestoreBlob(cfg, d, q).disk.tree, q, Follow(d.tree, q))
  {
    hide RestoreBlob, WellFormed, Follow;
    BlobFrame(cfg, d, q);
  }

  lemma RemovalShaped(cfg: Config, d: Disk, q: Path, l: Path)
    ensures Shaped(cfg, d.tree, Discard(d, q).disk.tree, q, l)
    ensures Shaped(cfg, d.tree, RemoveFile(d, q).disk.tree, q, l)
  {
  }

  lemma ArchiveThenGoneShaped(cfg: Config, d: Disk, q: Path, modified: bool, l: Path)
    requires WellFormed(d.tree) && Sealed(cfg, d.tree) && !(Zone(cfg.root, cfg.txid) <= q) && q in d.tree
    ensures var r := ArchiveFile(cfg.root, cfg.txid, d, q, modified).disk;
      && Shaped(cfg, d.tree, r.tree, q, l)
      && Shaped(cfg, d.tree, Discard(r, q).disk.tree, q, l)
      && Shaped(cfg, d.tree, RemoveFile(r, q).disk.tree, q, l)
  {
    hide ArchiveFile, Discard, RemoveFile, Shaped;
    ArchiveShaped(cfg, d, q, modified, l);
    ArchiveKeeps(cfg, d, q, modified);
    var r := ArchiveFile(cfg.root, cfg.txid, d, q, modified).disk;
    RemovalShaped(cfg, r, q, l);
    ShapedTwice(cfg, d.tree, r.tree, Discard(r, q).disk.tree, q, l);
    ShapedTwice(cfg, d.tree, r.tree, RemoveFile(r, q).disk.tree, q, l);
  }

  lemma ArchiveThenBlobShaped(cfg: Config, d: Disk, q: Path)
    requires WellFormed(d.tree) && Sealed(cfg, d.tree) && !(Zone(cfg.root, cfg.txid) <= q) && q in d.tree
    ensures var r, l := ArchiveFile(cfg.root, cfg.txid, d, q, true).disk, Follow(d.tree, q);
      && Shaped(cfg, d.tree, r.tree, q, l)
      && Shaped(cfg, d.tree, RestoreBlob(cfg, r, q).disk.tree, q, l)
  {
    hide ArchiveFile, RestoreBlob, Shaped, Follow;
    var l := Follow(d.tree, q);
    ArchiveShaped(cfg, d, q, true, l);
    ArchiveKeeps(cfg, d, q, true);
    ArchiveKeepsLinks(cfg, d, q, true);
    var r := ArchiveFile(cfg.root, cfg.txid, d, q, true).disk;
    FollowSame(d.tree, r.tree, q);
    BlobShaped(cfg, r, q);
    ShapedTwice(cfg, d.tree, r.tree, RestoreBlob(cfg, r, q).disk.tree, q, l);
  }

  lemma SweepShaped(cfg: Config, d: Disk, q: Path, archive: bool, l: Path)
    requires WellFormed(d.tree) && Sealed(cfg, d.tree) && !(Zone(cfg.root, cfg.txid) <= q) && q in d.tree
    ensures Shaped(cfg, d.tree, ArchiveThenDiscard(cfg, d, q, archive).disk.tree, q, l)
  {
    hide ArchiveFile, Discard, Shaped;
    if archive {
      ArchiveThenGoneShaped(cfg, d, q, false, l);
    } else {
      RemovalShaped(cfg, d, q, l);
    }
  }

  lemma SameShaped(cfg: Config, t: Tree, q: Path, l: Path)
    ensures Shaped(cfg, t, t, q, l)
  {
  }

  lemma CreatedShaped(cfg: Config, d: Disk, q: Path, l: Path)
    requires WellFormed(d.tree) && Sealed(cfg, d.tree) && !(Zone(cfg.root, cfg.txid) <= q)
    ensures Shaped(cfg, d.tree, Created(cfg, d, q).disk.tree, q, l)
  {
    hide ArchiveFile, Discard, RemoveFile, Shaped;
    SameShaped(cfg, d.tree, q, l);
    if q in d.tree && !cfg.dryRun {
      var d0 := if q in cfg.pre then Consume(d) else d;
      if q in cfg.pre && Compare(cfg, d, q).Modified? {
        ArchiveThenGoneShaped(cfg, d0, q, true, l);
        RemovalShaped(cfg, d0, q, l);
      } else {
        SweepShaped(cfg, d0, q, cfg.homeCleanup && LeafAt(d.tree, q), l);
      }
    }
  }

  lemma ModifiedShaped(cfg: Config, d: Disk, q: Path)
    requires WellFormed(d.tree) && Sealed(cfg, d.tree) && !(Zone(cfg.root, cfg.txid) <= q)
    ensures Shaped(cfg, d.tree, ModifiedFile(cfg, d, q).disk.tree, q, Follow(d.tree, q))
  {
    hide ArchiveFile, Discard, RestoreBlob, ArchiveThenDiscard, Shaped, Follow;
    SameShaped(cfg, d.tree, q, Follow(d.tree, q));
    if q in d.tree && !cfg.dryRun {
      if q !in cfg.pre {
        SweepShaped(cfg, d, q, LeafAt(d.tree, q), Follow(d.tree, q));
      } else {
        BaselinedShaped(cfg, d, q);
      }
    }
  }

  lemma BaselinedShaped(cfg: Config, d: Disk, q: Path)
    requires WellFormed(d.tree) && Sealed(cfg, d.tree) && !(Zone(cfg.root, cfg.txid) <= q)
    requires q in d.tree && q in cfg.pre && !cfg.dryRun
    ensures Shaped(cfg, d.tree, ModifiedFile(cfg, d, q).disk.tree, q, Follow(d.tree, q))
  {
    hide ArchiveFile, RestoreBlob, Shaped, Follow;
    var d0 := Consume(d);
    var r := ArchiveFile(cfg.root, cfg.txid, d0, q, true).disk;
    var v := ModifiedFile(cfg, d, q).disk;
    assert v == d0 || v == RestoreBlob(cfg, d0, q).disk || v == r || v == RestoreBlob(cfg, r, q).disk;
    SameShaped(cfg, d.tree, q, Follow(d.tree, q));
    BlobShaped(cfg, d0, q);
    ArchiveThenBlobShaped(cfg, d0, q);
  }

  lemma StepShaped(cfg: Config, d: Disk, m: Mutation)
    requires WellFormed(d.tree) && Sealed(cfg, d.tree) && !(Zone(cfg.root, cfg.txid) <= m.path)
    ensures Shaped(cfg, d.tree, Step(cfg, d, m).disk.tree, m.path, Follow(d.tree, m.path))
  {
    hide Created, ModifiedFile, RestoreBlob, Shaped, Follow;
    SameShaped(cfg, d.tree, m.path, Follow(d.tree, m.path));
    match m.op {
      case Create | RenameTo => CreatedShaped(cfg, d, m.path, Follow(d.tree, m.path));
      case Modify => ModifiedShaped(cfg, d, m.path);
      case Delete => BlobShaped(cfg, d, m.path);
      case _ =>
    }
  }

  /** A step that restores no blob at a link puts nothing where the link leads. */
  lemma NoBlobShaped(cfg: Config, d: Disk, m: Mutation)
    requires WellFormed(d.tree) && Sealed(cfg, d.tree) && !(Zone(cfg.root, cfg.txid) <= m.path)
    requires LinkAt(d.tree, m.path) && m.path != [] && !RestoresAtLink(cfg, d.tree, m)
    ensures Shaped(cfg, d.tree, Step(cfg, d, m).disk.tree, m.path, m.path)
  {
    hide Created, ArchiveThenDiscard, ArchiveFile, RestoreBlob, RoomFor, Shaped;
    var q := m.path;
    SameShaped(cfg, d.tree, q, q);
    if cfg.dryRun {
      DryRunChangesNothing(cfg, d, m);
    } else if Considered(cfg, m) {
      match m.op {
        case Create | RenameTo => CreatedShaped(cfg, d, q, q);
        case Modify =>
          if q !in cfg.pre {
            SweepShaped(cfg, d, q, LeafAt(d.tree, q), q);
          } else {
            LinkKeepsItsBlob(cfg, d, m);
          }
        case Delete => NoBlobNoChange(cfg, d, q);
        case _ =>
      }
    }
  }

  lemma DryRunChangesNothing(cfg: Config, d: Disk, m: Mutation)
    requires cfg.dryRun
    ensures Step(cfg, d, m).disk.tree == d.tree
  {
    hide ArchiveFile, RestoreBlob, Compare;
  }

  lemma NoBlobNoChange(cfg: Config, d: Disk, q: Path)
    requires q !in cfg.blobs
    ensures RestoreBlob(cfg, d, q).disk == d
  {
  }

  lemma LinkKeepsItsBlob(cfg: Config, d: Disk, m: Mutation)
    requires WellFormed(d.tree) && Sealed(cfg, d.tree) && !(Zone(cfg.root, cfg.txid) <= m.path)
    requires LinkAt(d.tree, m.path) && m.path != [] && !RestoresAtLink(cfg, d.tree, m)
    requires Considered(cfg, m) && !cfg.dryRun && m.op.Modify? && m.path in cfg.pre
    ensures Shaped(cfg, d.tree, ModifiedFile(cfg, d, m.path).disk.tree, m.path, m.path)
  {
    hide ArchiveFile, RestoreBlob, RoomFor, Shaped;
    var q, d0 := m.path, Consume(d);
    SameShaped(cfg, d.tree, q, q);
    ArchiveShaped(cfg, d0, q, true, q);
    var r := ArchiveFile(cfg.root, cfg.txid, d0, q, true);
    if r.ok {
      ArchivedHadRoom(cfg, d0, q, true);
    }
    if q !in cfg.blobs {
      NoBlobNoChange(cfg, d0, q);
      NoBlobNoChange(cfg, r.disk, q);
    }
  }

  lemma ArchiveFaultFree(cfg: Config, d: Disk, q: Path, modified: bool)
    requires d.faults == []
    ensures ArchiveFile(cfg.root, cfg.txid, d, q, modified).disk.faults == []
  {
    if q in d.tree {
      var dest := Dest(cfg, q);
      var r1 := MakeDirs(d, Parent(dest));
      assert r1.disk.faults == [];
      if r1.ok {
        assert StoreContent(r1.disk, q, dest).disk.faults == [];
      }
    }
  }

  lemma RemovalFaultFree(d: Disk, q: Path)
    requires d.faults == []
    ensures RemoveFile(d, q).disk.faults == [] && Discard(d, q).disk.faults == []
  {
  }

  lemma CreatedFaultFree(cfg: Config, d: Disk, q: Path)
    requires d.faults == []
    ensures Created(cfg, d, q).disk.faults == []
  {
    hide ArchiveFile, RemoveFile, Discard, Compare;
    ArchiveFaultFree(cfg, d, q, true);
    ArchiveFaultFree(cfg, d, q, false);
    assert Consume(d) == d;
    forall e: Disk | e.faults == [] ensures RemoveFile(e, q).disk.faults == [] && Discard(e, q).disk.faults == [] {
      RemovalFaultFree(e, q);
    }
  }

  lemma ModifiedFaultFree(cfg: Config, d: Disk, q: Path)
    requires d.faults == []
    ensures ModifiedFile(cfg, d, q).disk.faults == []
  {
    hide ArchiveFile, RestoreBlob, Compare;
    ArchiveFaultFree(cfg, d, q, true);
    ArchiveFaultFree(cfg, d, q, false);
    BlobFaultFree(cfg, d, q);
    BlobFaultFree(cfg, ArchiveFile(cfg.root, cfg.txid, d, q, true).disk, q);
    assert Consume(d) == d;
    assert forall e: Disk | e.faults == [] :: Discard(e, q).disk.faults == [];
  }

  lemma StepFaultFree(cfg: Config, d: Disk, m: Mutation)
    requires d.faults == []
    ensures Step(cfg, d, m).disk.faults == []
  {
    match m.op {
      case Create | RenameTo => CreatedFaultFree(cfg, d, m.path);
      case Modify => ModifiedFaultFree(cfg, d, m.path);
      case Delete => BlobFaultFree(cfg, d, m.path);
      case _ =>
    }
  }

  lemma BlobFaultFree(cfg: Config, d: Disk, q: Path)
    requires d.faults == []
    ensures RestoreBlob(cfg, d, q).disk.faults == []
  {
  }

  // ---- One path and its baseline ----

  ghost predicate HasBaseline(cfg: Config, p: Path) {
    && p in cfg.pre && p in cfg.blobs && cfg.pre[p].hash == Some(cfg.blobs[p].content)
    && p != [] && !(Zone(cfg.root, cfg.txid) <= p) && !(p <= Zone(cfg.root, cfg.txid))
    && !cfg.dryRun && PassesFilter(cfg, p)
  }

  /** A regular file or nothing at `p`, and no file in the way of it or of its archive. */
  ghost predicate Ready(cfg: Config, d: Disk, p: Path) {
    && WellFormed(d.tree) && Sealed(cfg, d.tree) && d.faults == []
    && (p in d.tree ==> d.tree[p].File?)
    && (forall x | x in d.tree && (x < p || x < Dest(cfg, p)) :: d.tree[x].Dir?)
    && (Dest(cfg, p) in d.tree ==> d.tree[Dest(cfg, p)].File?)
    && (SidecarOf(Dest(cfg, p)) in d.tree ==> d.tree[SidecarOf(Dest(cfg, p))].File?)
  }

  /** `l` is neither `p` nor above or below it, and not in or above the archive. */
  predicate Aside(cfg: Config, p: Path, l: Path) {
    var z := Zone(cfg.root, cfg.txid);
    l != p && !(l < p) && !(p < l) && !(z <= l) && !(l <= z)
  }

  /**
   Other mutated paths keep out of the way: of the archive, of `p` if they have a blob too,
   and of `p`'s sidecar. Blobs of one installed tree are never above one another.
   */
  predicate KeepsClear(cfg: Config, p: Path, q: Path)
    requires p != []
  {
    var z := Zone(cfg.root, cfg.txid);
    && !(z <= q) && !(q <= z) && q != []
    && (q in cfg.blobs ==> !(q < p) && !(p < q))
    && !(SidecarOf(p) < q) && !(SidecarOf(q) < p)
  }

  /** Where the blob of another path lands is out of the way as well, or `p` itself. */
  predicate LandsClear(cfg: Config, p: Path, q: Path, l: Path)
    requires p != []
  {
    if q == p then l == p else KeepsClear(cfg, p, q) && (q in cfg.blobs ==> l == p || Aside(cfg, p, l))
  }

  predicate Writes(cfg: Config, p: Path, q: Path, l: Path) {
    q == p || (q in cfg.blobs && l == p)
  }

  predicate Restorable(cfg: Config, m: Mutation) {
    (m.op == Modify || m.op == Delete) && !m.policy.Ignore? && (m.policy.Never? ==> cfg.homeCleanup)
  }

  /** No link at a path with a blob leads, at any turn, in the way of `p`; it may lead to `p` itself. */
  ghost predicate Fits(cfg: Config, t: Tree, p: Path, ms: seq<Mutation>)
    requires p != []
  {
    forall i | 0 <= i < |ms| ::
      if ms[i].path == p then Restorable(cfg, ms[i])
      else
        && KeepsClear(cfg, p, ms[i].path)
        && (ms[i].path in cfg.blobs ==> forall l | l in Trail(t, ms[i].path) :: l == p || Aside(cfg, p, l))
  }

  ghost predicate Done(cfg: Config, d: Disk, p: Path)
    requires p in cfg.blobs
  {
    p in d.tree && d.tree[p] == BaselineNode(cfg.blobs[p])
  }

  lemma ShapeAtPath(cfg: Config, t: Tree, t': Tree, p: Path, q: Path, l: Path)
    requires HasBaseline(cfg, p) && Shaped(cfg, t, t', q, l) && LandsClear(cfg, p, q, l)
    requires p in t ==> t[p].File?
    ensures p in t' ==> t'[p].File?
    ensures !Writes(cfg, p, q, l) ==> (p in t' <==> p in t) && (p in t ==> t'[p] == t[p])
  {
    OutsideDest(cfg, p, q);
    SidecarInArchive(cfg.root, cfg.txid, q);
    OutsideDest(cfg, p, SidecarOf(q));
    if p in t' && !(p in t && t'[p] == t[p]) {
      assert Appears(cfg, t, q, l, p, t'[p]);
    }
  }

  lemma ShapeAtDest(cfg: Config, t: Tree, t': Tree, p: Path, q: Path, l: Path)
    requires HasBaseline(cfg, p) && Shaped(cfg, t, t', q, l) && LandsClear(cfg, p, q, l)
    requires WellFormed(t) && (p in t ==> t[p].File?)
    requires var x := Dest(cfg, p); x in t ==> t[x].File?
    ensures var x := Dest(cfg, p); x in t' ==> t'[x].File?
  {
    var x := Dest(cfg, p);
    if x in t' && !(x in t && t'[x] == t[x]) {
      assert Appears(cfg, t, q, l, x, t'[x]);
      OutsideDest(cfg, q, p);
      DestBelow(cfg, p, q);
      if p < q && q in t {
        assert DirAt(t, p);
      }
    }
  }

  lemma ShapeAtSidecar(cfg: Config, t: Tree, t': Tree, p: Path, q: Path, l: Path)
    requires HasBaseline(cfg, p) && Shaped(cfg, t, t', q, l) && LandsClear(cfg, p, q, l)
    requires var x := SidecarOf(Dest(cfg, p)); x in t ==> t[x].File?
    ensures var x := SidecarOf(Dest(cfg, p)); x in t' ==> t'[x].File?
  {
    var x := SidecarOf(Dest(cfg, p));
    SidecarInArchive(cfg.root, cfg.txid, p);
    if x in t' && !(x in t && t'[x] == t[x]) {
      assert Appears(cfg, t, q, l, x, t'[x]);
      OutsideDest(cfg, q, SidecarOf(p));
      DestBelow(cfg, SidecarOf(p), q);
      if q == p {
        DestBelow(cfg, SidecarOf(p), p);
      }
    }
  }

  lemma ShapeKeepsReady(cfg: Config, d: Disk, d': Disk, p: Path, q: Path, l: Path)
    requires HasBaseline(cfg, p) && Ready(cfg, d, p) && WellFormed(d'.tree) && Sealed(cfg, d'.tree) && d'.faults == []
    requires Shaped(cfg, d.tree, d'.tree, q, l) && LandsClear(cfg, p, q, l)
    ensures Ready(cfg, d', p)
    ensures !Writes(cfg, p, q, l) ==> (p in d'.tree <==> p in d.tree) && (p in d.tree ==> d'.tree[p] == d.tree[p])
  {
    ShapeAtPath(cfg, d.tree, d'.tree, p, q, l);
    ShapeAtDest(cfg, d.tree, d'.tree, p, q, l);
    ShapeAtSidecar(cfg, d.tree, d'.tree, p, q, l);
    forall x | x in d'.tree && (x < p || x < Dest(cfg, p)) ensures d'.tree[x].Dir? {
      if !(x in d.tree && d'.tree[x] == d.tree[x]) {
        assert Appears(cfg, d.tree, q, l, x, d'.tree[x]);
        WayStaysClear(cfg, d.tree, p, q, l, x, d'.tree[x]);
      }
    }
  }

  lemma StepKeepsReady(cfg: Config, d: Disk, m: Mutation, p: Path)
    requires HasBaseline(cfg, p) && Ready(cfg, d, p) && LandsClear(cfg, p, m.path, Follow(d.tree, m.path))
    ensures var d' := Step(cfg, d, m).disk;
      && Ready(cfg, d', p)
      && (!Writes(cfg, p, m.path, Follow(d.tree, m.path)) ==>
            (p in d'.tree <==> p in d.tree) && (p in d.tree ==> d'.tree[p] == d.tree[p]))
  {
    hide Step, Appears, Shaped, Follow;
    StepKeepsLinks(cfg, d, m);
    StepShaped(cfg, d, m);
    StepFaultFree(cfg, d, m);
    ShapeKeepsReady(cfg, d, Step(cfg, d, m).disk, p, m.path, Follow(d.tree, m.path));
  }

  /** A path outside the archive is not above, at or below an archive place, nor the reverse. */
  lemma OutsideDest(cfg: Config, q: Path, p: Path)
    requires q != [] && !(Zone(cfg.root, cfg.txid) <= q) && !(q <= Zone(cfg.root, cfg.txid))
    ensures !(q <= Dest(cfg, p)) && !(Dest(cfg, p) <= q)
  {
    var z := Zone(cfg.root, cfg.txid);
    if q <= Dest(cfg, p) {
      PrefixesChain(q, z, Dest(cfg, p));
    }
    assert z <= Dest(cfg, p);
  }

  lemma WayStaysClear(cfg: Config, t: Tree, p: Path, q: Path, l: Path, x: Path, n: Node)
    requires HasBaseline(cfg, p) && LandsClear(cfg, p, q, l)
    requires Appears(cfg, t, q, l, x, n) && (x < p || x < Dest(cfg, p))
    requires WellFormed(t) && forall y | y in t && (y < p || y < Dest(cfg, p)) :: t[y].Dir?
    ensures n.Dir?
  {
    var z := Zone(cfg.root, cfg.txid);
    SidecarInArchive(cfg.root, cfg.txid, q);
    OutsideDest(cfg, q, p);
    OutsideDest(cfg, p, q);
    OutsideDest(cfg, p, SidecarOf(q));
    DestBelow(cfg, q, p);
    DestBelow(cfg, SidecarOf(q), p);
    DestBelow(cfg, SidecarOf(p), p);
  }

  /** A blob is written back over a file or into an empty place. */
  lemma BlobRestored(cfg: Config, d: Disk, p: Path)
    requires HasBaseline(cfg, p) && WellFormed(d.tree) && d.faults == []
    requires p in d.tree ==> d.tree[p].File?
    requires forall x | x in d.tree && x < p :: d.tree[x].Dir?
    ensures RestoreBlob(cfg, d, p).ok && Done(cfg, RestoreBlob(cfg, d, p).disk, p)
  {
    var b := cfg.blobs[p];
    forall x | x in d.tree && x <= Parent(p) ensures d.tree[x].Dir? {
      assert x < p;
    }
    hide FollowUpTo;
    MakeDirsFrame(d, Parent(p));
    var d1 := MakeDirs(d, Parent(p)).disk;
    assert p in d1.tree ==> p in d.tree;
    assert CanPut(d1.tree, p);
    WriteFrame(d1, p, b.content);
    var d2 := Write(d1, p, b.content).disk;
    assert ChangeOwner(SetMode(d2, p, b.mode), p, b.uid, b.gid).tree[p] == BaselineNode(b);
  }

  lemma ArchiveSucceeds(cfg: Config, d: Disk, p: Path, modified: bool)
    requires HasBaseline(cfg, p) && Ready(cfg, d, p) && p in d.tree
    ensures ArchiveFile(cfg.root, cfg.txid, d, p, modified).ok
  {
    hide FollowUpTo;
    var dest := Dest(cfg, p);
    SidecarInArchive(cfg.root, cfg.txid, p);
    DestBelow(cfg, p, SidecarOf(p));
    forall x | x in d.tree && x <= Parent(dest) ensures d.tree[x].Dir? {
      assert x < dest;
    }
    MakeDirsFrame(d, Parent(dest));
    var d1 := MakeDirs(d, Parent(dest)).disk;
    assert d1.tree[p] == d.tree[p];
    assert CanPut(d1.tree, dest);
    CopyFrame(d1, p, dest);
    var d2 := Copy(d1, p, dest).disk;
    assert CanPut(d2.tree, SidecarOf(dest));
  }

  lemma OwnStep(cfg: Config, d: Disk, m: Mutation)
    requires HasBaseline(cfg, m.path) && Ready(cfg, d, m.path) && Restorable(cfg, m)
    ensures var d' := Step(cfg, d, m).disk; var p := m.path;
      && (m.op == Delete || p in d.tree ==> Done(cfg, d', p))
      && (m.op == Modify && p !in d.tree ==> d' == d)
      && (m.op == Modify && p in d.tree && d.tree[p].content != cfg.blobs[p].content && !cfg.mode.Nuclear? ==>
            InArchive(cfg, d', p, d.tree[p]))
  {
    hide ArchiveFile, RestoreBlob, InArchive, WellFormed, Shaped, FollowUpTo;
    var p := m.path;
    assert Consume(d) == d;
    BlobRestored(cfg, d, p);
    if m.op == Modify && p in d.tree && d.tree[p].content != cfg.blobs[p].content && !cfg.mode.Nuclear? {
      ArchiveSucceeds(cfg, d, p, true);
      ArchiveFrame(cfg, d, p, true);
      ArchiveKeeps(cfg, d, p, true);
      ArchiveFaultFree(cfg, d, p, true);
      var r := ArchiveFile(cfg.root, cfg.txid, d, p, true).disk;
      forall x | x in r.tree && x < p ensures r.tree[x].Dir? {
        assert DirAt(r.tree, x);
      }
      BlobRestored(cfg, r, p);
      BlobKeepsArchived(cfg, r, p, d.tree[p]);
    }
  }

  lemma FirstLandsClear(cfg: Config, t0: Tree, t: Tree, ms: seq<Mutation>, p: Path)
    requires p != [] && !LinkAt(t, p) && NoNewLinks(t0, t) && ms != [] && Fits(cfg, t0, p, ms)
    ensures LandsClear(cfg, p, ms[0].path, Follow(t, ms[0].path))
    ensures Fits(cfg, t0, p, ms[1..])
  {
    hide KeepsClear, Trail, FollowUpTo;
    FollowOnTrail(t0, t, ms[0].path);
    assert forall i | 0 <= i < |ms[1..]| :: ms[1..][i] == ms[i + 1];
  }

  lemma StepOfLoop(cfg: Config, t0: Tree, d: Disk, ms: seq<Mutation>, p: Path)
    requires HasBaseline(cfg, p) && Ready(cfg, d, p) && NoNewLinks(t0, d.tree) && ms != [] && Fits(cfg, t0, p, ms)
    ensures LandsClear(cfg, p, ms[0].path, Follow(d.tree, ms[0].path))
    ensures Fits(cfg, t0, p, ms[1..])
    ensures ms[0].path == p ==> Restorable(cfg, ms[0])
    ensures var d' := Step(cfg, d, ms[0]).disk;
      Ready(cfg, d', p) && NoNewLinks(t0, d'.tree)
  {
    hide Step, KeepsClear, LandsClear, Trail, NoNewLinks, FollowUpTo;
    FirstLandsClear(cfg, t0, d.tree, ms, p);
    StepKeepsReady(cfg, d, ms[0], p);
    StepKeepsLinks(cfg, d, ms[0]);
    LinksChain(t0, d.tree, Step(cfg, d, ms[0]).disk.tree);
  }

  // ---- Rows and places of the archive ----

  ghost predicate SameRowsBut(rows: map<(int, Path), Row>, rows': map<(int, Path), Row>, k: (int, Path)) {
    forall x | x != k && x in rows :: x in rows' && rows'[x] == rows[x]
  }

  lemma SweepRowsBut(cfg: Config, d: Disk, q: Path, archive: bool)
    requires WellFormed(d.tree) && Sealed(cfg, d.tree) && q != []
    ensures SameRowsBut(d.rows, ArchiveThenDiscard(cfg, d, q, archive).disk.rows, (cfg.txid, q))
  {
    if archive {
      ArchiveFrame(cfg, d, q, false);
      RemovalRows(ArchiveFile(cfg.root, cfg.txid, d, q, false).disk, q);
    } else {
      RemovalRows(d, q);
    }
  }

  lemma CreatedRows(cfg: Config, d: Disk, q: Path)
    requires WellFormed(d.tree) && Sealed(cfg, d.tree) && q != []
    ensures SameRowsBut(d.rows, Created(cfg, d, q).disk.rows, (cfg.txid, q))
  {
    hide ArchiveFile, RemoveFile, ArchiveThenDiscard, WellFormed, OnlySlots, InArchive;
    if q in d.tree && !cfg.dryRun {
      var d0 := if q in cfg.pre then Consume(d) else d;
      if q in cfg.pre && Compare(cfg, d, q).Modified? {
        ArchiveFrame(cfg, d0, q, true);
        RemovalRows(d0, q);
        RemovalRows(ArchiveFile(cfg.root, cfg.txid, d0, q, true).disk, q);
      } else {
        SweepRowsBut(cfg, d0, q, cfg.homeCleanup && LeafAt(d.tree, q));
      }
    }
  }

  lemma RemovalRows(d: Disk, q: Path)
    ensures RemoveFile(d, q).disk.rows == d.rows && Discard(d, q).disk.rows == d.rows
  {
  }

  lemma ArchiveThenBlobRows(cfg: Config, d: Disk, q: Path)
    requires WellFormed(d.tree) && Sealed(cfg, d.tree) && q != []
    ensures var a := ArchiveFile(cfg.root, cfg.txid, d, q, true).disk;
      && SameRowsBut(d.rows, a.rows, (cfg.txid, q))
      && SameRowsBut(d.rows, RestoreBlob(cfg, a, q).disk.rows, (cfg.txid, q))
      && RestoreBlob(cfg, d, q).disk.rows == d.rows
  {
    hide ArchiveFile, RestoreBlob, OnlySlots, InArchive;
    ArchiveFrame(cfg, d, q, true);
    BlobFrame(cfg, d, q);
    BlobFrame(cfg, ArchiveFile(cfg.root, cfg.txid, d, q, true).disk, q);
  }

  lemma ModifiedRows(cfg: Config, d: Disk, q: Path)
    requires WellFormed(d.tree) && Sealed(cfg, d.tree) && q != []
    ensures SameRowsBut(d.rows, ModifiedFile(cfg, d, q).disk.rows, (cfg.txid, q))
  {
    hide ArchiveFile, RestoreBlob, WellFormed, ArchiveThenDiscard, Compare;
    SweepRowsBut(cfg, d, q, LeafAt(d.tree, q));
    ArchiveThenBlobRows(cfg, Consume(d), q);
  }

  lemma StepRows(cfg: Config, d: Disk, m: Mutation)
    requires WellFormed(d.tree) && Sealed(cfg, d.tree) && m.path != []
    ensures SameRowsBut(d.rows, Step(cfg, d, m).disk.rows, (cfg.txid, m.path))
  {
    match m.op {
      case Create | RenameTo => CreatedRows(cfg, d, m.path);
      case Modify => ModifiedRows(cfg, d, m.path);
      case Delete => BlobFrame(cfg, d, m.path);
      case _ =>
    }
  }

  /** The archive places of `p` are none of the places a step on `q` may write. */
  lemma PlacesApart(cfg: Config, p: Path, q: Path, l: Path, x: Path)
    requires HasBaseline(cfg, p) && q != p && LandsClear(cfg, p, q, l) && q != SidecarOf(p) && SidecarOf(q) != p
    requires x == Dest(cfg, p) || x == SidecarOf(Dest(cfg, p))
    ensures x != q && x != Dest(cfg, q) && x != SidecarOf(Dest(cfg, q)) && (q in cfg.blobs ==> x != l)
  {
    SidecarInArchive(cfg.root, cfg.txid, p);
    SidecarInArchive(cfg.root, cfg.txid, q);
    OutsideDest(cfg, q, p);
    OutsideDest(cfg, q, SidecarOf(p));
    DestBelow(cfg, p, q);
    DestBelow(cfg, p, SidecarOf(q));
    DestBelow(cfg, SidecarOf(p), q);
    DestBelow(cfg, SidecarOf(p), SidecarOf(q));
    if SidecarOf(p) == SidecarOf(q) {
      SidecarInjective(p, q);
    }
  }

  /** The pruning of directories neither adds to the archive nor takes from it. */
  lemma ExecuteArchives(cfg: Config, d: Disk, ms: seq<Mutation>, p: Path, n: Node)
    requires p != [] && !n.Dir? && WellFormed(RunAll(cfg, d, EMPTY_REPORT, ms).disk.tree)
    ensures InArchive(cfg, Execute(cfg, d, ms).disk, p, n) <==>
      InArchive(cfg, RunAll(cfg, d, EMPTY_REPORT, ms).disk, p, n)
  {
    hide RunAll;
    var run := RunAll(cfg, d, EMPTY_REPORT, ms);
    var starts := ParentsOf(run.report.removed + run.report.archived);
    PruneAllRemains(run.disk.tree, (set x | x in starts), run.disk, starts);
    if InArchive(cfg, run.disk, p, n) {
      PruningIsSafe(run.disk, starts, SidecarOf(Dest(cfg, p)), SidecarOf(Dest(cfg, p)));
      if n.File? {
        PruningIsSafe(run.disk, starts, Dest(cfg, p), Dest(cfg, p));
      }
    }
  }
}
