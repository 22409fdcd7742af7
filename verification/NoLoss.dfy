/**
 "Archive, never delete": when every mutation archives first, as in a tracked app's rollback, then
 at every step and under every fault each file and link is still in place or completely archived.
 */
module NoLoss {
  import opened Paths
  import opened FileSystem
  import opened Archive
  import opened Review
  import opened Rollback

  // ---- What single calls leave alone ----

  /** Outside `zone` nothing is changed or removed; only directories on the way to it may appear. */
  ghost predicate OnlyAddsDirs(t: Tree, t': Tree, zone: Path) {
    forall q {:trigger q in t'} {:trigger q in t} | !(zone <= q) ::
      && (q in t ==> q in t' && t'[q] == t[q])
      && (q in t' && q !in t ==> t'[q].Dir? && q <= zone)
  }

  lemma MakeDirsFrame(d: Disk, p: Path)
    requires WellFormed(d.tree)
    ensures var r := MakeDirs(d, p);
      && WellFormed(r.disk.tree) && r.disk.rows == d.rows
      && (forall q | q in d.tree :: q in r.disk.tree && r.disk.tree[q] == d.tree[q])
      && (forall q | q in r.disk.tree && q !in d.tree :: r.disk.tree[q].Dir? && q <= p)
      && (r.ok ==> forall q | q <= p :: DirAt(r.disk.tree, q))
  {
    var r := MakeDirs(d, p);
    var t := r.disk.tree;
    forall x, y | x in t && y < x ensures DirAt(t, y) {
      if x in d.tree {
        assert DirAt(d.tree, y);
      } else {
        assert y <= p;
      }
    }
  }

  lemma PutFrame(t: Tree, p: Path, content: Content, perm: Perm)
    requires WellFormed(t) && CanPut(t, p)
    ensures WellFormed(Put(t, p, content, perm))
  {
    var t' := Put(t, p, content, perm);
    forall x, y | x in t' && y < x ensures DirAt(t', y) {
      if x == p {
        PrefixesChain(y, Parent(p), p);
        assert y == Parent(p) || (Parent(p) in t && DirAt(t, y));
      } else {
        assert x in t && DirAt(t, y);
      }
    }
  }

  lemma RemoveFrame(t: Tree, p: Path)
    requires WellFormed(t) && p != [] && Childless(t, p)
    ensures WellFormed(t - {p})
  {
    var t' := t - {p};
    forall x, y | x in t' && y < x ensures DirAt(t', y) {
      assert x in t && DirAt(t, y);
      assert y != p;
    }
  }

  lemma LeafIsChildless(t: Tree, p: Path)
    requires WellFormed(t) && LeafAt(t, p)
    ensures p != [] && Childless(t, p)
  {
    assert !DirAt(t, p);
  }

  /** A copy changes only the place that its destination leads to. */
  lemma CopyFrame(d: Disk, src: Path, dst: Path)
    requires WellFormed(d.tree)
    ensures var r, to := Copy(d, src, dst), Follow(d.tree, dst);
      && WellFormed(r.disk.tree) && r.disk.rows == d.rows
      && (forall q | q != to :: (q in r.disk.tree <==> q in d.tree) && (q in d.tree ==> r.disk.tree[q] == d.tree[q]))
      && (r.ok && !LinkAt(d.tree, src) ==>
            src in d.tree && d.tree[src].File? && to in r.disk.tree && r.disk.tree[to].File?
            && r.disk.tree[to].content == d.tree[src].content && r.disk.tree[to].perm == d.tree[src].perm)
      && (r.disk.tree == d.tree || (to in r.disk.tree && r.disk.tree[to].File?))
  {
    hide FollowUpTo;
    var from, to := Follow(d.tree, src), Follow(d.tree, dst);
    if from in d.tree && d.tree[from].File? && CanPut(d.tree, to) {
      PutFrame(d.tree, to, d.tree[from].content, d.tree[from].perm);
      if NextFault(d).Breaks? && NextFault(d).torn.Some? {
        PutFrame(d.tree, to, NextFault(d).torn.value, d.tree[from].perm);
      }
    }
  }

  lemma WriteFrame(d: Disk, dst: Path, content: Content)
    requires WellFormed(d.tree)
    ensures var r, to := Write(d, dst, content), Follow(d.tree, dst);
      && WellFormed(r.disk.tree) && r.disk.rows == d.rows
      && (forall q | q != to :: (q in r.disk.tree <==> q in d.tree) && (q in d.tree ==> r.disk.tree[q] == d.tree[q]))
      && (r.ok ==> to in r.disk.tree && r.disk.tree[to].File? && r.disk.tree[to].content == content)
      && (r.disk.tree == d.tree || (to in r.disk.tree && r.disk.tree[to].File?))
  {
    hide FollowUpTo;
    var to := Follow(d.tree, dst);
    if CanPut(d.tree, to) {
      var perm: Perm := if to in d.tree then d.tree[to].perm else 420;
      PutFrame(d.tree, to, content, perm);
      if NextFault(d).Breaks? && NextFault(d).torn.Some? {
        PutFrame(d.tree, to, NextFault(d).torn.value, perm);
      }
    }
  }

  // ---- Archiving one path ----

  /** No link stands inside the transaction's archive: the program puts none there. */
  ghost predicate Sealed(cfg: Config, t: Tree) {
    forall x | x in t && Zone(cfg.root, cfg.txid) <= x :: !t[x].Link?
  }

  /** Content, owner, mode and target of `n` can be read back from the archive. */
  ghost predicate InArchive(cfg: Config, d: Disk, p: Path, n: Node)
    requires !n.Dir?
  {
    var dest := ArchivePath(cfg.root, cfg.txid, p);
    var meta := SidecarAt(d.tree, dest);
    && (cfg.txid, p) in d.rows && d.rows[(cfg.txid, p)].archivePath == dest
    && meta.Some? && meta.value == MetaOf(p, n, meta.value.modified)
    && (n.File? ==> dest in d.tree && d.tree[dest].File?
                    && d.tree[dest].content == n.content && d.tree[dest].perm == n.perm)
  }

  /** From `t` to `t'` only directories above `a` appear, and only `a` and `b` may be written. */
  ghost predicate OnlySlots(t: Tree, t': Tree, a: Path, b: Path) {
    && (forall q | q in t && q != a && q != b :: q in t' && t'[q] == t[q])
    && (forall q | q in t' && q !in t && q != a && q != b :: t'[q].Dir? && q < a)
  }

  lemma StoreFrame(cfg: Config, d: Disk, p: Path, n: Node, modified: bool)
    requires WellFormed(d.tree) && Sealed(cfg, d.tree) && p != [] && !n.Dir?
    requires n.File? ==> var dest := ArchivePath(cfg.root, cfg.txid, p);
      dest in d.tree && d.tree[dest].File? && d.tree[dest].content == n.content && d.tree[dest].perm == n.perm
    ensures var dest := ArchivePath(cfg.root, cfg.txid, p); var r := StoreRecord(d, cfg.txid, p, n, dest, modified);
      && WellFormed(r.disk.tree) && Sealed(cfg, r.disk.tree)
      && OnlySlots(d.tree, r.disk.tree, SidecarOf(dest), SidecarOf(dest))
      && (r.disk.rows == d.rows || r.disk.rows == d.rows[(cfg.txid, p) := Row(dest, modified)])
      && (r.ok ==> InArchive(cfg, r.disk, p, n))
  {
    hide Write, FollowUpTo, Zone, SidecarOf;
    var dest := ArchivePath(cfg.root, cfg.txid, p);
    SidecarInArchive(cfg.root, cfg.txid, p);
    assert dest != SidecarOf(dest) by {
      if dest == SidecarOf(dest) {
        ArchivePathInjective(cfg.root, cfg.txid, p, cfg.txid, SidecarOf(p));
      }
    }
    WriteFrame(d, SidecarOf(dest), Document(MetaOf(p, n, modified)));
  }

  lemma ContentFrame(cfg: Config, d: Disk, p: Path)
    requires WellFormed(d.tree) && Sealed(cfg, d.tree) && p in d.tree && p != []
    ensures var dest := ArchivePath(cfg.root, cfg.txid, p); var r := StoreContent(d, p, dest); var t := r.disk.tree;
      && WellFormed(t) && Sealed(cfg, t) && r.disk.rows == d.rows
      && (forall q | q != dest :: (q in t <==> q in d.tree) && (q in d.tree ==> t[q] == d.tree[q]))
      && (d.tree[p].Link? ==> t == d.tree)
      && (r.ok && d.tree[p].File? ==>
            dest in t && t[dest].File? && t[dest].content == d.tree[p].content && t[dest].perm == d.tree[p].perm)
  {
    hide Copy, FollowUpTo;
    var dest := ArchivePath(cfg.root, cfg.txid, p);
    assert Zone(cfg.root, cfg.txid) <= dest;
    CopyFrame(d, p, dest);
  }

  lemma ArchiveFrame(cfg: Config, d: Disk, p: Path, modified: bool)
    requires WellFormed(d.tree) && Sealed(cfg, d.tree) && p != []
    ensures var r := ArchiveFile(cfg.root, cfg.txid, d, p, modified); var dest := ArchivePath(cfg.root, cfg.txid, p);
      && WellFormed(r.disk.tree) && Sealed(cfg, r.disk.tree)
      && OnlySlots(d.tree, r.disk.tree, dest, SidecarOf(dest))
      && (r.disk.rows == d.rows || r.disk.rows == d.rows[(cfg.txid, p) := Row(dest, modified)])
      && (p in d.tree && d.tree[p].Link? ==> OnlySlots(d.tree, r.disk.tree, SidecarOf(dest), SidecarOf(dest)))
      && (r.ok && LeafAt(d.tree, p) ==> InArchive(cfg, r.disk, p, d.tree[p]))
  {
    hide MakeDirs, StoreContent, StoreRecord, InArchive;
    if p in d.tree {
      var dest := ArchivePath(cfg.root, cfg.txid, p);
      MakeDirsFrame(d, Parent(dest));
      var r1 := MakeDirs(d, Parent(dest));
      if r1.ok {
        ContentFrame(cfg, r1.disk, p);
        var r2 := StoreContent(r1.disk, p, dest);
        if r2.ok && !d.tree[p].Dir? {
          StoreFrame(cfg, r2.disk, p, d.tree[p], modified);
        }
      }
    }
  }

  lemma ArchiveStaysInZone(cfg: Config, d: Disk, p: Path, modified: bool)
    requires WellFormed(d.tree) && Sealed(cfg, d.tree) && p != []
    ensures OnlyAddsDirs(d.tree, ArchiveFile(cfg.root, cfg.txid, d, p, modified).disk.tree, Zone(cfg.root, cfg.txid))
  {
    ArchiveFrame(cfg, d, p, modified);
    SidecarInArchive(cfg.root, cfg.txid, p);
    var dest := ArchivePath(cfg.root, cfg.txid, p);
    var zone := Zone(cfg.root, cfg.txid);
    assert zone <= dest;
    var t' := ArchiveFile(cfg.root, cfg.txid, d, p, modified).disk.tree;
    forall q | q in t' && q !in d.tree && !(zone <= q) ensures q <= zone {
      PrefixesChain(q, zone, dest);
    }
  }

  // ---- A tracked app's rollback ----

  /** What `untrack --rollback` runs with: home cleanup, nothing recorded from before. */
  predicate TrackedApp(cfg: Config) {
    cfg.homeCleanup && !cfg.dryRun && cfg.pre == map[] && cfg.blobs == map[]
  }

  predicate Acts(cfg: Config, m: Mutation) {
    PassesFilter(cfg, m.path) && !m.policy.Ignore? && m.op in {Create, RenameTo, Modify}
  }

  function Sweep(cfg: Config, d: Disk, p: Path): Result {
    if p in d.tree then ArchiveThenDiscard(cfg, d, p, LeafAt(d.tree, p)) else Result(d, true)
  }

  /** Every mutation that acts does the same thing: archive and remove what is there. */
  lemma StepSweeps(cfg: Config, d: Disk, m: Mutation)
    requires TrackedApp(cfg)
    ensures Step(cfg, d, m).disk == if Acts(cfg, m) then Sweep(cfg, d, m.path).disk else d
  {
  }

  /** `p` is a file or link of `t` that some mutation acts on. */
  ghost predicate Touched(cfg: Config, t: Tree, ms: seq<Mutation>, p: Path) {
    LeafAt(t, p) && exists i | 0 <= i < |ms| :: ms[i].path == p && Acts(cfg, ms[i])
  }

  /** No file to be archived has the name of another one's sidecar. */
  ghost predicate NoClash(cfg: Config, t: Tree, ms: seq<Mutation>) {
    forall p, q | Touched(cfg, t, ms, p) && Touched(cfg, t, ms, q) && p != [] ::
      q == SidecarOf(p) ==> !t[q].File?
  }

  ghost predicate OutsideZone(cfg: Config, ms: seq<Mutation>) {
    forall i | 0 <= i < |ms| :: !(Zone(cfg.root, cfg.txid) <= ms[i].path)
  }

  ghost predicate InPlace(t0: Tree, d: Disk, p: Path)
    requires p in t0
  {
    p in d.tree && d.tree[p] == t0[p]
  }

  ghost predicate Secured(cfg: Config, t0: Tree, ms: seq<Mutation>, d: Disk, p: Path)
    requires LeafAt(t0, p)
  {
    InPlace(t0, d, p) || (Touched(cfg, t0, ms, p) && InArchive(cfg, d, p, t0[p]))
  }

  /** No file or link outside the archive is new or altered, and none is lost. */
  ghost predicate Safe(cfg: Config, t0: Tree, ms: seq<Mutation>, d: Disk) {
    && WellFormed(d.tree) && Sealed(cfg, d.tree)
    && (forall p | LeafAt(d.tree, p) && !(Zone(cfg.root, cfg.txid) <= p) :: p in t0 && t0[p] == d.tree[p])
    && (forall p | LeafAt(t0, p) && !(Zone(cfg.root, cfg.txid) <= p) :: Secured(cfg, t0, ms, d, p))
  }

  lemma ArchivePlacesApart(cfg: Config, t0: Tree, ms: seq<Mutation>, p: Path, q: Path)
    requires NoClash(cfg, t0, ms) && Touched(cfg, t0, ms, p) && Touched(cfg, t0, ms, q)
    requires p != q && p != [] && q != []
    ensures var dp := ArchivePath(cfg.root, cfg.txid, p); var dq := ArchivePath(cfg.root, cfg.txid, q);
      && dp != dq && SidecarOf(dp) != SidecarOf(dq)
      && (SidecarOf(dp) == dq ==> !t0[q].File?) && (dp == SidecarOf(dq) ==> !t0[p].File?)
  {
    hide ArchivePath, SidecarOf;
    var dp, dq := ArchivePath(cfg.root, cfg.txid, p), ArchivePath(cfg.root, cfg.txid, q);
    SidecarInArchive(cfg.root, cfg.txid, p);
    SidecarInArchive(cfg.root, cfg.txid, q);
    if dp == dq {
      ArchivePathInjective(cfg.root, cfg.txid, p, cfg.txid, q);
    }
    if SidecarOf(dp) == SidecarOf(dq) {
      SidecarInjective(dp, dq);
    }
    if SidecarOf(dp) == dq {
      ArchivePathInjective(cfg.root, cfg.txid, SidecarOf(p), cfg.txid, q);
    }
    if dp == SidecarOf(dq) {
      ArchivePathInjective(cfg.root, cfg.txid, p, cfg.txid, SidecarOf(q));
    }
  }

  lemma ArchivedSurvives(cfg: Config, t0: Tree, ms: seq<Mutation>, d: Disk, q: Path, p: Path, modified: bool)
    requires WellFormed(d.tree) && Sealed(cfg, d.tree) && NoClash(cfg, t0, ms)
    requires Touched(cfg, t0, ms, p) && Touched(cfg, t0, ms, q) && p != q && p != [] && q != []
    requires q in d.tree && d.tree[q] == t0[q]
    requires InArchive(cfg, d, p, t0[p])
    ensures InArchive(cfg, ArchiveFile(cfg.root, cfg.txid, d, q, modified).disk, p, t0[p])
  {
    hide ArchiveFile, NoClash, WellFormed, MetaOf, SidecarOf;
    ArchiveFrame(cfg, d, q, modified);
    ArchivePlacesApart(cfg, t0, ms, p, q);
  }

  lemma DiscardFrame(d: Disk, p: Path)
    requires WellFormed(d.tree) && p != []
    ensures var r := Discard(d, p);
      && WellFormed(r.disk.tree) && r.disk.rows == d.rows
      && (r.disk.tree == d.tree || (p in d.tree && r.disk.tree == d.tree - {p}))
      && (LeafAt(d.tree, p) && !r.ok ==> r.disk.tree == d.tree)
      && (LeafAt(d.tree, p) && r.ok ==> p !in r.disk.tree)
  {
    if LeafAt(d.tree, p) {
      LeafIsChildless(d.tree, p);
    }
    if Childless(d.tree, p) {
      RemoveFrame(d.tree, p);
    }
  }

  lemma ArchivingADirectory(cfg: Config, d: Disk, q: Path, modified: bool)
    requires DirAt(d.tree, q)
    ensures var r := ArchiveFile(cfg.root, cfg.txid, d, q, modified);
      !r.ok && r.disk.rows == d.rows && r.disk.tree == MakeDirs(d, Parent(ArchivePath(cfg.root, cfg.txid, q))).disk.tree
  {
  }

  lemma NewDirsAreSafe(cfg: Config, t0: Tree, ms: seq<Mutation>, d: Disk, dir: Path, d': Disk)
    requires WellFormed(d.tree) && Safe(cfg, t0, ms, d) && d'.tree == MakeDirs(d, dir).disk.tree && d'.rows == d.rows
    ensures Safe(cfg, t0, ms, d')
  {
    MakeDirsFrame(d, dir);
    forall p | LeafAt(t0, p) && !(Zone(cfg.root, cfg.txid) <= p) ensures Secured(cfg, t0, ms, d', p) {
      assert Secured(cfg, t0, ms, d, p);
    }
  }

  /** Archiving a file adds its copy to what is safe. */
  lemma ArchivingIsSafe(cfg: Config, t0: Tree, ms: seq<Mutation>, d: Disk, q: Path, modified: bool)
    requires WellFormed(t0) && NoClash(cfg, t0, ms) && Safe(cfg, t0, ms, d)
    requires LeafAt(d.tree, q) && Touched(cfg, t0, ms, q) && !(Zone(cfg.root, cfg.txid) <= q)
    ensures var r := ArchiveFile(cfg.root, cfg.txid, d, q, modified);
      && Safe(cfg, t0, ms, r.disk) && q != [] && LeafAt(r.disk.tree, q)
      && (r.ok ==> InArchive(cfg, r.disk, q, t0[q]))
  {
    hide ArchiveFile, NoClash, InArchive, Touched, WellFormed;
    LeafIsChildless(d.tree, q);
    ArchiveFrame(cfg, d, q, modified);
    ArchiveStaysInZone(cfg, d, q, modified);
    var r := ArchiveFile(cfg.root, cfg.txid, d, q, modified);
    forall p | LeafAt(t0, p) && !(Zone(cfg.root, cfg.txid) <= p) ensures Secured(cfg, t0, ms, r.disk, p) {
      assert Secured(cfg, t0, ms, d, p);
      LeafIsChildless(t0, p);
      if !InPlace(t0, d, p) {
        ArchivedSurvives(cfg, t0, ms, d, q, p, modified);
      }
    }
  }

  lemma DirRemovalKeepsArchive(cfg: Config, d: Disk, d': Disk, q: Path, p: Path, n: Node)
    requires !n.Dir? && InArchive(cfg, d, p, n) && DirAt(d.tree, q)
    requires d'.rows == d.rows && (d'.tree == d.tree || d'.tree == d.tree - {q})
    ensures InArchive(cfg, d', p, n)
  {
  }

  /** Removing what is not in the archive leaves what is archived. */
  lemma DiscardKeepsArchived(cfg: Config, d: Disk, q: Path, p: Path, n: Node)
    requires WellFormed(d.tree) && q != [] && p != [] && !n.Dir? && InArchive(cfg, d, p, n)
    requires !(Zone(cfg.root, cfg.txid) <= q)
    ensures InArchive(cfg, Discard(d, q).disk, p, n)
  {
    DiscardFrame(d, q);
    SidecarInArchive(cfg.root, cfg.txid, p);
    assert Zone(cfg.root, cfg.txid) <= ArchivePath(cfg.root, cfg.txid, p);
  }

  /** Removing a file that is in the archive loses nothing; removing a directory never does. */
  lemma RemovalIsSafe(cfg: Config, t0: Tree, ms: seq<Mutation>, d: Disk, q: Path)
    requires WellFormed(t0) && Safe(cfg, t0, ms, d) && q != [] && !(Zone(cfg.root, cfg.txid) <= q)
    requires LeafAt(d.tree, q) ==> Touched(cfg, t0, ms, q) && InArchive(cfg, d, q, t0[q])
    ensures Safe(cfg, t0, ms, Discard(d, q).disk)
  {
    hide Discard, InArchive, Touched;
    DiscardFrame(d, q);
    var d' := Discard(d, q).disk;
    forall p | LeafAt(t0, p) && !(Zone(cfg.root, cfg.txid) <= p) ensures Secured(cfg, t0, ms, d', p) {
      assert Secured(cfg, t0, ms, d, p);
      LeafIsChildless(t0, p);
      if !InPlace(t0, d', p) {
        DiscardKeepsArchived(cfg, d, q, p, t0[p]);
      }
    }
  }

  // ---- Which mutations archive first ----

  predicate Fingerprinted(cfg: Config, p: Path) {
    p in cfg.pre && cfg.pre[p].hash.Some?
  }

  /**
   What can be checked before the run: this mutation may remove a file, or write a blob over one,
   that was not archived first.
   */
  predicate Destructive(cfg: Config, m: Mutation) {
    var p := m.path;
    && p != [] && !cfg.dryRun && PassesFilter(cfg, p) && !m.policy.Ignore? && (m.policy.Never? ==> cfg.homeCleanup)
    && match m.op
       case Create | RenameTo => !cfg.homeCleanup || (Fingerprinted(cfg, p) && !cfg.mode.Conservative?)
       case Modify => Fingerprinted(cfg, p) && p in cfg.blobs
       case Delete => p in cfg.blobs
       case RenameFrom | Rename | Other => false
  }

  ghost predicate ArchivesFirst(cfg: Config, ms: seq<Mutation>) {
    forall i | 0 <= i < |ms| :: !Destructive(cfg, ms[i])
  }

  lemma TrackedAppArchivesFirst(cfg: Config, ms: seq<Mutation>)
    requires TrackedApp(cfg)
    ensures ArchivesFirst(cfg, ms)
  {
  }

  /** What a mutation that archives first does to its path. */
  datatype Deed = Nothing | ArchiveOnly | ArchiveAndRemove(modified: bool) | RemoveDirectory

  function DeedOf(cfg: Config, d: Disk, m: Mutation): Deed {
    var q := m.path;
    var sweep := if LeafAt(d.tree, q) then ArchiveAndRemove(false) else RemoveDirectory;
    if cfg.dryRun || !PassesFilter(cfg, q) || m.policy.Ignore? || (m.policy.Never? && !cfg.homeCleanup) || q !in d.tree
    then Nothing
    else
      match m.op
      case Create | RenameTo =>
        if q !in cfg.pre then sweep
        else (match Compare(cfg, d, q)
              case Modified =>
                if LeafAt(d.tree, q) then ArchiveAndRemove(true) else if cfg.mode.Conservative?
                  then ArchiveOnly else Nothing
              case Unchanged | New => sweep
              case Missing => Nothing)
      case Modify =>
        if q !in cfg.pre then if cfg.homeCleanup then sweep else Nothing
        else if Compare(cfg, d, q).Modified? && !cfg.mode.Nuclear? then ArchiveOnly else Nothing
      case _ => Nothing
  }

  function DeedDone(cfg: Config, d: Disk, q: Path, deed: Deed): Disk {
    match deed
    case Nothing => d
    case ArchiveOnly => ArchiveFile(cfg.root, cfg.txid, d, q, true).disk
    case ArchiveAndRemove(modified) =>
      var r := ArchiveFile(cfg.root, cfg.txid, d, q, modified);
      if r.ok then Discard(r.disk, q).disk else r.disk
    case RemoveDirectory => Discard(d, q).disk
  }

  lemma ArchivingLeavesLeaf(cfg: Config, d: Disk, q: Path, modified: bool)
    requires WellFormed(d.tree) && Sealed(cfg, d.tree) && LeafAt(d.tree, q) && !(Zone(cfg.root, cfg.txid) <= q)
    ensures LeafAt(ArchiveFile(cfg.root, cfg.txid, d, q, modified).disk.tree, q)
  {
    LeafIsChildless(d.tree, q);
    ArchiveStaysInZone(cfg, d, q, modified);
  }

  /** Only the read that compares a path with its fingerprint comes before the deed. */
  ghost predicate ComesBefore(cfg: Config, d: Disk, m: Mutation, d0: Disk) {
    var deed := DeedOf(cfg, d, m);
    && d0.tree == d.tree && d0.rows == d.rows && Step(cfg, d, m).disk == DeedDone(cfg, d0, m.path, deed)
    && (!deed.Nothing? ==> Acts(cfg, m) && m.path in d.tree)
    && (deed.RemoveDirectory? ==> DirAt(d.tree, m.path))
  }

  lemma NewIsItsDeed(cfg: Config, d: Disk, m: Mutation) returns (d0: Disk)
    requires WellFormed(d.tree) && Sealed(cfg, d.tree) && !(Zone(cfg.root, cfg.txid) <= m.path) && !Destructive(cfg, m)
    requires (m.op.Create? || m.op.RenameTo?) && m.path !in cfg.pre
    ensures ComesBefore(cfg, d, m, d0)
  {
    assert DirAt(d.tree, []);
    hide ArchiveFile, RemoveFile, RemoveDir, WellFormed, RestoreBlob, Compare;
    d0 := if DeedOf(cfg, d, m).Nothing? then Step(cfg, d, m).disk else if m.path in cfg.pre then Consume(d) else d;
  }

  lemma KnownIsItsDeed(cfg: Config, d: Disk, m: Mutation) returns (d0: Disk)
    requires WellFormed(d.tree) && Sealed(cfg, d.tree) && !(Zone(cfg.root, cfg.txid) <= m.path) && !Destructive(cfg, m)
    requires (m.op.Create? || m.op.RenameTo?) && m.path in cfg.pre
    ensures ComesBefore(cfg, d, m, d0)
  {
    assert DirAt(d.tree, []);
    hide ArchiveFile, RemoveFile, RemoveDir, WellFormed, RestoreBlob, Compare;
    d0 := if DeedOf(cfg, d, m).Nothing? then Step(cfg, d, m).disk else if m.path in cfg.pre then Consume(d) else d;
    ModifiedIsFingerprinted(cfg, d, m.path);
    if LeafAt(d.tree, m.path) {
      ArchivingLeavesLeaf(cfg, d0, m.path, true);
    }
  }

  lemma ModifiedIsFingerprinted(cfg: Config, d: Disk, q: Path)
    requires q in cfg.pre
    ensures Compare(cfg, d, q).Modified? || Compare(cfg, d, q).Unchanged? ==> Fingerprinted(cfg, q) && q in d.tree
  {
  }

  lemma ModifiedIsItsDeed(cfg: Config, d: Disk, m: Mutation) returns (d0: Disk)
    requires WellFormed(d.tree) && Sealed(cfg, d.tree) && !(Zone(cfg.root, cfg.txid) <= m.path) && !Destructive(cfg, m)
    requires m.op.Modify?
    ensures ComesBefore(cfg, d, m, d0)
  {
    assert DirAt(d.tree, []);
    hide ArchiveFile, RemoveFile, RemoveDir, WellFormed, RestoreBlob, Compare;
    if m.path in cfg.pre {
      d0 := BaselinedIsItsDeed(cfg, d, m);
    } else {
      d0 := if DeedOf(cfg, d, m).Nothing? then Step(cfg, d, m).disk else d;
    }
  }

  lemma NoBlobAtTheRoot(cfg: Config, d: Disk)
    requires DirAt(d.tree, [])
    ensures RestoreBlob(cfg, d, []).disk.tree == d.tree && RestoreBlob(cfg, d, []).disk.rows == d.rows
  {
  }

  lemma BaselinedIsItsDeed(cfg: Config, d: Disk, m: Mutation) returns (d0: Disk)
    requires WellFormed(d.tree) && !Destructive(cfg, m) && m.op.Modify? && m.path in cfg.pre
    ensures ComesBefore(cfg, d, m, d0)
  {
    assert DirAt(d.tree, []);
    NoBlobAtTheRoot(cfg, Consume(d));
    hide ArchiveFile, WellFormed, MakeDirs, Write, SetMode, ChangeOwner, Discard, ArchiveThenDiscard;
    d0 := if DeedOf(cfg, d, m).Nothing? then Step(cfg, d, m).disk else Consume(d);
    if DirAt(d.tree, m.path) {
      ArchivingADirectory(cfg, d0, m.path, true);
    }
  }

  lemma OtherIsItsDeed(cfg: Config, d: Disk, m: Mutation) returns (d0: Disk)
    requires WellFormed(d.tree) && Sealed(cfg, d.tree) && !(Zone(cfg.root, cfg.txid) <= m.path) && !Destructive(cfg, m)
    requires !m.op.Create? && !m.op.RenameTo? && !m.op.Modify?
    ensures ComesBefore(cfg, d, m, d0)
  {
    assert DirAt(d.tree, []);
    hide ArchiveFile, RemoveFile, RemoveDir, WellFormed, Compare;
    d0 := if DeedOf(cfg, d, m).Nothing? then Step(cfg, d, m).disk else if m.path in cfg.pre then Consume(d) else d;
  }

  lemma StepIsItsDeed(cfg: Config, d: Disk, m: Mutation) returns (d0: Disk)
    requires WellFormed(d.tree) && Sealed(cfg, d.tree) && !(Zone(cfg.root, cfg.txid) <= m.path) && !Destructive(cfg, m)
    ensures ComesBefore(cfg, d, m, d0)
  {
    hide ComesBefore, Destructive;
    if m.op.Create? || m.op.RenameTo? {
      if m.path in cfg.pre {
        d0 := KnownIsItsDeed(cfg, d, m);
      } else {
        d0 := NewIsItsDeed(cfg, d, m);
      }
    } else if m.op.Modify? {
      d0 := ModifiedIsItsDeed(cfg, d, m);
    } else {
      d0 := OtherIsItsDeed(cfg, d, m);
    }
  }

  /** A mutation that archives first loses nothing, whatever fails. */
  lemma StepIsSafe(cfg: Config, t0: Tree, ms: seq<Mutation>, d: Disk, m: Mutation)
    requires WellFormed(t0) && NoClash(cfg, t0, ms) && Safe(cfg, t0, ms, d)
    requires m in ms && !(Zone(cfg.root, cfg.txid) <= m.path) && !Destructive(cfg, m)
    ensures Safe(cfg, t0, ms, Step(cfg, d, m).disk)
  {
    hide Step, DeedOf, ArchiveFile, Discard, InArchive, Acts, NoClash, Destructive;
    var q := m.path;
    var deed := DeedOf(cfg, d, m);
    var d0 := StepIsItsDeed(cfg, d, m);
    SameTreeIsSafe(cfg, t0, ms, d, d0);
    if !deed.Nothing? {
      if LeafAt(d.tree, q) {
        assert Touched(cfg, t0, ms, q);
        ArchivingIsSafe(cfg, t0, ms, d0, q, if deed.ArchiveAndRemove? then deed.modified else true);
        if deed.ArchiveAndRemove? && ArchiveFile(cfg.root, cfg.txid, d0, q, deed.modified).ok {
          RemovalIsSafe(cfg, t0, ms, ArchiveFile(cfg.root, cfg.txid, d0, q, deed.modified).disk, q);
        }
      } else {
        DirectoryDeedIsSafe(cfg, t0, ms, d0, q, deed);
      }
    }
  }

  lemma SameTreeIsSafe(cfg: Config, t0: Tree, ms: seq<Mutation>, d: Disk, d0: Disk)
    requires Safe(cfg, t0, ms, d) && d0.tree == d.tree && d0.rows == d.rows
    ensures Safe(cfg, t0, ms, d0)
  {
    hide InArchive;
    forall p | LeafAt(t0, p) && !(Zone(cfg.root, cfg.txid) <= p) ensures Secured(cfg, t0, ms, d0, p) {
      assert Secured(cfg, t0, ms, d, p);
      assert InArchive(cfg, d, p, t0[p]) ==> InArchive(cfg, d0, p, t0[p]) by {
        SameArchive(cfg, d, d0, p, t0[p]);
      }
    }
  }

  lemma SameArchive(cfg: Config, d: Disk, d0: Disk, p: Path, n: Node)
    requires !n.Dir? && d0.tree == d.tree && d0.rows == d.rows
    ensures InArchive(cfg, d, p, n) <==> InArchive(cfg, d0, p, n)
  {
  }

  lemma DirectoryDeedIsSafe(cfg: Config, t0: Tree, ms: seq<Mutation>, d: Disk, q: Path, deed: Deed)
    requires WellFormed(t0) && Safe(cfg, t0, ms, d) && DirAt(d.tree, q) && !(Zone(cfg.root, cfg.txid) <= q)
    ensures Safe(cfg, t0, ms, DeedDone(cfg, d, q, deed))
  {
    hide ArchiveFile, Discard;
    if deed.RemoveDirectory? {
      if q == [] {
        RootStays(d);
        SameTreeIsSafe(cfg, t0, ms, d, Discard(d, q).disk);
      } else {
        RemovalIsSafe(cfg, t0, ms, d, q);
      }
    } else if !deed.Nothing? {
      var modified := if deed.ArchiveAndRemove? then deed.modified else true;
      ArchivingADirectory(cfg, d, q, modified);
      NewDirsAreSafe(cfg, t0, ms, d, Parent(ArchivePath(cfg.root, cfg.txid, q)),
        ArchiveFile(cfg.root, cfg.txid, d, q, modified).disk);
    }
  }

  lemma RootStays(d: Disk)
    requires DirAt(d.tree, [])
    ensures Discard(d, []).disk.tree == d.tree && Discard(d, []).disk.rows == d.rows
  {
  }

  /**
   Nothing is lost at any prefix of the mutation loop, whatever fails: run it on any list that
   archives first and any fault script, and every file and link of the initial tree is unchanged
   at its path or completely archived.
   */
  lemma {:induction false} NothingIsLost(cfg: Config, t0: Tree, all: seq<Mutation>, d: Disk, rep: Report, k: nat)
    requires ArchivesFirst(cfg, all) && WellFormed(t0) && NoClash(cfg, t0, all) && OutsideZone(cfg, all)
    requires k <= |all| && Safe(cfg, t0, all, d)
    ensures Safe(cfg, t0, all, RunAll(cfg, d, rep, all[k..]).disk)
    decreases |all| - k
  {
    hide Step, NoClash, Safe, WellFormed, Destructive;
    if k < |all| {
      assert all[k..][0] == all[k] && all[k..][1..] == all[k + 1..];
      StepIsSafe(cfg, t0, all, d, all[k]);
      var v := Step(cfg, d, all[k]);
      NothingIsLost(cfg, t0, all, v.disk, Note(rep, all[k].path, v.outcome), k + 1);
    }
  }

  /** Unchanged at its path, or completely archived. */
  ghost predicate KeptOrArchived(cfg: Config, d: Disk, d': Disk, p: Path)
    requires LeafAt(d.tree, p)
  {
    (p in d'.tree && d'.tree[p] == d.tree[p]) || InArchive(cfg, d', p, d.tree[p])
  }

  /** The same from any well-formed tree, after any number of mutations. */
  lemma NoLossAtAnyPoint(cfg: Config, d: Disk, ms: seq<Mutation>, k: nat, p: Path)
    requires ArchivesFirst(cfg, ms) && WellFormed(d.tree) && Sealed(cfg, d.tree)
    requires NoClash(cfg, d.tree, ms) && OutsideZone(cfg, ms)
    requires k <= |ms| && LeafAt(d.tree, p) && !(Zone(cfg.root, cfg.txid) <= p)
    ensures KeptOrArchived(cfg, d, RunAll(cfg, d, EMPTY_REPORT, ms[..k]).disk, p)
  {
    hide Destructive, InArchive;
    var before := ms[..k];
    assert before == before[0..];
    forall x | Touched(cfg, d.tree, before, x) ensures Touched(cfg, d.tree, ms, x) {
    }
    NothingIsLost(cfg, d.tree, before, d, EMPTY_REPORT, 0);
    assert Secured(cfg, d.tree, before, RunAll(cfg, d, EMPTY_REPORT, before).disk, p);
  }
}
