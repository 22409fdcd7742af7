/**
 What any rollback leaves alone, and exactly when one destroys content that is not archived.
 Unlike in a tracked app's cleanup, everything may be configured here: baselines, blobs,
 modes, group selection and faults.
 */
module Limits {
  import opened Paths
  import opened FileSystem
  import opened Links
  import opened Archive
  import opened Review
  import opened Rollback
  import opened NoLoss
  import opened NeverDelete
  import opened RoundTrip
  import opened ArchivePlaces
  import opened StepFrames
  import opened ArchiveKinds
  import opened Pruning

  // ---- Kept groups ----

  /**
   The mutation may restore a blob at a link that leads to `p`: it does if the link can be archived, or
   needs not be.
   */
  predicate MayWriteInto(cfg: Config, t: Tree, m: Mutation, p: Path) {
    var q := m.path;
    && LinkAt(t, q) && q != [] && q in cfg.blobs && !cfg.dryRun && Considered(cfg, m)
    && (m.op.Delete? || (m.op.Modify? && Fingerprinted(cfg, q)))
    && Follow(t, q) == p && p != q && p in t && t[p].File?
  }

  /** What can be checked before the rollback: it does. */
  ghost predicate WritesInto(cfg: Config, t: Tree, m: Mutation, p: Path) {
    MayWriteInto(cfg, t, m, p) && RestoresAtLink(cfg, t, m)
  }

  /** The way to the archive is free and no mutation is inside it, so that a link without room there gets none. */
  ghost predicate RoomIsFixed(cfg: Config, t: Tree, ms: seq<Mutation>) {
    RootUsable(cfg, t) && OutsideZone(cfg, ms)
  }

  lemma {:induction false} KeptThroughTheLoop(cfg: Config, t0: Tree, d: Disk, rep: Report, ms: seq<Mutation>, p: Path,
      fixed: bool)
    requires WellFormed(d.tree) && Sealed(cfg, d.tree) && LeafAt(d.tree, p) && !(Zone(cfg.root, cfg.txid) <= p)
    requires !PassesFilter(cfg, p) && NoNewLinks(t0, d.tree) && p in t0 && t0[p] == d.tree[p]
    requires fixed ==> RoomIsFixed(cfg, t0, ms) && KeepsKindsIn(Zone(cfg.root, cfg.txid), t0, d.tree)
    requires forall i | 0 <= i < |ms| && MayWriteInto(cfg, t0, ms[i], p) :: fixed && !RestoresAtLink(cfg, t0, ms[i])
    ensures var t := RunAll(cfg, d, rep, ms).disk.tree; WellFormed(t) && p in t && t[p] == d.tree[p]
    decreases ms
  {
    hide Step, WellFormed, Sealed, Follow, MayWriteInto, RestoresAtLink, RootUsable, KeepsKindsIn, NoNewLinks;
    if ms != [] {
      var v := Step(cfg, d, ms[0]);
      OneKept(cfg, t0, d, ms[0], p, fixed);
      LinksChain(t0, d.tree, v.disk.tree);
      if fixed {
        StepKeepsKinds(cfg, d, ms[0]);
        KindsInTwice(Zone(cfg.root, cfg.txid), t0, d.tree, v.disk.tree);
      }
      assert forall i | 0 <= i < |ms[1..]| :: ms[1..][i] == ms[i + 1];
      KeptThroughTheLoop(cfg, t0, v.disk, Note(rep, ms[0].path, v.outcome), ms[1..], p, fixed);
    }
  }

  lemma OneKept(cfg: Config, t0: Tree, d: Disk, m: Mutation, p: Path, fixed: bool)
    requires WellFormed(d.tree) && Sealed(cfg, d.tree) && LeafAt(d.tree, p) && !(Zone(cfg.root, cfg.txid) <= p)
    requires !PassesFilter(cfg, p) && NoNewLinks(t0, d.tree) && p in t0 && t0[p] == d.tree[p]
    requires fixed ==> RootUsable(cfg, t0) && KeepsKindsIn(Zone(cfg.root, cfg.txid), t0, d.tree)
    requires MayWriteInto(cfg, t0, m, p) ==> fixed && !RestoresAtLink(cfg, t0, m)
    ensures var t := Step(cfg, d, m).disk.tree;
      WellFormed(t) && Sealed(cfg, t) && NoNewLinks(d.tree, t) && p in t && t[p] == d.tree[p]
  {
    hide ProcessMutation, WellFormed, Sealed, Follow, RoomFor;
    StepKeepsLinks(cfg, d, m);
    if p != m.path {
      if WritesThrough(cfg, d.tree, m) && Follow(d.tree, m.path) == p {
        FollowBack(t0, d.tree, m.path);
        if RoomFor(cfg, d.tree, m.path) && fixed {
          RoomWasThere(cfg, t0, d.tree, m.path);
        }
      }
      StepKeepsLeaf(cfg, d, m, p);
    }
  }

  /** `p` comes out of a rollback as it went in. */
  ghost predicate Untouched(cfg: Config, d: Disk, ms: seq<Mutation>, p: Path)
    requires p in d.tree
  {
    var t := Execute(cfg, d, ms).disk.tree; p in t && t[p] == d.tree[p]
  }

  /**
   A file or link of a group that was not selected comes out of a rollback unchanged, whatever
   fails, unless a blob is restored at a link of a selected one that leads to it.
   */
  lemma KeptGroupsAreUntouched(cfg: Config, d: Disk, ms: seq<Mutation>, p: Path)
    requires WellFormed(d.tree) && Sealed(cfg, d.tree) && LeafAt(d.tree, p) && !(Zone(cfg.root, cfg.txid) <= p)
    requires cfg.selected.Some? && GroupKey(p).Some? && GroupKey(p).value !in cfg.selected.value
    requires forall i | 0 <= i < |ms| && MayWriteInto(cfg, d.tree, ms[i], p) ::
      RoomIsFixed(cfg, d.tree, ms) && !RestoresAtLink(cfg, d.tree, ms[i])
    ensures Untouched(cfg, d, ms, p)
  {
    hide MayWriteInto, RestoresAtLink, RoomIsFixed;
    KeptThroughTheLoop(cfg, d.tree, d, EMPTY_REPORT, ms, p, RoomIsFixed(cfg, d.tree, ms));
    var run := RunAll(cfg, d, EMPTY_REPORT, ms);
    PruningIsSafe(run.disk, ParentsOf(run.report.removed + run.report.archived), p, p);
  }

  /** ... and then, if that link can be archived first or needs not be, some script overwrites it for good. */
  lemma KeptGroupOverwritten(cfg: Config, d: Disk, ms: seq<Mutation>, p: Path, i: nat) returns (faults: seq<Fault>)
    requires WellFormed(d.tree) && Sealed(cfg, d.tree) && LeafAt(d.tree, p) && !(Zone(cfg.root, cfg.txid) <= p)
    requires i < |ms| && WritesInto(cfg, d.tree, ms[i], p)
    ensures !Untouched(cfg, Faulty(d, faults), ms, p)
  {
    hide Step, Follow, RestoresAtLink, WellFormed, Sealed, Blast, Blasted;
    var m, rest := ms[i], ms[i + 1..];
    var hit := Blasted(cfg, d, m);
    BlastGoesThrough(cfg, d, m, []);
    StepKeepsLinks(cfg, Faulty(d, Blast(cfg, d.tree, m, [])), m);
    var tail := IdleRun(cfg, hit, rest, []);
    BlastGoesThrough(cfg, d, m, tail + []);
    var head := IdleRun(cfg, d, ms[..i], Blast(cfg, d.tree, m, tail + []));
    faults := head + Blast(cfg, d.tree, m, tail + []);
    var start := Faulty(d, faults);
    assert ms == ms[..i] + ([m] + rest) && ([m] + rest)[1..] == rest;
    RunSplit(cfg, start, EMPTY_REPORT, ms[..i], [m] + rest);
    var run := RunAll(cfg, start, EMPTY_REPORT, ms);
    assert run.disk == Faulty(hit, []);
    PruningTakesNothing(run.disk, ParentsOf(run.report.removed + run.report.archived), p);
  }

  lemma PruningTakesNothing(d: Disk, starts: seq<Path>, p: Path)
    requires WellFormed(d.tree) && LeafAt(d.tree, p)
    ensures var t := PruneAll(d, starts).tree; p in t && t[p] == d.tree[p]
  {
    PruningIsSafe(d, starts, p, p);
  }

  /** A kept file is safe from every fault script exactly when no blob is restored at a link that leads to it. */
  lemma KeptGroupsExactly(cfg: Config, d: Disk, ms: seq<Mutation>, p: Path)
    requires WellFormed(d.tree) && Sealed(cfg, d.tree) && LeafAt(d.tree, p) && !(Zone(cfg.root, cfg.txid) <= p)
    requires cfg.selected.Some? && GroupKey(p).Some? && GroupKey(p).value !in cfg.selected.value
    requires RoomIsFixed(cfg, d.tree, ms)
      || forall i | 0 <= i < |ms| && MayWriteInto(cfg, d.tree, ms[i], p) :: RestoresAtLink(cfg, d.tree, ms[i])
    ensures (forall faults :: Untouched(cfg, Faulty(d, faults), ms, p)) <==>
      forall i | 0 <= i < |ms| :: !WritesInto(cfg, d.tree, ms[i], p)
  {
    hide MayWriteInto, RestoresAtLink, RoomIsFixed, Untouched;
    if i :| 0 <= i < |ms| && WritesInto(cfg, d.tree, ms[i], p) {
      var faults := KeptGroupOverwritten(cfg, d, ms, p, i);
    } else {
      forall faults ensures Untouched(cfg, Faulty(d, faults), ms, p) {
        assert forall i | 0 <= i < |ms| && MayWriteInto(cfg, d.tree, ms[i], p) :: !WritesInto(cfg, d.tree, ms[i], p);
        KeptGroupsAreUntouched(cfg, Faulty(d, faults), ms, p);
      }
    }
  }

  /** A tracked application has no blobs: its kept groups are safe, whatever fails. */
  lemma TrackedAppKeepsGroups(cfg: Config, d: Disk, ms: seq<Mutation>, p: Path)
    requires TrackedApp(cfg) && WellFormed(d.tree) && Sealed(cfg, d.tree)
    requires LeafAt(d.tree, p) && !(Zone(cfg.root, cfg.txid) <= p)
    requires cfg.selected.Some? && GroupKey(p).Some? && GroupKey(p).value !in cfg.selected.value
    ensures Untouched(cfg, d, ms, p)
  {
    hide Untouched, Follow, WellFormed, Sealed;
    KeptGroupsAreUntouched(cfg, d, ms, p);
  }

  /** A reviewable mutation passes the filter exactly when the group listing it was selected. */
  lemma ReviewDecides(cfg: Config, gs: seq<Group>, records: seq<Record>, i: nat)
    requires IsGrouping(gs, records) && i < |records| && Reviewable(records[i])
    requires cfg.selected.Some?
    ensures exists g | g in gs :: records[i].path in g.paths
    ensures forall g | g in gs && records[i].path in g.paths ::
      PassesFilter(cfg, records[i].path) <==> g.key in cfg.selected.value
  {
    var p := records[i].path;
    var k := GroupKey(p).value;
    PathsUnderHolds(records, i);
    var j :| 0 <= j < |gs| && gs[j].key == k;
    assert p in gs[j].paths;
    forall g | g in gs && p in g.paths ensures g.key == k {
      PathsUnderKey(records, g.key, p);
    }
  }

  lemma {:induction false} PathsUnderHolds(records: seq<Record>, i: nat)
    requires i < |records| && Reviewable(records[i])
    ensures records[i].path in PathsUnder(records, GroupKey(records[i].path).value)
  {
    var n := |records| - 1;
    if i < n {
      PathsUnderHolds(records[..n], i);
    }
  }

  lemma {:induction false} PathsUnderKey(records: seq<Record>, k: Path, p: Path)
    requires p in PathsUnder(records, k)
    ensures GroupKey(p) == Some(k)
  {
    var n := |records| - 1;
    if p in PathsUnder(records[..n], k) {
      PathsUnderKey(records[..n], k, p);
    }
  }

  // ---- When content is destroyed ----

  predicate SameContent(n: Node, n': Node) {
    match n
    case File(content, _, _, _) => n'.File? && n'.content == content
    case Link(target, _, _) => n'.Link? && n'.target == target
    case Dir => n'.Dir?
  }

  /** Neither still at its path nor in the archive. */
  ghost predicate Destroyed(cfg: Config, d: Disk, d': Disk, p: Path)
    requires LeafAt(d.tree, p)
  {
    && !(p in d'.tree && SameContent(d.tree[p], d'.tree[p]))
    && !InArchive(cfg, d', p, d.tree[p])
  }

  /** A blob that is not what the file holds now is written over it. */
  predicate OverwritesWithBlob(cfg: Config, d: Disk, p: Path)
    requires LeafAt(d.tree, p)
  {
    p in cfg.blobs && d.tree[p].File? && d.tree[p].content != cfg.blobs[p].content
  }

  /** What a caller can check before the step. */
  predicate DestroysWithoutArchive(cfg: Config, d: Disk, m: Mutation)
    requires LeafAt(d.tree, m.path)
  {
    var p := m.path;
    && !cfg.dryRun && PassesFilter(cfg, p) && !m.policy.Ignore? && (m.policy.Never? ==> cfg.homeCleanup)
    && match m.op
       case Create | RenameTo =>
         if p in cfg.pre && Compare(cfg, d, p).Modified? then !cfg.mode.Conservative?
         else !cfg.homeCleanup
       case Modify =>
         p in cfg.pre && OverwritesWithBlob(cfg, d, p)
         && (Compare(cfg, d, p).Unchanged? || (Compare(cfg, d, p).Modified? && cfg.mode.Nuclear?))
       case Delete => OverwritesWithBlob(cfg, d, p)
       case RenameFrom | Rename | Other => false
  }

  /** What a blob leaves where it is written. */
  function BaselineNode(b: Blob): Node {
    File(b.content, b.mode % 4096, b.uid, b.gid)
  }

  lemma BlobWritten(cfg: Config, d: Disk, p: Path)
    requires WellFormed(d.tree) && d.faults == [] && p in cfg.blobs && p in d.tree && d.tree[p].File?
    ensures var r := RestoreBlob(cfg, d, p); var b := cfg.blobs[p];
      r.ok && p in r.disk.tree && r.disk.tree[p] == BaselineNode(b)
      && r.disk.faults == []
  {
    var b := cfg.blobs[p];
    LeafIsChildless(d.tree, p);
    forall q | q in d.tree && q <= Parent(p) ensures d.tree[q].Dir? {
      assert q < p && DirAt(d.tree, q);
    }
    MakeDirsFrame(d, Parent(p));
    var d1 := MakeDirs(d, Parent(p)).disk;
    assert CanPut(d1.tree, p);
    WriteFrame(d1, p, b.content);
    var d2 := Write(d1, p, b.content).disk;
    assert SetOwner(SetMode(d2, p, b.mode), p, b.uid, b.gid).tree[p] == BaselineNode(b);
  }

  lemma BlobOnLink(cfg: Config, d: Disk, p: Path)
    requires WellFormed(d.tree) && LinkAt(d.tree, p)
    ensures p in RestoreBlob(cfg, d, p).disk.tree && SameContent(d.tree[p], RestoreBlob(cfg, d, p).disk.tree[p])
  {
    hide RestoreBlob, Follow, WellFormed;
    BlobFrame(cfg, d, p);
    assert LinkAt(RestoreBlob(cfg, d, p).disk.tree, p);
  }

  /** Archiving first, then removing: whatever stops it, nothing is destroyed. */
  lemma BackedUp(cfg: Config, d: Disk, p: Path)
    requires WellFormed(d.tree) && Sealed(cfg, d.tree) && LeafAt(d.tree, p) && !(Zone(cfg.root, cfg.txid) <= p)
    ensures !Destroyed(cfg, d, ArchiveThenDiscard(cfg, d, p, true).disk, p)
    ensures var r := ArchiveFile(cfg.root, cfg.txid, d, p, true);
      !Destroyed(cfg, d, if r.ok then RemoveFile(r.disk, p).disk else r.disk, p)
  {
    LeafIsChildless(d.tree, p);
    ArchiveKeeps(cfg, d, p, false);
    ArchiveKeeps(cfg, d, p, true);
    ArchiveThenGone(cfg, d, p, false);
    ArchiveThenGone(cfg, d, p, true);
  }

  /** What happens at `p` alone does not touch its archive. */
  lemma ArchiveApart(cfg: Config, d: Disk, d': Disk, p: Path, n: Node)
    requires p != [] && !n.Dir? && !(Zone(cfg.root, cfg.txid) <= p) && d'.rows == d.rows
    requires forall x | Zone(cfg.root, cfg.txid) <= x && (x in d.tree || x in d'.tree) ::
      x in d.tree && x in d'.tree && d'.tree[x] == d.tree[x]
    ensures InArchive(cfg, d', p, n) <==> InArchive(cfg, d, p, n)
  {
    SidecarInArchive(cfg.root, cfg.txid, p);
    assert Zone(cfg.root, cfg.txid) <= ArchivePath(cfg.root, cfg.txid, p);
  }

  lemma CreatedDestroys(cfg: Config, d: Disk, m: Mutation)
    requires WellFormed(d.tree) && Sealed(cfg, d.tree) && d.faults == [] && LeafAt(d.tree, m.path)
    requires !(Zone(cfg.root, cfg.txid) <= m.path)
    requires m.op == Create || m.op == RenameTo
    ensures Destroyed(cfg, d, Step(cfg, d, m).disk, m.path) <==>
      DestroysWithoutArchive(cfg, d, m) && !InArchive(cfg, d, m.path, d.tree[m.path])
  {
    var p := m.path;
    assert Consume(d) == d;
    BackedUp(cfg, d, p);
    var gone := RemoveFile(d, p).disk;
    assert p !in gone.tree && gone.rows == d.rows;
    ArchiveApart(cfg, d, gone, p, d.tree[p]);
    var v := Created(cfg, d, p);
    if cfg.dryRun {
      assert v.disk == d;
    } else if p in cfg.pre && Compare(cfg, d, p).Modified? {
      assert !cfg.mode.Conservative? ==> v.disk == gone;
    } else {
      assert !cfg.homeCleanup ==> v.disk == gone;
      assert cfg.homeCleanup ==> v.disk == ArchiveThenDiscard(cfg, d, p, true).disk;
    }
  }

  lemma ArchiveThenGone(cfg: Config, d: Disk, p: Path, modified: bool)
    requires WellFormed(d.tree) && Sealed(cfg, d.tree) && LeafAt(d.tree, p)
    requires p != [] && !(Zone(cfg.root, cfg.txid) <= p)
    ensures var r := ArchiveFile(cfg.root, cfg.txid, d, p, modified);
      r.ok ==> InArchive(cfg, RemoveFile(r.disk, p).disk, p, d.tree[p])
               && InArchive(cfg, Discard(r.disk, p).disk, p, d.tree[p])
  {
    ArchiveFrame(cfg, d, p, modified);
    ArchiveKeeps(cfg, d, p, modified);
    var r := ArchiveFile(cfg.root, cfg.txid, d, p, modified);
    if r.ok {
      DiscardKeepsArchived(cfg, r.disk, p, p, d.tree[p]);
    }
  }

  lemma BlobKeepsArchived(cfg: Config, d: Disk, p: Path, n: Node)
    requires WellFormed(d.tree) && Sealed(cfg, d.tree) && p != [] && !n.Dir? && InArchive(cfg, d, p, n)
    requires !(Zone(cfg.root, cfg.txid) <= p) && !LinkAt(d.tree, p)
    ensures InArchive(cfg, RestoreBlob(cfg, d, p).disk, p, n)
  {
    hide RestoreBlob, FollowUpTo, WellFormed;
    BlobFrame(cfg, d, p);
    SidecarInArchive(cfg.root, cfg.txid, p);
    assert Zone(cfg.root, cfg.txid) <= ArchivePath(cfg.root, cfg.txid, p);
  }

  /** Writing a blob back destroys what it overwrites at its path, and nothing else there. */
  lemma BlobDestroys(cfg: Config, d: Disk, p: Path)
    requires WellFormed(d.tree) && d.faults == [] && LeafAt(d.tree, p) && !(Zone(cfg.root, cfg.txid) <= p)
    ensures Destroyed(cfg, d, RestoreBlob(cfg, d, p).disk, p) <==>
      OverwritesWithBlob(cfg, d, p) && !InArchive(cfg, d, p, d.tree[p])
  {
    LeafIsChildless(d.tree, p);
    hide WellFormed, RestoreBlob, FollowUpTo, InArchive;
    if d.tree[p].Link? {
      BlobOnLink(cfg, d, p);
    } else {
      BlobFrame(cfg, d, p);
      if p in cfg.blobs {
        BlobWritten(cfg, d, p);
      }
      ArchiveApart(cfg, d, RestoreBlob(cfg, d, p).disk, p, d.tree[p]);
    }
  }

  lemma ArchivedThenBlob(cfg: Config, d: Disk, p: Path)
    requires WellFormed(d.tree) && Sealed(cfg, d.tree) && LeafAt(d.tree, p) && !(Zone(cfg.root, cfg.txid) <= p)
    ensures var r := ArchiveFile(cfg.root, cfg.txid, d, p, true);
      !Destroyed(cfg, d, if r.ok then RestoreBlob(cfg, r.disk, p).disk else r.disk, p)
  {
    LeafIsChildless(d.tree, p);
    hide ArchiveFile, RestoreBlob, WellFormed, InArchive, OnlySlots;
    ArchiveFrame(cfg, d, p, true);
    ArchiveKeeps(cfg, d, p, true);
    var r := ArchiveFile(cfg.root, cfg.txid, d, p, true);
    if r.ok && d.tree[p].Link? {
      BlobOnLink(cfg, r.disk, p);
    } else if r.ok {
      BlobKeepsArchived(cfg, r.disk, p, d.tree[p]);
    }
  }

  lemma ModifiedDestroys(cfg: Config, d: Disk, m: Mutation)
    requires WellFormed(d.tree) && Sealed(cfg, d.tree) && d.faults == [] && LeafAt(d.tree, m.path)
    requires !(Zone(cfg.root, cfg.txid) <= m.path)
    requires m.op == Modify
    ensures Destroyed(cfg, d, Step(cfg, d, m).disk, m.path) <==>
      DestroysWithoutArchive(cfg, d, m) && !InArchive(cfg, d, m.path, d.tree[m.path])
  {
    hide ArchiveFile, RestoreBlob, InArchive, WellFormed;
    assert Consume(d) == d;
    BackedUp(cfg, d, m.path);
    BlobDestroys(cfg, d, m.path);
    ArchivedThenBlob(cfg, d, m.path);
  }

  lemma DeletedDestroys(cfg: Config, d: Disk, m: Mutation)
    requires WellFormed(d.tree) && Sealed(cfg, d.tree) && d.faults == [] && LeafAt(d.tree, m.path)
    requires !(Zone(cfg.root, cfg.txid) <= m.path) && m.op == Delete
    ensures Destroyed(cfg, d, Step(cfg, d, m).disk, m.path) <==>
      DestroysWithoutArchive(cfg, d, m) && !InArchive(cfg, d, m.path, d.tree[m.path])
  {
    hide RestoreBlob, InArchive;
    BlobDestroys(cfg, d, m.path);
  }

  lemma OwnPathDestroyed(cfg: Config, d: Disk, m: Mutation)
    requires WellFormed(d.tree) && Sealed(cfg, d.tree) && d.faults == [] && LeafAt(d.tree, m.path)
    requires !(Zone(cfg.root, cfg.txid) <= m.path)
    ensures Destroyed(cfg, d, Step(cfg, d, m).disk, m.path) <==>
      DestroysWithoutArchive(cfg, d, m) && !InArchive(cfg, d, m.path, d.tree[m.path])
  {
    match m.op {
      case Create | RenameTo => CreatedDestroys(cfg, d, m);
      case Modify => ModifiedDestroys(cfg, d, m);
      case Delete => DeletedDestroys(cfg, d, m);
      case _ =>
    }
  }

  // ---- When another path's content is ----

  /** A blob with other content is restored at a link that leads to `p`. */
  ghost predicate DestroysThroughLink(cfg: Config, d: Disk, m: Mutation, p: Path)
    requires LeafAt(d.tree, p)
  {
    WritesThrough(cfg, d.tree, m) && Follow(d.tree, m.path) == p && d.tree[p].File?
      && d.tree[p].content != cfg.blobs[m.path].content
  }

  lemma ParentIsThere(t: Tree, l: Path)
    requires WellFormed(t) && LeafAt(t, l)
    ensures l != [] && DirAt(t, Parent(l))
  {
    LeafIsChildless(t, l);
    assert Parent(l) < l;
  }

  /** The way to a link is there, so that restoring a blob makes no directory. */
  lemma NoDirToMake(d: Disk, q: Path)
    requires WellFormed(d.tree) && LinkAt(d.tree, q)
    ensures q != [] && CanMakeDirs(d.tree, Parent(q)) && WithDirs(d.tree, Parent(q)) == d.tree
  {
    LeafIsChildless(d.tree, q);
    forall x | x <= Parent(q) ensures x in d.tree && d.tree[x].Dir? {
      assert x < q && DirAt(d.tree, x);
    }
    NoDirMissing(d.tree, Parent(q));
  }

  /** A blob goes through a link to a file, or to where one can be made. */
  lemma BlobThrough(cfg: Config, d: Disk, q: Path)
    requires WellFormed(d.tree) && d.faults == [] && q in cfg.blobs && LinkAt(d.tree, q)
    requires CanPut(d.tree, Follow(d.tree, q))
    ensures var t, l := RestoreBlob(cfg, d, q).disk.tree, Follow(d.tree, q);
      l in t && t[l] == BaselineNode(cfg.blobs[q])
  {
    hide FollowUpTo, SetMode, ChangeOwner;
    var b, l := cfg.blobs[q], Follow(d.tree, q);
    NoDirToMake(d, q);
    WriteFrame(d, q, b.content);
    WriteKeepsLinks(d, q, b.content);
    FollowSame(d.tree, Write(d, q, b.content).disk.tree, q);
    MetadataIsSet(Write(d, q, b.content).disk, q, b, l);
  }

  /** ... and nowhere else. */
  lemma BlobBlocked(cfg: Config, d: Disk, q: Path)
    requires WellFormed(d.tree) && d.faults == [] && LinkAt(d.tree, q) && !CanPut(d.tree, Follow(d.tree, q))
    ensures RestoreBlob(cfg, d, q).disk == d
  {
    hide FollowUpTo;
    NoDirToMake(d, q);
  }

  lemma MetadataIsSet(d: Disk, q: Path, b: Blob, l: Path)
    requires d.faults == [] && l == Follow(d.tree, q) && l in d.tree && d.tree[l].File?
    ensures var t := ChangeOwner(SetMode(d, q, b.mode), q, b.uid, b.gid).tree;
      l in t && t[l] == File(d.tree[l].content, b.mode % 4096, b.uid, b.gid)
  {
    hide Follow;
    MetadataKeepsLinks(d, q, b.mode, b.uid, b.gid);
    FollowSame(d.tree, SetMode(d, q, b.mode).tree, q);
  }

  lemma ArchivedThenBlobThrough(cfg: Config, d: Disk, q: Path)
    requires WellFormed(d.tree) && Sealed(cfg, d.tree) && d.faults == [] && q in cfg.blobs && q != []
    requires LeadsAway(cfg, d.tree, q) && RoomFor(cfg, d.tree, q)
    ensures var r := ArchiveFile(cfg.root, cfg.txid, d, q, true); var l := Follow(d.tree, q);
      var t := RestoreBlob(cfg, r.disk, q).disk.tree;
      r.ok && l in t && t[l] == BaselineNode(cfg.blobs[q])
  {
    hide RestoreBlob, Follow;
    LinkArchived(cfg, d, q);
    hide ArchiveFile, RoomFor;
    var r := ArchiveFile(cfg.root, cfg.txid, d, q, true).disk;
    ArchiveFrame(cfg, d, q, true);
    ArchiveStaysInZone(cfg, d, q, true);
    ArchiveKeepsLinks(cfg, d, q, true);
    FollowSame(d.tree, r.tree, q);
    ParentIsThere(r.tree, Follow(d.tree, q));
    BlobThrough(cfg, r, q);
  }

  lemma LinkArchived(cfg: Config, d: Disk, q: Path)
    requires WellFormed(d.tree) && d.faults == [] && q != [] && LinkAt(d.tree, q) && RoomFor(cfg, d.tree, q)
    ensures var r := ArchiveFile(cfg.root, cfg.txid, d, q, true); r.ok && r.disk.faults == []
  {
    hide FollowUpTo;
    var dest := Dest(cfg, q);
    SidecarInArchive(cfg.root, cfg.txid, q);
    forall x | x in d.tree && x <= Parent(dest) ensures d.tree[x].Dir? {
      assert x < dest;
    }
    MakeDirsFrame(d, Parent(dest));
    var d1 := MakeDirs(d, Parent(dest)).disk;
    assert SidecarOf(dest) in d1.tree ==> SidecarOf(dest) in d.tree;
    assert CanPut(d1.tree, SidecarOf(dest));
  }

  lemma ThroughLinkWritten(cfg: Config, d: Disk, m: Mutation)
    requires WellFormed(d.tree) && Sealed(cfg, d.tree) && d.faults == [] && WritesThrough(cfg, d.tree, m)
    ensures var t, l := Step(cfg, d, m).disk.tree, Follow(d.tree, m.path);
      l in t && t[l] == BaselineNode(cfg.blobs[m.path])
  {
    hide RestoreBlob, ArchiveFile, Follow, RoomFor, WellFormed;
    assert Consume(d) == d;
    if AtOnce(cfg, m) {
      ParentIsThere(d.tree, Follow(d.tree, m.path));
      BlobThrough(cfg, d, m.path);
    } else {
      ArchivedThenBlobThrough(cfg, d, m.path);
    }
  }

  lemma StepAddsNoRow(cfg: Config, d: Disk, m: Mutation, p: Path)
    requires WellFormed(d.tree) && Sealed(cfg, d.tree) && p != m.path && (cfg.txid, p) !in d.rows
    ensures (cfg.txid, p) !in Step(cfg, d, m).disk.rows
  {
    hide ArchiveFile, RestoreBlob, Discard, RemoveFile;
    var q := m.path;
    forall e: Disk, modified | e.tree == d.tree && e.rows == d.rows
      ensures (cfg.txid, p) !in ArchiveFile(cfg.root, cfg.txid, e, q, modified).disk.rows
    {
      ArchivingAddsOneRow(cfg, e, q, modified, p);
    }
    forall e: Disk
      ensures RestoreBlob(cfg, e, q).disk.rows == e.rows
      ensures Discard(e, q).disk.rows == e.rows && RemoveFile(e, q).disk.rows == e.rows
    {
      NoRowsElsewhere(cfg, e, q);
    }
  }

  lemma CallsKeepRows(d: Disk, p: Path, q: Path, content: Content, mode: nat, uid: nat, gid: nat)
    ensures MakeDirs(d, p).disk.rows == d.rows && Write(d, p, content).disk.rows == d.rows
      && Copy(d, p, q).disk.rows == d.rows
    ensures SetMode(d, p, mode).rows == d.rows && ChangeOwner(d, p, uid, gid).rows == d.rows
    ensures Discard(d, p).disk.rows == d.rows && RemoveFile(d, p).disk.rows == d.rows
  {
    hide Follow, CanPut, Put, CanMakeDirs, WithDirs;
  }

  lemma NoRowsElsewhere(cfg: Config, d: Disk, q: Path)
    ensures RestoreBlob(cfg, d, q).disk.rows == d.rows && Discard(d, q).disk.rows == d.rows
      && RemoveFile(d, q).disk.rows == d.rows
  {
    hide MakeDirs, Write, SetMode, ChangeOwner, Discard, RemoveFile;
    CallsKeepRows(d, q, q, Bytes([]), 0, 0, 0);
    if q in cfg.blobs {
      var b := cfg.blobs[q];
      if q != [] {
        CallsKeepRows(d, Parent(q), q, b.content, 0, 0, 0);
      }
      var d1 := if q == [] then d else MakeDirs(d, Parent(q)).disk;
      CallsKeepRows(d1, q, q, b.content, 0, 0, 0);
      var d2 := Write(d1, q, b.content).disk;
      CallsKeepRows(d2, q, q, b.content, b.mode, 0, 0);
      CallsKeepRows(SetMode(d2, q, b.mode), q, q, b.content, 0, b.uid, b.gid);
    }
  }

  lemma ArchivingAddsOneRow(cfg: Config, d: Disk, q: Path, modified: bool, p: Path)
    requires p != q && (cfg.txid, p) !in d.rows
    ensures (cfg.txid, p) !in ArchiveFile(cfg.root, cfg.txid, d, q, modified).disk.rows
  {
    hide MakeDirs, Write, Copy;
    if q in d.tree {
      var dest := Dest(cfg, q);
      CallsKeepRows(d, Parent(dest), q, Bytes([]), 0, 0, 0);
      var r1 := MakeDirs(d, Parent(dest));
      CallsKeepRows(r1.disk, q, dest, Bytes([]), 0, 0, 0);
      DirsKeepEntry(d, Parent(dest), q);
      if r1.ok && !d.tree[q].Dir? {
        var r2 := StoreContent(r1.disk, q, dest);
        CallsKeepRows(r2.disk, SidecarOf(dest), q, Document(MetaOf(q, d.tree[q], modified)), 0, 0, 0);
      }
    }
  }

  /** Restoring a blob through a link leaves what is archived of the file it leads to. */
  lemma ThroughKeepsArchived(cfg: Config, d: Disk, q: Path, p: Path, n: Node)
    requires WellFormed(d.tree) && Sealed(cfg, d.tree) && q != [] && LinkAt(d.tree, q) && Follow(d.tree, q) == p
    requires p != [] && p != q && !(Zone(cfg.root, cfg.txid) <= p) && !n.Dir? && SidecarOf(q) != p
    ensures InArchive(cfg, RestoreBlob(cfg, d, q).disk, p, n) <==> InArchive(cfg, d, p, n)
    ensures InArchive(cfg, RestoreBlob(cfg, ArchiveFile(cfg.root, cfg.txid, d, q, true).disk, q).disk, p, n) <==>
      InArchive(cfg, d, p, n)
  {
    hide ArchiveFile, RestoreBlob, Follow, WellFormed, ArchivePath, SidecarOf;
    var r := ArchiveFile(cfg.root, cfg.txid, d, q, true).disk;
    ArchiveFrame(cfg, d, q, true);
    ArchiveKeepsLinks(cfg, d, q, true);
    FollowSame(d.tree, r.tree, q);
    PlacesOfTwo(cfg, p, q);
    BlobKeepsPlaces(cfg, d, q, p, n);
    BlobKeepsPlaces(cfg, r, q, p, n);
  }

  lemma PlacesOfTwo(cfg: Config, p: Path, q: Path)
    requires p != [] && q != [] && p != q && SidecarOf(q) != p
    ensures var z := Zone(cfg.root, cfg.txid); z <= Dest(cfg, p) && z <= SidecarOf(Dest(cfg, p))
    ensures SidecarOf(Dest(cfg, q)) != Dest(cfg, p) && SidecarOf(Dest(cfg, q)) != SidecarOf(Dest(cfg, p))
  {
    SidecarInArchive(cfg.root, cfg.txid, p);
    SidecarInArchive(cfg.root, cfg.txid, q);
    DestBelow(cfg, SidecarOf(q), p);
    DestBelow(cfg, SidecarOf(q), SidecarOf(p));
    if SidecarOf(p) == SidecarOf(q) {
      SidecarInjective(p, q);
    }
  }

  lemma BlobKeepsPlaces(cfg: Config, d: Disk, q: Path, p: Path, n: Node)
    requires WellFormed(d.tree) && q != [] && LinkAt(d.tree, q) && Follow(d.tree, q) == p
    requires p != [] && !(Zone(cfg.root, cfg.txid) <= p) && !n.Dir?
    ensures InArchive(cfg, RestoreBlob(cfg, d, q).disk, p, n) <==> InArchive(cfg, d, p, n)
  {
    hide RestoreBlob, Follow, WellFormed;
    BlobFrame(cfg, d, q);
    SidecarInArchive(cfg.root, cfg.txid, p);
    assert Zone(cfg.root, cfg.txid) <= Dest(cfg, p);
  }

  lemma OtherPathDestroyed(cfg: Config, d: Disk, m: Mutation, p: Path)
    requires WellFormed(d.tree) && Sealed(cfg, d.tree) && d.faults == [] && LeafAt(d.tree, p)
    requires !(Zone(cfg.root, cfg.txid) <= p) && p != m.path
    requires m.path != [] && (cfg.txid, p) in d.rows ==> SidecarOf(m.path) != p
    ensures Destroyed(cfg, d, Step(cfg, d, m).disk, p) <==>
      DestroysThroughLink(cfg, d, m, p) && !InArchive(cfg, d, p, d.tree[p])
  {
    hide Step, Follow, RestoresAtLink, WellFormed, InArchive;
    LeafIsChildless(d.tree, p);
    if WritesThrough(cfg, d.tree, m) && Follow(d.tree, m.path) == p {
      ThroughLinkWritten(cfg, d, m);
      NotAway(cfg, d, m.path);
      ThroughArchive(cfg, d, m, p);
    } else {
      StepKeepsLeaf(cfg, d, m, p);
    }
  }

  lemma ThroughArchive(cfg: Config, d: Disk, m: Mutation, p: Path)
    requires WellFormed(d.tree) && Sealed(cfg, d.tree) && d.faults == [] && LeafAt(d.tree, p) && p != []
    requires WritesThrough(cfg, d.tree, m) && Follow(d.tree, m.path) == p && !(Zone(cfg.root, cfg.txid) <= p)
    requires (cfg.txid, p) in d.rows ==> SidecarOf(m.path) != p
    ensures InArchive(cfg, Step(cfg, d, m).disk, p, d.tree[p]) <==> InArchive(cfg, d, p, d.tree[p])
  {
    if (cfg.txid, p) !in d.rows {
      StepAddsNoRow(cfg, d, m, p);
    } else {
      hide ArchiveFile, RestoreBlob, Follow, WellFormed, InArchive, RoomFor;
      assert Consume(d) == d;
      ThroughKeepsArchived(cfg, d, m.path, p, d.tree[p]);
      if !AtOnce(cfg, m) {
        LinkArchived(cfg, d, m.path);
      }
    }
  }

  /**
   A step with working calls destroys a file that is not archived exactly when it is its own path's
   and the first guard is true, or a link leads from its path to the file and the second one is. The
   first is true of unmodified files outside a home cleanup, of modified ones in the clean and
   nuclear modes, and of a file over which a blob with other content is restored. An archived file
   could only be spoiled by a sidecar of its name.
   */
  lemma DestroysExactlyWhen(cfg: Config, d: Disk, m: Mutation, p: Path)
    requires WellFormed(d.tree) && Sealed(cfg, d.tree) && d.faults == [] && LeafAt(d.tree, p)
    requires !(Zone(cfg.root, cfg.txid) <= p)
    requires p != m.path && m.path != [] && (cfg.txid, p) in d.rows ==> SidecarOf(m.path) != p
    ensures Destroyed(cfg, d, Step(cfg, d, m).disk, p) <==>
      && (if p == m.path then DestroysWithoutArchive(cfg, d, m) else DestroysThroughLink(cfg, d, m, p))
      && !InArchive(cfg, d, p, d.tree[p])
  {
    hide Step, Destroyed, DestroysWithoutArchive, DestroysThroughLink, InArchive;
    if p == m.path {
      OwnPathDestroyed(cfg, d, m);
    } else {
      OtherPathDestroyed(cfg, d, m, p);
    }
  }

  /** A tracked app's rollback meets neither guard: its home cleanup always archives first, and there are no blobs. */
  lemma TrackedAppNeverDestroys(cfg: Config, d: Disk, m: Mutation)
    requires TrackedApp(cfg)
    ensures LeafAt(d.tree, m.path) ==> !DestroysWithoutArchive(cfg, d, m)
    ensures forall p | LeafAt(d.tree, p) :: !DestroysThroughLink(cfg, d, m, p)
  {
    hide Follow, RoomFor;
  }
}
