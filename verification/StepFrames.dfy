/**
 What one mutation can change: its own path, its places in the archive, and, when a blob is written
 back at a path that is a link by now, whatever file that link leads to.
 */
module StepFrames {
  import opened Paths
  import opened FileSystem
  import opened Links
  import opened Archive
  import opened Review
  import opened Rollback
  import opened NoLoss
  import opened NeverDelete
  import opened RoundTrip
  import opened ArchivePlaces
  import opened TornCopy

  // ---- Links stay where they lead ----

  lemma ArchiveKeepsLinks(cfg: Config, d: Disk, p: Path, modified: bool)
    ensures SameLinks(d.tree, ArchiveFile(cfg.root, cfg.txid, d, p, modified).disk.tree)
  {
    hide MakeDirs, Copy, Write, NoNewLinks;
    SameLinksAreThose(d.tree);
    if p in d.tree {
      var dest := ArchivePath(cfg.root, cfg.txid, p);
      DirsKeepLinks(d, Parent(dest));
      var r1 := MakeDirs(d, Parent(dest));
      if r1.ok {
        DirsKeepEntry(d, Parent(dest), p);
        StoredKeepsLinks(cfg, r1.disk, p, dest, modified);
        var r2 := StoreContent(r1.disk, p, dest);
        SameLinksChain(d.tree, r1.disk.tree, r2.disk.tree);
        if r2.ok && !d.tree[p].Dir? {
          SameLinksChain(d.tree, r1.disk.tree, StoreRecord(r2.disk, cfg.txid, p, d.tree[p], dest, modified).disk.tree);
        }
      }
    }
  }

  lemma SameLinksAreThose(t: Tree)
    ensures SameLinks(t, t)
  {
  }

  lemma SameLinksChain(t: Tree, t1: Tree, t2: Tree)
    requires SameLinks(t, t1) && SameLinks(t1, t2)
    ensures SameLinks(t, t2)
  {
  }

  lemma DirsKeepEntry(d: Disk, dir: Path, p: Path)
    requires p in d.tree
    ensures p in MakeDirs(d, dir).disk.tree && MakeDirs(d, dir).disk.tree[p] == d.tree[p]
  {
  }

  lemma StoredKeepsLinks(cfg: Config, d: Disk, p: Path, dest: Path, modified: bool)
    requires p in d.tree && dest != []
    ensures var r := StoreContent(d, p, dest);
      && SameLinks(d.tree, r.disk.tree)
      && (!d.tree[p].Dir? ==> SameLinks(d.tree, StoreRecord(r.disk, cfg.txid, p, d.tree[p], dest, modified).disk.tree))
  {
    hide Copy, Write, NoNewLinks;
    SameLinksAreThose(d.tree);
    CopyKeepsLinks(d, p, dest);
    var r := StoreContent(d, p, dest).disk;
    if !d.tree[p].Dir? {
      var content := Document(MetaOf(p, d.tree[p], modified));
      WriteKeepsLinks(r, SidecarOf(dest), content);
      SameLinksChain(d.tree, r.tree, Write(r, SidecarOf(dest), content).disk.tree);
    }
  }

  // ---- Writing a blob back ----

  /**
   Entries other than `l` are as before, only directories above `q` are new besides, and what is
   new or other at `l` is a file.
   */
  ghost predicate OnlyAt(t: Tree, t': Tree, q: Path, l: Path) {
    && (forall x | x in t && x != l :: x in t' && t'[x] == t[x])
    && (forall x | x in t' && x !in t && x != l :: t'[x].Dir? && x < q)
    && (l in t ==> l in t')
    && (l in t' ==> (l in t && t'[l] == t[l]) || t'[l].File?)
    && SameLinks(t, t')
  }

  lemma OnlyAtTwice(t: Tree, t1: Tree, t2: Tree, q: Path, l: Path)
    requires OnlyAt(t, t1, q, l) && OnlyAt(t1, t2, q, l)
    ensures OnlyAt(t, t2, q, l)
  {
  }

  lemma MetadataFrame(t: Tree, t': Tree, q: Path)
    requires WellFormed(t) && q in t && t[q].File?
    requires q in t' && t'[q].File? && t' == t[q := t'[q]]
    ensures WellFormed(t')
  {
    forall x, y | x in t' && y < x ensures DirAt(t', y) {
      assert x in t && DirAt(t, y);
    }
  }

  lemma ModeOnlyAt(d: Disk, q: Path, mode: nat)
    requires WellFormed(d.tree) && Follow(d.tree, q) in d.tree && d.tree[Follow(d.tree, q)].File?
    ensures var d', l := SetMode(d, q, mode), Follow(d.tree, q);
      && WellFormed(d'.tree) && OnlyAt(d.tree, d'.tree, q, l) && d'.rows == d.rows
      && Follow(d'.tree, q) == l && l in d'.tree && d'.tree[l].File?
  {
    hide Follow, WellFormed;
    MetadataKeepsLinks(d, q, mode, 0, 0);
    FollowSame(d.tree, SetMode(d, q, mode).tree, q);
    MetadataFrame(d.tree, SetMode(d, q, mode).tree, Follow(d.tree, q));
  }

  lemma OwnerOnlyAt(d: Disk, q: Path, uid: nat, gid: nat)
    requires WellFormed(d.tree) && Follow(d.tree, q) in d.tree && d.tree[Follow(d.tree, q)].File?
    ensures var d' := ChangeOwner(d, q, uid, gid);
      WellFormed(d'.tree) && OnlyAt(d.tree, d'.tree, q, Follow(d.tree, q)) && d'.rows == d.rows
  {
    hide Follow, WellFormed;
    MetadataKeepsLinks(d, q, 0, uid, gid);
    MetadataFrame(d.tree, ChangeOwner(d, q, uid, gid).tree, Follow(d.tree, q));
  }

  lemma MetadataOnlyAt(d: Disk, q: Path, b: Blob)
    requires WellFormed(d.tree) && Follow(d.tree, q) in d.tree && d.tree[Follow(d.tree, q)].File?
    ensures var t := ChangeOwner(SetMode(d, q, b.mode), q, b.uid, b.gid);
      WellFormed(t.tree) && OnlyAt(d.tree, t.tree, q, Follow(d.tree, q)) && t.rows == d.rows
  {
    hide Follow, WellFormed, SetMode, ChangeOwner, OnlyAt;
    ModeOnlyAt(d, q, b.mode);
    OwnerOnlyAt(SetMode(d, q, b.mode), q, b.uid, b.gid);
    OnlyAtTwice(d.tree, SetMode(d, q, b.mode).tree, ChangeOwner(SetMode(d, q, b.mode), q, b.uid, b.gid).tree, q,
      Follow(d.tree, q));
  }

  /** The three calls that write bytes, mode and owner, all through the same link. */
  lemma PutBlobFrame(d: Disk, q: Path, b: Blob)
    requires WellFormed(d.tree)
    ensures var l := Follow(d.tree, q); var r2 := Write(d, q, b.content);
      var t := if r2.ok then ChangeOwner(SetMode(r2.disk, q, b.mode), q, b.uid, b.gid) else r2.disk;
      WellFormed(t.tree) && OnlyAt(d.tree, t.tree, q, l) && t.rows == d.rows
  {
    hide Follow, Write, SetMode, ChangeOwner, WellFormed;
    WriteFrame(d, q, b.content);
    WriteKeepsLinks(d, q, b.content);
    WriteKeepsEntries(d, q, b.content);
    var r2 := Write(d, q, b.content);
    FollowSame(d.tree, r2.disk.tree, q);
    assert OnlyAt(d.tree, r2.disk.tree, q, Follow(d.tree, q));
    if r2.ok {
      MetadataOnlyAt(r2.disk, q, b);
      OnlyAtTwice(d.tree, r2.disk.tree, ChangeOwner(SetMode(r2.disk, q, b.mode), q, b.uid, b.gid).tree, q,
        Follow(d.tree, q));
    }
  }

  lemma WriteKeepsEntries(d: Disk, q: Path, content: Content)
    ensures forall x | x in d.tree :: x in Write(d, q, content).disk.tree
  {
    hide FollowUpTo;
  }

  lemma DirsOnlyAt(d: Disk, q: Path)
    requires WellFormed(d.tree) && q != []
    ensures OnlyAt(d.tree, MakeDirs(d, Parent(q)).disk.tree, q, Follow(d.tree, q))
  {
    hide FollowUpTo, MakeDirs;
    MakeDirsFrame(d, Parent(q));
    DirsKeepLinks(d, Parent(q));
    var t := MakeDirs(d, Parent(q)).disk.tree;
    if LinkAt(d.tree, q) {
      forall x | x in t ensures x in d.tree {
        if x <= Parent(q) {
          assert x < q && DirAt(d.tree, x);
        }
      }
    }
  }

  /** Where the blob lands, that the rest stays, and that no link changes. */
  lemma BlobFrame(cfg: Config, d: Disk, q: Path)
    requires WellFormed(d.tree)
    ensures var r := RestoreBlob(cfg, d, q);
      && WellFormed(r.disk.tree) && OnlyAt(d.tree, r.disk.tree, q, Follow(d.tree, q)) && r.disk.rows == d.rows
      && (q !in cfg.blobs ==> r.disk == d)
  {
    hide Follow, Write, SetMode, ChangeOwner, MakeDirs;
    if q in cfg.blobs && q != [] {
      MakeDirsFrame(d, Parent(q));
      DirsOnlyAt(d, q);
      var r1 := MakeDirs(d, Parent(q));
      FollowSame(d.tree, r1.disk.tree, q);
      if r1.ok {
        PutBlobFrame(r1.disk, q, cfg.blobs[q]);
        OnlyAtTwice(d.tree, r1.disk.tree, RestoreBlob(cfg, d, q).disk.tree, q, Follow(d.tree, q));
      }
    } else if q in cfg.blobs {
      assert DirAt(d.tree, []);
      PutBlobFrame(d, [], cfg.blobs[[]]);
    }
  }

  // ---- What a step leaves alone ----

  ghost predicate KeepsOthers(cfg: Config, t: Tree, t': Tree, q: Path) {
    && WellFormed(t') && Sealed(cfg, t') && NoNewLinks(t, t')
    && forall p {:trigger p in t'} {:trigger t[p]} |
         LeafAt(t, p) && p != q && !(Zone(cfg.root, cfg.txid) <= p) :: p in t' && t'[p] == t[p]
  }

  lemma KeepsOthersTwice(cfg: Config, t: Tree, t1: Tree, t2: Tree, q: Path)
    requires KeepsOthers(cfg, t, t1, q) && KeepsOthers(cfg, t1, t2, q)
    ensures KeepsOthers(cfg, t, t2, q)
  {
  }

  lemma ArchivingTheRootFails(cfg: Config, d: Disk, modified: bool)
    requires WellFormed(d.tree)
    ensures var r := ArchiveFile(cfg.root, cfg.txid, d, [], modified);
      && !r.ok && r.disk.rows == d.rows && WellFormed(r.disk.tree)
      && (forall p | p in d.tree :: p in r.disk.tree && r.disk.tree[p] == d.tree[p])
  {
    assert DirAt(d.tree, []);
    MakeDirsFrame(d, Parent(ArchivePath(cfg.root, cfg.txid, [])));
  }

  lemma ArchiveKeeps(cfg: Config, d: Disk, q: Path, modified: bool)
    requires WellFormed(d.tree) && Sealed(cfg, d.tree)
    ensures KeepsOthers(cfg, d.tree, ArchiveFile(cfg.root, cfg.txid, d, q, modified).disk.tree, q)
    ensures !(Zone(cfg.root, cfg.txid) <= q) && q in d.tree ==>
      var t := ArchiveFile(cfg.root, cfg.txid, d, q, modified).disk.tree; q in t && t[q] == d.tree[q]
  {
    ArchiveKeepsLinks(cfg, d, q, modified);
    if q == [] {
      ArchivingTheRootFails(cfg, d, modified);
    } else {
      ArchiveFrame(cfg, d, q, modified);
      ArchiveStaysInZone(cfg, d, q, modified);
    }
  }

  lemma DiscardKeeps(cfg: Config, d: Disk, q: Path)
    requires WellFormed(d.tree) && Sealed(cfg, d.tree)
    ensures KeepsOthers(cfg, d.tree, Discard(d, q).disk.tree, q)
  {
    if q != [] {
      DiscardFrame(d, q);
      RemovalKeepsLinks(d.tree, q);
    }
  }

  lemma RemoveFileKeeps(cfg: Config, d: Disk, q: Path)
    requires WellFormed(d.tree) && Sealed(cfg, d.tree)
    ensures KeepsOthers(cfg, d.tree, RemoveFile(d, q).disk.tree, q)
  {
    RemovalKeepsLinks(d.tree, q);
    if LeafAt(d.tree, q) {
      LeafIsChildless(d.tree, q);
      RemoveFrame(d.tree, q);
    }
  }

  lemma ArchiveThenDiscardKeeps(cfg: Config, d: Disk, q: Path, archive: bool)
    requires WellFormed(d.tree) && Sealed(cfg, d.tree)
    ensures KeepsOthers(cfg, d.tree, ArchiveThenDiscard(cfg, d, q, archive).disk.tree, q)
  {
    hide ArchiveFile, Discard;
    var r := if archive then ArchiveFile(cfg.root, cfg.txid, d, q, false) else Result(d, true);
    ArchiveKeeps(cfg, d, q, false);
    DiscardKeeps(cfg, r.disk, q);
    if r.ok {
      KeepsOthersTwice(cfg, d.tree, r.disk.tree, Discard(r.disk, q).disk.tree, q);
    }
  }

  lemma CreatedKeeps(cfg: Config, d: Disk, q: Path)
    requires WellFormed(d.tree) && Sealed(cfg, d.tree)
    ensures KeepsOthers(cfg, d.tree, Created(cfg, d, q).disk.tree, q)
  {
    hide ArchiveFile, Discard, RemoveFile;
    if q in d.tree && !cfg.dryRun {
      var d0 := if q in cfg.pre then Consume(d) else d;
      if q in cfg.pre && Compare(cfg, d, q).Modified? {
        RemoveFileKeeps(cfg, d0, q);
        ArchiveKeeps(cfg, d0, q, true);
        var r := ArchiveFile(cfg.root, cfg.txid, d0, q, true).disk;
        RemoveFileKeeps(cfg, r, q);
        KeepsOthersTwice(cfg, d.tree, r.tree, RemoveFile(r, q).disk.tree, q);
      } else {
        ArchiveThenDiscardKeeps(cfg, d0, q, cfg.homeCleanup && LeafAt(d.tree, q));
      }
    }
  }

  // ---- ... unless a blob goes through a link ----

  /** `q` is a link that leads to another file, outside the archive. */
  predicate LeadsAway(cfg: Config, t: Tree, q: Path) {
    var l := Follow(t, q);
    LinkAt(t, q) && l != q && l in t && t[l].File? && !(Zone(cfg.root, cfg.txid) <= l)
  }

  /** The mutation restores a blob at a path where a link stands: at once, or once the link is archived. */
  ghost predicate RestoresAtLink(cfg: Config, t: Tree, m: Mutation) {
    var q := m.path;
    && LinkAt(t, q) && q != [] && q in cfg.blobs && !cfg.dryRun && Considered(cfg, m)
    && match m.op
       case Delete => true
       case Modify => Fingerprinted(cfg, q) && (q in cfg.sameTime || cfg.mode.Nuclear? || RoomFor(cfg, t, q))
       case _ => false
  }

  /** What can be checked before the step. */
  ghost predicate WritesThrough(cfg: Config, t: Tree, m: Mutation) {
    RestoresAtLink(cfg, t, m) && LeadsAway(cfg, t, m.path)
  }

  lemma BlobKeeps(cfg: Config, d: Disk, q: Path)
    requires WellFormed(d.tree) && Sealed(cfg, d.tree) && (q in cfg.blobs ==> !LeadsAway(cfg, d.tree, q))
    ensures KeepsOthers(cfg, d.tree, RestoreBlob(cfg, d, q).disk.tree, q)
  {
    hide RestoreBlob, Follow;
    BlobFrame(cfg, d, q);
    NoLinkNoTrail(d.tree, q);
  }

  lemma NoLinkNoTrail(t: Tree, q: Path)
    ensures !LinkAt(t, q) ==> Follow(t, q) == q
  {
  }

  lemma StoredHadRoom(cfg: Config, d: Disk, q: Path)
    requires Sealed(cfg, d.tree) && q in d.tree && StoreContent(d, q, Dest(cfg, q)).ok
    ensures d.tree[q].File? && Dest(cfg, q) in d.tree ==> d.tree[Dest(cfg, q)].File?
  {
    hide FollowUpTo;
    assert Zone(cfg.root, cfg.txid) <= Dest(cfg, q);
  }

  lemma RecordedHadRoom(cfg: Config, d: Disk, q: Path, n: Node, modified: bool)
    requires Sealed(cfg, d.tree) && q != [] && !n.Dir? && StoreRecord(d, cfg.txid, q, n, Dest(cfg, q), modified).ok
    ensures var s := SidecarOf(Dest(cfg, q)); s in d.tree ==> d.tree[s].File?
  {
    hide FollowUpTo;
    SidecarInArchive(cfg.root, cfg.txid, q);
  }

  /** An archiving that works found its place. */
  lemma ArchivedHadRoom(cfg: Config, d: Disk, q: Path, modified: bool)
    requires WellFormed(d.tree) && Sealed(cfg, d.tree) && q != [] && LeafAt(d.tree, q)
    requires ArchiveFile(cfg.root, cfg.txid, d, q, modified).ok
    ensures RoomFor(cfg, d.tree, q)
  {
    hide StoreContent, StoreRecord, ArchivePath;
    var dest := Dest(cfg, q);
    SidecarIsNotDest(cfg, q);
    MakeDirsFrame(d, Parent(dest));
    var d1 := MakeDirs(d, Parent(dest)).disk;
    ContentFrame(cfg, d1, q);
    StoredHadRoom(cfg, d1, q);
    RecordedHadRoom(cfg, StoreContent(d1, q, dest).disk, q, d.tree[q], modified);
    forall x | x in d.tree && x < dest ensures d.tree[x].Dir? {
      assert x <= Parent(dest);
    }
  }

  lemma SidecarIsNotDest(cfg: Config, q: Path)
    requires q != []
    ensures SidecarOf(Dest(cfg, q)) != Dest(cfg, q)
  {
    SidecarInArchive(cfg.root, cfg.txid, q);
    DestBelow(cfg, SidecarOf(q), q);
  }

  lemma AwayBefore(cfg: Config, d: Disk, q: Path)
    requires WellFormed(d.tree) && Sealed(cfg, d.tree) && q != []
    ensures LeadsAway(cfg, ArchiveFile(cfg.root, cfg.txid, d, q, true).disk.tree, q) ==> LeadsAway(cfg, d.tree, q)
  {
    hide ArchiveFile, FollowUpTo;
    var r := ArchiveFile(cfg.root, cfg.txid, d, q, true).disk;
    ArchiveKeepsLinks(cfg, d, q, true);
    FollowSame(d.tree, r.tree, q);
    ArchiveStaysInZone(cfg, d, q, true);
  }

  lemma ModifiedKeeps(cfg: Config, d: Disk, m: Mutation)
    requires WellFormed(d.tree) && Sealed(cfg, d.tree) && m.op == Modify && Considered(cfg, m)
    requires !WritesThrough(cfg, d.tree, m)
    ensures KeepsOthers(cfg, d.tree, ModifiedFile(cfg, d, m.path).disk.tree, m.path)
  {
    hide ArchiveFile, RestoreBlob, RoomFor, Follow, KeepsOthers;
    var q := m.path;
    if q !in cfg.pre {
      ArchiveThenDiscardKeeps(cfg, d, q, LeafAt(d.tree, q));
      KeepsItself(cfg, d, q);
    } else {
      var d0 := Consume(d);
      KeepsItself(cfg, d0, q);
      if !cfg.dryRun {
        if Compare(cfg, d, q).Unchanged? || (Compare(cfg, d, q).Modified? && cfg.mode.Nuclear?) {
          BlobKeeps(cfg, d0, q);
        } else if Compare(cfg, d, q).Modified? {
          ArchivedBlobKeeps(cfg, d, m);
        }
      }
    }
  }

  lemma KeepsItself(cfg: Config, d: Disk, q: Path)
    requires WellFormed(d.tree) && Sealed(cfg, d.tree)
    ensures KeepsOthers(cfg, d.tree, d.tree, q)
  {
  }

  lemma ArchivedBlobKeeps(cfg: Config, d: Disk, m: Mutation)
    requires WellFormed(d.tree) && Sealed(cfg, d.tree) && m.op == Modify && Considered(cfg, m) && !cfg.dryRun
    requires !WritesThrough(cfg, d.tree, m) && m.path in cfg.pre && Compare(cfg, d, m.path).Modified?
    ensures var r := ArchiveFile(cfg.root, cfg.txid, Consume(d), m.path, true);
      KeepsOthers(cfg, d.tree, if r.ok then RestoreBlob(cfg, r.disk, m.path).disk.tree else r.disk.tree, m.path)
  {
    hide ArchiveFile, RestoreBlob, RoomFor, FollowUpTo, KeepsOthers;
    var d0, q := Consume(d), m.path;
    ArchiveKeeps(cfg, d0, q, true);
    var r := ArchiveFile(cfg.root, cfg.txid, d0, q, true);
    assert KeepsOthers(cfg, d.tree, r.disk.tree, q);
    if r.ok && q != [] {
      AwayBefore(cfg, d0, q);
      if LinkAt(d0.tree, q) {
        ArchivedHadRoom(cfg, d0, q, true);
      }
      OthersKept(cfg, d.tree, r.disk.tree, q);
      BlobKeeps(cfg, r.disk, q);
      KeepsOthersTwice(cfg, d.tree, r.disk.tree, RestoreBlob(cfg, r.disk, q).disk.tree, q);
    } else if r.ok {
      ArchivingTheRootFails(cfg, d0, true);
    }
  }

  lemma OthersKept(cfg: Config, t: Tree, t': Tree, q: Path)
    requires KeepsOthers(cfg, t, t', q)
    ensures WellFormed(t') && Sealed(cfg, t')
  {
  }

  /** Whatever is configured and whatever fails: other files and links outside the archive stay, short of that. */
  lemma StepKeepsOthers(cfg: Config, d: Disk, m: Mutation)
    requires WellFormed(d.tree) && Sealed(cfg, d.tree) && !WritesThrough(cfg, d.tree, m)
    ensures KeepsOthers(cfg, d.tree, Step(cfg, d, m).disk.tree, m.path)
  {
    hide Created, ModifiedFile, RestoreBlob, LeadsAway, KeepsOthers;
    KeepsItself(cfg, d, m.path);
    if Considered(cfg, m) {
      match m.op {
        case Create | RenameTo => CreatedKeeps(cfg, d, m.path);
        case Modify => ModifiedKeeps(cfg, d, m);
        case Delete =>
          NotAway(cfg, d, m.path);
          if !cfg.dryRun {
            BlobKeeps(cfg, d, m.path);
          }
        case _ =>
      }
    }
  }

  lemma NotAway(cfg: Config, d: Disk, q: Path)
    requires WellFormed(d.tree)
    ensures LeadsAway(cfg, d.tree, q) ==> q != [] && LinkAt(d.tree, q)
  {
    assert DirAt(d.tree, []);
  }

  // ---- ... and then nothing but that file ----

  ghost predicate KeepsBut(cfg: Config, t: Tree, t': Tree, q: Path, l: Path) {
    && WellFormed(t') && Sealed(cfg, t') && NoNewLinks(t, t')
    && forall p {:trigger p in t'} {:trigger t[p]} |
         LeafAt(t, p) && p != q && p != l && !(Zone(cfg.root, cfg.txid) <= p) :: p in t' && t'[p] == t[p]
  }

  lemma BlobKeepsBut(cfg: Config, d: Disk, q: Path)
    requires WellFormed(d.tree) && Sealed(cfg, d.tree)
    ensures KeepsBut(cfg, d.tree, RestoreBlob(cfg, d, q).disk.tree, q, Follow(d.tree, q))
  {
    hide RestoreBlob, Follow;
    BlobFrame(cfg, d, q);
  }

  lemma OthersThenBut(cfg: Config, t: Tree, t1: Tree, t2: Tree, q: Path, l: Path)
    requires KeepsOthers(cfg, t, t1, q) && KeepsBut(cfg, t1, t2, q, l)
    ensures KeepsBut(cfg, t, t2, q, l)
  {
  }

  lemma OthersIsBut(cfg: Config, t: Tree, t': Tree, q: Path, l: Path)
    requires KeepsOthers(cfg, t, t', q)
    ensures KeepsBut(cfg, t, t', q, l)
  {
  }

  lemma ModifiedKeepsBut(cfg: Config, d: Disk, q: Path)
    requires WellFormed(d.tree) && Sealed(cfg, d.tree) && q in cfg.pre && !cfg.dryRun
    ensures KeepsBut(cfg, d.tree, ModifiedFile(cfg, d, q).disk.tree, q, Follow(d.tree, q))
  {
    hide ArchiveFile, RestoreBlob, Follow, KeepsBut, KeepsOthers, Compare;
    var d0 := Consume(d);
    KeepsItself(cfg, d0, q);
    OthersIsBut(cfg, d0.tree, d0.tree, q, Follow(d.tree, q));
    BlobKeepsBut(cfg, d0, q);
    ArchiveKeeps(cfg, d0, q, true);
    var r := ArchiveFile(cfg.root, cfg.txid, d0, q, true).disk;
    OthersIsBut(cfg, d0.tree, r.tree, q, Follow(d.tree, q));
    OthersKept(cfg, d0.tree, r.tree, q);
    ArchiveKeepsLinks(cfg, d0, q, true);
    FollowSame(d0.tree, r.tree, q);
    BlobKeepsBut(cfg, r, q);
    OthersThenBut(cfg, d0.tree, r.tree, RestoreBlob(cfg, r, q).disk.tree, q, Follow(d.tree, q));
  }

  /** A file or link is safe from a mutation of another path that does not write through a link to it. */
  lemma StepKeepsLeaf(cfg: Config, d: Disk, m: Mutation, p: Path)
    requires WellFormed(d.tree) && Sealed(cfg, d.tree)
    requires LeafAt(d.tree, p) && p != m.path && !(Zone(cfg.root, cfg.txid) <= p)
    requires !(WritesThrough(cfg, d.tree, m) && Follow(d.tree, m.path) == p)
    ensures var t := Step(cfg, d, m).disk.tree; p in t && t[p] == d.tree[p]
  {
    hide Created, ModifiedFile, RestoreBlob, Follow, RoomFor;
    if WritesThrough(cfg, d.tree, m) {
      if m.op.Modify? {
        ModifiedKeepsBut(cfg, d, m.path);
      } else {
        BlobKeepsBut(cfg, d, m.path);
      }
    } else {
      StepKeepsOthers(cfg, d, m);
    }
  }

  lemma StepKeepsLinks(cfg: Config, d: Disk, m: Mutation)
    requires WellFormed(d.tree) && Sealed(cfg, d.tree)
    ensures var t := Step(cfg, d, m).disk.tree; WellFormed(t) && Sealed(cfg, t) && NoNewLinks(d.tree, t)
  {
    hide Created, ModifiedFile, RestoreBlob, Follow, RoomFor;
    if WritesThrough(cfg, d.tree, m) {
      if m.op.Modify? {
        ModifiedKeepsBut(cfg, d, m.path);
      } else {
        BlobKeepsBut(cfg, d, m.path);
      }
    } else {
      StepKeepsOthers(cfg, d, m);
    }
  }

  // ---- The condition is exact ----

  lemma NoDirMissing(t: Tree, p: Path)
    requires forall x | x <= p :: x in t
    ensures WithDirs(t, p) == t
  {
    assert forall x | x in Prefixes(p) :: x in t;
    assert (map x | x in Prefixes(p) && x !in t :: Dir) == map[];
  }

  lemma TornThrough(cfg: Config, d: Disk, q: Path, junk: Content, rest: seq<Fault>)
    requires WellFormed(d.tree) && q in cfg.blobs && q != [] && LeadsAway(cfg, d.tree, q)
    requires d.faults == [Works] + ([Breaks(0, Some(junk))] + rest)
    ensures var l := Follow(d.tree, q);
      RestoreBlob(cfg, d, q).disk == Disk(Put(d.tree, l, junk, d.tree[l].perm), d.rows, rest)
  {
    hide FollowUpTo;
    var l := Follow(d.tree, q);
    forall x | x <= Parent(q) ensures x in d.tree && d.tree[x].Dir? {
      assert x < q && DirAt(d.tree, x);
    }
    NoDirMissing(d.tree, Parent(q));
    LeafIsChildless(d.tree, l);
    assert Parent(l) < l && DirAt(d.tree, Parent(l));
    var d1 := Faulty(d, [Breaks(0, Some(junk))] + rest);
    assert d.faults[1..] == d1.faults && d1.faults[1..] == rest;
    assert MakeDirs(d, Parent(q)) == Result(d1, true);
    assert Write(d1, q, cfg.blobs[q].content).disk == Disk(Put(d.tree, l, junk, d.tree[l].perm), d.rows, rest);
  }

  /** Everything up to the write works, and the write breaks off. */
  function Blast(cfg: Config, t: Tree, m: Mutation, rest: seq<Fault>): seq<Fault>
    requires LeadsAway(cfg, t, m.path)
  {
    var end := [Works] + ([Breaks(0, Some(Altered(t[Follow(t, m.path)].content)))] + rest);
    if m.op.Delete? then end
    else if AtOnce(cfg, m) then [Works] + end
    else [Works] + ([Works, Works, Works, Works] + end)
  }

  predicate AtOnce(cfg: Config, m: Mutation) {
    m.op.Delete? || m.path in cfg.sameTime || cfg.mode.Nuclear?
  }

  /** The disk it leaves. */
  function Blasted(cfg: Config, d: Disk, m: Mutation): (d': Disk)
    requires LeadsAway(cfg, d.tree, m.path)
  {
    var q, l := m.path, Follow(d.tree, m.path);
    var before := if AtOnce(cfg, m) then d.tree else ArchivedTree(cfg, d.tree, q, true);
    Disk(Put(before, l, Altered(d.tree[l].content), d.tree[l].perm),
         if AtOnce(cfg, m) then d.rows else d.rows[(cfg.txid, q) := Row(Dest(cfg, q), true)], [])
  }

  lemma BlastGoesThrough(cfg: Config, d: Disk, m: Mutation, rest: seq<Fault>)
    requires WellFormed(d.tree) && Sealed(cfg, d.tree) && WritesThrough(cfg, d.tree, m)
    ensures Step(cfg, Faulty(d, Blast(cfg, d.tree, m, rest)), m).disk == Faulty(Blasted(cfg, d, m), rest)
    ensures var t, l := Blasted(cfg, d, m).tree, Follow(d.tree, m.path); l in t && t[l].File? && t[l] != d.tree[l]
  {
    hide RestoreBlob, ArchiveFile, Follow, RoomFor, WellFormed, ArchivedTree;
    var q, l := m.path, Follow(d.tree, m.path);
    var junk, d1 := Altered(d.tree[l].content), Faulty(d, Blast(cfg, d.tree, m, rest));
    var end := [Works] + ([Breaks(0, Some(junk))] + rest);
    if m.op.Delete? {
      TornThrough(cfg, d1, q, junk, rest);
    } else if AtOnce(cfg, m) {
      assert Consume(d1).faults == end;
      TornThrough(cfg, Consume(d1), q, junk, rest);
    } else {
      assert Consume(d1).faults == [Works, Works, Works, Works] + end;
      ArchivedThenThrough(cfg, Consume(d1), q, junk, rest);
    }
  }

  lemma ArchivedThenThrough(cfg: Config, d: Disk, q: Path, junk: Content, rest: seq<Fault>)
    requires WellFormed(d.tree) && Sealed(cfg, d.tree) && q in cfg.blobs && q != [] && LeadsAway(cfg, d.tree, q)
    requires RoomFor(cfg, d.tree, q)
    requires d.faults == [Works, Works, Works, Works] + ([Works] + ([Breaks(0, Some(junk))] + rest))
    ensures var r := ArchiveFile(cfg.root, cfg.txid, d, q, true); var l := Follow(d.tree, q);
      && r.ok
      && RestoreBlob(cfg, r.disk, q).disk == Disk(Put(ArchivedTree(cfg, d.tree, q, true), l, junk, d.tree[l].perm),
                                                  d.rows[(cfg.txid, q) := Row(Dest(cfg, q), true)], rest)
  {
    hide RestoreBlob, ArchiveFile, Follow, RoomFor, ArchivedTree;
    ArchivingWorks(cfg, d, q, true, [Works] + ([Breaks(0, Some(junk))] + rest));
    var r := ArchiveFile(cfg.root, cfg.txid, d, q, true).disk;
    ArchiveFrame(cfg, d, q, true);
    ArchiveStaysInZone(cfg, d, q, true);
    ArchiveKeepsLinks(cfg, d, q, true);
    FollowSame(d.tree, r.tree, q);
    TornThrough(cfg, r, q, junk, rest);
  }

  /**
   A mutation leaves all other files and links outside the archive alone, whatever fails, exactly
   when it restores no blob at a link that leads to another file.
   */
  lemma StepKeepsOthersExactly(cfg: Config, d: Disk, m: Mutation)
    requires WellFormed(d.tree) && Sealed(cfg, d.tree)
    ensures (forall faults :: KeepsOthers(cfg, d.tree, Step(cfg, Faulty(d, faults), m).disk.tree, m.path)) <==>
      !WritesThrough(cfg, d.tree, m)
  {
    hide Step, Blast, RestoresAtLink, Follow;
    if WritesThrough(cfg, d.tree, m) {
      BlastGoesThrough(cfg, d, m, []);
      assert !KeepsOthers(cfg, d.tree, Step(cfg, Faulty(d, Blast(cfg, d.tree, m, [])), m).disk.tree, m.path);
    } else {
      forall faults ensures KeepsOthers(cfg, d.tree, Step(cfg, Faulty(d, faults), m).disk.tree, m.path) {
        StepKeepsOthers(cfg, Faulty(d, faults), m);
      }
    }
  }
}
