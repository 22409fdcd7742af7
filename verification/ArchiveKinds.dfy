/** Entries of the archive stay what they are, directory or file, so that room once missing never comes. */
module ArchiveKinds {
  import opened Paths
  import opened FileSystem
  import opened Archive
  import opened Review
  import opened Rollback
  import opened NoLoss
  import opened NeverDelete
  import opened RoundTrip
  import opened ArchivePlaces
  import opened StepFrames

  predicate SameKind(n: Node, m: Node) {
    (n.Dir? <==> m.Dir?) && (n.File? <==> m.File?)
  }

  /** Nothing is gone, and everything is of its old kind. */
  ghost predicate KeepsKinds(t: Tree, t': Tree) {
    forall x | x in t :: x in t' && SameKind(t[x], t'[x])
  }

  lemma KindsTwice(t: Tree, t1: Tree, t2: Tree)
    requires KeepsKinds(t, t1) && KeepsKinds(t1, t2)
    ensures KeepsKinds(t, t2)
  {
  }

  lemma CallsKeepKinds(d: Disk, p: Path, q: Path, content: Content)
    ensures KeepsKinds(d.tree, MakeDirs(d, p).disk.tree)
    ensures KeepsKinds(d.tree, Write(d, p, content).disk.tree)
    ensures KeepsKinds(d.tree, Copy(d, p, q).disk.tree)
  {
    hide Follow;
  }

  lemma MetadataKeepsKinds(d: Disk, p: Path, mode: nat, uid: nat, gid: nat)
    ensures KeepsKinds(d.tree, SetMode(d, p, mode).tree)
    ensures KeepsKinds(d.tree, ChangeOwner(d, p, uid, gid).tree)
  {
    hide Follow;
  }

  lemma StoringKeepsKinds(cfg: Config, d: Disk, q: Path, n: Node, modified: bool)
    requires q in d.tree && !n.Dir?
    ensures var r := StoreContent(d, q, Dest(cfg, q)).disk;
      && KeepsKinds(d.tree, r.tree)
      && KeepsKinds(d.tree, StoreRecord(r, cfg.txid, q, n, Dest(cfg, q), modified).disk.tree)
  {
    hide Copy, Write, KeepsKinds, ArchivePath, SidecarOf, MetaOf;
    var dest, doc := Dest(cfg, q), Document(MetaOf(q, n, modified));
    var r := StoreContent(d, q, dest).disk;
    SameKinds(d.tree);
    CallsKeepKinds(d, q, dest, Bytes([]));
    CallsKeepKinds(r, SidecarOf(dest), dest, doc);
    KindsTwice(d.tree, r.tree, Write(r, SidecarOf(dest), doc).disk.tree);
  }

  lemma SameKinds(t: Tree)
    ensures KeepsKinds(t, t)
  {
  }

  lemma DirIsNotStored(d: Disk, q: Path, dest: Path)
    requires DirAt(d.tree, q)
    ensures StoreContent(d, q, dest).disk.tree == d.tree
  {
  }

  lemma ArchivingKeepsKinds(cfg: Config, d: Disk, q: Path, modified: bool)
    ensures KeepsKinds(d.tree, ArchiveFile(cfg.root, cfg.txid, d, q, modified).disk.tree)
  {
    hide MakeDirs, StoreContent, StoreRecord, KeepsKinds, ArchivePath;
    SameKinds(d.tree);
    if q in d.tree {
      var dest := Dest(cfg, q);
      CallsKeepKinds(d, Parent(dest), dest, Bytes([]));
      var d1 := MakeDirs(d, Parent(dest)).disk;
      DirsKeepEntry(d, Parent(dest), q);
      if d.tree[q].Dir? {
        DirIsNotStored(d1, q, dest);
      } else {
        StoringKeepsKinds(cfg, d1, q, d.tree[q], modified);
        var r := StoreContent(d1, q, dest).disk;
        KindsTwice(d.tree, d1.tree, r.tree);
        KindsTwice(d.tree, d1.tree, StoreRecord(r, cfg.txid, q, d.tree[q], dest, modified).disk.tree);
      }
    }
  }

  lemma BlobKeepsKinds(cfg: Config, d: Disk, q: Path)
    ensures KeepsKinds(d.tree, RestoreBlob(cfg, d, q).disk.tree)
  {
    hide MakeDirs, Write, SetMode, ChangeOwner;
    if q in cfg.blobs {
      var b := cfg.blobs[q];
      var d1 := if q == [] then d else MakeDirs(d, Parent(q)).disk;
      if q != [] {
        CallsKeepKinds(d, Parent(q), q, b.content);
      }
      CallsKeepKinds(d1, q, q, b.content);
      var d2 := Write(d1, q, b.content).disk;
      MetadataKeepsKinds(d2, q, b.mode, 0, 0);
      MetadataKeepsKinds(SetMode(d2, q, b.mode), q, 0, b.uid, b.gid);
    }
  }

  /** The same for what is at or below `z`. */
  ghost predicate KeepsKindsIn(z: Path, t: Tree, t': Tree) {
    forall x | x in t && z <= x :: x in t' && SameKind(t[x], t'[x])
  }

  lemma KindsInTwice(z: Path, t: Tree, t1: Tree, t2: Tree)
    requires KeepsKindsIn(z, t, t1) && KeepsKindsIn(z, t1, t2)
    ensures KeepsKindsIn(z, t, t2)
  {
  }

  lemma RemovalKeepsKindsIn(z: Path, d: Disk, q: Path)
    requires !(z <= q)
    ensures KeepsKindsIn(z, d.tree, Discard(d, q).disk.tree) && KeepsKindsIn(z, d.tree, RemoveFile(d, q).disk.tree)
  {
  }

  lemma ArchiveThenKinds(cfg: Config, d: Disk, q: Path, modified: bool)
    requires !(Zone(cfg.root, cfg.txid) <= q)
    ensures var z := Zone(cfg.root, cfg.txid); var r := ArchiveFile(cfg.root, cfg.txid, d, q, modified).disk;
      && KeepsKindsIn(z, d.tree, r.tree)
      && KeepsKindsIn(z, d.tree, Discard(r, q).disk.tree)
      && KeepsKindsIn(z, d.tree, RemoveFile(r, q).disk.tree)
      && KeepsKindsIn(z, d.tree, RestoreBlob(cfg, r, q).disk.tree)
  {
    hide ArchiveFile, Discard, RemoveFile, RestoreBlob, SameKind;
    var z, r := Zone(cfg.root, cfg.txid), ArchiveFile(cfg.root, cfg.txid, d, q, modified).disk;
    ArchivingKeepsKinds(cfg, d, q, modified);
    RemovalKeepsKindsIn(z, r, q);
    BlobKeepsKinds(cfg, r, q);
    KindsInTwice(z, d.tree, r.tree, Discard(r, q).disk.tree);
    KindsInTwice(z, d.tree, r.tree, RemoveFile(r, q).disk.tree);
    KindsInTwice(z, d.tree, r.tree, RestoreBlob(cfg, r, q).disk.tree);
  }

  /** Whatever is configured and whatever fails. */
  lemma StepKeepsKinds(cfg: Config, d: Disk, m: Mutation)
    requires !(Zone(cfg.root, cfg.txid) <= m.path)
    ensures KeepsKindsIn(Zone(cfg.root, cfg.txid), d.tree, Step(cfg, d, m).disk.tree)
  {
    hide ArchiveFile, Discard, RemoveFile, RestoreBlob, KeepsKindsIn, Zone, Compare;
    var z, q := Zone(cfg.root, cfg.txid), m.path;
    forall e: Disk | e.tree == d.tree
      ensures KeepsKindsIn(z, d.tree, e.tree) && KeepsKindsIn(z, d.tree, Discard(e, q).disk.tree)
      ensures KeepsKindsIn(z, d.tree, RemoveFile(e, q).disk.tree)
        && KeepsKindsIn(z, d.tree, RestoreBlob(cfg, e, q).disk.tree)
    {
      OneCallKeepsKinds(cfg, z, e, q);
    }
    forall e: Disk, modified | e.tree == d.tree
      ensures var r := ArchiveFile(cfg.root, cfg.txid, e, q, modified).disk;
        && KeepsKindsIn(z, d.tree, r.tree) && KeepsKindsIn(z, d.tree, Discard(r, q).disk.tree)
        && KeepsKindsIn(z, d.tree, RemoveFile(r, q).disk.tree)
          && KeepsKindsIn(z, d.tree, RestoreBlob(cfg, r, q).disk.tree)
    {
      ArchiveThenKinds(cfg, e, q, modified);
    }
  }

  lemma OneCallKeepsKinds(cfg: Config, z: Path, d: Disk, q: Path)
    requires !(z <= q)
    ensures KeepsKindsIn(z, d.tree, d.tree) && KeepsKindsIn(z, d.tree, Discard(d, q).disk.tree)
    ensures KeepsKindsIn(z, d.tree, RemoveFile(d, q).disk.tree)
      && KeepsKindsIn(z, d.tree, RestoreBlob(cfg, d, q).disk.tree)
  {
    hide Discard, RemoveFile, RestoreBlob;
    RemovalKeepsKindsIn(z, d, q);
    BlobKeepsKinds(cfg, d, q);
  }

  /** Where there is room now, there was at the start. */
  lemma RoomWasThere(cfg: Config, t0: Tree, t: Tree, p: Path)
    requires RootUsable(cfg, t0) && KeepsKindsIn(Zone(cfg.root, cfg.txid), t0, t) && p != []
    requires p in t0 && p in t && SameKind(t0[p], t[p]) && RoomFor(cfg, t, p)
    ensures RoomFor(cfg, t0, p)
  {
    var z, dest := Zone(cfg.root, cfg.txid), Dest(cfg, p);
    SidecarInArchive(cfg.root, cfg.txid, p);
    assert z <= dest;
    forall x | x in t0 && x < dest ensures t0[x].Dir? {
      PrefixesChain(x, z, dest);
    }
  }
}
