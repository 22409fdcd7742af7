/** What failing calls in a rollback can still cost, although the rollback itself loses nothing. */
module TornCopy {
  import opened Paths
  import opened FileSystem
  import opened Archive
  import opened Rollback
  import opened NoLoss
  import opened RoundTrip
  import opened ArchivePlaces
  import opened Recovery

  // ---- A removal that fails ----

  /** `p` was archived and its removal failed: it is in the archive and still in its place. */
  ghost predicate ArchivedInPlace(cfg: Config, d: Disk, p: Path) {
    WellFormed(d.tree) && LeafAt(d.tree, p) && !(Zone(cfg.root, cfg.txid) <= p) && InArchive(cfg, d, p, d.tree[p])
  }

  /** Such a state comes about when the removal after a complete archiving fails. */
  lemma FailedRemovalLeavesBoth(cfg: Config, d: Disk, p: Path)
    requires WellFormed(d.tree) && Sealed(cfg, d.tree) && LeafAt(d.tree, p) && !(Zone(cfg.root, cfg.txid) <= p)
    requires var r := ArchiveFile(cfg.root, cfg.txid, d, p, false); r.ok && NextFault(r.disk).Breaks?
    ensures var d' := Sweep(cfg, d, p).disk; ArchivedInPlace(cfg, d', p) && d'.tree[p] == d.tree[p]
  {
    hide ArchiveFile;
    LeafIsChildless(d.tree, p);
    ArchiveFrame(cfg, d, p, false);
    ArchiveStaysInZone(cfg, d, p, false);
  }

  /** The tree after an archiving in which every call works. */
  function ArchivedTree(cfg: Config, t: Tree, p: Path, modified: bool := false): Tree
    requires LeafAt(t, p)
  {
    var n, dest := t[p], Dest(cfg, p);
    var t1 := WithDirs(t, Parent(dest));
    var t2 := if n.Link? then t1 else Put(t1, dest, n.content, n.perm);
    var s := SidecarOf(dest);
    Put(t2, s, Document(MetaOf(p, n, modified)), if s in t2 && t2[s].File? then t2[s].perm else 420)
  }

  lemma MakeDirsWorks(d: Disk, p: Path, rest: seq<Fault>)
    requires CanMakeDirs(d.tree, p) && d.faults == [Works] + rest
    ensures MakeDirs(d, p) == Result(Disk(WithDirs(d.tree, p), d.rows, rest), true)
  {
    assert d.faults[1..] == rest;
  }

  lemma StoreContentWorks(d: Disk, p: Path, dest: Path, rest: seq<Fault>)
    requires LeafAt(d.tree, p) && d.faults == [Works] + rest && (d.tree[p].File? ==> CanPut(d.tree, dest))
    ensures StoreContent(d, p, dest) == Result(Disk(
      if d.tree[p].Link? then d.tree else Put(d.tree, dest, d.tree[p].content, d.tree[p].perm), d.rows, rest), true)
  {
    assert d.faults[1..] == rest;
  }

  lemma StoreRecordWorks(d: Disk, txid: int, p: Path, n: Node, dest: Path, modified: bool, rest: seq<Fault>)
    requires dest != [] && !n.Dir? && CanPut(d.tree, SidecarOf(dest)) && d.faults == [Works, Works] + rest
    ensures var s := SidecarOf(dest); StoreRecord(d, txid, p, n, dest, modified) == Result(Disk(
      Put(d.tree, s, Document(MetaOf(p, n, modified)), if s in d.tree then d.tree[s].perm else 420),
      d.rows[(txid, p) := Row(dest, modified)], rest), true)
  {
    assert d.faults[1..] == [Works] + rest && ([Works] + rest)[1..] == rest;
  }

  /** An archiving all of whose calls work, whatever the script holds after them. */
  lemma ArchivingWorks(cfg: Config, d: Disk, p: Path, modified: bool, rest: seq<Fault>)
    requires WellFormed(d.tree) && LeafAt(d.tree, p) && p != [] && !(Zone(cfg.root, cfg.txid) <= p)
    requires RoomFor(cfg, d.tree, p) && d.faults == [Works, Works, Works, Works] + rest
    ensures ArchiveFile(cfg.root, cfg.txid, d, p, modified) ==
      Result(Disk(ArchivedTree(cfg, d.tree, p, modified), d.rows[(cfg.txid, p) := Row(Dest(cfg, p), modified)], rest),
        true)
  {
    hide MakeDirs, StoreContent, StoreRecord, WellFormed;
    var n, dest := d.tree[p], Dest(cfg, p);
    SidecarInArchive(cfg.root, cfg.txid, p);
    DestBelow(cfg, p, SidecarOf(p));
    assert Zone(cfg.root, cfg.txid) <= dest;
    forall x | x in d.tree && x <= Parent(dest) ensures d.tree[x].Dir? {
      assert x < dest;
    }
    assert d.faults == [Works] + ([Works, Works, Works] + rest);
    MakeDirsWorks(d, Parent(dest), [Works, Works, Works] + rest);
    var d1 := MakeDirs(d, Parent(dest)).disk;
    MakeDirsFrame(d, Parent(dest));
    assert d1.faults == [Works] + ([Works, Works] + rest);
    StoreContentWorks(d1, p, dest, [Works, Works] + rest);
    var d2 := StoreContent(d1, p, dest).disk;
    StoreRecordWorks(d2, cfg.txid, p, n, dest, modified, rest);
  }

  /** Archive `p`, then fail to remove it: the same disk whatever the script holds after that. */
  lemma ArchiveAndStay(cfg: Config, d: Disk, p: Path, rest: seq<Fault>)
    requires WellFormed(d.tree) && Sealed(cfg, d.tree) && LeafAt(d.tree, p)
    requires p != [] && !(Zone(cfg.root, cfg.txid) <= p)
    requires RoomFor(cfg, d.tree, p) && d.faults == [Works, Works, Works, Works, Breaks(0, None)] + rest
    ensures var d' := Sweep(cfg, d, p).disk;
      && d' == Disk(ArchivedTree(cfg, d.tree, p), d.rows[(cfg.txid, p) := Row(Dest(cfg, p), false)], rest)
      && ArchivedInPlace(cfg, d', p) && d'.tree[p] == d.tree[p]
  {
    hide ArchiveFile, ArchivedTree, WellFormed, RoomFor, InArchive;
    var last := [Breaks(0, None)] + rest;
    assert d.faults == [Works, Works, Works, Works] + last && last[1..] == rest;
    ArchivingWorks(cfg, d, p, false, last);
    FailedRemovalLeavesBoth(cfg, d, p);
    assert LeafAt(ArchiveFile(cfg.root, cfg.txid, d, p, false).disk.tree, p) by {
      ArchiveFrame(cfg, d, p, false);
      ArchiveStaysInZone(cfg, d, p, false);
    }
  }

  // ---- Archiving a second time, torn ----

  lemma SameDirs(cfg: Config, d: Disk, p: Path, rest: seq<Fault>)
    requires ArchivedInPlace(cfg, d, p) && d.faults == [Works] + rest
    ensures MakeDirs(d, Parent(Dest(cfg, p))) == Result(d.(faults := rest), true)
    ensures p != [] && DirAt(d.tree, Parent(Dest(cfg, p)))
  {
    var dest := Dest(cfg, p);
    LeafIsChildless(d.tree, p);
    assert SidecarOf(dest) in d.tree && Parent(dest) < SidecarOf(dest);
    forall q | q <= Parent(dest) ensures DirAt(d.tree, q) {
      assert q < SidecarOf(dest);
    }
    forall q | q in d.tree && q <= Parent(dest) ensures d.tree[q].Dir? {
      assert DirAt(d.tree, q);
    }
    MakeDirsWorks(d, Parent(dest), rest);
    forall q | q in Prefixes(Parent(dest)) ensures q in d.tree {
      assert DirAt(d.tree, q);
    }
    assert WithDirs(d.tree, Parent(dest)) == d.tree;
  }

  /** A copy that breaks off leaves the file intact and its archived copy damaged. */
  lemma ArchivingAgainTears(cfg: Config, d: Disk, p: Path, junk: Content, rest: seq<Fault>)
    requires ArchivedInPlace(cfg, d, p) && d.tree[p].File? && d.faults == [Works, Breaks(0, Some(junk))] + rest
    ensures ArchiveFile(cfg.root, cfg.txid, d, p, false) ==
      Result(Disk(Put(d.tree, Dest(cfg, p), junk, d.tree[p].perm), d.rows, rest), false)
  {
    hide MakeDirs, WellFormed;
    var last := [Breaks(0, Some(junk))] + rest;
    assert d.faults == [Works] + last && last[1..] == rest;
    SameDirs(cfg, d, p, last);
  }

  /** A sidecar write that breaks off leaves a link intact and its sidecar damaged. */
  lemma LinkArchivingTears(cfg: Config, d: Disk, p: Path, junk: Content, rest: seq<Fault>)
    requires ArchivedInPlace(cfg, d, p) && d.tree[p].Link? && d.faults == [Works, Works, Breaks(0, Some(junk))] + rest
    ensures var s := SidecarOf(Dest(cfg, p)); s in d.tree && d.tree[s].File?
    ensures var s := SidecarOf(Dest(cfg, p));
      ArchiveFile(cfg.root, cfg.txid, d, p, false) ==
        Result(Disk(Put(d.tree, s, junk, d.tree[s].perm), d.rows, rest), false)
  {
    hide MakeDirs, WellFormed;
    var last := [Breaks(0, Some(junk))] + rest;
    assert d.faults == [Works] + ([Works] + last) && ([Works] + last)[1..] == last && last[1..] == rest;
    SameDirs(cfg, d, p, [Works] + last);
    assert Parent(SidecarOf(Dest(cfg, p))) == Parent(Dest(cfg, p));
  }

  /**
   `p` stands as `n`, but its archive is damaged: the copy of a file has other content, the
   sidecar of a link another target.
   */
  ghost predicate Spoiled(cfg: Config, d: Disk, p: Path, n: Node) {
    var dest := Dest(cfg, p);
    var m := SidecarAt(d.tree, dest);
    && WellFormed(d.tree) && p != [] && !(Zone(cfg.root, cfg.txid) <= p) && p in d.tree && d.tree[p] == n && !n.Dir?
    && (cfg.txid, p) in d.rows && d.rows[(cfg.txid, p)].archivePath == dest && m.Some?
    && (n.File? ==> m.value.link == None && dest in d.tree && d.tree[dest].File? && d.tree[dest].content != n.content)
    && (n.Link? ==> m.value.link.Some? && m.value.link != Some(n.target))
  }

  function OtherContent(n: Node): Content {
    match n
    case File(content, _, _, _) => Altered(content)
    case Link(target, _, _) => Document(Meta([], false, None, None, None, Some(target + "x")))
    case _ => Bytes([])
  }

  function TearingScript(n: Node): seq<Fault> {
    (if n.Link? then [Works, Works] else [Works]) + [Breaks(0, Some(OtherContent(n)))]
  }

  /** The tree after a second archiving under that script. */
  function TornTree(cfg: Config, t: Tree, p: Path): Tree
    requires LeafAt(t, p)
  {
    var n, s := t[p], SidecarOf(Dest(cfg, p));
    if n.Link? then Put(t, s, OtherContent(n), if s in t && t[s].File? then t[s].perm else 420)
    else Put(t, Dest(cfg, p), OtherContent(n), n.perm)
  }

  lemma OtherContentDiffers(n: Node)
    ensures n.File? ==> OtherContent(n) != n.content
    ensures n.Link? ==>
      OtherContent(n).Document? && OtherContent(n).meta.link.Some? && OtherContent(n).meta.link != Some(n.target)
  {
    if n.Link? {
      assert |n.target + "x"| == |n.target| + 1;
    }
  }

  lemma TearingCopy(cfg: Config, d: Disk, p: Path, rest: seq<Fault>)
    requires ArchivedInPlace(cfg, d, p) && d.tree[p].File? && d.faults == TearingScript(d.tree[p]) + rest
    ensures Sweep(cfg, d, p).disk == Disk(TornTree(cfg, d.tree, p), d.rows, rest)
    ensures Spoiled(cfg, Disk(TornTree(cfg, d.tree, p), d.rows, rest), p, d.tree[p])
  {
    hide ArchiveFile, WellFormed, Parent, OtherContent;
    OtherContentDiffers(d.tree[p]);
    LeafIsChildless(d.tree, p);
    SidecarInArchive(cfg.root, cfg.txid, p);
    DestBelow(cfg, p, SidecarOf(p));
    ArchivingAgainTears(cfg, d, p, OtherContent(d.tree[p]), rest);
    ReplaceKeepsShape(d.tree, Dest(cfg, p), TornTree(cfg, d.tree, p)[Dest(cfg, p)]);
  }

  lemma TearingSidecar(cfg: Config, d: Disk, p: Path, rest: seq<Fault>)
    requires ArchivedInPlace(cfg, d, p) && d.tree[p].Link? && d.faults == TearingScript(d.tree[p]) + rest
    ensures Sweep(cfg, d, p).disk == Disk(TornTree(cfg, d.tree, p), d.rows, rest)
    ensures Spoiled(cfg, Disk(TornTree(cfg, d.tree, p), d.rows, rest), p, d.tree[p])
  {
    hide ArchiveFile, WellFormed, Parent, OtherContent;
    OtherContentDiffers(d.tree[p]);
    LeafIsChildless(d.tree, p);
    SidecarInArchive(cfg.root, cfg.txid, p);
    DestBelow(cfg, p, SidecarOf(p));
    LinkArchivingTears(cfg, d, p, OtherContent(d.tree[p]), rest);
    ReplaceKeepsShape(d.tree, SidecarOf(Dest(cfg, p)), TornTree(cfg, d.tree, p)[SidecarOf(Dest(cfg, p))]);
  }

  lemma TearingSpoils(cfg: Config, d: Disk, p: Path, rest: seq<Fault>)
    requires ArchivedInPlace(cfg, d, p) && d.faults == TearingScript(d.tree[p]) + rest
    ensures Sweep(cfg, d, p).disk == Disk(TornTree(cfg, d.tree, p), d.rows, rest)
    ensures Spoiled(cfg, Disk(TornTree(cfg, d.tree, p), d.rows, rest), p, d.tree[p])
  {
    hide Sweep, Spoiled, TornTree;
    if d.tree[p].Link? {
      TearingSidecar(cfg, d, p, rest);
    } else {
      TearingCopy(cfg, d, p, rest);
    }
  }

  /** Recovering content where every directory is there and a file stands. */
  lemma CopyBack(d: Disk, src: Path, p: Path)
    requires WellFormed(d.tree) && d.faults == [] && src in d.tree && d.tree[src].File? && src != []
    requires p != [] && p in d.tree && d.tree[p].File? && src != p
    ensures var r := RecoverContent(d, src, p);
      r.ok && p in r.disk.tree && r.disk.tree[p].File? && r.disk.tree[p].content == d.tree[src].content
  {
    hide RestoreOwnership;
    forall q | q in d.tree && q <= Parent(p) ensures d.tree[q].Dir? {
      assert q < p && DirAt(d.tree, q);
    }
    MakeDirsFrame(d, Parent(p));
    var d1 := MakeDirs(d, Parent(p)).disk;
    CopyFrame(d1, src, p);
    OwnershipFrame(Copy(d1, src, p).disk, src, p);
  }

  /** Recovery then puts the damaged copy over the intact file, or replaces the intact link. */
  lemma RecoveryOverwritesIntact(cfg: Config, d: Disk, p: Path, n: Node)
    requires Spoiled(cfg, d, p, n) && d.faults == []
    ensures var t := RecoverRow(d, d.rows[(cfg.txid, p)].archivePath, p).disk.tree;
      && !StandsAs(t, p, n)
      && (n.File? ==> p in t && t[p].File? && t[p].content == d.tree[Dest(cfg, p)].content)
  {
    hide RecoverLink, RecoverContent;
    var dest := Dest(cfg, p);
    assert Zone(cfg.root, cfg.txid) <= dest;
    assert Read(d) == Result(d, true);
    if n.Link? {
      LinkRecoveryFrame(d, SidecarAt(d.tree, dest).value.link.value, dest, p);
    } else {
      CopyBack(d, dest, p);
    }
  }
}
