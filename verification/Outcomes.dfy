/** What a rollback says it did with a path, and when it says so. */
module Outcomes {
  import opened Paths
  import opened FileSystem
  import opened Archive
  import opened Review
  import opened Rollback
  import opened NoLoss
  import opened ArchivePlaces
  import opened StepFrames
  import opened Links
  import opened GroupContents
  import B = Baseline
  import C = Classifier
  import PR = PrunedRuns

  // ---- Archiving with working calls ----

  lemma DirsForArchive(cfg: Config, d: Disk, q: Path)
    requires WellFormed(d.tree) && d.faults == [] && q != []
    ensures var r := MakeDirs(d, Parent(Dest(cfg, q)));
      && (r.ok <==> forall x | x in d.tree && x < Dest(cfg, q) :: d.tree[x].Dir?)
      && (!r.ok ==> r.disk == d) && r.disk.faults == [] && r.disk.rows == d.rows
  {
    hide ArchivePath;
    var dest := Dest(cfg, q);
    forall x | x in d.tree ensures x < dest <==> x <= Parent(dest) {
    }
  }

  /** The sidecar document: where it came from, whether it was changed, owner, type and mode, and a link's target. */
  ghost predicate Documented(c: Content, q: Path, modified: bool, n: Node) {
    c == Document(Meta(q, modified,
                       match n case Dir => None case File(_, _, uid, _) => Some(uid) case Link(_, uid, _) => Some(uid),
                       match n case Dir => None case File(_, _, _, gid) => Some(gid) case Link(_, _, gid) => Some(gid),
                       if n.File? then Some(0x8000 + n.perm) else Some(0xA1FF),
                       if n.Link? then Some(n.target) else None))
  }

  lemma RecordForArchive(d: Disk, txid: int, q: Path, n: Node, dest: Path, modified: bool)
    requires WellFormed(d.tree) && d.faults == [] && dest != [] && !n.Dir?
    requires DirAt(d.tree, Parent(dest)) && !LinkAt(d.tree, SidecarOf(dest))
    ensures var r := StoreRecord(d, txid, q, n, dest, modified); var s := SidecarOf(dest);
      && (r.ok <==> !DirAt(d.tree, s))
      && r.disk.rows == (if r.ok then d.rows[(txid, q) := Row(dest, modified)] else d.rows)
      && (r.ok ==> s in r.disk.tree && r.disk.tree[s].File? && Documented(r.disk.tree[s].content, q, modified, n))
  {
    hide FollowUpTo, SidecarOf;
  }

  lemma ContentForArchive(d: Disk, q: Path, dest: Path)
    requires WellFormed(d.tree) && d.faults == [] && q in d.tree && dest != []
    requires DirAt(d.tree, Parent(dest)) && !LinkAt(d.tree, dest)
    ensures var r := StoreContent(d, q, dest);
      && (r.ok <==> d.tree[q].Link? || (d.tree[q].File? && !DirAt(d.tree, dest)))
      && r.disk.rows == d.rows && r.disk.faults == []
      && (forall x | x != dest :: (x in r.disk.tree <==> x in d.tree) && (x in d.tree ==> r.disk.tree[x] == d.tree[x]))
  {
    hide FollowUpTo;
  }

  /** It works exactly for files and links for which the archive has room, and what it then leaves. */
  lemma ArchivesExactly(cfg: Config, d: Disk, q: Path, modified: bool)
    requires WellFormed(d.tree) && Sealed(cfg, d.tree) && d.faults == []
    requires q in d.tree && q != [] && !(Zone(cfg.root, cfg.txid) <= q)
    ensures var r := ArchiveFile(cfg.root, cfg.txid, d, q, modified); var s := SidecarOf(Dest(cfg, q));
      && (r.ok <==> !d.tree[q].Dir? && RoomFor(cfg, d.tree, q))
      && r.disk.rows == (if r.ok then d.rows[(cfg.txid, q) := Row(Dest(cfg, q), modified)] else d.rows)
      && (r.ok ==> s in r.disk.tree && r.disk.tree[s].File?
                   && Documented(r.disk.tree[s].content, q, modified, d.tree[q]))
  {
    hide MakeDirs, StoreContent, StoreRecord, Documented, ArchivePath, SidecarOf;
    var dest, s := Dest(cfg, q), SidecarOf(Dest(cfg, q));
    SidecarIsNotDest(cfg, q);
    SidecarInArchive(cfg.root, cfg.txid, q);
    DestIsInZone(cfg, q);
    DirsForArchive(cfg, d, q);
    MakeDirsFrame(d, Parent(dest));
    var d1 := MakeDirs(d, Parent(dest));
    if d1.ok {
      assert !(dest <= Parent(dest)) && !(s <= Parent(dest)) && !(q in d.tree && dest == q);
      ContentForArchive(d1.disk, q, dest);
      var d2 := StoreContent(d1.disk, q, dest);
      if d2.ok {
        ContentFrame(cfg, d1.disk, q);
        RecordForArchive(d2.disk, cfg.txid, q, d.tree[q], dest, modified);
      }
    }
  }

  lemma DestIsInZone(cfg: Config, q: Path)
    ensures Zone(cfg.root, cfg.txid) <= Dest(cfg, q)
  {
  }

  // ---- Restoring a blob with working calls ----

  /** Only directories above `q`, and where it leads a regular file or room for one. */
  predicate CanLand(t: Tree, q: Path) {
    && q != [] && (forall x | x in t :: x < q ==> t[x].Dir?)
    && var l := Follow(t, q);
       l != [] && if l in t then t[l].File? else DirAt(t, Parent(l)) || Parent(l) < q
  }

  lemma DirsForBlob(d: Disk, q: Path)
    requires WellFormed(d.tree) && d.faults == [] && q != []
    ensures var r := MakeDirs(d, Parent(q));
      && (r.ok <==> forall x | x in d.tree && x < q :: d.tree[x].Dir?)
      && r.disk.faults == [] && r.disk.rows == d.rows
      && Follow(r.disk.tree, q) == Follow(d.tree, q)
      && (r.ok ==> forall x :: DirAt(r.disk.tree, x) <==> DirAt(d.tree, x) || x < q)
      && (r.ok ==> forall x :: LeafAt(r.disk.tree, x) <==> LeafAt(d.tree, x))
      && (forall x | x in d.tree :: x in r.disk.tree && r.disk.tree[x] == d.tree[x])
  {
    hide Follow;
    MakeDirsFrame(d, Parent(q));
    forall x | x in d.tree ensures x < q <==> x <= Parent(q) {
    }
    FollowSame(d.tree, MakeDirs(d, Parent(q)).disk.tree, q);
  }

  lemma NotMadeWhereItLeads(d: Disk, q: Path)
    requires WellFormed(d.tree) && q != []
    ensures var l := Follow(d.tree, q); l in MakeDirs(d, Parent(q)).disk.tree ==> l in d.tree
  {
    hide Follow;
    MakeDirsFrame(d, Parent(q));
    NoLinkNoTrail(d.tree, q);
    if LinkAt(d.tree, q) {
      forall x | x <= Parent(q) ensures x in d.tree {
        assert x < q && DirAt(d.tree, x);
      }
    }
  }

  lemma RestoresExactly(cfg: Config, d: Disk, q: Path)
    requires WellFormed(d.tree) && d.faults == []
    ensures var r := RestoreBlob(cfg, d, q);
      (r.ok <==> q in cfg.blobs && CanLand(d.tree, q)) && r.disk.rows == d.rows
  {
    hide FollowUpTo, MakeDirs, SetMode, ChangeOwner, Write;
    BlobFrame(cfg, d, q);
    assert DirAt(d.tree, []);
    if q in cfg.blobs {
      if q == [] {
        WritesExactly(d, q, cfg.blobs[q].content);
      } else {
        hide Follow;
        DirsForBlob(d, q);
        var d1 := MakeDirs(d, Parent(q)).disk;
        NotMadeWhereItLeads(d, q);
        WritesExactly(d1, q, cfg.blobs[q].content);
      }
    }
  }

  lemma WritesExactly(d: Disk, q: Path, content: Content)
    requires d.faults == []
    ensures var l := Follow(d.tree, q);
      Write(d, q, content).ok <==> l != [] && DirAt(d.tree, Parent(l)) && (l in d.tree ==> d.tree[l].File?)
  {
    hide Follow;
  }

  // ---- Which outcome ----

  /** Its group is selected, if it has one and a selection was made; not ignored, and in a home only for a cleanup. */
  ghost predicate Asked(cfg: Config, m: Mutation) {
    && (cfg.selected.Some? ==> forall home, k | KeyedBy(m.path, home, k) :: k in cfg.selected.value)
    && m.policy != C.Ignore && (m.policy == C.Never ==> cfg.homeCleanup)
  }

  /** A fingerprint was recorded, and what stands there is not what it was taken of. */
  predicate Changed(cfg: Config, t: Tree, p: Path) {
    && p in t && p in cfg.pre && cfg.pre[p].hash != None
    && if t[p].File? then cfg.pre[p].hash != Some(t[p].content) else p !in cfg.sameTime
  }

  /** There is something to do: it is still there and there is something to go by, or it can be brought back. */
  ghost predicate Handled(cfg: Config, t: Tree, m: Mutation) {
    var p := m.path;
    && Asked(cfg, m)
    && (m.op == Create || m.op == RenameTo || m.op == Modify || m.op == Delete)
    && (m.op != Delete ==> p in t)
    && (m.op == Modify ==> if p in cfg.pre then cfg.pre[p].hash != None else cfg.homeCleanup)
    && (m.op == Delete ==> p in cfg.pre || (!cfg.dryRun && p in cfg.blobs && CanLand(t, p)))
  }

  /** A deleted path, and a modified one that is as it was installed or is put back at any price. */
  ghost predicate Restores(cfg: Config, t: Tree, m: Mutation) {
    && Handled(cfg, t, m)
    && (m.op == Delete || (m.op == Modify && m.path in cfg.pre && (!Changed(cfg, t, m.path) || cfg.mode == Nuclear)))
  }

  /** Created, and either changed since outside the conservative mode, or unchanged with nothing to archive. */
  ghost predicate Removes(cfg: Config, t: Tree, m: Mutation) {
    && Handled(cfg, t, m) && (m.op == Create || m.op == RenameTo)
    && if Changed(cfg, t, m.path) then cfg.mode != Conservative else !cfg.homeCleanup || t[m.path].Dir?
  }

  /** All the rest is archived, if it can be; an unrecorded directory that was modified counts as archived. */
  ghost predicate Archives(cfg: Config, t: Tree, m: Mutation) {
    && Handled(cfg, t, m) && !Restores(cfg, t, m) && !Removes(cfg, t, m)
    && (cfg.dryRun || (m.path != [] && LeafAt(t, m.path) && RoomFor(cfg, t, m.path))
        || (m.op == Modify && m.path !in cfg.pre && DirAt(t, m.path)))
  }

  lemma AskedIsConsidered(cfg: Config, m: Mutation)
    ensures Asked(cfg, m) <==> PassesFilter(cfg, m.path) && !m.policy.Ignore? && (m.policy.Never? ==> cfg.homeCleanup)
  {
    hide KeyedBy, GroupKey;
    forall home, k | KeyedBy(m.path, home, k) ensures GroupKey(m.path) == Some(k) {
      KeyByComponents(m.path, k);
    }
    if GroupKey(m.path).Some? {
      KeyByComponents(m.path, GroupKey(m.path).value);
    }
  }

  ghost function Expected(cfg: Config, t: Tree, m: Mutation): Outcome {
    if !Handled(cfg, t, m) then Skipped
    else if Restores(cfg, t, m) then Restored
    else if Removes(cfg, t, m) then Removed
    else if Archives(cfg, t, m) then Archived
    else Failed
  }

  lemma CreatedOutcome(cfg: Config, d: Disk, m: Mutation)
    requires WellFormed(d.tree) && Sealed(cfg, d.tree) && d.faults == []
    requires m.path != [] && !(Zone(cfg.root, cfg.txid) <= m.path)
    requires Asked(cfg, m) && (m.op == Create || m.op == RenameTo)
    ensures Created(cfg, d, m.path).outcome == Expected(cfg, d.tree, m)
  {
    hide ArchiveFile, RoomFor, Asked, CanLand, Zone, WellFormed, Sealed;
    var p := m.path;
    assert Consume(d) == d;
    if p in d.tree {
      ArchivesExactly(cfg, d, p, true);
      ArchivesExactly(cfg, d, p, false);
      B.ArchiveFaultFree(cfg, d, p, false);
      if LeafAt(d.tree, p) {
        ArchivingLeavesLeaf(cfg, d, p, false);
      }
    }
  }

  lemma ModifiedOutcome(cfg: Config, d: Disk, m: Mutation)
    requires WellFormed(d.tree) && Sealed(cfg, d.tree) && d.faults == []
    requires m.path != [] && !(Zone(cfg.root, cfg.txid) <= m.path)
    requires Asked(cfg, m) && m.op == Modify
    ensures ModifiedFile(cfg, d, m.path).outcome == Expected(cfg, d.tree, m)
  {
    hide ArchiveFile, RoomFor, Asked, CanLand, Zone, WellFormed, Sealed, RestoreBlob;
    var p := m.path;
    assert Consume(d) == d;
    if p in d.tree {
      ArchivesExactly(cfg, d, p, true);
      ArchivesExactly(cfg, d, p, false);
      B.ArchiveFaultFree(cfg, d, p, false);
      if LeafAt(d.tree, p) {
        ArchivingLeavesLeaf(cfg, d, p, false);
      }
    }
  }

  lemma DeletedOutcome(cfg: Config, d: Disk, m: Mutation)
    requires WellFormed(d.tree) && d.faults == [] && Asked(cfg, m) && m.op == Delete
    ensures DeletedFile(cfg, d, m.path).outcome == Expected(cfg, d.tree, m)
  {
    hide RestoreBlob, Asked, CanLand, WellFormed;
    RestoresExactly(cfg, d, m.path);
  }

  lemma OutcomeExactly(cfg: Config, d: Disk, m: Mutation)
    requires WellFormed(d.tree) && Sealed(cfg, d.tree) && d.faults == []
    requires m.path != [] && !(Zone(cfg.root, cfg.txid) <= m.path)
    ensures Step(cfg, d, m).outcome == Expected(cfg, d.tree, m)
  {
    hide Created, ModifiedFile, DeletedFile, Asked, WellFormed, Sealed, Zone, PassesFilter, Restores, Removes, Archives;
    AskedIsConsidered(cfg, m);
    if Asked(cfg, m) {
      match m.op {
        case Create | RenameTo => CreatedOutcome(cfg, d, m);
        case Modify => ModifiedOutcome(cfg, d, m);
        case Delete => DeletedOutcome(cfg, d, m);
        case _ =>
      }
    }
  }

  /**
   What is reported of one mutation, with working calls or in a dry run: each condition can be checked
   before it. What neither can be archived nor falls under anything else has failed.
   */
  lemma ReportedExactly(cfg: Config, d: Disk, m: Mutation)
    requires WellFormed(d.tree) && Sealed(cfg, d.tree) && d.faults == []
    requires m.path != [] && !(Zone(cfg.root, cfg.txid) <= m.path)
    ensures var rep, p := Execute(cfg, d, [m]).report, m.path;
      && rep.skipped == (if Handled(cfg, d.tree, m) then [] else [p])
      && rep.restored == (if Restores(cfg, d.tree, m) then [p] else [])
      && rep.removed == (if Removes(cfg, d.tree, m) then [p] else [])
      && rep.archived == (if Archives(cfg, d.tree, m) then [p] else [])
      && |rep.skipped| + |rep.restored| + |rep.removed| + |rep.archived| + |rep.failed| == 1
      && (forall x | x in rep.failed :: x == p)
  {
    hide Step, WellFormed, Sealed, Zone, Handled, PruneAll;
    OutcomeExactly(cfg, d, m);
    assert [m][1..] == [];
    var v := Step(cfg, d, m);
    assert RunAll(cfg, d, EMPTY_REPORT, [m]) == RunAll(cfg, v.disk, Note(EMPTY_REPORT, m.path, v.outcome), []);
    RestoresIsHandled(cfg, d.tree, m);
  }

  lemma RestoresIsHandled(cfg: Config, t: Tree, m: Mutation)
    ensures Restores(cfg, t, m) ==> Handled(cfg, t, m)
    ensures Removes(cfg, t, m) ==> Handled(cfg, t, m) && !Restores(cfg, t, m)
    ensures Archives(cfg, t, m) ==> Handled(cfg, t, m) && !Restores(cfg, t, m) && !Removes(cfg, t, m)
  {
  }

  lemma NoteAdds(rep: Report, p: Path, o: Outcome)
    ensures var r, s := Note(rep, p, o), Note(EMPTY_REPORT, p, o);
      && r.removed == rep.removed + s.removed && r.archived == rep.archived + s.archived
      && r.restored == rep.restored + s.restored && r.skipped == rep.skipped + s.skipped
      && r.failed == rep.failed + s.failed
  {
  }

  /** The report of a longer list is put together from those of its parts, in order. */
  lemma {:induction false} ReportsAddUp(cfg: Config, d: Disk, rep: Report, ms: seq<Mutation>)
    ensures var r, s := RunAll(cfg, d, rep, ms).report, RunAll(cfg, d, EMPTY_REPORT, ms).report;
      && r.removed == rep.removed + s.removed && r.archived == rep.archived + s.archived
      && r.restored == rep.restored + s.restored && r.skipped == rep.skipped + s.skipped
      && r.failed == rep.failed + s.failed
    decreases ms
  {
    hide Step, Note;
    if ms != [] {
      var v := Step(cfg, d, ms[0]);
      NoteAdds(rep, ms[0].path, v.outcome);
      ReportsAddUp(cfg, v.disk, Note(rep, ms[0].path, v.outcome), ms[1..]);
      ReportsAddUp(cfg, v.disk, Note(EMPTY_REPORT, ms[0].path, v.outcome), ms[1..]);
    }
  }

  lemma {:induction false} LoopGoesOn(cfg: Config, d: Disk, rep: Report, ms: seq<Mutation>, m: Mutation)
    ensures var before := RunAll(cfg, d, rep, ms);
      RunAll(cfg, d, rep, ms + [m]) == RunAll(cfg, before.disk, before.report, [m])
    decreases ms
  {
    hide Step, Note;
    if ms == [] {
      assert ms + [m] == [m];
    } else {
      var v := Step(cfg, d, ms[0]);
      assert (ms + [m])[1..] == ms[1..] + [m];
      LoopGoesOn(cfg, v.disk, Note(rep, ms[0].path, v.outcome), ms[1..], m);
    }
  }

  /** One more mutation adds what would be reported of it alone on the disk the loop has reached, behind the rest. */
  lemma ReportGrows(cfg: Config, d: Disk, ms: seq<Mutation>, m: Mutation)
    ensures var before := RunAll(cfg, d, EMPTY_REPORT, ms);
      var one, all := Execute(cfg, before.disk, [m]).report, Execute(cfg, d, ms + [m]).report;
      && all.removed == before.report.removed + one.removed && all.archived == before.report.archived + one.archived
      && all.restored == before.report.restored + one.restored && all.skipped == before.report.skipped + one.skipped
      && all.failed == before.report.failed + one.failed
  {
    hide RunAll, PruneAll;
    var before := RunAll(cfg, d, EMPTY_REPORT, ms);
    LoopGoesOn(cfg, d, EMPTY_REPORT, ms, m);
    ReportsAddUp(cfg, before.disk, before.report, [m]);
  }

  // ---- What was done when it says so ----

  /** From the disk before to the disk after a mutation of `p`. */
  ghost predicate Did(cfg: Config, d: Disk, d': Disk, m: Mutation, o: Outcome) {
    var p, t, t' := m.path, d.tree, d'.tree;
    match o
    case Removed => d'.rows == d.rows && (LeafAt(t, p) ==> p !in t')
    case Archived =>
      LeafAt(t, p) ==>
        && d'.rows == d.rows[(cfg.txid, p) := Row(cfg.root + [TxName(cfg.txid)] + p, Changed(cfg, t, p))]
        && (m.op != Modify || p !in cfg.pre ==> p !in t')
    case Failed => d'.rows == d.rows && p in t && p in t' && t'[p] == t[p]
    case Skipped => d'.rows == d.rows && (m.op != Delete ==> t' == t)
    case Restored => d'.rows == d.rows && (p in t ==> p in t')
  }

  lemma CreatedDid(cfg: Config, d: Disk, m: Mutation)
    requires WellFormed(d.tree) && Sealed(cfg, d.tree) && d.faults == [] && !cfg.dryRun
    requires m.path != [] && !(Zone(cfg.root, cfg.txid) <= m.path) && (m.op == Create || m.op == RenameTo)
    ensures var v := Created(cfg, d, m.path); Did(cfg, d, v.disk, m, v.outcome)
  {
    hide ArchiveFile, RoomFor, WellFormed, Sealed, Documented;
    var p := m.path;
    assert Consume(d) == d;
    if p in d.tree {
      ArchivingLeaves(cfg, d, p, true);
      ArchivingLeaves(cfg, d, p, false);
    }
  }

  lemma ArchivingLeaves(cfg: Config, d: Disk, p: Path, modified: bool)
    requires WellFormed(d.tree) && Sealed(cfg, d.tree) && d.faults == []
    requires p in d.tree && p != [] && !(Zone(cfg.root, cfg.txid) <= p)
    ensures var r := ArchiveFile(cfg.root, cfg.txid, d, p, modified);
      && r.disk.faults == [] && p in r.disk.tree && r.disk.tree[p] == d.tree[p]
      && r.disk.rows ==
           (if r.ok then d.rows[(cfg.txid, p) := Row(cfg.root + [TxName(cfg.txid)] + p, modified)] else d.rows)
      && (r.ok ==> LeafAt(d.tree, p))
  {
    hide ArchiveFile, RoomFor, WellFormed, Sealed, Documented;
    ArchivesExactly(cfg, d, p, modified);
    B.ArchiveFaultFree(cfg, d, p, modified);
    ArchiveStaysInZone(cfg, d, p, modified);
  }

  lemma ModifiedDid(cfg: Config, d: Disk, m: Mutation)
    requires WellFormed(d.tree) && Sealed(cfg, d.tree) && d.faults == [] && !cfg.dryRun
    requires m.path != [] && !(Zone(cfg.root, cfg.txid) <= m.path) && m.op == Modify
    ensures var v := ModifiedFile(cfg, d, m.path); Did(cfg, d, v.disk, m, v.outcome)
  {
    hide ArchiveFile, RestoreBlob, WellFormed, Sealed, TxName;
    var p := m.path;
    assert Consume(d) == d;
    BlobKeepsRows(cfg, d, p);
    if p in d.tree {
      ArchivingLeaves(cfg, d, p, true);
      ArchivingLeaves(cfg, d, p, false);
      ArchiveFrame(cfg, d, p, true);
      BlobKeepsRows(cfg, ArchiveFile(cfg.root, cfg.txid, d, p, true).disk, p);
    }
  }

  lemma BlobKeepsRows(cfg: Config, d: Disk, p: Path)
    requires WellFormed(d.tree)
    ensures RestoreBlob(cfg, d, p).disk.rows == d.rows
    ensures forall x | x in d.tree :: x in RestoreBlob(cfg, d, p).disk.tree
  {
    hide RestoreBlob;
    BlobFrame(cfg, d, p);
    PR.RestoringLosesNothing(cfg, d, p);
  }

  /** With working calls each report is true: what was removed, archived, left or tried. */
  lemma ReportIsTrue(cfg: Config, d: Disk, m: Mutation)
    requires WellFormed(d.tree) && Sealed(cfg, d.tree) && d.faults == [] && !cfg.dryRun
    requires m.path != [] && !(Zone(cfg.root, cfg.txid) <= m.path)
    ensures var v := Step(cfg, d, m); Did(cfg, d, v.disk, m, v.outcome)
  {
    hide Created, ModifiedFile, RestoreBlob, WellFormed, Sealed, TxName, GroupKey;
    BlobKeepsRows(cfg, d, m.path);
    match m.op {
      case Create | RenameTo => CreatedDid(cfg, d, m);
      case Modify => ModifiedDid(cfg, d, m);
      case _ =>
    }
  }

  // ---- Archiving, whatever fails ----

  /** The row comes last: where there is a new one, content and sidecar are complete, and it says so by working. */
  lemma StoredInOrder(cfg: Config, d: Disk, q: Path, modified: bool)
    requires WellFormed(d.tree) && Sealed(cfg, d.tree) && LeafAt(d.tree, q) && q != []
    ensures var r := ArchiveFile(cfg.root, cfg.txid, d, q, modified);
      && (r.ok ==> (cfg.txid, q) in r.disk.rows && InArchive(cfg, r.disk, q, d.tree[q]))
      && (!r.ok ==> r.disk.rows == d.rows)
  {
    hide MakeDirs, StoreContent, Write, InArchive, ArchivePath;
    ArchiveFrame(cfg, d, q, modified);
    var dest := Dest(cfg, q);
    var r1 := MakeDirs(d, Parent(dest));
    MakeDirsFrame(d, Parent(dest));
    if r1.ok {
      ContentFrame(cfg, r1.disk, q);
      var r2 := StoreContent(r1.disk, q, dest);
      if r2.ok {
        WriteFrame(r2.disk, SidecarOf(dest), Document(MetaOf(q, d.tree[q], modified)));
      }
    }
  }

  /** A file with a fingerprint that cannot be read is left alone, and said to be skipped. */
  lemma UnreadableIsSkipped(cfg: Config, d: Disk, m: Mutation)
    requires d.faults != [] && d.faults[0].Breaks? && m.path in d.tree && d.tree[m.path].File?
    requires m.path in cfg.pre && cfg.pre[m.path].hash != None
    requires m.op == Create || m.op == RenameTo || m.op == Modify
    ensures var v := Step(cfg, d, m); v.disk.tree == d.tree && v.disk.rows == d.rows && v.outcome == Skipped
  {
    hide GroupKey;
  }
}
