/**
 Two mutations, one of a path `p` with a baseline and one of a path `q` where a link may stand by
 now: exactly when `q`'s blob ends up in `p`, and exactly when `p`'s version is lost to it.
 */
module LinkedBaseline {
  import opened Paths
  import opened FileSystem
  import opened Links
  import opened Archive
  import opened Review
  import opened Rollback
  import opened NoLoss
  import opened NeverDelete
  import opened Pruning
  import opened ArchivePlaces
  import opened StepFrames
  import opened Limits
  import opened Baseline
  import opened BaselineRuns
  import C = Classifier

  /** `p` is modified and has a baseline, and `q` is out of its way, except that it may lead to `p`. */
  ghost predicate Pair(cfg: Config, d: Disk, mp: Mutation, mq: Mutation) {
    var p, q := mp.path, mq.path;
    && HasBaseline(cfg, p) && Ready(cfg, d, p) && p in d.tree
    && mp.op == Modify && Restorable(cfg, mp)
    && p != q && LandsClear(cfg, p, q, Follow(d.tree, q))
    && q != SidecarOf(p) && SidecarOf(q) != p
  }

  /** What can be checked before the rollback: `q` is a link to `p`, and its blob is restored there. */
  ghost predicate BlobGoesTo(cfg: Config, t: Tree, mq: Mutation, p: Path) {
    WritesThrough(cfg, t, mq) && Follow(t, mq.path) == p
  }

  lemma RunOfTwo(cfg: Config, d: Disk, m1: Mutation, m2: Mutation)
    ensures RunAll(cfg, d, EMPTY_REPORT, [m1, m2]).disk == Step(cfg, Step(cfg, d, m1).disk, m2).disk
  {
    hide Step, Note;
    var v := Step(cfg, d, m1);
    assert [m1, m2][1..] == [m2] && [m2][1..] == [];
    assert RunAll(cfg, v.disk, Note(EMPTY_REPORT, m1.path, v.outcome), [m2]).disk == Step(cfg, v.disk, m2).disk;
  }

  // ---- `p` first, then `q` ----

  /** Restoring `p` leaves every link, and all that is in the archive but `p`'s own places. */
  lemma OwnStepFrame(cfg: Config, d: Disk, mp: Mutation)
    requires HasBaseline(cfg, mp.path) && Ready(cfg, d, mp.path) && mp.op == Modify
    ensures var t, p := Step(cfg, d, mp).disk.tree, mp.path;
      && SameLinks(d.tree, t)
      && (forall x | x in d.tree && x != p && x != Dest(cfg, p) && x != SidecarOf(Dest(cfg, p)) ::
        x in t && t[x] == d.tree[x])
      && (forall x | x in t && x !in d.tree && x != p && x != Dest(cfg, p) && x != SidecarOf(Dest(cfg, p)) ::
            t[x].Dir? && (x < p || x < Dest(cfg, p)))
  {
    hide Compare, ArchiveFile, RestoreBlob, Follow, WellFormed, Sealed, InArchive, SidecarOf, NoNewLinks;
    var p, d0 := mp.path, Consume(d);
    NoLinkNoTrail(d.tree, p);
    ArchiveFrame(cfg, d0, p, true);
    ArchiveKeepsLinks(cfg, d0, p, true);
    var r := ArchiveFile(cfg.root, cfg.txid, d0, p, true).disk;
    FollowSame(d.tree, r.tree, p);
    BlobFrame(cfg, d0, p);
    BlobFrame(cfg, r, p);
    SameLinksAreThose(d.tree);
    SameLinksChain(d.tree, r.tree, RestoreBlob(cfg, r, p).disk.tree);
  }

  /** Nothing of `p` is in or above the places of `q` in the archive, and no sidecar of `q` above those of `p`. */
  lemma PlacesOfPair(cfg: Config, p: Path, q: Path, a: Path)
    requires HasBaseline(cfg, p) && p != q && KeepsClear(cfg, p, q)
    requires q in cfg.blobs && q != SidecarOf(p) && SidecarOf(q) != p
    requires a == p || a == Dest(cfg, p) || a == SidecarOf(Dest(cfg, p))
    ensures !(a < Dest(cfg, q)) && a != SidecarOf(Dest(cfg, q))
    ensures !(SidecarOf(Dest(cfg, q)) < p) && !(SidecarOf(Dest(cfg, q)) < Dest(cfg, p))
  {
    hide Zone, PassesFilter, SidecarOf;
    SidecarInArchive(cfg.root, cfg.txid, p);
    SidecarInArchive(cfg.root, cfg.txid, q);
    OutsideDest(cfg, p, q);
    OutsideDest(cfg, p, SidecarOf(q));
    DestBelow(cfg, p, q);
    DestBelow(cfg, SidecarOf(p), q);
    DestBelow(cfg, p, SidecarOf(q));
    DestBelow(cfg, SidecarOf(q), p);
    DestBelow(cfg, SidecarOf(p), SidecarOf(q));
    if SidecarOf(p) == SidecarOf(q) {
      SidecarInjective(p, q);
    }
  }

  lemma RoomUnchanged(cfg: Config, d: Disk, mp: Mutation, mq: Mutation)
    requires Pair(cfg, d, mp, mq) && LinkAt(d.tree, mq.path) && mq.path in cfg.blobs
    ensures RoomFor(cfg, Step(cfg, d, mp).disk.tree, mq.path) <==> RoomFor(cfg, d.tree, mq.path)
  {
    hide Step, Follow, SidecarOf, Ready, HasBaseline, Restorable, KeepsClear, ArchivePath;
    var p, q := mp.path, mq.path;
    OwnStepFrame(cfg, d, mp);
    PlacesOfPair(cfg, p, q, p);
    PlacesOfPair(cfg, p, q, Dest(cfg, p));
    PlacesOfPair(cfg, p, q, SidecarOf(Dest(cfg, p)));
  }

  lemma GoesThereAfter(cfg: Config, d: Disk, mp: Mutation, mq: Mutation)
    requires Pair(cfg, d, mp, mq)
    ensures Follow(Step(cfg, d, mp).disk.tree, mq.path) == Follow(d.tree, mq.path)
    ensures BlobGoesTo(cfg, Step(cfg, d, mp).disk.tree, mq, mp.path) <==> BlobGoesTo(cfg, d.tree, mq, mp.path)
  {
    hide Step, Follow, RoomFor;
    OwnStepFrame(cfg, d, mp);
    OwnStep(cfg, d, mp);
    FollowSame(d.tree, Step(cfg, d, mp).disk.tree, mq.path);
    if LinkAt(d.tree, mq.path) && mq.path in cfg.blobs {
      RoomUnchanged(cfg, d, mp, mq);
    }
  }

  /**
   `p` is restored first and stays restored exactly when the blob of `q` is not written into it
   through a link afterwards, or is the same.
   */
  lemma RestoredExactly(cfg: Config, d: Disk, mp: Mutation, mq: Mutation)
    requires Pair(cfg, d, mp, mq)
    ensures Done(cfg, Execute(cfg, d, [mp, mq]).disk, mp.path) <==>
      !(BlobGoesTo(cfg, d.tree, mq, mp.path) && BaselineNode(cfg.blobs[mq.path]) != BaselineNode(cfg.blobs[mp.path]))
  {
    hide Step, Follow, WritesThrough, PruneAll;
    var p, d1 := mp.path, Step(cfg, d, mp).disk;
    OwnStep(cfg, d, mp);
    OwnStays(cfg, d, mp);
    GoesThereAfter(cfg, d, mp, mq);
    if BlobGoesTo(cfg, d.tree, mq, p) {
      ThroughLinkWritten(cfg, d1, mq);
    } else {
      StepKeepsLeaf(cfg, d1, mq, p);
    }
    RunOfTwo(cfg, d, mp, mq);
    StepKeepsLinks(cfg, d1, mq);
    var run := RunAll(cfg, d, EMPTY_REPORT, [mp, mq]);
    PruningIsSafe(run.disk, ParentsOf(run.report.removed + run.report.archived), p, p);
  }

  lemma OwnStays(cfg: Config, d: Disk, mp: Mutation)
    requires HasBaseline(cfg, mp.path) && Ready(cfg, d, mp.path)
    ensures Ready(cfg, Step(cfg, d, mp).disk, mp.path)
  {
    hide Step, FollowUpTo;
    StepKeepsReady(cfg, d, mp, mp.path);
  }

  // ---- `q` first, then `p` ----

  lemma UnchangedIsNotArchived(cfg: Config, d: Disk, mp: Mutation)
    requires HasBaseline(cfg, mp.path) && Ready(cfg, d, mp.path) && mp.op == Modify && mp.path in d.tree
    requires d.tree[mp.path].content == cfg.blobs[mp.path].content && (cfg.txid, mp.path) !in d.rows
    ensures (cfg.txid, mp.path) !in Step(cfg, d, mp).disk.rows
  {
    hide ArchiveFile, RestoreBlob;
    NoRowsElsewhere(cfg, Consume(d), mp.path);
  }

  /**
   The version `p` was found with is in the archive afterwards exactly when the blob of `q` was not
   written over it before, or left it as it was.
   */
  lemma ReplacedExactly(cfg: Config, d: Disk, mp: Mutation, mq: Mutation)
    requires Pair(cfg, d, mp, mq) && (cfg.txid, mp.path) !in d.rows
    requires d.tree[mp.path].content != cfg.blobs[mp.path].content && !cfg.mode.Nuclear?
    ensures InArchive(cfg, Execute(cfg, d, [mq, mp]).disk, mp.path, d.tree[mp.path]) <==>
      !(BlobGoesTo(cfg, d.tree, mq, mp.path) && BaselineNode(cfg.blobs[mq.path]) != d.tree[mp.path])
  {
    hide Step, Follow, WritesThrough, Execute, InArchive;
    var p, d1 := mp.path, Step(cfg, d, mq).disk;
    var d2 := Step(cfg, d1, mp).disk;
    StepKeepsReady(cfg, d, mq, p);
    OwnStep(cfg, d1, mp);
    OwnStays(cfg, d1, mp);
    RunOfTwo(cfg, d, mq, mp);
    ExecuteArchives(cfg, d, [mq, mp], p, d.tree[p]);
    if BlobGoesTo(cfg, d.tree, mq, p) {
      ThroughLinkWritten(cfg, d, mq);
      StepAddsNoRow(cfg, d, mq, p);
      if d1.tree[p].content == cfg.blobs[p].content {
        UnchangedIsNotArchived(cfg, d1, mp);
        NoRowNotArchived(cfg, d2, p, d.tree[p]);
      } else if InArchive(cfg, d2, p, d.tree[p]) {
        ArchivedIsOne(cfg, d2, p, d1.tree[p], d.tree[p]);
      }
    } else {
      StepKeepsLeaf(cfg, d, mq, p);
    }
  }

  lemma NoRowNotArchived(cfg: Config, d: Disk, p: Path, n: Node)
    requires p != [] && !n.Dir? && (cfg.txid, p) !in d.rows
    ensures !InArchive(cfg, d, p, n)
  {
  }

  // ---- An input where both fail ----

  const A: Path := ["a"]
  const B: Path := ["b"]
  const VAR: Path := ["var"]

  /** Two installed files; since, "/a" was changed and "/b" was replaced by a link to it. */
  const CLEAN_UP := Config(
    0, Clean, false, false, None, VAR,
    map[A := Fingerprint(Some(Bytes([2]))), B := Fingerprint(Some(Bytes([3])))],
    map[A := Blob(Bytes([2]), 0, 0, 420), B := Blob(Bytes([3]), 0, 0, 420)], {})

  const FOUND := Disk(map[[] := Dir, A := File(Bytes([1]), 420, 0, 0), B := Link("a", 0, 0)], map[], [])

  const MODIFY_A := Mutation(A, Modify, C.Act)
  const MODIFY_B := Mutation(B, Modify, C.Act)

  lemma BLeadsToA()
    ensures Goal(B, "a") == A && Follow(FOUND.tree, B) == A && Follow(FOUND.tree, A) == A
  {
    assert Split("a", "") == ["a"] by {
      assert "a"[1..] == "" && "" + ['a'] == "a" && Split("", "a") == ["a"];
    }
    assert Walk([], ["a"]) == A by {
      assert ["a"][1..] == [] && [] + ["a"] == A;
    }
    assert Goal(B, "a") == A;
    assert FollowUpTo(FOUND.tree, A, MAX_LINKS - 1) == A;
  }

  lemma Unrelated(p: Path, q: Path)
    requires p != [] && q != [] && p[0] != q[0]
    ensures !(p <= q) && !(q <= p)
  {
  }

  /** Their places in the archive are apart from all there is. */
  lemma PlacesOfAAndB(x: Path)
    requires x == A || x == B
    ensures var z := Zone(VAR, 0);
      && !(z <= x) && !(x <= z) && z <= ArchivePath(VAR, 0, x) && z <= SidecarOf(ArchivePath(VAR, 0, x))
      && !(ArchivePath(VAR, 0, x) <= A) && !(ArchivePath(VAR, 0, x) <= B)
      && SidecarOf(x) != A && SidecarOf(x) != B
      && !(SidecarOf(x) < A) && !(SidecarOf(x) < B) && !(A < SidecarOf(x)) && !(B < SidecarOf(x))
  {
    hide TxName;
    Unrelated(Zone(VAR, 0), x);
    Unrelated(ArchivePath(VAR, 0, x), A);
    Unrelated(ArchivePath(VAR, 0, x), B);
    SidecarInArchive(VAR, 0, x);
    assert |SidecarOf(x)[0]| > 1;
  }

  lemma BothHaveBlobs()
    ensures A != B && A in CLEAN_UP.pre && B in CLEAN_UP.pre && A in CLEAN_UP.blobs && B in CLEAN_UP.blobs
    ensures CLEAN_UP.pre[A].hash == Some(CLEAN_UP.blobs[A].content)
      && CLEAN_UP.pre[B].hash == Some(CLEAN_UP.blobs[B].content)
    ensures CLEAN_UP.blobs[A].content == Bytes([2]) && CLEAN_UP.blobs[B].content == Bytes([3])
  {
    assert A[0] == "a" && B[0] == "b";
  }

  lemma BothHaveBaselines()
    ensures HasBaseline(CLEAN_UP, A) && HasBaseline(CLEAN_UP, B)
  {
    hide Zone, GroupKey, SidecarOf, ArchivePath;
    BothHaveBlobs();
    PlacesOfAAndB(A);
    PlacesOfAAndB(B);
  }

  lemma NothingIsArchived(x: Path)
    requires Zone(VAR, 0) <= x
    ensures x !in FOUND.tree
  {
    hide Zone, ArchivePath, SidecarOf;
    FoundEntries(x);
    PlacesOfAAndB(A);
    PlacesOfAAndB(B);
    ZoneIsNotRoot();
  }

  lemma FoundEntries(x: Path)
    ensures x in FOUND.tree <==> x == [] || x == A || x == B
  {
  }

  lemma ZoneIsNotRoot()
    ensures Zone(VAR, 0) != []
  {
  }

  lemma NothingInTheWay(x: Path)
    requires x == A || x == B
    ensures Dest(CLEAN_UP, x) !in FOUND.tree && SidecarOf(Dest(CLEAN_UP, x)) !in FOUND.tree
    ensures !(A < Dest(CLEAN_UP, x)) && !(B < Dest(CLEAN_UP, x))
  {
    hide Zone, ArchivePath, SidecarOf;
    PlacesOfAAndB(A);
    PlacesOfAAndB(B);
    NothingIsArchived(Dest(CLEAN_UP, x));
    NothingIsArchived(SidecarOf(Dest(CLEAN_UP, x)));
    OutsideDest(CLEAN_UP, A, x);
    OutsideDest(CLEAN_UP, B, x);
  }

  lemma FoundIsATree()
    ensures WellFormed(FOUND.tree) && Sealed(CLEAN_UP, FOUND.tree)
  {
    hide Zone;
    forall x | Zone(VAR, 0) <= x ensures x !in FOUND.tree {
      NothingIsArchived(x);
    }
  }

  lemma AIsReady()
    ensures WellFormed(FOUND.tree) && Sealed(CLEAN_UP, FOUND.tree)
    ensures Ready(CLEAN_UP, FOUND, A) && RoomFor(CLEAN_UP, FOUND.tree, B)
  {
    hide Zone, ArchivePath, SidecarOf, WellFormed, Sealed;
    FoundIsATree();
    NothingInTheWay(A);
    NothingInTheWay(B);
  }

  lemma AAndBAreAPair()
    ensures Pair(CLEAN_UP, FOUND, MODIFY_A, MODIFY_B) && BlobGoesTo(CLEAN_UP, FOUND.tree, MODIFY_B, A)
  {
    hide Follow, Zone, Ready, HasBaseline, RoomFor, SidecarOf;
    BLeadsToA();
    BothHaveBaselines();
    AIsReady();
    PlacesOfAAndB(A);
    PlacesOfAAndB(B);
  }

  /** Both are recorded as modified: "/a" ends with the bytes of "/b", or its version is in no archive. */
  lemma ALinkSpoilsAnother()
    ensures HasBaseline(CLEAN_UP, A) && HasBaseline(CLEAN_UP, B)
    ensures !Done(CLEAN_UP, Execute(CLEAN_UP, FOUND, [MODIFY_A, MODIFY_B]).disk, A)
    ensures !InArchive(CLEAN_UP, Execute(CLEAN_UP, FOUND, [MODIFY_B, MODIFY_A]).disk, A, FOUND.tree[A])
  {
    hide Pair, BlobGoesTo, Execute, Done, InArchive, HasBaseline;
    BothHaveBaselines();
    AAndBAreAPair();
    RestoredExactly(CLEAN_UP, FOUND, MODIFY_A, MODIFY_B);
    ReplacedExactly(CLEAN_UP, FOUND, MODIFY_A, MODIFY_B);
  }

  lemma NothingElseThere()
    ensures Fits(CLEAN_UP, FOUND.tree, A, [MODIFY_B, MODIFY_A]) && !LinkAt(FOUND.tree, A)
  {
    hide Zone, SidecarOf;
    PlacesOfAAndB(A);
    PlacesOfAAndB(B);
    BLeadsToA();
    assert Trail(FOUND.tree, B) == {B, A};
  }

  /** In the other order "/a" is restored all the same. */
  lemma TheOtherOrderRestores()
    ensures Done(CLEAN_UP, Execute(CLEAN_UP, FOUND, [MODIFY_B, MODIFY_A]).disk, A)
  {
    hide Execute, Fits, Done, HasBaseline, Ready, RoomFor, Trail;
    BothHaveBaselines();
    AIsReady();
    NothingElseThere();
    RestoredWhenLast(CLEAN_UP, FOUND, [MODIFY_B, MODIFY_A], A, 1);
  }
}
