/**
 What stands at a path with a pre-install blob, and what the archive holds of it, after any list of
 mutations: each one's part of the story told from the links and directories it meets.
 */
module BaselineRuns {
  import opened Paths
  import opened FileSystem
  import opened Links
  import opened Archive
  import opened Review
  import opened Rollback
  import opened NoLoss
  import opened NeverDelete
  import opened Pruning
  import opened ArchivePlaces
  import opened StepFrames
  import opened Limits
  import opened Baseline

  /** What stands at a path, and which version of it can be read back from the archive. */
  datatype Tale = Tale(at: Option<Node>, kept: Option<Node>)

  function NodeAt(t: Tree, p: Path): Option<Node> {
    if p in t then Some(t[p]) else None
  }

  ghost function KeptOf(cfg: Config, d: Disk, p: Path): Option<Node>
    requires p != []
  {
    if exists n: Node :: !n.Dir? && InArchive(cfg, d, p, n) then
      var n: Node :| !n.Dir? && InArchive(cfg, d, p, n);
      Some(n)
    else None
  }

  ghost function TaleOf(cfg: Config, d: Disk, p: Path): Tale
    requires p != []
  {
    Tale(NodeAt(d.tree, p), KeptOf(cfg, d, p))
  }

  /**
   The mutation of another path restores its blob at a link that leads to `p`, where a file is or
   can be made: its directory is there, or on the way to the archive place made for the link.
   */
  ghost predicate BlobLands(cfg: Config, t: Tree, m: Mutation, p: Path)
    requires p != []
  {
    && m.path != p && RestoresAtLink(cfg, t, m) && Follow(t, m.path) == p
    && (p in t || DirAt(t, Parent(p)) || (!AtOnce(cfg, m) && Parent(p) < Zone(cfg.root, cfg.txid)))
  }

  /** A modification finds a version other than the blob's and archives it before it is replaced. */
  predicate Replaces(cfg: Config, m: Mutation, p: Path, at: Option<Node>)
    requires p in cfg.blobs
  {
    m.op.Modify? && at.Some? && at.value.File? && at.value.content != cfg.blobs[p].content && !cfg.mode.Nuclear?
  }

  ghost function Told(cfg: Config, t: Tree, m: Mutation, p: Path, s: Tale): Tale
    requires p != [] && p in cfg.blobs
  {
    if m.path == p then
      Tale(if m.op.Delete? || s.at.Some? then Some(BaselineNode(cfg.blobs[p])) else None,
           if Replaces(cfg, m, p, s.at) then s.at else s.kept)
    else if BlobLands(cfg, t, m, p) then s.(at := Some(BaselineNode(cfg.blobs[m.path])))
    else s
  }

  ghost function ToldAll(cfg: Config, d: Disk, ms: seq<Mutation>, p: Path, s: Tale): Tale
    requires p != [] && p in cfg.blobs
    decreases ms
  {
    if ms == [] then s
    else ToldAll(cfg, Step(cfg, d, ms[0]).disk, ms[1..], p, Told(cfg, d.tree, ms[0], p, s))
  }

  // ---- What stands at the path ----

  lemma DirOnTheWay(cfg: Config, d: Disk, q: Path, p: Path)
    requires HasBaseline(cfg, p) && Ready(cfg, d, p) && p !in d.tree && q != [] && LinkAt(d.tree, q)
    requires !(Zone(cfg.root, cfg.txid) <= q)
    ensures var r := ArchiveFile(cfg.root, cfg.txid, d, q, true);
      && WellFormed(r.disk.tree) && p !in r.disk.tree
      && (r.ok ==> (DirAt(r.disk.tree, Parent(p)) <==>
        DirAt(d.tree, Parent(p)) || Parent(p) < Zone(cfg.root, cfg.txid)))
  {
    hide ArchiveFile, HasBaseline, SidecarOf, RoomFor;
    var r, z, dest := ArchiveFile(cfg.root, cfg.txid, d, q, true), Zone(cfg.root, cfg.txid), Dest(cfg, q);
    var dir := Parent(p);
    OutsideOf(cfg, p);
    ArchiveFrame(cfg, d, q, true);
    ArchiveStaysInZone(cfg, d, q, true);
    assert p !in r.disk.tree;
    assert !(z <= dir);
    if r.ok && dir < z {
      SidecarInArchive(cfg.root, cfg.txid, q);
      assert SidecarOf(dest) in r.disk.tree;
      assert dir < SidecarOf(dest);
    }
  }

  lemma OutsideOf(cfg: Config, p: Path)
    requires HasBaseline(cfg, p)
    ensures p != [] && !(Zone(cfg.root, cfg.txid) <= p) && !(p <= Zone(cfg.root, cfg.txid)) && p in cfg.blobs
      && p in cfg.pre
  {
  }

  lemma CanPutAt(t: Tree, p: Path)
    requires WellFormed(t) && p != [] && (p in t ==> t[p].File?)
    ensures CanPut(t, p) <==> DirAt(t, Parent(p))
    ensures p in t ==> CanPut(t, p)
  {
    if p in t {
      ParentIsThere(t, p);
    }
  }

  /** A blob restored at a link to `p`: what becomes of `p`. */
  lemma LinkToldRight(cfg: Config, d: Disk, m: Mutation, p: Path)
    requires HasBaseline(cfg, p) && Ready(cfg, d, p) && m.path != p && m.path != []
      && !(Zone(cfg.root, cfg.txid) <= m.path)
    requires RestoresAtLink(cfg, d.tree, m) && Follow(d.tree, m.path) == p
    ensures NodeAt(Step(cfg, d, m).disk.tree, p) ==
      if BlobLands(cfg, d.tree, m, p) then Some(BaselineNode(cfg.blobs[m.path])) else NodeAt(d.tree, p)
  {
    hide RestoreBlob, ArchiveFile, Follow, RoomFor, WellFormed, HasBaseline;
    OutsideOf(cfg, p);
    CanPutAt(d.tree, p);
    assert Consume(d) == d;
    if p in d.tree {
      assert LeadsAway(cfg, d.tree, m.path);
      ThroughLinkWritten(cfg, d, m);
    } else if AtOnce(cfg, m) {
      if CanPut(d.tree, p) {
        BlobThrough(cfg, d, m.path);
      } else {
        BlobBlocked(cfg, d, m.path);
      }
    } else {
      ArchivedLinkToldRight(cfg, d, m.path, p);
    }
  }

  lemma ArchivedLinkToldRight(cfg: Config, d: Disk, q: Path, p: Path)
    requires HasBaseline(cfg, p) && Ready(cfg, d, p) && p !in d.tree && q != [] && LinkAt(d.tree, q) && q in cfg.blobs
    requires !(Zone(cfg.root, cfg.txid) <= q) && RoomFor(cfg, d.tree, q) && Follow(d.tree, q) == p
    ensures var r := ArchiveFile(cfg.root, cfg.txid, d, q, true);
      && r.ok
      && NodeAt(RestoreBlob(cfg, r.disk, q).disk.tree, p) ==
           if DirAt(d.tree, Parent(p)) || Parent(p) < Zone(cfg.root, cfg.txid)
             then Some(BaselineNode(cfg.blobs[q])) else None
  {
    hide RestoreBlob, ArchiveFile, Follow, RoomFor, WellFormed, HasBaseline;
    OutsideOf(cfg, p);
    LinkArchived(cfg, d, q);
    DirOnTheWay(cfg, d, q, p);
    ArchiveKeepsLinks(cfg, d, q, true);
    var r := ArchiveFile(cfg.root, cfg.txid, d, q, true).disk;
    FollowSame(d.tree, r.tree, q);
    CanPutAt(r.tree, p);
    if CanPut(r.tree, p) {
      BlobThrough(cfg, r, q);
    } else {
      BlobBlocked(cfg, r, q);
    }
  }

  lemma OtherToldRight(cfg: Config, d: Disk, m: Mutation, p: Path)
    requires HasBaseline(cfg, p) && Ready(cfg, d, p) && m.path != p
    requires LandsClear(cfg, p, m.path, Follow(d.tree, m.path))
    ensures NodeAt(Step(cfg, d, m).disk.tree, p) ==
      if BlobLands(cfg, d.tree, m, p) then Some(BaselineNode(cfg.blobs[m.path])) else NodeAt(d.tree, p)
  {
    hide Step, RestoresAtLink, Follow, WellFormed, HasBaseline;
    OutsideOf(cfg, p);
    var q := m.path;
    if RestoresAtLink(cfg, d.tree, m) && Follow(d.tree, q) == p {
      LinkToldRight(cfg, d, m, p);
    } else if q in cfg.blobs && Follow(d.tree, q) == p {
      NoLinkNoTrail(d.tree, q);
      NoBlobShaped(cfg, d, m);
      ShapeAtPath(cfg, d.tree, Step(cfg, d, m).disk.tree, p, q, q);
    } else {
      StepKeepsReady(cfg, d, m, p);
    }
  }

  lemma {:induction false} LoopStands(cfg: Config, t0: Tree, d: Disk, rep: Report, ms: seq<Mutation>, p: Path, s: Tale)
    requires HasBaseline(cfg, p) && Ready(cfg, d, p) && NoNewLinks(t0, d.tree) && Fits(cfg, t0, p, ms)
    requires s.at == NodeAt(d.tree, p)
    ensures var d' := RunAll(cfg, d, rep, ms).disk;
      Ready(cfg, d', p) && NodeAt(d'.tree, p) == ToldAll(cfg, d, ms, p, s).at
    decreases ms
  {
    hide Step, KeepsClear, LandsClear, Ready, Trail, NoNewLinks, Fits, BlobLands;
    if ms != [] {
      var v := Step(cfg, d, ms[0]);
      StepOfLoop(cfg, t0, d, ms, p);
      if ms[0].path == p {
        OwnStep(cfg, d, ms[0]);
      } else {
        OtherToldRight(cfg, d, ms[0], p);
      }
      LoopStands(cfg, t0, v.disk, Note(rep, ms[0].path, v.outcome), ms[1..], p, Told(cfg, d.tree, ms[0], p, s));
    }
  }

  lemma PruningKeepsNode(d: Disk, starts: seq<Path>, p: Path)
    requires WellFormed(d.tree) && (p in d.tree ==> d.tree[p].File?)
    ensures NodeAt(PruneAll(d, starts).tree, p) == NodeAt(d.tree, p)
  {
    PruneAllRemains(d.tree, (set x | x in starts), d, starts);
    if p in d.tree {
      PruningIsSafe(d, starts, p, p);
    }
  }

  /**
   In every mode, for every list and order of mutations: a regular or absent path with a baseline
   ends as the story says. So it ends with the blob's bytes, permission bits and owner exactly when
   the last mutation that restores it, or writes another blob into it through a link, leaves those.
   */
  lemma BaselineIsRestored(cfg: Config, d: Disk, ms: seq<Mutation>, p: Path)
    requires HasBaseline(cfg, p) && Ready(cfg, d, p) && Fits(cfg, d.tree, p, ms)
    ensures NodeAt(Execute(cfg, d, ms).disk.tree, p) == ToldAll(cfg, d, ms, p, TaleOf(cfg, d, p)).at
    ensures Done(cfg, Execute(cfg, d, ms).disk, p) <==>
      ToldAll(cfg, d, ms, p, TaleOf(cfg, d, p)).at == Some(BaselineNode(cfg.blobs[p]))
  {
    hide ToldAll, RunAll, Fits, HasBaseline, PruneAll;
    OutsideOf(cfg, p);
    LoopStands(cfg, d.tree, d, EMPTY_REPORT, ms, p, TaleOf(cfg, d, p));
    var run := RunAll(cfg, d, EMPTY_REPORT, ms);
    PruningKeepsNode(run.disk, ParentsOf(run.report.removed + run.report.archived), p);
  }

  // ---- What the archive holds ----

  /** The archive holds one version of a path. */
  lemma ArchivedIsOne(cfg: Config, d: Disk, p: Path, n: Node, n': Node)
    requires p != [] && !n.Dir? && !n'.Dir? && InArchive(cfg, d, p, n) && InArchive(cfg, d, p, n')
    ensures n == n'
  {
  }

  lemma KeptIs(cfg: Config, d: Disk, p: Path, n: Node)
    requires p != [] && !n.Dir?
    ensures InArchive(cfg, d, p, n) <==> KeptOf(cfg, d, p) == Some(n)
  {
    hide InArchive;
    if InArchive(cfg, d, p, n) {
      ArchivedIsOne(cfg, d, p, n, KeptOf(cfg, d, p).value);
    }
  }

  lemma SameKept(cfg: Config, d: Disk, d': Disk, p: Path)
    requires p != [] && forall n: Node | !n.Dir? :: InArchive(cfg, d, p, n) <==> InArchive(cfg, d', p, n)
    ensures KeptOf(cfg, d', p) == KeptOf(cfg, d, p)
  {
    hide InArchive;
    if KeptOf(cfg, d, p).Some? {
      KeptIs(cfg, d', p, KeptOf(cfg, d, p).value);
    }
  }

  /** Rows and places of `p` in the archive are the same. */
  lemma SameInArchive(cfg: Config, d: Disk, d': Disk, p: Path, n: Node)
    requires p != [] && !n.Dir?
    requires (cfg.txid, p) in d.rows <==> (cfg.txid, p) in d'.rows
    requires (cfg.txid, p) in d.rows ==> d'.rows[(cfg.txid, p)] == d.rows[(cfg.txid, p)]
    requires forall x | x == Dest(cfg, p) || x == SidecarOf(Dest(cfg, p)) ::
      (LeafAt(d.tree, x) <==> LeafAt(d'.tree, x)) && (LeafAt(d.tree, x) ==> d'.tree[x] == d.tree[x])
    ensures InArchive(cfg, d, p, n) <==> InArchive(cfg, d', p, n)
  {
  }

  lemma OwnKept(cfg: Config, d: Disk, m: Mutation)
    requires HasBaseline(cfg, m.path) && Ready(cfg, d, m.path) && Restorable(cfg, m)
    ensures KeptOf(cfg, Step(cfg, d, m).disk, m.path) ==
      if Replaces(cfg, m, m.path, NodeAt(d.tree, m.path)) then NodeAt(d.tree, m.path) else KeptOf(cfg, d, m.path)
  {
    hide Step, KeptOf, HasBaseline, InArchive;
    var p, d' := m.path, Step(cfg, d, m).disk;
    OutsideOf(cfg, p);
    if Replaces(cfg, m, p, NodeAt(d.tree, p)) {
      OwnStep(cfg, d, m);
      KeptIs(cfg, d', p, d.tree[p]);
    } else {
      OwnKeepsArchive(cfg, d, m);
      forall n: Node | !n.Dir? ensures InArchive(cfg, d, p, n) <==> InArchive(cfg, d', p, n) {
        ArchiveApart(cfg, d, d', p, n);
      }
      SameKept(cfg, d, d', p);
    }
  }

  /** A step of its own that archives nothing restores the blob or does nothing. */
  lemma OwnKeepsArchive(cfg: Config, d: Disk, m: Mutation)
    requires HasBaseline(cfg, m.path) && Ready(cfg, d, m.path) && Restorable(cfg, m)
    requires !Replaces(cfg, m, m.path, NodeAt(d.tree, m.path))
    ensures var d' := Step(cfg, d, m).disk; var z := Zone(cfg.root, cfg.txid);
      && d'.rows == d.rows
      && forall x | z <= x && (x in d.tree || x in d'.tree) :: x in d.tree && x in d'.tree && d'.tree[x] == d.tree[x]
  {
    hide RestoreBlob, ArchiveFile, Follow, WellFormed;
    assert Consume(d) == d;
    NoLinkNoTrail(d.tree, m.path);
    BlobFrame(cfg, d, m.path);
  }

  lemma OtherKept(cfg: Config, d: Disk, m: Mutation, p: Path)
    requires HasBaseline(cfg, p) && WellFormed(d.tree) && Sealed(cfg, d.tree)
    requires m.path != p && LandsClear(cfg, p, m.path, Follow(d.tree, m.path))
    requires m.path != SidecarOf(p) && SidecarOf(m.path) != p
    ensures KeptOf(cfg, Step(cfg, d, m).disk, p) == KeptOf(cfg, d, p)
  {
    hide Step, Follow, KeptOf, InArchive;
    var d', l := Step(cfg, d, m).disk, Follow(d.tree, m.path);
    StepRows(cfg, d, m);
    if (cfg.txid, p) !in d.rows {
      StepAddsNoRow(cfg, d, m, p);
    }
    OtherPlaces(cfg, d, m, p);
    forall n: Node | !n.Dir? ensures InArchive(cfg, d, p, n) <==> InArchive(cfg, d', p, n) {
      SameInArchive(cfg, d, d', p, n);
    }
    SameKept(cfg, d, d', p);
  }

  lemma OtherPlaces(cfg: Config, d: Disk, m: Mutation, p: Path)
    requires HasBaseline(cfg, p) && WellFormed(d.tree) && Sealed(cfg, d.tree)
    requires m.path != p && LandsClear(cfg, p, m.path, Follow(d.tree, m.path))
    requires m.path != SidecarOf(p) && SidecarOf(m.path) != p
    ensures var t' := Step(cfg, d, m).disk.tree;
      forall x | x == Dest(cfg, p) || x == SidecarOf(Dest(cfg, p)) ::
        (LeafAt(d.tree, x) <==> LeafAt(t', x)) && (LeafAt(d.tree, x) ==> t'[x] == d.tree[x])
  {
    hide Step, Follow;
    var t', l := Step(cfg, d, m).disk.tree, Follow(d.tree, m.path);
    StepShaped(cfg, d, m);
    forall x | x == Dest(cfg, p) || x == SidecarOf(Dest(cfg, p))
      ensures (LeafAt(d.tree, x) <==> LeafAt(t', x)) && (LeafAt(d.tree, x) ==> t'[x] == d.tree[x])
    {
      PlacesApart(cfg, p, m.path, l, x);
    }
  }

  /** No mutated path is named like the sidecar of `p`, or the other way round. */
  ghost predicate NoNamesake(p: Path, ms: seq<Mutation>)
    requires p != []
  {
    forall i | 0 <= i < |ms| && ms[i].path != p && ms[i].path != [] ::
      ms[i].path != SidecarOf(p) && SidecarOf(ms[i].path) != p
  }

  lemma {:induction false} LoopKeeps(cfg: Config, t0: Tree, d: Disk, rep: Report, ms: seq<Mutation>, p: Path)
    requires HasBaseline(cfg, p) && Ready(cfg, d, p) && NoNewLinks(t0, d.tree) && Fits(cfg, t0, p, ms)
      && NoNamesake(p, ms)
    ensures var d' := RunAll(cfg, d, rep, ms).disk;
      Ready(cfg, d', p) && TaleOf(cfg, d', p) == ToldAll(cfg, d, ms, p, TaleOf(cfg, d, p))
    decreases ms
  {
    hide Step, LandsClear, Ready, Trail, NoNewLinks, Fits, BlobLands, KeptOf;
    if ms != [] {
      var v := Step(cfg, d, ms[0]);
      StepOfLoop(cfg, t0, d, ms, p);
      if ms[0].path == p {
        OwnStep(cfg, d, ms[0]);
        OwnKept(cfg, d, ms[0]);
      } else {
        OtherToldRight(cfg, d, ms[0], p);
        ReadyIsTree(cfg, d, ms[0], p);
        OtherKept(cfg, d, ms[0], p);
      }
      assert TaleOf(cfg, v.disk, p) == Told(cfg, d.tree, ms[0], p, TaleOf(cfg, d, p));
      assert forall i | 0 <= i < |ms[1..]| :: ms[1..][i] == ms[i + 1];
      LoopKeeps(cfg, t0, v.disk, Note(rep, ms[0].path, v.outcome), ms[1..], p);
    }
  }

  lemma ReadyIsTree(cfg: Config, d: Disk, m: Mutation, p: Path)
    requires HasBaseline(cfg, p) && Ready(cfg, d, p) && m.path != p
      && LandsClear(cfg, p, m.path, Follow(d.tree, m.path))
    ensures WellFormed(d.tree) && Sealed(cfg, d.tree) && m.path != []
  {
  }

  /**
   ... and so does what the archive holds of it: exactly the version found by the last modification
   that found another one than the blob's, outside nuclear mode, or what was there before.
   */
  lemma ReplacedVersionIsArchived(cfg: Config, d: Disk, ms: seq<Mutation>, p: Path)
    requires HasBaseline(cfg, p) && Ready(cfg, d, p) && Fits(cfg, d.tree, p, ms) && NoNamesake(p, ms)
    ensures forall n: Node | !n.Dir? ::
      InArchive(cfg, Execute(cfg, d, ms).disk, p, n) <==> ToldAll(cfg, d, ms, p, TaleOf(cfg, d, p)).kept == Some(n)
  {
    hide ToldAll, RunAll, Fits, HasBaseline, Execute, InArchive, NoNamesake, KeptOf;
    OutsideOf(cfg, p);
    LoopKeeps(cfg, d.tree, d, EMPTY_REPORT, ms, p);
    forall n: Node | !n.Dir?
      ensures InArchive(cfg, Execute(cfg, d, ms).disk, p, n) <==>
        ToldAll(cfg, d, ms, p, TaleOf(cfg, d, p)).kept == Some(n)
    {
      ExecuteArchives(cfg, d, ms, p, n);
      KeptIs(cfg, RunAll(cfg, d, EMPTY_REPORT, ms).disk, p, n);
    }
  }

  // ---- Conditions that need no run to be followed ----

  /** No link on the way from the mutated path leads to `p`. */
  predicate LeadsElsewhere(t0: Tree, m: Mutation, p: Path) {
    m.path == p || p !in Trail(t0, m.path)
  }

  lemma NothingLands(cfg: Config, t0: Tree, t: Tree, m: Mutation, p: Path)
    requires p != [] && NoNewLinks(t0, t) && LeadsElsewhere(t0, m, p)
    ensures !BlobLands(cfg, t, m, p)
  {
    hide Trail, Follow, RestoresAtLink;
    FollowOnTrail(t0, t, m.path);
  }

  lemma {:induction false} StaysRestored(cfg: Config, t0: Tree, d: Disk, ms: seq<Mutation>, p: Path, s: Tale)
    requires HasBaseline(cfg, p) && Ready(cfg, d, p) && NoNewLinks(t0, d.tree) && Fits(cfg, t0, p, ms)
    requires forall i | 0 <= i < |ms| :: LeadsElsewhere(t0, ms[i], p)
    requires s.at == Some(BaselineNode(cfg.blobs[p]))
    ensures ToldAll(cfg, d, ms, p, s).at == s.at
    decreases ms
  {
    hide Step, KeepsClear, LandsClear, Ready, Trail, NoNewLinks, Fits, BlobLands, LeadsElsewhere;
    if ms != [] {
      StepOfLoop(cfg, t0, d, ms, p);
      NothingLands(cfg, t0, d.tree, ms[0], p);
      assert forall i | 0 <= i < |ms[1..]| :: ms[1..][i] == ms[i + 1];
      StaysRestored(cfg, t0, Step(cfg, d, ms[0]).disk, ms[1..], p, Told(cfg, d.tree, ms[0], p, s));
    }
  }

  lemma {:induction false} RestoredLast(cfg: Config, t0: Tree, d: Disk, ms: seq<Mutation>, i: nat, p: Path, s: Tale)
    requires HasBaseline(cfg, p) && Ready(cfg, d, p) && NoNewLinks(t0, d.tree) && Fits(cfg, t0, p, ms)
    requires i < |ms| && ms[i].path == p && (ms[i].op.Delete? || s.at.Some?)
    requires forall j | i < j < |ms| :: LeadsElsewhere(t0, ms[j], p)
    ensures ToldAll(cfg, d, ms, p, s).at == Some(BaselineNode(cfg.blobs[p]))
    decreases ms
  {
    hide Step, KeepsClear, LandsClear, Ready, Trail, NoNewLinks, Fits, BlobLands, LeadsElsewhere;
    var d1, s1 := Step(cfg, d, ms[0]).disk, Told(cfg, d.tree, ms[0], p, s);
    StepOfLoop(cfg, t0, d, ms, p);
    assert forall j | 0 <= j < |ms[1..]| :: ms[1..][j] == ms[j + 1];
    if i == 0 {
      StaysRestored(cfg, t0, d1, ms[1..], p, s1);
    } else {
      RestoredLast(cfg, t0, d1, ms[1..], i - 1, p, s1);
    }
  }

  /** Restored for good once no later mutation is of a path whose links lead to `p`. */
  lemma RestoredWhenLast(cfg: Config, d: Disk, ms: seq<Mutation>, p: Path, i: nat)
    requires HasBaseline(cfg, p) && Ready(cfg, d, p) && Fits(cfg, d.tree, p, ms)
    requires i < |ms| && ms[i].path == p && (ms[i].op.Delete? || p in d.tree)
    requires forall j | i < j < |ms| :: LeadsElsewhere(d.tree, ms[j], p)
    ensures Done(cfg, Execute(cfg, d, ms).disk, p)
  {
    hide ToldAll, Fits, HasBaseline, Ready, LeadsElsewhere, Execute;
    OutsideOf(cfg, p);
    RestoredLast(cfg, d.tree, d, ms, i, p, TaleOf(cfg, d, p));
    BaselineIsRestored(cfg, d, ms, p);
  }

  lemma {:induction false} KeptFromNowOn(cfg: Config, t0: Tree, d: Disk, ms: seq<Mutation>, p: Path, s: Tale, n: Node)
    requires HasBaseline(cfg, p) && Ready(cfg, d, p) && NoNewLinks(t0, d.tree) && Fits(cfg, t0, p, ms)
    requires forall i | 0 <= i < |ms| :: LeadsElsewhere(t0, ms[i], p) && (ms[i].path == p ==> ms[i].op.Modify?)
    requires n.File? && n.content != cfg.blobs[p].content && !cfg.mode.Nuclear?
    requires if s.at == Some(n) then exists i | 0 <= i < |ms| :: ms[i].path == p
             else s == Tale(Some(BaselineNode(cfg.blobs[p])), Some(n))
    ensures ToldAll(cfg, d, ms, p, s).kept == Some(n)
    decreases ms
  {
    hide Step, KeepsClear, LandsClear, Ready, Trail, NoNewLinks, Fits, BlobLands, LeadsElsewhere;
    if ms != [] {
      StepOfLoop(cfg, t0, d, ms, p);
      NothingLands(cfg, t0, d.tree, ms[0], p);
      assert forall i | 0 <= i < |ms[1..]| :: ms[1..][i] == ms[i + 1];
      KeptFromNowOn(cfg, t0, Step(cfg, d, ms[0]).disk, ms[1..], p, Told(cfg, d.tree, ms[0], p, s), n);
    }
  }

  /** The version found is archived when `p` is only modified and nothing leads to it. */
  lemma FoundVersionIsArchived(cfg: Config, d: Disk, ms: seq<Mutation>, p: Path)
    requires HasBaseline(cfg, p) && Ready(cfg, d, p) && Fits(cfg, d.tree, p, ms) && NoNamesake(p, ms)
    requires p in d.tree && d.tree[p].content != cfg.blobs[p].content && !cfg.mode.Nuclear?
    requires exists i | 0 <= i < |ms| :: ms[i].path == p
    requires forall i | 0 <= i < |ms| :: LeadsElsewhere(d.tree, ms[i], p) && (ms[i].path == p ==> ms[i].op.Modify?)
    ensures InArchive(cfg, Execute(cfg, d, ms).disk, p, d.tree[p])
  {
    hide ToldAll, Fits, HasBaseline, LeadsElsewhere, Execute, NoNamesake, KeptOf, InArchive;
    OutsideOf(cfg, p);
    KeptFromNowOn(cfg, d.tree, d, ms, p, TaleOf(cfg, d, p), d.tree[p]);
    ReplacedVersionIsArchived(cfg, d, ms, p);
  }
}
