/**
 "Archive, never delete" for every configuration: whatever fails, a rollback loses no file exactly
 when none of its mutations may remove or overwrite one that was not archived first.
 */
module NeverDelete {
  import opened Paths
  import opened FileSystem
  import opened Archive
  import opened Review
  import opened Rollback
  import opened NoLoss

  // ---- Mutations whose calls are broken ----

  const BROKEN: Fault := Breaks(0, None)

  lemma NoDirMade(d: Disk, p: Path)
    requires DirAt(d.tree, []) && NextFault(d) == BROKEN
    ensures MakeDirs(d, p) == Result(Consume(d), false)
  {
    assert p[..0] == [];
    assert WithDirs(d.tree, []) == d.tree;
  }

  /** A deed that begins with a broken call ends there, and leaves everything as it was. */
  lemma BrokenDeeds(cfg: Config, d: Disk, q: Path, modified: bool)
    requires DirAt(d.tree, []) && NextFault(d) == BROKEN
    ensures q in d.tree ==> ArchiveFile(cfg.root, cfg.txid, d, q, modified) == Result(Consume(d), false)
    ensures Discard(d, q).disk == Consume(d) && RemoveFile(d, q).disk == Consume(d)
    ensures RestoreBlob(cfg, d, q) == if q in cfg.blobs then Result(Consume(d), false) else Result(d, false)
  {
    NoDirMade(d, Parent(ArchivePath(cfg.root, cfg.txid, q)));
    if q != [] {
      NoDirMade(d, Parent(q));
    }
  }

  predicate Considered(cfg: Config, m: Mutation) {
    PassesFilter(cfg, m.path) && !m.policy.Ignore? && (m.policy.Never? ==> cfg.homeCleanup)
  }

  lemma SameComparison(cfg: Config, d: Disk, e: Disk, q: Path)
    requires q in cfg.pre && d.tree == e.tree && NextFault(d) == NextFault(e)
    ensures Compare(cfg, d, q) == Compare(cfg, e, q)
    ensures Compare(cfg, d, q).Modified? ==> q in d.tree
  {
  }

  lemma IdleCreated(cfg: Config, d: Disk, q: Path, rest: seq<Fault>) returns (g: seq<Fault>)
    requires DirAt(d.tree, [])
    ensures Created(cfg, Faulty(d, g + rest), q).disk == Faulty(d, rest)
  {
    hide ArchiveFile, Discard, RemoveFile, Compare;
    BrokenDeeds(cfg, Faulty(d, [BROKEN] + rest), q, true);
    BrokenDeeds(cfg, Faulty(d, [BROKEN] + rest), q, false);
    assert ([BROKEN] + rest)[1..] == rest;
    if q !in d.tree {
      g := [];
    } else if q !in cfg.pre {
      g := if cfg.dryRun then [] else [BROKEN];
    } else {
      var diff := Compare(cfg, Faulty(d, [BROKEN]), q);
      var acts := diff.Unchanged? || diff.New? || (diff.Modified? && (cfg.mode.Conservative? || LeafAt(d.tree, q)));
      g := if cfg.dryRun || !acts then [BROKEN] else [BROKEN, BROKEN];
      assert (g + rest)[1..] == if cfg.dryRun || !acts then rest else [BROKEN] + rest;
      SameComparison(cfg, Faulty(d, [BROKEN]), Faulty(d, g + rest), q);
    }
    assert [] + rest == rest;
  }

  lemma IdleModified(cfg: Config, d: Disk, q: Path, rest: seq<Fault>) returns (g: seq<Fault>)
    requires DirAt(d.tree, [])
    ensures ModifiedFile(cfg, Faulty(d, g + rest), q).disk == Faulty(d, rest)
  {
    hide ArchiveFile, Discard, RemoveFile, RestoreBlob, Compare;
    BrokenDeeds(cfg, Faulty(d, [BROKEN] + rest), q, true);
    BrokenDeeds(cfg, Faulty(d, [BROKEN] + rest), q, false);
    assert ([BROKEN] + rest)[1..] == rest;
    if q in cfg.pre {
      hide ModifiedWithoutBaseline;
    }
    if q !in cfg.pre {
      g := if cfg.dryRun || !cfg.homeCleanup || q !in d.tree then [] else [BROKEN];
    } else {
      var diff := Compare(cfg, Faulty(d, [BROKEN]), q);
      var archives := diff.Modified? && !cfg.mode.Nuclear?;
      var acts := archives || ((diff.Unchanged? || diff.Modified?) && q in cfg.blobs);
      g := if cfg.dryRun || !acts then [BROKEN] else [BROKEN, BROKEN];
      assert (g + rest)[1..] == if cfg.dryRun || !acts then rest else [BROKEN] + rest;
      SameComparison(cfg, Faulty(d, [BROKEN]), Faulty(d, g + rest), q);
      BlobOrNothing(cfg, Faulty(d, rest), q);
    }
    assert [] + rest == rest;
  }

  lemma BlobOrNothing(cfg: Config, d: Disk, q: Path)
    ensures q !in cfg.blobs ==> RestoreBlob(cfg, d, q) == Result(d, false)
  {
  }

  /** Enough broken calls, and a mutation changes nothing. */
  lemma IdleStep(cfg: Config, d: Disk, m: Mutation, rest: seq<Fault>) returns (g: seq<Fault>)
    requires WellFormed(d.tree)
    ensures Step(cfg, Faulty(d, g + rest), m).disk == Faulty(d, rest)
  {
    hide Created, ModifiedFile, RestoreBlob;
    g := [];
    assert [] + rest == rest;
    if Considered(cfg, m) {
      if m.op.Create? || m.op.RenameTo? {
        g := IdleCreated(cfg, d, m.path, rest);
      } else if m.op.Modify? {
        g := IdleModified(cfg, d, m.path, rest);
      } else if m.op.Delete? && !cfg.dryRun {
        if m.path in cfg.blobs {
          g := [BROKEN];
          assert (g + rest)[1..] == rest;
          BrokenDeeds(cfg, Faulty(d, g + rest), m.path, false);
        } else {
          BlobOrNothing(cfg, Faulty(d, rest), m.path);
        }
      }
    }
  }

  lemma {:induction false} IdleRun(cfg: Config, d: Disk, ms: seq<Mutation>, rest: seq<Fault>) returns (g: seq<Fault>)
    requires WellFormed(d.tree)
    ensures forall rep :: RunAll(cfg, Faulty(d, g + rest), rep, ms).disk == Faulty(d, rest)
    decreases ms
  {
    hide Step, WellFormed;
    if ms == [] {
      g := [];
      assert g + rest == rest;
    } else {
      var later := IdleRun(cfg, d, ms[1..], rest);
      var first := IdleStep(cfg, d, ms[0], later + rest);
      g := first + later;
      assert g + rest == first + (later + rest);
    }
  }

  lemma {:induction false} RunSplit(cfg: Config, d: Disk, rep: Report, a: seq<Mutation>, b: seq<Mutation>)
    ensures var r := RunAll(cfg, d, rep, a); RunAll(cfg, d, rep, a + b) == RunAll(cfg, r.disk, r.report, b)
    decreases a
  {
    hide Step;
    if a == [] {
      assert a + b == b;
    } else {
      assert (a + b)[1..] == a[1..] + b;
      var v := Step(cfg, d, a[0]);
      RunSplit(cfg, v.disk, Note(rep, a[0].path, v.outcome), a[1..], b);
    }
  }

  // ---- A file that one mutation destroys ----

  /** Nothing but one file and the directories above it. */
  function OnlyFile(p: Path, content: Content): (t: Tree)
    ensures p in t && t[p] == File(content, 420, 0, 0)
    ensures forall x :: x in t <==> x <= p
    ensures forall x | x < p :: x in t && t[x].Dir?
  {
    (map x | x in Prefixes(p) && x != p :: Dir)[p := File(content, 420, 0, 0)]
  }

  lemma OnlyFileIsWellFormed(cfg: Config, p: Path, content: Content, ms: seq<Mutation>)
    requires p != []
    ensures WellFormed(OnlyFile(p, content)) && Sealed(cfg, OnlyFile(p, content))
      && NoClash(cfg, OnlyFile(p, content), ms)
  {
    var t := OnlyFile(p, content);
    assert [] < p;
    forall x, y | x in t && y < x ensures DirAt(t, y) {
      assert x <= p && y < p;
    }
    assert forall x | LeafAt(t, x) :: x == p;
    assert |SidecarOf(p)[|p| - 1]| > |p[|p| - 1]|;
  }

  /** The content of the file that shows it. */
  function Victim(cfg: Config, m: Mutation): Content {
    var p := m.path;
    if m.op.Delete? && p in cfg.blobs then Altered(cfg.blobs[p].content)
    else if !Fingerprinted(cfg, p) then Bytes([])
    else if (m.op.Create? || m.op.RenameTo?) && cfg.homeCleanup then Altered(cfg.pre[p].hash.value)
    else cfg.pre[p].hash.value
  }

  /** Only writing back the same bytes has to break off to lose them. */
  function Blow(cfg: Config, m: Mutation): seq<Fault> {
    if m.op.Modify? then [Works, Works, Breaks(0, Some(Altered(Victim(cfg, m))))] else []
  }

  lemma DirsAreThere(d: Disk, p: Path, content: Content)
    requires p != [] && d.tree == OnlyFile(p, content)
    ensures NextFault(d).Works? ==> MakeDirs(d, Parent(p)) == Result(Consume(d), true)
    ensures CanPut(d.tree, p)
  {
    assert WithDirs(d.tree, Parent(p)) == d.tree;
  }

  lemma BlobOverFile(cfg: Config, d: Disk, p: Path, content: Content)
    requires p in cfg.blobs && p != [] && d.tree == OnlyFile(p, content) && d.faults == []
    ensures var r := RestoreBlob(cfg, d, p).disk;
      p in r.tree && r.tree[p].File? && r.rows == d.rows && r.tree[p].content == cfg.blobs[p].content
  {
    hide MakeDirs, CanPut;
    DirsAreThere(d, p, content);
  }

  lemma BlobTornOverFile(cfg: Config, d: Disk, p: Path, content: Content, junk: Content)
    requires p in cfg.blobs && p != [] && d.tree == OnlyFile(p, content) && d.faults == [Works, Breaks(0, Some(junk))]
    ensures var r := RestoreBlob(cfg, d, p).disk;
      p in r.tree && r.tree[p].File? && r.rows == d.rows && r.tree[p].content == junk
  {
    hide MakeDirs, CanPut, SetOwner, SetMode;
    DirsAreThere(d, p, content);
    assert Consume(d).faults == [Breaks(0, Some(junk))];
  }

  lemma BlowLands(cfg: Config, d: Disk, m: Mutation)
    requires Destructive(cfg, m) && d.tree == OnlyFile(m.path, Victim(cfg, m)) && d.faults == Blow(cfg, m)
    ensures var d' := Step(cfg, d, m).disk;
      d'.rows == d.rows && !(m.path in d'.tree && d'.tree[m.path] == d.tree[m.path])
  {
    hide RestoreBlob, ArchiveFile;
    var p := m.path;
    if m.op.Modify? {
      assert Consume(d).faults == [Works, Breaks(0, Some(Altered(Victim(cfg, m))))];
      BlobTornOverFile(cfg, Consume(d), p, Victim(cfg, m), Altered(Victim(cfg, m)));
    } else if m.op.Delete? {
      BlobOverFile(cfg, d, p, Victim(cfg, m));
    }
  }

  lemma DestructiveLoses(cfg: Config, ms: seq<Mutation>, i: nat) returns (d: Disk)
    requires OutsideZone(cfg, ms) && i < |ms| && Destructive(cfg, ms[i])
    ensures WellFormed(d.tree) && Sealed(cfg, d.tree) && NoClash(cfg, d.tree, ms) && LeafAt(d.tree, ms[i].path)
    ensures !KeptOrArchived(cfg, d, RunAll(cfg, d, EMPTY_REPORT, ms[..i + 1]).disk, ms[i].path)
  {
    hide Step, Destructive, NoClash, WellFormed, Sealed;
    var m := ms[i];
    assert m.path != [] by {
      NotTheRoot(cfg, m);
    }
    OnlyFileIsWellFormed(cfg, m.path, Victim(cfg, m), ms);
    var still := Disk(OnlyFile(m.path, Victim(cfg, m)), map[], Blow(cfg, m));
    var idle := IdleRun(cfg, still, ms[..i], Blow(cfg, m));
    d := Faulty(still, idle + Blow(cfg, m));
    RunSplit(cfg, d, EMPTY_REPORT, ms[..i], [m]);
    assert ms[..i + 1] == ms[..i] + [m];
    BlowLands(cfg, still, m);
    var r := RunAll(cfg, d, EMPTY_REPORT, ms[..i]);
    assert r.disk == still && RunAll(cfg, r.disk, r.report, [m]).disk == Step(cfg, still, m).disk;
  }

  lemma NotTheRoot(cfg: Config, m: Mutation)
    requires Destructive(cfg, m)
    ensures m.path != []
  {
  }

  // ---- The law ----

  ghost predicate NothingLost(cfg: Config, d: Disk, ms: seq<Mutation>, k: nat)
    requires k <= |ms|
  {
    forall p | LeafAt(d.tree, p) && !(Zone(cfg.root, cfg.txid) <= p) ::
      KeptOrArchived(cfg, d, RunAll(cfg, d, EMPTY_REPORT, ms[..k]).disk, p)
  }

  /** From any tree without a name clash, under any fault script, after any number of mutations. */
  ghost predicate NeverDeletes(cfg: Config, ms: seq<Mutation>) {
    forall d: Disk, k |
      WellFormed(d.tree) && Sealed(cfg, d.tree) && NoClash(cfg, d.tree, ms) && 0 <= k <= |ms| ::
      NothingLost(cfg, d, ms, k)
  }

  /** "Archive, never delete" holds of a list exactly when no mutation of it is destructive. */
  lemma NeverDeletesExactly(cfg: Config, ms: seq<Mutation>)
    requires OutsideZone(cfg, ms)
    ensures NeverDeletes(cfg, ms) <==> ArchivesFirst(cfg, ms)
  {
    hide Destructive, NoClash, WellFormed, Sealed, RunAll, KeptOrArchived;
    if ArchivesFirst(cfg, ms) {
      forall d: Disk, k | WellFormed(d.tree) && Sealed(cfg, d.tree) && NoClash(cfg, d.tree, ms) && 0 <= k <= |ms|
        ensures NothingLost(cfg, d, ms, k)
      {
        forall p | LeafAt(d.tree, p) && !(Zone(cfg.root, cfg.txid) <= p)
          ensures KeptOrArchived(cfg, d, RunAll(cfg, d, EMPTY_REPORT, ms[..k]).disk, p)
        {
          NoLossAtAnyPoint(cfg, d, ms, k, p);
        }
      }
    } else {
      var i :| 0 <= i < |ms| && Destructive(cfg, ms[i]);
      var d := DestructiveLoses(cfg, ms, i);
      assert !NothingLost(cfg, d, ms, i + 1);
    }
  }
}
