/**
 The per-file part of a rollback: every recorded mutation in turn, then the directories
 left empty. Functions say what each step does to the disk; the class at the end is the
 code, written with the same early returns and loops, and computes exactly that.
 */
module Rollback {
  import opened Paths
  import opened Ordering
  import opened FileSystem
  import opened HostMachine
  import opened Archive
  import opened Review
  import C = Classifier

  datatype Mode = Conservative | Clean | Nuclear

  /** A recorded mutation with the policy its path's category gives it. */
  datatype Mutation = Mutation(path: Path, op: Operation, policy: C.Policy)

  datatype Outcome = Removed | Archived | Restored | Skipped | Failed

  datatype Diff = Unchanged | Modified | Missing | New

  /** A "pre" fingerprint; no hash when the path did not exist then. Hashes stand for content. */
  datatype Fingerprint = Fingerprint(hash: Option<Content>)

  datatype Blob = Blob(content: Content, uid: nat, gid: nat, mode: nat)

  datatype Config = Config(
    txid: int, mode: Mode, dryRun: bool, homeCleanup: bool, selected: Option<set<Path>>,
    root: Path, pre: map<Path, Fingerprint>, blobs: map<Path, Blob>,
    sameTime: set<Path>)  // links and directories whose modification time is the recorded one

  datatype Report = Report(removed: seq<Path>, archived: seq<Path>, restored: seq<Path>,
                           skipped: seq<Path>, failed: seq<Path>)

  const EMPTY_REPORT := Report([], [], [], [], [])

  datatype Verdict = Verdict(disk: Disk, outcome: Outcome)

  // ---- One mutation ----

  function Compare(cfg: Config, d: Disk, p: Path): Diff
    requires p in cfg.pre
  {
    if p !in d.tree then Missing
    else if cfg.pre[p].hash.None? then New
    else match d.tree[p]
      case File(content, _, _, _) =>
        if NextFault(d).Breaks? then Missing
        else if content == cfg.pre[p].hash.value then Unchanged else Modified
      case _ => if p in cfg.sameTime then Unchanged else Modified
  }

  /** `restore_from_blob`: `ok` only when there is a blob and it was written back. */
  function RestoreBlob(cfg: Config, d: Disk, p: Path): Result {
    if p !in cfg.blobs then Result(d, false)
    else
      var b := cfg.blobs[p];
      var r1 := if p == [] then Result(d, true) else MakeDirs(d, Parent(p));
      if !r1.ok then r1
      else
        var r2 := Write(r1.disk, p, b.content);
        if !r2.ok then r2
        else Result(ChangeOwner(SetMode(r2.disk, p, b.mode), p, b.uid, b.gid), true)
  }

  /** Remove whatever is at `p`; a directory only when empty, and then without complaint. */
  function Discard(d: Disk, p: Path): Result {
    if LeafAt(d.tree, p) then RemoveFile(d, p) else Result(RemoveDir(d, p).disk, true)
  }

  function ArchiveThenDiscard(cfg: Config, d: Disk, p: Path, archive: bool): Result {
    var r := if archive then ArchiveFile(cfg.root, cfg.txid, d, p, false) else Result(d, true);
    if !r.ok then r else Discard(r.disk, p)
  }

  function Created(cfg: Config, d: Disk, p: Path): Verdict {
    if p !in d.tree then Verdict(d, Skipped)
    else
      var diff := if p in cfg.pre then Compare(cfg, d, p) else New;
      var d0 := if p in cfg.pre then Consume(d) else d;
      match diff
      case Unchanged | New =>
        var archive := cfg.homeCleanup && LeafAt(d.tree, p);
        var outcome := if archive then Archived else Removed;
        if cfg.dryRun then Verdict(d0, outcome)
        else
          var r := ArchiveThenDiscard(cfg, d0, p, archive);
          Verdict(r.disk, if r.ok then outcome else Failed)
      case Modified =>
        if cfg.dryRun then Verdict(d0, if cfg.mode.Conservative? then Archived else Removed)
        else if cfg.mode.Conservative? then
          var r := ArchiveFile(cfg.root, cfg.txid, d0, p, true);
          if !r.ok then Verdict(r.disk, Failed)
          else Verdict(if LeafAt(d.tree, p) then RemoveFile(r.disk, p).disk else r.disk, Archived)
        else Verdict(if LeafAt(d.tree, p) then RemoveFile(d0, p).disk else d0, Removed)
      case Missing => Verdict(d0, Skipped)
  }

  /** No baseline for a modified path: handled like a created one in a home cleanup. */
  function ModifiedWithoutBaseline(cfg: Config, d: Disk, p: Path): Verdict {
    if !cfg.homeCleanup || p !in d.tree then Verdict(d, Skipped)
    else if cfg.dryRun then Verdict(d, Archived)
    else
      var r := ArchiveThenDiscard(cfg, d, p, LeafAt(d.tree, p));
      Verdict(r.disk, if r.ok then Archived else Failed)
  }

  function ModifiedFile(cfg: Config, d: Disk, p: Path): Verdict {
    if p !in cfg.pre then ModifiedWithoutBaseline(cfg, d, p)
    else
      var diff := Compare(cfg, d, p);
      var d0 := Consume(d);
      match diff
      case Unchanged => Verdict(if cfg.dryRun then d0 else RestoreBlob(cfg, d0, p).disk, Restored)
      case Modified =>
        if cfg.mode.Nuclear? then
          Verdict(if cfg.dryRun then d0 else RestoreBlob(cfg, d0, p).disk, Restored)
        else if cfg.dryRun then Verdict(d0, Archived)
        else
          var r := ArchiveFile(cfg.root, cfg.txid, d0, p, true);
          if !r.ok then Verdict(r.disk, Failed)
          else Verdict(RestoreBlob(cfg, r.disk, p).disk, Archived)
      case Missing | New => Verdict(d0, Skipped)
  }

  function DeletedFile(cfg: Config, d: Disk, p: Path): Verdict {
    var r := if cfg.dryRun then Result(d, false) else RestoreBlob(cfg, d, p);
    Verdict(r.disk, if r.ok || p in cfg.pre then Restored else Skipped)
  }

  function ProcessMutation(cfg: Config, d: Disk, m: Mutation): Verdict {
    if (m.policy.Never? && !cfg.homeCleanup) || m.policy.Ignore? then Verdict(d, Skipped)
    else match m.op
      case Create | RenameTo => Created(cfg, d, m.path)
      case Modify => ModifiedFile(cfg, d, m.path)
      case Delete => DeletedFile(cfg, d, m.path)
      case RenameFrom | Rename | Other => Verdict(d, Skipped)
  }

  /** A path with no group key is never filtered out. */
  predicate PassesFilter(cfg: Config, p: Path) {
    cfg.selected.Some? && GroupKey(p).Some? ==> GroupKey(p).value in cfg.selected.value
  }

  function Step(cfg: Config, d: Disk, m: Mutation): Verdict {
    if PassesFilter(cfg, m.path) then ProcessMutation(cfg, d, m) else Verdict(d, Skipped)
  }

  function Note(rep: Report, p: Path, o: Outcome): Report {
    match o
    case Removed => rep.(removed := rep.removed + [p])
    case Archived => rep.(archived := rep.archived + [p])
    case Restored => rep.(restored := rep.restored + [p])
    case Skipped => rep.(skipped := rep.skipped + [p])
    case Failed => rep.(failed := rep.failed + [p])
  }

  datatype Run = Run(disk: Disk, report: Report)

  function RunAll(cfg: Config, d: Disk, rep: Report, ms: seq<Mutation>): Run
    decreases ms
  {
    if ms == [] then Run(d, rep)
    else
      var v := Step(cfg, d, ms[0]);
      RunAll(cfg, v.disk, Note(rep, ms[0].path, v.outcome), ms[1..])
  }

  // ---- Directories left empty ----

  /** Remove `dir` and each empty ancestor above it, stopping at `boundary`. */
  function PruneUp(d: Disk, dir: Path, boundary: Path): Disk
    decreases |dir|
  {
    if dir == boundary || !(boundary <= dir) then d
    else
      var r := Read(d);
      if !r.ok || !DirAt(d.tree, dir) || !Childless(d.tree, dir) then r.disk
      else
        var rd := RemoveDir(r.disk, dir);
        if rd.ok then PruneUp(rd.disk, Parent(dir), boundary) else rd.disk
  }

  function PruneFrom(d: Disk, start: Path): Disk {
    match HomeRootOf(start)
    case Some(home) => PruneUp(d, start, home)
    case None => d
  }

  function PruneAll(d: Disk, starts: seq<Path>): Disk
    decreases starts
  {
    if starts == [] then d else PruneAll(PruneFrom(d, starts[0]), starts[1..])
  }

  /** The parents of `paths`, each once, in the order of a sorted set. */
  function ParentsOf(paths: seq<Path>): seq<Path> {
    if paths == [] then []
    else
      var p := paths[|paths| - 1];
      var before := ParentsOf(paths[..|paths| - 1]);
      if p == [] then before else Insert(before, Parent(p))
  }

  // ---- Step E and the pruning together ----

  function Execute(cfg: Config, d: Disk, ms: seq<Mutation>): Run {
    var run := RunAll(cfg, d, EMPTY_REPORT, ms);
    if cfg.homeCleanup && !cfg.dryRun then
      Run(PruneAll(run.disk, ParentsOf(run.report.removed + run.report.archived)), run.report)
    else run
  }

  /** The journal's records, classified by the text of their path. */
  function Classified(records: seq<Record>): (ms: seq<Mutation>)
    ensures |ms| == |records|
    ensures forall i | 0 <= i < |ms| ::
      ms[i] == Mutation(records[i].path, records[i].op, C.PolicyFor(C.Render(records[i].path), false))
  {
    seq(|records|, i requires 0 <= i < |records| =>
      Mutation(records[i].path, records[i].op, C.PolicyFor(C.Render(records[i].path), false)))
  }

  datatype Status = Running | Completed | Broken | RolledBack | Tracking | Untracked

  // ---- The code ----

  class RollbackEngine {
    const cfg: Config
    const host: Host
    const archive: ArchiveManager
    var status: Status

    ghost predicate Valid() {
      archive.host == host && archive.root == cfg.root
    }

    constructor (cfg: Config, host: Host, status: Status)
      ensures Valid() && this.cfg == cfg && this.host == host && this.status == status
    {
      var a := new ArchiveManager(cfg.root, host);
      this.cfg, this.host, this.archive, this.status := cfg, host, a, status;
    }

    method CompareWithCurrent(p: Path) returns (diff: Diff)
      requires p in cfg.pre
      modifies host
      ensures diff == Compare(cfg, old(host.disk), p) && host.disk == Consume(old(host.disk))
    {
      var tree := host.disk.tree;
      var ok := host.ReadCall();
      if p !in tree {
        return Missing;
      }
      if cfg.pre[p].hash.None? {
        return New;
      }
      if !tree[p].File? {
        return if p in cfg.sameTime then Unchanged else Modified;
      }
      if !ok {
        return Missing;
      }
      return if tree[p].content == cfg.pre[p].hash.value then Unchanged else Modified;
    }

    method RestoreFromBlob(p: Path) returns (ok: bool)
      modifies host
      ensures Result(host.disk, ok) == RestoreBlob(cfg, old(host.disk), p)
    {
      if p !in cfg.blobs {
        return false;
      }
      if p != [] {
        ok := host.MkdirAll(Parent(p));
        if !ok {
          return;
        }
      }
      ok := host.WriteFile(p, cfg.blobs[p].content);
      if !ok {
        return;
      }
      host.Chmod(p, cfg.blobs[p].mode);
      host.Chown(p, cfg.blobs[p].uid, cfg.blobs[p].gid);
    }

    method RemoveWithBackup(p: Path, backup: bool) returns (ok: bool)
      requires Valid()
      modifies host
      ensures Result(host.disk, ok) == ArchiveThenDiscard(cfg, old(host.disk), p, backup)
    {
      if backup {
        ok := archive.Archive(cfg.txid, p, false);
        if !ok {
          return;
        }
      }
      if LeafAt(host.disk.tree, p) {
        ok := host.Unlink(p);
      } else {
        var _ := host.Rmdir(p);
        ok := true;
      }
    }

    method HandleCreated(p: Path) returns (outcome: Outcome)
      requires Valid()
      modifies host
      ensures Verdict(host.disk, outcome) == Created(cfg, old(host.disk), p)
    {
      if p !in host.disk.tree {
        return Skipped;
      }
      var isLeaf := LeafAt(host.disk.tree, p);
      var diff := New;
      if p in cfg.pre {
        diff := CompareWithCurrent(p);
      }
      match diff {
        case Missing => outcome := Skipped;
        case Modified =>
          if cfg.mode.Conservative? {
            if !cfg.dryRun {
              var ok := archive.Archive(cfg.txid, p, true);
              if !ok {
                return Failed;
              }
              if isLeaf {
                var _ := host.Unlink(p);
              }
            }
            outcome := Archived;
          } else {
            if !cfg.dryRun && isLeaf {
              var _ := host.Unlink(p);
            }
            outcome := Removed;
          }
        case _ =>
          var backup := cfg.homeCleanup && isLeaf;
          if !cfg.dryRun {
            var ok := RemoveWithBackup(p, backup);
            if !ok {
              return Failed;
            }
          }
          outcome := if backup then Archived else Removed;
      }
    }

    method HandleModified(p: Path) returns (outcome: Outcome)
      requires Valid()
      modifies host
      ensures Verdict(host.disk, outcome) == ModifiedFile(cfg, old(host.disk), p)
    {
      if p !in cfg.pre {
        if !cfg.homeCleanup || p !in host.disk.tree {
          return Skipped;
        }
        if !cfg.dryRun {
          var ok := RemoveWithBackup(p, LeafAt(host.disk.tree, p));
          if !ok {
            return Failed;
          }
        }
        return Archived;
      }
      var diff := CompareWithCurrent(p);
      if diff.Missing? || diff.New? {
        return Skipped;
      }
      if diff.Unchanged? || cfg.mode.Nuclear? {
        if !cfg.dryRun {
          var _ := RestoreFromBlob(p);
        }
        return Restored;
      }
      if !cfg.dryRun {
        var ok := archive.Archive(cfg.txid, p, true);
        if !ok {
          return Failed;
        }
        var _ := RestoreFromBlob(p);
      }
      return Archived;
    }

    method HandleDeleted(p: Path) returns (outcome: Outcome)
      modifies host
      ensures Verdict(host.disk, outcome) == DeletedFile(cfg, old(host.disk), p)
    {
      if !cfg.dryRun {
        var ok := RestoreFromBlob(p);
        if ok {
          return Restored;
        }
      }
      return if p in cfg.pre then Restored else Skipped;
    }

    method Process(m: Mutation) returns (outcome: Outcome)
      requires Valid()
      modifies host
      ensures Verdict(host.disk, outcome) == ProcessMutation(cfg, old(host.disk), m)
    {
      if (m.policy.Never? && !cfg.homeCleanup) || m.policy.Ignore? {
        return Skipped;
      }
      match m.op {
        case Create => outcome := HandleCreated(m.path);
        case RenameTo => outcome := HandleCreated(m.path);
        case Modify => outcome := HandleModified(m.path);
        case Delete => outcome := HandleDeleted(m.path);
        case _ => outcome := Skipped;
      }
    }

    method RemoveEmptyDirsUpTo(start: Path, boundary: Path)
      modifies host
      ensures host.disk == PruneUp(old(host.disk), start, boundary)
    {
      var dir := start;
      while true
        invariant PruneUp(host.disk, dir, boundary) == PruneUp(old(host.disk), start, boundary)
        decreases |dir|
      {
        if dir == boundary || !(boundary <= dir) {
          break;
        }
        var empty := DirAt(host.disk.tree, dir) && Childless(host.disk.tree, dir);
        var ok := host.ReadCall();
        if !ok || !empty {
          break;
        }
        ok := host.Rmdir(dir);
        if !ok {
          break;
        }
        dir := Parent(dir);
      }
    }

    method CleanupEmptyAncestors(removed: seq<Path>)
      modifies host
      ensures host.disk == PruneAll(old(host.disk), ParentsOf(removed))
    {
      var candidates: seq<Path> := [];
      var i := 0;
      while i < |removed|
        invariant 0 <= i <= |removed|
        invariant candidates == ParentsOf(removed[..i])
        invariant host.disk == old(host.disk)
      {
        assert removed[..i + 1][..i] == removed[..i];
        if removed[i] != [] {
          candidates := Insert(candidates, Parent(removed[i]));
        }
        i := i + 1;
      }
      assert removed[..i] == removed;
      i := 0;
      assert candidates[0..] == candidates;
      while i < |candidates|
        invariant 0 <= i <= |candidates|
        invariant PruneAll(host.disk, candidates[i..]) == PruneAll(old(host.disk), candidates)
      {
        assert candidates[i..][1..] == candidates[i + 1..];
        var home := HomeRootOf(candidates[i]);
        if home.Some? {
          RemoveEmptyDirsUpTo(candidates[i], home.value);
        }
        i := i + 1;
      }
    }

    /** A transaction is rolled back once: a second call changes nothing. */
    method Run(records: seq<Record>) returns (report: Option<Report>)
      requires Valid()
      modifies this, host
      ensures old(status) == RolledBack ==> report == None && host.disk == old(host.disk)
      ensures old(status) != RolledBack ==>
        report == Some(Execute(cfg, old(host.disk), Classified(records)).report)
        && host.disk == Execute(cfg, old(host.disk), Classified(records)).disk
      ensures status == if cfg.dryRun then old(status) else RolledBack
    {
      if status == RolledBack {
        return None;
      }
      var rep := EMPTY_REPORT;
      ghost var ms := Classified(records);
      ghost var goal := RunAll(cfg, host.disk, rep, ms);
      var i := 0;
      assert ms[0..] == ms;
      while i < |records|
        invariant 0 <= i <= |records| && status == old(status)
        invariant RunAll(cfg, host.disk, rep, ms[i..]) == goal
      {
        var p := records[i].path;
        assert ms[i..][0] == ms[i] && ms[i..][1..] == ms[i + 1..];
        if !PassesFilter(cfg, p) {
          rep := Note(rep, p, Skipped);
        } else {
          var isLink := p in host.disk.tree && host.disk.tree[p].Link?;
          var policy := C.PolicyFor(C.Render(p), isLink);
          C.LinkCheckNeverMatters(C.Render(p), isLink);
          var outcome := Process(Mutation(p, records[i].op, policy));
          rep := Note(rep, p, outcome);
        }
        i := i + 1;
      }
      assert ms[i..] == [];
      if cfg.homeCleanup && !cfg.dryRun {
        CleanupEmptyAncestors(rep.removed + rep.archived);
      }
      if !cfg.dryRun {
        status := RolledBack;
      }
      report := Some(rep);
    }
  }
}
