/** Archiving a file before it is removed, and recovering what was archived. */
module Archive {
  import opened Paths
  import opened FileSystem
  import opened HostMachine

  const SUFFIX: string := ".pkgundo-meta.json"

  // ---- Names in the archive ----

  function Digit(n: nat): char
    requires n < 10
  {
    "0123456789"[n]
  }

  function Decimal(n: nat): (s: string)
    ensures s != "" && forall c | c in s :: '0' <= c <= '9'
  {
    if n < 10 then [Digit(n)] else Decimal(n / 10) + [Digit(n % 10)]
  }

  /** The directory name of a transaction. */
  function TxName(txid: int): (s: Name)
    ensures s != "" && (s[0] == '-' <==> txid < 0)
  {
    if txid < 0 then "-" + Decimal(-txid) else assert Decimal(txid)[0] in Decimal(txid); Decimal(txid)
  }

  /** Everything archived for one transaction lies below this directory. */
  function Zone(root: Path, txid: int): Path {
    root + [TxName(txid)]
  }

  function ArchivePath(root: Path, txid: int, original: Path): Path {
    Zone(root, txid) + original
  }

  /** The sidecar is named by appending to the file name. */
  function SidecarOf(p: Path): (r: Path)
    requires p != []
    ensures r != [] && |r| == |p| && Parent(r) == Parent(p)
  {
    p[..|p| - 1] + [p[|p| - 1] + SUFFIX]
  }

  lemma {:induction false} DecimalInjective(m: nat, n: nat)
    requires Decimal(m) == Decimal(n)
    ensures m == n
  {
    assert forall i: nat, j: nat | i < 10 && j < 10 && Digit(i) == Digit(j) :: i == j;
    if m < 10 && n < 10 {
      assert Decimal(m)[0] == Digit(m) && Decimal(n)[0] == Digit(n);
    } else if m >= 10 && n >= 10 {
      var a, b := Decimal(m), Decimal(n);
      assert a[..|a| - 1] == Decimal(m / 10) && b[..|b| - 1] == Decimal(n / 10);
      assert a[|a| - 1] == Digit(m % 10) && b[|b| - 1] == Digit(n % 10);
      DecimalInjective(m / 10, n / 10);
    }
  }

  /** Distinct transactions and distinct originals never share an archive location. */
  lemma ArchivePathInjective(root: Path, txid: int, p: Path, txid': int, p': Path)
    requires ArchivePath(root, txid, p) == ArchivePath(root, txid', p')
    ensures txid == txid' && p == p'
  {
    var a, b := ArchivePath(root, txid, p), ArchivePath(root, txid', p');
    assert a[|root|] == TxName(txid) && b[|root|] == TxName(txid');
    var s := TxName(txid);
    assert a[|root| + 1..] == p && b[|root| + 1..] == p';
    if txid < 0 {
      assert s[1..] == Decimal(-txid) == Decimal(-txid');
      DecimalInjective(-txid, -txid');
    } else {
      DecimalInjective(txid, txid');
    }
  }

  /** Distinct archived files never share a sidecar, dots in their names or not. */
  lemma SidecarInjective(p: Path, q: Path)
    requires p != [] && q != [] && SidecarOf(p) == SidecarOf(q)
    ensures p == q
  {
    var a, b := SidecarOf(p), SidecarOf(q);
    var x, y := p[|p| - 1], q[|q| - 1];
    assert a[|a| - 1] == x + SUFFIX && b[|b| - 1] == y + SUFFIX;
    assert x == (x + SUFFIX)[..|x|] && y == (y + SUFFIX)[..|y|];
    assert p == Parent(a) + [x] && q == Parent(b) + [y];
  }

  /** What a string of digits says. */
  function Value(s: string): int {
    if s == "" then 0 else 10 * Value(s[..|s| - 1]) + (s[|s| - 1] as int - '0' as int)
  }

  lemma {:induction false} DecimalReadsBack(n: nat)
    ensures Value(Decimal(n)) == n && (n > 0 ==> Decimal(n)[0] != '0')
  {
    if n >= 10 {
      DecimalReadsBack(n / 10);
      var s := Decimal(n);
      assert s[..|s| - 1] == Decimal(n / 10);
      DigitReadsBack(n % 10);
    } else {
      assert Decimal(n)[..0] == "";
      DigitReadsBack(n);
    }
  }

  lemma DigitReadsBack(n: nat)
    requires n < 10
    ensures Digit(n) as int - '0' as int == n
  {
    assert "0123456789"[0] == '0' && "0123456789"[1] == '1' && "0123456789"[2] == '2' && "0123456789"[3] == '3';
    assert "0123456789"[4] == '4' && "0123456789"[5] == '5' && "0123456789"[6] == '6' && "0123456789"[7] == '7';
    assert "0123456789"[8] == '8' && "0123456789"[9] == '9';
  }

  /**
   Behind the root comes the transaction's number, in decimal without leading zeros, and behind that the
   original path; beside `x` stands `x.pkgundo-meta.json`.
   */
  lemma PlacesByName(root: Path, txid: int, p: Path)
    ensures var q := ArchivePath(root, txid, p); var number := q[|root|];
      && |q| == |root| + 1 + |p| && root < q && q[|root| + 1..] == p
      && (if txid < 0 then |number| > 1 && number[0] == '-' && number[1] != '0' && Value(number[1..]) == -txid
          else number != "" && (txid > 0 ==> number[0] != '0') && Value(number) == txid)
      && (forall i | 0 <= i < |number| :: '0' <= number[i] <= '9' || (i == 0 && txid < 0))
    ensures p != [] ==> SidecarOf(p) == Parent(p) + [p[|p| - 1] + ".pkgundo-meta.json"]
  {
    var q := ArchivePath(root, txid, p);
    assert q[|root|] == TxName(txid);
    if txid < 0 {
      DecimalReadsBack(-txid);
      assert TxName(txid)[1..] == Decimal(-txid);
    } else {
      DecimalReadsBack(txid);
    }
    var digits := Decimal(if txid < 0 then -txid else txid);
    assert forall i | 0 <= i < |digits| :: digits[i] in digits;
  }

  lemma SidecarInArchive(root: Path, txid: int, p: Path)
    requires p != []
    ensures SidecarOf(ArchivePath(root, txid, p)) == ArchivePath(root, txid, SidecarOf(p))
    ensures SidecarOf(p) != p
    ensures Zone(root, txid) <= SidecarOf(ArchivePath(root, txid, p))
  {
    var d := ArchivePath(root, txid, p);
    assert d[|d| - 1] == p[|p| - 1];
    assert |SidecarOf(p)[|p| - 1]| > |p[|p| - 1]|;
  }

  // ---- archive_file ----

  /** `st_mode` of a regular file or a link. */
  function StatMode(n: Node): nat
    requires !n.Dir?
  {
    if n.File? then S_IFREG + n.perm else S_IFLNK + 511
  }

  function MetaOf(p: Path, n: Node, modified: bool): Meta
    requires !n.Dir?
  {
    Meta(p, modified, Some(n.uid), Some(n.gid), Some(StatMode(n)),
         if n.Link? then Some(n.target) else None)
  }

  /** A link has no content to copy: its target only goes into the sidecar. */
  function StoreContent(d: Disk, p: Path, dest: Path): Result
    requires p in d.tree
  {
    if d.tree[p].Link? then Read(d) else Copy(d, p, dest)
  }

  /** Sidecar, then database row. */
  function StoreRecord(d: Disk, txid: int, p: Path, n: Node, dest: Path, modified: bool): Result
    requires dest != [] && !n.Dir?
  {
    var r := Write(d, SidecarOf(dest), Document(MetaOf(p, n, modified)));
    if !r.ok then r else InsertRow(r.disk, txid, p, Row(dest, modified))
  }

  function ArchiveFile(root: Path, txid: int, d: Disk, p: Path, modified: bool): Result {
    if p !in d.tree then Result(d, true)
    else
      var dest := ArchivePath(root, txid, p);
      var r1 := MakeDirs(d, Parent(dest));
      if !r1.ok then r1
      else
        var r2 := StoreContent(r1.disk, p, dest);
        if !r2.ok || d.tree[p].Dir? then Result(r2.disk, false)
        else StoreRecord(r2.disk, txid, p, d.tree[p], dest, modified)
  }

  // ---- recover_archive ----

  /** A sidecar that is missing, unreadable or not a sidecar document counts as absent. */
  function SidecarAt(t: Tree, src: Path): Option<Meta>
    requires src != []
  {
    var s := SidecarOf(src);
    if s in t && t[s].File? && t[s].content.Document? then Some(t[s].content.meta) else None
  }

  function RestoreOwnership(d: Disk, src: Path, dest: Path): Disk
    requires src != []
  {
    var r := Read(d);
    var meta := SidecarAt(d.tree, src);
    if !r.ok || meta.None? then r.disk
    else
      var d1 :=
        if meta.value.mode.Some? && !(dest in d.tree && d.tree[dest].Link?)
        then SetMode(r.disk, dest, meta.value.mode.value) else r.disk;
      if meta.value.uid.Some? && meta.value.gid.Some?
      then SetOwner(d1, dest, meta.value.uid.value, meta.value.gid.value) else d1
  }

  function RecoverLink(d: Disk, target: string, src: Path, p: Path): Result
    requires src != []
  {
    var d1 := if p == [] then d else MakeDirs(d, Parent(p)).disk;
    var d2 := RemoveFile(d1, p).disk;
    var r := MakeLink(d2, target, p);
    if r.ok then Result(RestoreOwnership(r.disk, src, p), true) else r
  }

  function RecoverContent(d: Disk, src: Path, p: Path): Result
    requires src != []
  {
    if Follow(d.tree, src) !in d.tree then Result(d, false)
    else
      var d1 := if p == [] then d else MakeDirs(d, Parent(p)).disk;
      var r := Copy(d1, src, p);
      if r.ok then Result(RestoreOwnership(r.disk, src, p), true) else r
  }

  /** One row: a link is known by its sidecar, everything else is copied back. */
  function RecoverRow(d: Disk, src: Path, p: Path): Result {
    if src == [] then Result(d, false)
    else
      var r := Read(d);
      var meta := SidecarAt(d.tree, src);
      if r.ok && meta.Some? && meta.value.link.Some?
      then RecoverLink(r.disk, meta.value.link.value, src, p)
      else RecoverContent(r.disk, src, p)
  }

  datatype Recovery = Recovery(disk: Disk, recovered: seq<Path>)

  function RecoverRows(d: Disk, rows: seq<(Path, Path)>): Recovery
    decreases rows
  {
    if rows == [] then Recovery(d, [])
    else
      var (p, src) := rows[0];
      var r := RecoverRow(d, src, p);
      var rest := RecoverRows(r.disk, rows[1..]);
      Recovery(rest.disk, (if r.ok then [p] else []) + rest.recovered)
  }

  /** `rows` is what the query for `txid` may return: its rows, once each, in any order. */
  ghost predicate RowsOf(d: Disk, txid: int, rows: seq<(Path, Path)>) {
    && (forall i, j | 0 <= i < j < |rows| :: rows[i].0 != rows[j].0)
    && (forall i | 0 <= i < |rows| ::
          (txid, rows[i].0) in d.rows && d.rows[(txid, rows[i].0)].archivePath == rows[i].1)
    && (forall p | (txid, p) in d.rows :: (p, d.rows[(txid, p)].archivePath) in rows)
  }

  // ---- The code ----

  class ArchiveManager {
    const root: Path
    const host: Host

    constructor (root: Path, host: Host)
      ensures this.root == root && this.host == host
    {
      this.root, this.host := root, host;
    }

    method Archive(txid: int, p: Path, modified: bool) returns (ok: bool)
      modifies host
      ensures Result(host.disk, ok) == ArchiveFile(root, txid, old(host.disk), p, modified)
    {
      if p !in host.disk.tree {
        return true;
      }
      var node := host.disk.tree[p];
      var dest := ArchivePath(root, txid, p);
      ok := host.MkdirAll(Parent(dest));
      if !ok {
        return;
      }
      if node.Link? {
        ok := host.ReadCall();
      } else {
        ok := host.CopyFile(p, dest);
      }
      if !ok || node.Dir? {
        return false;
      }
      ok := host.WriteFile(SidecarOf(dest), Document(MetaOf(p, node, modified)));
      if !ok {
        return;
      }
      ok := host.Insert(txid, p, Row(dest, modified));
    }

    method RestoreOwner(src: Path, dest: Path)
      requires src != []
      modifies host
      ensures host.disk == RestoreOwnership(old(host.disk), src, dest)
    {
      var meta := SidecarAt(host.disk.tree, src);
      var isLink := dest in host.disk.tree && host.disk.tree[dest].Link?;
      var ok := host.ReadCall();
      if !ok || meta.None? {
        return;
      }
      if meta.value.mode.Some? && !isLink {
        host.Chmod(dest, meta.value.mode.value);
      }
      if meta.value.uid.Some? && meta.value.gid.Some? {
        if isLink {
          host.Lchown(dest, meta.value.uid.value, meta.value.gid.value);
        } else {
          host.Chown(dest, meta.value.uid.value, meta.value.gid.value);
        }
      }
    }

    method RecoverEntry(src: Path, p: Path) returns (ok: bool)
      modifies host
      ensures Result(host.disk, ok) == RecoverRow(old(host.disk), src, p)
    {
      if src == [] {
        return false;
      }
      var meta := SidecarAt(host.disk.tree, src);
      var readable := host.ReadCall();
      if readable && meta.Some? && meta.value.link.Some? {
        if p != [] {
          var _ := host.MkdirAll(Parent(p));
        }
        var _ := host.Unlink(p);
        ok := host.Symlink(meta.value.link.value, p);
      } else {
        if Follow(host.disk.tree, src) !in host.disk.tree {
          return false;
        }
        if p != [] {
          var _ := host.MkdirAll(Parent(p));
        }
        ok := host.CopyFile(src, p);
      }
      if ok {
        RestoreOwner(src, p);
      }
    }

    method Recover(rows: seq<(Path, Path)>) returns (recovered: seq<Path>)
      modifies host
      ensures Recovery(host.disk, recovered) == RecoverRows(old(host.disk), rows)
    {
      hide RecoverRow;
      recovered := [];
      var i := 0;
      ghost var goal := RecoverRows(host.disk, rows);
      assert rows[0..] == rows;
      while i < |rows|
        invariant 0 <= i <= |rows|
        invariant goal.disk == RecoverRows(host.disk, rows[i..]).disk
        invariant goal.recovered == recovered + RecoverRows(host.disk, rows[i..]).recovered
      {
        var (p, src) := rows[i];
        assert rows[i..][1..] == rows[i + 1..];
        var ok := RecoverEntry(src, p);
        if ok {
          recovered := recovered + [p];
        }
        i := i + 1;
      }
    }
  }
}
