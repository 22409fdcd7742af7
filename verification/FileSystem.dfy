/**
 The part of the world a rollback changes: a tree of directories, regular files and
 symbolic links, and the `archives` table. System calls are functions on a `Disk`.
 Each one consumes the next entry of the fault script `faults`, which says whether the
 call works or breaks off, and what a broken call leaves behind; an exhausted script is
 a world without faults. A statement for every script is a statement for every fault.
 */
module FileSystem {
  import opened Paths

  /** The sidecar document written beside an archived file. */
  datatype Meta = Meta(original: Path, modified: bool, uid: Option<nat>, gid: Option<nat>,
                       mode: Option<nat>, link: Option<string>)

  /** File content either parses as a sidecar document or it does not. */
  datatype Content = Bytes(data: seq<bv8>) | Document(meta: Meta)

  /** Some other content. */
  function Altered(c: Content): (r: Content)
    ensures r != c
  {
    match c
    case Bytes(s) =>
      assert |s + [0]| == |s| + 1;
      Bytes(s + [0])
    case Document(_) => Bytes([])
  }

  type Perm = n: nat | n < 4096

  datatype Node =
    | Dir
    | File(content: Content, perm: Perm, uid: nat, gid: nat)
    | Link(target: string, uid: nat, gid: nat)

  type Tree = map<Path, Node>

  datatype Row = Row(archivePath: Path, modified: bool)

  datatype Fault = Works | Breaks(cut: nat, torn: Option<Content>)

  datatype Disk = Disk(tree: Tree, rows: map<(int, Path), Row>, faults: seq<Fault>)

  /** `d` under another fault script. */
  function Faulty(d: Disk, faults: seq<Fault>): Disk {
    d.(faults := faults)
  }

  datatype Result = Result(disk: Disk, ok: bool)

  const S_IFREG: nat := 32768
  const S_IFLNK: nat := 40960

  predicate DirAt(t: Tree, p: Path) {
    p in t && t[p].Dir?
  }

  /** Neither missing nor a directory. */
  predicate LeafAt(t: Tree, p: Path) {
    p in t && !t[p].Dir?
  }

  /** Everything above an entry is a directory. */
  ghost predicate WellFormed(t: Tree) {
    && DirAt(t, [])
    && forall p, q {:trigger p in t, DirAt(t, q)} :: p in t && q < p ==> DirAt(t, q)
  }

  /** Nothing below `p`. */
  predicate Childless(t: Tree, p: Path) {
    forall q | q in t :: !(p < q)
  }

  function NextFault(d: Disk): Fault {
    if d.faults == [] then Works else d.faults[0]
  }

  function Consume(d: Disk): Disk {
    d.(faults := if d.faults == [] then [] else d.faults[1..])
  }

  // ---- Where a link leads ----

  /** The components of a link's target, without empty ones. */
  function Split(target: string, part: Name): seq<Name>
    decreases |target|
  {
    var done := if part == "" then [] else [part];
    if target == "" then done
    else if target[0] == '/' then done + Split(target[1..], "")
    else Split(target[1..], part + [target[0]])
  }

  function Walk(at: Path, parts: seq<Name>): Path
    decreases |parts|
  {
    if parts == [] then at
    else if parts[0] == "." then Walk(at, parts[1..])
    else if parts[0] == ".." then Walk(if at == [] then [] else Parent(at), parts[1..])
    else Walk(at + [parts[0]], parts[1..])
  }

  function Goal(p: Path, target: string): Path
    requires p != []
  {
    Walk(if target != "" && target[0] == '/' then [] else Parent(p), Split(target, ""))
  }

  predicate LinkAt(t: Tree, p: Path) {
    p in t && t[p].Link?
  }

  const MAX_LINKS: nat := 40

  function FollowUpTo(t: Tree, p: Path, n: nat): Path
    decreases n
  {
    if n > 0 && p != [] && LinkAt(t, p) then FollowUpTo(t, Goal(p, t[p].target), n - 1) else p
  }

  /** Where a call that follows links arrives; it arrives at a link only when there is no end. */
  function Follow(t: Tree, p: Path): Path {
    if LinkAt(t, p) then FollowUpTo(t, p, MAX_LINKS) else p
  }

  /** `fs::create_dir_all` without faults. */
  predicate CanMakeDirs(t: Tree, p: Path) {
    forall q | q in t :: q <= p ==> t[q].Dir?
  }

  function WithDirs(t: Tree, p: Path): Tree {
    t + map q | q in Prefixes(p) && q !in t :: Dir
  }

  function MakeDirs(d: Disk, p: Path): Result {
    var f := NextFault(d);
    var c := Consume(d);
    if !CanMakeDirs(d.tree, p) then Result(c, false)
    else if f.Breaks? then
      Result(c.(tree := WithDirs(c.tree, p[..if f.cut < |p| then f.cut else |p|])), false)
    else Result(c.(tree := WithDirs(c.tree, p)), true)
  }

  /** A regular file may be created at, or may replace the regular file at, `p`. */
  predicate CanPut(t: Tree, p: Path) {
    p != [] && DirAt(t, Parent(p)) && (p in t ==> t[p].File?)
  }

  /** A new file belongs to root; an overwritten one keeps its owner. */
  function Put(t: Tree, p: Path, content: Content, perm: Perm): Tree {
    var uid := if p in t && t[p].File? then t[p].uid else 0;
    var gid := if p in t && t[p].File? then t[p].gid else 0;
    t[p := File(content, perm, uid, gid)]
  }

  /** `fs::copy`: content and permission bits, not the owner; it follows links at both ends. */
  function Copy(d: Disk, src: Path, dst: Path): Result {
    var f := NextFault(d);
    var c := Consume(d);
    var from, to := Follow(d.tree, src), Follow(d.tree, dst);
    if !(from in d.tree && d.tree[from].File? && CanPut(d.tree, to)) then Result(c, false)
    else
      var n := d.tree[from];
      match f
      case Works => Result(c.(tree := Put(c.tree, to, n.content, n.perm)), true)
      case Breaks(_, None) => Result(c, false)
      case Breaks(_, Some(junk)) => Result(c.(tree := Put(c.tree, to, junk, n.perm)), false)
  }

  /** `fs::write`: an existing file keeps its permission bits, and a link is followed. */
  function Write(d: Disk, dst: Path, content: Content): Result {
    var f := NextFault(d);
    var c := Consume(d);
    var to := Follow(d.tree, dst);
    if !CanPut(d.tree, to) then Result(c, false)
    else
      var perm: Perm := if to in d.tree then d.tree[to].perm else 420;
      match f
      case Works => Result(c.(tree := Put(c.tree, to, content, perm)), true)
      case Breaks(_, None) => Result(c, false)
      case Breaks(_, Some(junk)) => Result(c.(tree := Put(c.tree, to, junk, perm)), false)
  }

  /** A call that only reads. */
  function Read(d: Disk): Result {
    Result(Consume(d), NextFault(d).Works?)
  }

  function RemoveFile(d: Disk, p: Path): Result {
    var c := Consume(d);
    if LeafAt(d.tree, p) && NextFault(d).Works? then Result(c.(tree := c.tree - {p}), true)
    else Result(c, false)
  }

  /** `fs::remove_dir`: only an empty directory goes, and never the root. */
  function RemoveDir(d: Disk, p: Path): Result {
    var c := Consume(d);
    if p != [] && DirAt(d.tree, p) && Childless(d.tree, p) && NextFault(d).Works? then
      Result(c.(tree := c.tree - {p}), true)
    else Result(c, false)
  }

  function MakeLink(d: Disk, target: string, p: Path): Result {
    var c := Consume(d);
    if p != [] && DirAt(d.tree, Parent(p)) && p !in d.tree && NextFault(d).Works? then
      Result(c.(tree := c.tree[p := Link(target, 0, 0)]), true)
    else Result(c, false)
  }

  /** `lchown`: the owner of what stands at `p` itself. */
  function SetOwner(d: Disk, p: Path, uid: nat, gid: nat): Disk {
    var c := Consume(d);
    if p !in d.tree || NextFault(d).Breaks? then c
    else
      match d.tree[p]
      case Dir => c
      case File(content, perm, _, _) => c.(tree := c.tree[p := File(content, perm, uid, gid)])
      case Link(target, _, _) => c.(tree := c.tree[p := Link(target, uid, gid)])
  }

  /** `chown`: the owner of what `p` leads to. */
  function ChangeOwner(d: Disk, p: Path, uid: nat, gid: nat): Disk {
    SetOwner(d, Follow(d.tree, p), uid, gid)
  }

  /** `chmod`, which follows links too. */
  function SetMode(d: Disk, p: Path, mode: nat): Disk {
    var c := Consume(d);
    var q := Follow(d.tree, p);
    if q in d.tree && d.tree[q].File? && NextFault(d).Works? then
      c.(tree := c.tree[q := d.tree[q].(perm := mode % 4096)])
    else c
  }

  /** INSERT OR REPLACE INTO archives, unique on (txid, original path). */
  function InsertRow(d: Disk, txid: int, p: Path, row: Row): Result {
    var c := Consume(d);
    if NextFault(d).Works? then Result(c.(rows := c.rows[(txid, p) := row]), true)
    else Result(c, false)
  }

  /** Everything that is not a directory and not inside `zone`. */
  function Leaves(t: Tree, zone: Path): map<Path, Node> {
    map p | p in t && !t[p].Dir? && !(zone <= p) :: t[p]
  }
}

/** The machine: one mutable disk, changed by one system call at a time. */
module HostMachine {
  import opened Paths
  import opened FileSystem

  class Host {
    var disk: Disk

    constructor (disk: Disk)
      ensures this.disk == disk
    {
      this.disk := disk;
    }

    method MkdirAll(p: Path) returns (ok: bool)
      modifies this
      ensures Result(disk, ok) == MakeDirs(old(disk), p)
    {
      var r := MakeDirs(disk, p);
      disk, ok := r.disk, r.ok;
    }

    method CopyFile(src: Path, dst: Path) returns (ok: bool)
      modifies this
      ensures Result(disk, ok) == Copy(old(disk), src, dst)
    {
      var r := Copy(disk, src, dst);
      disk, ok := r.disk, r.ok;
    }

    method WriteFile(dst: Path, content: Content) returns (ok: bool)
      modifies this
      ensures Result(disk, ok) == Write(old(disk), dst, content)
    {
      var r := Write(disk, dst, content);
      disk, ok := r.disk, r.ok;
    }

    method ReadCall() returns (ok: bool)
      modifies this
      ensures Result(disk, ok) == Read(old(disk))
    {
      var r := Read(disk);
      disk, ok := r.disk, r.ok;
    }

    method Unlink(p: Path) returns (ok: bool)
      modifies this
      ensures Result(disk, ok) == RemoveFile(old(disk), p)
    {
      var r := RemoveFile(disk, p);
      disk, ok := r.disk, r.ok;
    }

    method Rmdir(p: Path) returns (ok: bool)
      modifies this
      ensures Result(disk, ok) == RemoveDir(old(disk), p)
    {
      var r := RemoveDir(disk, p);
      disk, ok := r.disk, r.ok;
    }

    method Symlink(target: string, p: Path) returns (ok: bool)
      modifies this
      ensures Result(disk, ok) == MakeLink(old(disk), target, p)
    {
      var r := MakeLink(disk, target, p);
      disk, ok := r.disk, r.ok;
    }

    method Lchown(p: Path, uid: nat, gid: nat)
      modifies this
      ensures disk == SetOwner(old(disk), p, uid, gid)
    {
      disk := SetOwner(disk, p, uid, gid);
    }

    method Chown(p: Path, uid: nat, gid: nat)
      modifies this
      ensures disk == ChangeOwner(old(disk), p, uid, gid)
    {
      disk := ChangeOwner(disk, p, uid, gid);
    }

    method Chmod(p: Path, mode: nat)
      modifies this
      ensures disk == SetMode(old(disk), p, mode)
    {
      disk := SetMode(disk, p, mode);
    }

    method Insert(txid: int, p: Path, row: Row) returns (ok: bool)
      modifies this
      ensures Result(disk, ok) == InsertRow(old(disk), txid, p, row)
    {
      var r := InsertRow(disk, txid, p, row);
      disk, ok := r.disk, r.ok;
    }
  }
}
