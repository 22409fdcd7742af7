/** What recovering archived rows does to the tree, row by row. */
module Recovery {
  import opened Paths
  import opened FileSystem
  import opened Archive
  import opened Links
  import opened Rollback
  import opened NoLoss
  import opened RoundTrip

  /** Making way: directories above `p`, and nothing but a directory left at `p`. */
  lemma WayMade(d: Disk, p: Path)
    requires WellFormed(d.tree) && p != []
    ensures var d2 := RemoveFile(MakeDirs(d, Parent(p)).disk, p).disk;
      && WellFormed(d2.tree) && d2.rows == d.rows && SameElsewhere(d.tree, d2.tree, p)
      && (d.faults == [] ==> d2.faults == [] && !LeafAt(d2.tree, p))
  {
    MakeDirsFrame(d, Parent(p));
    var d1 := MakeDirs(d, Parent(p)).disk;
    if LeafAt(d1.tree, p) {
      LeafIsChildless(d1.tree, p);
      RemoveFrame(d1.tree, p);
    }
  }

  lemma LinkRecoveryFrame(d: Disk, target: string, src: Path, p: Path)
    requires WellFormed(d.tree) && src != [] && p != []
    ensures var r := RecoverLink(d, target, src, p);
      && WellFormed(r.disk.tree) && r.disk.rows == d.rows && SameElsewhere(d.tree, r.disk.tree, p)
      && (LeafAt(r.disk.tree, p) && d.faults == [] ==> r.disk.tree[p].Link? && r.disk.tree[p].target == target)
  {
    hide MakeDirs, RemoveFile, RestoreOwnership, WellFormed;
    WayMade(d, p);
    var d2 := RemoveFile(MakeDirs(d, Parent(p)).disk, p).disk;
    var r := MakeLink(d2, target, p);
    if r.ok {
      LinkFrame(d2.tree, target, p);
      OwnershipFrame(r.disk, src, p);
    }
  }

  /** The copy itself, behind the directories above `p`. */
  lemma CopyBackFrame(d: Disk, src: Path, p: Path)
    requires WellFormed(d.tree) && src != [] && p != [] && !LinkAt(d.tree, p)
    ensures var d1 := MakeDirs(d, Parent(p)).disk; var r := Copy(d1, src, p);
      && WellFormed(r.disk.tree) && r.disk.rows == d.rows && SameElsewhere(d.tree, r.disk.tree, p)
      && (r.ok && src in d.tree && !LinkAt(d.tree, src) ==>
            p in r.disk.tree && r.disk.tree[p].File? && d.tree[src].File?
              && r.disk.tree[p].content == d.tree[src].content)
      && (r.ok ==> LeafAt(r.disk.tree, p) && r.disk.tree[p].File?)
      && (!r.ok && d.faults == [] && p in r.disk.tree ==>
        (p in d.tree && r.disk.tree[p] == d.tree[p]) || r.disk.tree[p].Dir?)
  {
    hide FollowUpTo, MakeDirs;
    MakeDirsFrame(d, Parent(p));
    MakeDirsFaults(d, Parent(p));
    var d1 := MakeDirs(d, Parent(p)).disk;
    assert !LinkAt(d1.tree, p);
    CopyFrame(d1, src, p);
  }

  lemma MakeDirsFaults(d: Disk, p: Path)
    ensures d.faults == [] ==> MakeDirs(d, p).disk.faults == []
  {
  }

  lemma ContentRecoveryFrame(d: Disk, src: Path, p: Path)
    requires WellFormed(d.tree) && src != [] && p != [] && !LinkAt(d.tree, p)
    ensures var r := RecoverContent(d, src, p);
      && WellFormed(r.disk.tree) && r.disk.rows == d.rows && SameElsewhere(d.tree, r.disk.tree, p)
      && (r.ok && src in d.tree && !LinkAt(d.tree, src) ==>
            p in r.disk.tree && r.disk.tree[p].File? && d.tree[src].File?
              && r.disk.tree[p].content == d.tree[src].content)
      && (!r.ok && d.faults == [] && p in r.disk.tree ==>
        (p in d.tree && r.disk.tree[p] == d.tree[p]) || r.disk.tree[p].Dir?)
  {
    hide MakeDirs, Copy, RestoreOwnership, WellFormed;
    CopyBackFrame(d, src, p);
    var r := Copy(MakeDirs(d, Parent(p)).disk, src, p);
    if r.ok {
      OwnershipFrame(r.disk, src, p);
    }
  }

  /** Recovering a row to where no link stands touches that path, adds directories above it, and nothing else. */
  lemma RecoverFrame(d: Disk, src: Path, p: Path)
    requires WellFormed(d.tree) && p != [] && !LinkAt(d.tree, p)
    ensures var r := RecoverRow(d, src, p);
      WellFormed(r.disk.tree) && r.disk.rows == d.rows && SameElsewhere(d.tree, r.disk.tree, p)
  {
    if src != [] {
      var d0 := Read(d).disk;
      var meta := SidecarAt(d.tree, src);
      if meta.Some? && meta.value.link.Some? {
        LinkRecoveryFrame(d0, meta.value.link.value, src, p);
      }
      ContentRecoveryFrame(d0, src, p);
    }
  }

  /** `n` and `m` are links to the same target, or files with the same content. */
  predicate SameLeaf(n: Node, m: Node) {
    (n.Link? && m.Link? && n.target == m.target) || (n.File? && m.File? && n.content == m.content)
  }

  lemma MetadataCalls(d: Disk, p: Path, mode: nat, uid: nat, gid: nat)
    requires LeafAt(d.tree, p)
    ensures var d' := SetMode(d, p, mode); !LinkAt(d.tree, p) ==>
      d'.rows == d.rows && p in d'.tree && d'.tree == d.tree[p := d'.tree[p]] && SameLeaf(d.tree[p], d'.tree[p])
    ensures var d' := SetOwner(d, p, uid, gid);
      d'.rows == d.rows && p in d'.tree && d'.tree == d.tree[p := d'.tree[p]] && SameLeaf(d.tree[p], d'.tree[p])
  {
  }

  lemma OwnershipFrame(d: Disk, src: Path, p: Path)
    requires WellFormed(d.tree) && src != [] && LeafAt(d.tree, p)
    ensures var d' := RestoreOwnership(d, src, p);
      && WellFormed(d'.tree) && d'.rows == d.rows && LeafAt(d'.tree, p)
      && d'.tree == d.tree[p := d'.tree[p]] && SameLeaf(d.tree[p], d'.tree[p])
  {
    hide SetMode, SetOwner, WellFormed;
    var r, meta := Read(d), SidecarAt(d.tree, src);
    var d1 := r.disk;
    if r.ok && meta.Some? {
      var m := meta.value;
      var mode, uid, gid := if m.mode.Some? then m.mode.value else 0, if m.uid.Some? then m.uid.value else 0,
                            if m.gid.Some? then m.gid.value else 0;
      MetadataCalls(d1, p, mode, uid, gid);
      if m.mode.Some? && !d.tree[p].Link? {
        d1 := SetMode(d1, p, mode);
        MetadataCalls(d1, p, mode, uid, gid);
      }
    }
    var d' := RestoreOwnership(d, src, p);
    assert d'.tree == d.tree[p := d'.tree[p]];
    ReplaceKeepsShape(d.tree, p, d'.tree[p]);
  }

  lemma RecoverKeepsFaultFree(d: Disk, src: Path, p: Path)
    requires d.faults == []
    ensures RecoverRow(d, src, p).disk.faults == []
  {
  }

  lemma {:induction false} RecoverRowsSplit(d: Disk, a: seq<(Path, Path)>, b: seq<(Path, Path)>)
    ensures RecoverRows(d, a + b).disk == RecoverRows(RecoverRows(d, a).disk, b).disk
    decreases a
  {
    if a == [] {
      assert a + b == b;
    } else {
      assert (a + b)[1..] == a[1..] + b;
      RecoverRowsSplit(RecoverRow(d, a[0].1, a[0].0).disk, a[1..], b);
    }
  }

  /** The rows are of different paths, and at none of them a link stands. */
  ghost predicate Landable(t: Tree, rows: seq<(Path, Path)>) {
    && (forall i, j | 0 <= i < j < |rows| :: rows[i].0 != rows[j].0)
    && (forall i | 0 <= i < |rows| :: !LinkAt(t, rows[i].0))
  }

  lemma StillLandable(t: Tree, t': Tree, rows: seq<(Path, Path)>)
    requires rows != [] && Landable(t, rows) && SameElsewhere(t, t', rows[0].0)
    ensures Landable(t', rows[1..])
  {
  }

  lemma {:induction false} RecoverRowsFrame(d: Disk, rows: seq<(Path, Path)>, x: Path)
    requires WellFormed(d.tree) && d.faults == []
    requires Landable(d.tree, rows) && forall i | 0 <= i < |rows| :: rows[i].0 != [] && rows[i].0 != x
    ensures var d' := RecoverRows(d, rows).disk;
      && WellFormed(d'.tree) && d'.faults == [] && d'.rows == d.rows
      && (x in d.tree ==> x in d'.tree && d'.tree[x] == d.tree[x])
      && (x !in d.tree && x in d'.tree ==> d'.tree[x].Dir?)
    decreases rows
  {
    if rows != [] {
      RecoverFrame(d, rows[0].1, rows[0].0);
      RecoverKeepsFaultFree(d, rows[0].1, rows[0].0);
      StillLandable(d.tree, RecoverRow(d, rows[0].1, rows[0].0).disk.tree, rows);
      RecoverRowsFrame(RecoverRow(d, rows[0].1, rows[0].0).disk, rows[1..], x);
    }
  }

  /** A finite table can be read out in some order. */
  lemma {:induction false} Enumerate(d: Disk, txid: int, todo: set<Path>) returns (rows: seq<(Path, Path)>)
    requires forall p | p in todo :: (txid, p) in d.rows
    ensures forall i, j | 0 <= i < j < |rows| :: rows[i].0 != rows[j].0
    ensures forall i | 0 <= i < |rows| :: rows[i].0 in todo && d.rows[(txid, rows[i].0)].archivePath == rows[i].1
    ensures forall p | p in todo :: (p, d.rows[(txid, p)].archivePath) in rows
    decreases todo
  {
    if todo == {} {
      rows := [];
    } else {
      var p :| p in todo;
      var rest := Enumerate(d, txid, todo - {p});
      rows := [(p, d.rows[(txid, p)].archivePath)] + rest;
      assert rows[0] in rows;
      assert forall r | r in rest :: r in rows;
    }
  }

  lemma SomeRows(d: Disk, txid: int) returns (rows: seq<(Path, Path)>)
    ensures RowsOf(d, txid, rows)
  {
    var todo := set k | k in d.rows && k.0 == txid :: k.1;
    forall p | p in todo ensures (txid, p) in d.rows {
      var k :| k in d.rows && k.0 == txid && k.1 == p;
      assert k == (txid, p);
    }
    rows := Enumerate(d, txid, todo);
    forall p | (txid, p) in d.rows ensures p in todo {
      assert (txid, p).0 == txid && (txid, p).1 == p;
    }
  }

  // ---- What one row gives back ----

  /** Owner and group as the sidecar says, root's if it does not. */
  function Owned(n: Node, m: Meta): Node
    requires !n.Dir?
  {
    if m.uid.None? || m.gid.None? then n
    else
      match n
      case Link(target, _, _) => Link(target, m.uid.value, m.gid.value)
      case File(content, perm, _, _) => File(content, perm, m.uid.value, m.gid.value)
  }

  function Moded(n: Node, m: Meta): Node
    requires n.File?
  {
    if m.mode.Some? then n.(perm := m.mode.value % 4096) else n
  }

  /** What recovery makes of an archived `n` whose sidecar file holds `s`; None if it is neither file nor link. */
  function Rebuilt(s: Content, n: Node): Option<Node>
    requires !n.Dir?
  {
    match s
    case Bytes(_) => if n.File? then Some(File(n.content, n.perm, 0, 0)) else None
    case Document(m) =>
      if m.link.Some? then Some(Owned(Link(m.link.value, 0, 0), m))
      else if n.File? then Some(Owned(Moded(File(n.content, n.perm, 0, 0), m), m)) else None
  }

  /** The sidecar content `s` is as good as the one `n` was archived with. */
  predicate Describes(s: Content, n: Node)
    requires !n.Dir?
  {
    Rebuilt(s, n) == Some(n)
  }

  lemma OwnSidecarDescribes(p: Path, n: Node, modified: bool)
    requires !n.Dir?
    ensures Describes(Document(MetaOf(p, n, modified)), n)
  {
    if n.File? {
      assert S_IFREG == 8 * 4096;
      assert StatMode(n) % 4096 == n.perm;
    }
  }

  /** `p` is free, its directories can be made, and its sidecar in the archive holds `s`. */
  ghost predicate ReadyRow(d: Disk, src: Path, p: Path, s: Content) {
    && WellFormed(d.tree) && d.faults == [] && src != [] && p != [] && p !in d.tree
    && CanMakeDirs(d.tree, Parent(p)) && SidecarOf(src) != p && src != p
    && SidecarOf(src) in d.tree && d.tree[SidecarOf(src)].File? && d.tree[SidecarOf(src)].content == s
  }

  /** The two metadata calls on what was just put at `p`. */
  lemma OwnershipRebuilds(d: Disk, src: Path, p: Path, m: Meta)
    requires d.faults == [] && src != [] && LeafAt(d.tree, p) && SidecarAt(d.tree, src) == Some(m)
    ensures var t := RestoreOwnership(d, src, p).tree;
      p in t && t[p] == Owned(if d.tree[p].File? then Moded(d.tree[p], m) else d.tree[p], m)
  {
  }

  lemma NoSidecarKeepsOwner(d: Disk, src: Path, p: Path)
    requires src != [] && SidecarAt(d.tree, src) == None
    ensures RestoreOwnership(d, src, p).tree == d.tree
  {
  }

  lemma LinkRebuilds(d: Disk, target: string, src: Path, p: Path, m: Meta)
    requires ReadyRow(d, src, p, Document(m))
    ensures var t := RecoverLink(d, target, src, p).disk.tree; p in t && t[p] == Owned(Link(target, 0, 0), m)
  {
    hide RestoreOwnership, MakeDirs, WellFormed;
    MakeDirsFrame(d, Parent(p));
    DirsWithoutFaults(d, Parent(p));
    var d1 := MakeDirs(d, Parent(p)).disk;
    var r := MakeLink(RemoveFile(d1, p).disk, target, p);
    assert r.ok && r.disk.tree == d1.tree[p := Link(target, 0, 0)];
    OwnershipRebuilds(r.disk, src, p, m);
  }

  lemma ContentRebuilds(d: Disk, src: Path, p: Path, s: Content)
    requires ReadyRow(d, src, p, s) && src in d.tree && d.tree[src].File?
    ensures var t := RecoverContent(d, src, p).disk.tree; var f := File(d.tree[src].content, d.tree[src].perm, 0, 0);
      p in t && t[p] == if s.Document? then Owned(Moded(f, s.meta), s.meta) else f
  {
    hide RestoreOwnership, MakeDirs, WellFormed;
    MakeDirsFrame(d, Parent(p));
    DirsWithoutFaults(d, Parent(p));
    var d1 := MakeDirs(d, Parent(p)).disk;
    var f := File(d.tree[src].content, d.tree[src].perm, 0, 0);
    var r := Copy(d1, src, p);
    assert r.ok && r.disk.tree == d1.tree[p := f];
    if s.Document? {
      OwnershipRebuilds(r.disk, src, p, s.meta);
    } else {
      NoSidecarKeepsOwner(r.disk, src, p);
    }
  }

  /** A link never comes back from its content. */
  lemma ContentMakesNoLink(d: Disk, src: Path, p: Path)
    requires src != [] && p !in d.tree && p != []
    ensures var t := RecoverContent(d, src, p).disk.tree; p in t ==> !t[p].Link?
  {
    hide RestoreOwnership;
    if src in d.tree {
      var d1 := MakeDirs(d, Parent(p)).disk;
      var r := Copy(d1, src, p);
      assert p !in d1.tree;
      if r.ok {
        assert r.disk.tree[p].File?;
        OwnershipMakesNoLink(r.disk, src, p);
      }
    }
  }

  lemma OwnershipMakesNoLink(d: Disk, src: Path, p: Path)
    requires src != [] && p in d.tree && d.tree[p].File?
    ensures var t := RestoreOwnership(d, src, p).tree; p in t && t[p].File?
  {
  }

  /** A row gives `n` back exactly when its sidecar describes `n` and the archived content is that of `n`. */
  lemma RowRebuilds(d: Disk, src: Path, p: Path, n: Node, s: Content)
    requires ReadyRow(d, src, p, s) && !n.Dir?
    requires n.File? ==> src in d.tree && d.tree[src].File? && d.tree[src].perm == n.perm
    ensures var t := RecoverRow(d, src, p).disk.tree;
      (p in t && t[p] == n) <==> (Describes(s, n) && (n.File? ==> d.tree[src].content == n.content))
  {
    hide RecoverLink, RecoverContent, MakeDirs;
    assert Read(d) == Result(d, true);
    if s.Document? && s.meta.link.Some? {
      LinkRebuilds(d, s.meta.link.value, src, p, s.meta);
    } else if n.File? {
      ContentRebuilds(d, src, p, s);
    } else {
      ContentMakesNoLink(d, src, p);
    }
  }

  // ---- All rows ----

  /** New entries are recovered paths and directories above them. */
  lemma {:induction false} RecoverRowsNew(d: Disk, rows: seq<(Path, Path)>, x: Path)
    requires WellFormed(d.tree) && d.faults == []
    requires Landable(d.tree, rows) && forall i | 0 <= i < |rows| :: rows[i].0 != []
    ensures x in RecoverRows(d, rows).disk.tree && x !in d.tree ==> exists i | 0 <= i < |rows| :: x <= rows[i].0
    decreases rows
  {
    hide RecoverRow;
    if rows != [] {
      var (p, src) := rows[0];
      RecoverFrame(d, src, p);
      RecoverKeepsFaultFree(d, src, p);
      var d1 := RecoverRow(d, src, p).disk;
      StillLandable(d.tree, d1.tree, rows);
      RecoverRowsNew(d1, rows[1..], x);
      if x in RecoverRows(d1, rows[1..]).disk.tree && x !in d.tree {
        if x in d1.tree {
          assert x <= rows[0].0;
        } else {
          var i :| 0 <= i < |rows[1..]| && x <= rows[1..][i].0;
          assert rows[1..][i] == rows[i + 1];
        }
      }
    }
  }

  ghost predicate StandsAs(t: Tree, p: Path, n: Node) {
    p in t && t[p] == n
  }

  /** What the row at `k` makes of its path, no later row changes. */
  lemma RowDecides(d: Disk, rows: seq<(Path, Path)>, k: nat, n: Node)
    requires WellFormed(d.tree) && d.faults == [] && k < |rows| && !n.Dir?
    requires Landable(d.tree, rows) && forall i | 0 <= i < |rows| :: rows[i].0 != []
    ensures StandsAs(RecoverRows(d, rows).disk.tree, rows[k].0, n) <==>
      StandsAs(RecoverRow(RecoverRows(d, rows[..k]).disk, rows[k].1, rows[k].0).disk.tree, rows[k].0, n)
  {
    hide RecoverRow;
    var x := rows[k].0;
    assert rows[k..][1..] == rows[k + 1..];
    var before := RecoverRows(d, rows[..k]).disk;
    RecoverRowsFrame(d, rows[..k], x);
    forall j | 0 <= j < |rows[k..]| ensures !LinkAt(before.tree, rows[k..][j].0) {
      RecoverRowsFrame(d, rows[..k], rows[k + j].0);
    }
    RecoverFrame(before, rows[k].1, x);
    StillLandable(before.tree, RecoverRow(before, rows[k].1, x).disk.tree, rows[k..]);
    RecoverKeepsFaultFree(before, rows[k].1, x);
    RecoverRowsFrame(RecoverRow(before, rows[k].1, x).disk, rows[k + 1..], x);
    assert rows == rows[..k] + rows[k..];
    RecoverRowsSplit(d, rows[..k], rows[k..]);
  }

  // ---- The list of recovered paths ----

  /** A sidecar document that says that the archived entry was a link. */
  predicate SaysLink(t: Tree, src: Path)
    requires src != []
  {
    var s := SidecarOf(src);
    s in t && t[s].File? && t[s].content.Document? && t[s].content.meta.link.Some?
  }

  /** Directories above `p`, and at `p` nothing or a regular file. */
  predicate Clear(t: Tree, p: Path) {
    forall x | x in t :: x <= p ==> if x == p then t[x].File? else t[x].Dir?
  }

  lemma MakesWay(d: Disk, p: Path)
    requires WellFormed(d.tree) && d.faults == [] && p != [] && !LinkAt(d.tree, p)
    ensures var r := MakeDirs(d, Parent(p));
      && r.disk.faults == [] && WellFormed(r.disk.tree)
      && (Clear(d.tree, p) <==> DirAt(r.disk.tree, Parent(p)) && !DirAt(r.disk.tree, p))
      && (forall x | x in d.tree :: x in r.disk.tree && r.disk.tree[x] == d.tree[x])
      && (p in r.disk.tree ==> p in d.tree) && SameLinks(d.tree, r.disk.tree)
  {
    var r := MakeDirs(d, Parent(p));
    MakeDirsFrame(d, Parent(p));
    forall x | x in d.tree ensures x <= p <==> x == p || x <= Parent(p) {
    }
    if DirAt(r.disk.tree, Parent(p)) && Parent(p) !in d.tree {
      assert r.ok;
    }
    if DirAt(d.tree, Parent(p)) {
      forall x | x in d.tree && x <= Parent(p) ensures d.tree[x].Dir? {
        if x != Parent(p) {
          assert x < Parent(p) && DirAt(d.tree, x);
        }
      }
    }
  }

  lemma LinkWorks(d: Disk, target: string, src: Path, p: Path)
    requires WellFormed(d.tree) && d.faults == [] && p != [] && src != [] && !LinkAt(d.tree, p)
    ensures RecoverLink(d, target, src, p).ok <==> Clear(d.tree, p)
  {
    hide RestoreOwnership, MakeDirs, Clear;
    MakesWay(d, p);
    var d1 := MakeDirs(d, Parent(p)).disk;
    if LeafAt(d1.tree, p) {
      assert Parent(p) < p && DirAt(d1.tree, Parent(p));
    }
  }

  lemma ContentWorks(d: Disk, src: Path, p: Path)
    requires WellFormed(d.tree) && d.faults == [] && p != [] && src != [] && !LinkAt(d.tree, p)
    ensures RecoverContent(d, src, p).ok <==>
      Clear(d.tree, p) && Follow(d.tree, src) in d.tree && d.tree[Follow(d.tree, src)].File?
  {
    hide RestoreOwnership, MakeDirs, Clear, FollowUpTo;
    MakesWay(d, p);
    var d1 := MakeDirs(d, Parent(p)).disk;
    FollowSame(d.tree, d1.tree, src);
    assert Follow(d1.tree, p) == p;
  }

  /** With working calls a row comes back exactly when there is something to bring back and a place for it. */
  lemma ComesBackExactly(d: Disk, src: Path, p: Path)
    requires WellFormed(d.tree) && d.faults == [] && p != [] && !LinkAt(d.tree, p)
    ensures RecoverRows(d, [(p, src)]).recovered ==
      if src != [] && Clear(d.tree, p)
         && (SaysLink(d.tree, src) || (Follow(d.tree, src) in d.tree && d.tree[Follow(d.tree, src)].File?))
      then [p] else []
  {
    hide RecoverLink, RecoverContent, Clear, Follow;
    assert [(p, src)][1..] == [];
    if src != [] {
      ContentWorks(d, src, p);
      var meta := SidecarAt(d.tree, src);
      if meta.Some? && meta.value.link.Some? {
        LinkWorks(d, meta.value.link.value, src, p);
      }
    }
  }

  /** One more row adds what would be listed of it alone on the disk reached so far, behind the rest. */
  lemma {:induction false} RecoveredGrows(d: Disk, rows: seq<(Path, Path)>, row: (Path, Path))
    ensures var before := RecoverRows(d, rows);
      RecoverRows(d, rows + [row]).recovered == before.recovered + RecoverRows(before.disk, [row]).recovered
    decreases rows
  {
    hide RecoverRow;
    if rows == [] {
      assert rows + [row] == [row];
    } else {
      assert (rows + [row])[1..] == rows[1..] + [row];
      RecoveredGrows(RecoverRow(d, rows[0].1, rows[0].0).disk, rows[1..], row);
    }
  }
}
