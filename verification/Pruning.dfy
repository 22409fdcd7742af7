/** Which directories the pruning after a home cleanup removes: exactly the doomed ones. */
module Pruning {
  import opened Paths
  import opened Ordering
  import opened FileSystem
  import opened Rollback
  import opened NoLoss

  predicate BelowHome(p: Path) {
    HomeRootOf(p).Some? && HomeRootOf(p).value < p
  }

  /**
   Strictly below a home, nothing but directories at and below it, and every bottom
   directory among them the parent of something the rollback removed.
   */
  ghost predicate Doomed(t: Tree, starts: set<Path>, x: Path) {
    && BelowHome(x) && x in t
    && forall q | q in t && x <= q :: t[q].Dir? && (Childless(t, q) ==> q in starts)
  }

  /** `t` is what is left of `t0`, and all that is gone was doomed. */
  ghost predicate Remains(t0: Tree, starts: set<Path>, t: Tree) {
    && WellFormed(t)
    && (forall q | q in t :: q in t0 && t[q] == t0[q])
    && (forall q | q in t0 && q !in t :: Doomed(t0, starts, q))
  }

  /** No directory below home has been emptied and left standing, except perhaps `but`. */
  ghost predicate Swept(t0: Tree, t: Tree, but: Option<Path>) {
    forall x | DirAt(t, x) && BelowHome(x) && Childless(t, x) && Some(x) != but :: Childless(t0, x)
  }

  lemma RemovalIsDoomed(t0: Tree, starts: set<Path>, t: Tree, dir: Path)
    requires Remains(t0, starts, t) && DirAt(t, dir) && Childless(t, dir) && BelowHome(dir)
    requires dir in starts || !Childless(t0, dir)
    ensures Remains(t0, starts, t - {dir}) && !Childless(t0, Parent(dir))
  {
    RemoveFrame(t, dir);
    forall q | q in t0 && dir <= q ensures t0[q].Dir? && (Childless(t0, q) ==> q in starts) {
      if q in t {
        assert q == dir;
      } else {
        assert Doomed(t0, starts, q);
      }
    }
    assert Parent(dir) < dir;
  }

  lemma ParentBelowHome(dir: Path, home: Path)
    requires HomeRootOf(dir) == Some(home) && dir != home
    ensures dir != [] && home <= dir && HomeRootOf(Parent(dir)) == Some(home) && BelowHome(dir)
  {
    HomeRootOfBelow(dir, dir);
    assert home <= Parent(dir);
    HomeRootOfBelow(dir, Parent(dir));
  }

  /** Safe under every fault: only doomed directories go. */
  lemma {:induction false} PruneUpRemains(t0: Tree, starts: set<Path>, d: Disk, dir: Path, home: Path)
    requires Remains(t0, starts, d.tree) && HomeRootOf(dir) == Some(home)
    requires dir in starts || !Childless(t0, dir)
    ensures Remains(t0, starts, PruneUp(d, dir, home).tree) && PruneUp(d, dir, home).rows == d.rows
    ensures forall q | q in PruneUp(d, dir, home).tree :: q in d.tree
    ensures d.faults == [] ==> PruneUp(d, dir, home).faults == []
    decreases |dir|
  {
    if dir != home {
      ParentBelowHome(dir, home);
      var r := Read(d);
      if r.ok && DirAt(d.tree, dir) && Childless(d.tree, dir) {
        RemovalIsDoomed(t0, starts, d.tree, dir);
        var rd := RemoveDir(r.disk, dir);
        if rd.ok {
          PruneUpRemains(t0, starts, rd.disk, Parent(dir), home);
        }
      }
    }
  }

  lemma {:induction false} PruneUpSweeps(t0: Tree, starts: set<Path>, d: Disk, dir: Path, home: Path)
    requires Remains(t0, starts, d.tree) && HomeRootOf(dir) == Some(home)
    requires dir in starts || !Childless(t0, dir)
    requires d.faults == [] && Swept(t0, d.tree, Some(dir))
    ensures Swept(t0, PruneUp(d, dir, home).tree, None)
    ensures BelowHome(dir) && Childless(t0, dir) && DirAt(t0, dir) ==> dir !in PruneUp(d, dir, home).tree
    decreases |dir|
  {
    if dir != home {
      ParentBelowHome(dir, home);
      if DirAt(d.tree, dir) && Childless(d.tree, dir) {
        RemovalIsDoomed(t0, starts, d.tree, dir);
        var rd := RemoveDir(Read(d).disk, dir);
        assert rd.ok && rd.disk.tree == d.tree - {dir};
        SweptAfterRemoval(t0, d.tree, dir);
        PruneUpRemains(t0, starts, rd.disk, Parent(dir), home);
        PruneUpSweeps(t0, starts, rd.disk, Parent(dir), home);
      }
    }
  }

  lemma SweptAfterRemoval(t0: Tree, t: Tree, dir: Path)
    requires WellFormed(t) && dir != [] && dir in t && Swept(t0, t, Some(dir))
    ensures Swept(t0, t - {dir}, Some(Parent(dir)))
  {
    var t' := t - {dir};
    assert Parent(dir) < dir && DirAt(t, Parent(dir)) && Parent(dir) in t';
    forall x | DirAt(t', x) && BelowHome(x) && Childless(t', x) && x != Parent(dir) ensures Childless(t0, x) {
      if x < dir {
        PrefixesChain(x, Parent(dir), dir);
        assert false;
      }
      forall q | q in t ensures !(x < q) {
        if q != dir {
          assert q in t';
        }
      }
    }
  }

  lemma {:induction false} PruneAllRemains(t0: Tree, starts: set<Path>, d: Disk, todo: seq<Path>)
    requires Remains(t0, starts, d.tree) && forall p | p in todo :: p in starts
    ensures Remains(t0, starts, PruneAll(d, todo).tree) && PruneAll(d, todo).rows == d.rows
    ensures d.faults == [] ==> PruneAll(d, todo).faults == []
    decreases todo
  {
    if todo != [] {
      if HomeRootOf(todo[0]).Some? {
        PruneUpRemains(t0, starts, d, todo[0], HomeRootOf(todo[0]).value);
      }
      PruneAllRemains(t0, starts, PruneFrom(d, todo[0]), todo[1..]);
    }
  }

  lemma {:induction false} PruneAllSweeps(t0: Tree, starts: set<Path>, d: Disk, todo: seq<Path>)
    requires Remains(t0, starts, d.tree) && forall p | p in todo :: p in starts
    requires d.faults == [] && Swept(t0, d.tree, None)
    requires forall p | p in starts && p !in todo && BelowHome(p) && Childless(t0, p) && DirAt(t0, p) :: p !in d.tree
    ensures Swept(t0, PruneAll(d, todo).tree, None)
    ensures forall p | p in starts && BelowHome(p) && Childless(t0, p) && DirAt(t0, p) :: p !in PruneAll(d, todo).tree
    decreases todo
  {
    if todo != [] {
      if HomeRootOf(todo[0]).Some? {
        PruneUpRemains(t0, starts, d, todo[0], HomeRootOf(todo[0]).value);
        PruneUpSweeps(t0, starts, d, todo[0], HomeRootOf(todo[0]).value);
      }
      PruneAllSweeps(t0, starts, PruneFrom(d, todo[0]), todo[1..]);
    }
  }

  /** At or below every entry there is one with nothing below it. */
  lemma {:induction false} Bottom(t: Tree, x: Path) returns (y: Path)
    requires x in t
    ensures y in t && x <= y && Childless(t, y)
    decreases set q | q in t && x <= q
  {
    if Childless(t, x) {
      y := x;
    } else {
      var c :| c in t && x < c;
      ghost var above, below := set q | q in t && x <= q, set q | q in t && c <= q;
      assert x in above && x !in below && below <= above;
      y := Bottom(t, c);
    }
  }

  lemma NoDoomedSurvives(t0: Tree, starts: set<Path>, t: Tree, x: Path)
    requires Remains(t0, starts, t) && Swept(t0, t, None)
    requires forall p | p in starts && BelowHome(p) && Childless(t0, p) && DirAt(t0, p) :: p !in t
    requires Doomed(t0, starts, x)
    ensures x !in t
  {
    if x in t {
      var y := Bottom(t, x);
      HomeRootOfBelow(x, y);
      assert DirAt(t, y) && DirAt(t0, y);
      assert false;
    }
  }

  /**
   Without faults the pruning removes exactly the doomed entries and leaves every other one
   as it was, in whatever order the candidates come and although parents come first.
   */
  lemma PruningIsExact(d: Disk, candidates: seq<Path>)
    requires WellFormed(d.tree) && d.faults == []
    ensures var starts := set p | p in candidates; var t := PruneAll(d, candidates).tree;
      && (forall x | x in d.tree :: x !in t <==> Doomed(d.tree, starts, x))
      && (forall x | x in t :: x in d.tree && t[x] == d.tree[x])
  {
    var starts := set p | p in candidates;
    PruneAllRemains(d.tree, starts, d, candidates);
    PruneAllSweeps(d.tree, starts, d, candidates);
    var t := PruneAll(d, candidates).tree;
    forall x | x in d.tree && Doomed(d.tree, starts, x) ensures x !in t {
      NoDoomedSurvives(d.tree, starts, t, x);
    }
  }

  /** Under any faults: files, links, homes and directories holding a file stay. */
  lemma PruningIsSafe(d: Disk, candidates: seq<Path>, x: Path, y: Path)
    requires WellFormed(d.tree) && x in d.tree && y in d.tree && x <= y
    requires !d.tree[y].Dir? || !BelowHome(x)
    ensures var t := PruneAll(d, candidates).tree; x in t && t[x] == d.tree[x]
  {
    PruneAllRemains(d.tree, (set p | p in candidates), d, candidates);
  }

  lemma {:induction false} ParentsOfMembers(paths: seq<Path>, q: Path)
    ensures q in ParentsOf(paths) <==> exists p | p in paths :: p != [] && Parent(p) == q
    ensures Increasing(ParentsOf(paths))
  {
    if paths != [] {
      var last := paths[|paths| - 1];
      var before := paths[..|paths| - 1];
      assert paths == before + [last];
      ParentsOfMembers(before, q);
      if last != [] {
        InsertKeepsOrder(ParentsOf(before), Parent(last));
      }
    }
  }

  /** A directory the pruning leaves empty was empty before and lost nothing to the rollback. */
  lemma EmptyAfterwards(d: Disk, removed: seq<Path>, x: Path)
    requires WellFormed(d.tree) && d.faults == []
    requires var t := PruneAll(d, ParentsOf(removed)).tree; DirAt(t, x) && Childless(t, x) && BelowHome(x)
    ensures Childless(d.tree, x)
    ensures forall p | p in removed && p != [] :: Parent(p) != x
  {
    var starts := set p | p in ParentsOf(removed);
    PruneAllRemains(d.tree, starts, d, ParentsOf(removed));
    PruneAllSweeps(d.tree, starts, d, ParentsOf(removed));
    ParentsOfMembers(removed, x);
  }
}
