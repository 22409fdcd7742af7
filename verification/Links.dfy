/** Where following a link arrives while files, directories and links come and go around it. */
module Links {
  import opened Paths
  import opened FileSystem

  /** Every link of `t'` is one of `t`, to the same target. */
  ghost predicate NoNewLinks(t: Tree, t': Tree) {
    forall x | LinkAt(t', x) :: LinkAt(t, x) && t[x].target == t'[x].target
  }

  ghost predicate SameLinks(t: Tree, t': Tree) {
    NoNewLinks(t, t') && NoNewLinks(t', t)
  }

  lemma {:induction false} FollowSameUpTo(t: Tree, t': Tree, p: Path, n: nat)
    requires SameLinks(t, t')
    ensures FollowUpTo(t', p, n) == FollowUpTo(t, p, n)
    decreases n
  {
    hide Goal;
    if n > 0 && p != [] && LinkAt(t, p) {
      FollowSameUpTo(t, t', Goal(p, t[p].target), n - 1);
    }
  }

  lemma FollowSame(t: Tree, t': Tree, p: Path)
    requires SameLinks(t, t')
    ensures Follow(t', p) == Follow(t, p)
  {
    hide FollowUpTo;
    FollowSameUpTo(t, t', p, MAX_LINKS);
  }

  /** Every place following `p` comes by. */
  function TrailUpTo(t: Tree, p: Path, n: nat): set<Path>
    decreases n
  {
    {p} + if n > 0 && p != [] && LinkAt(t, p) then TrailUpTo(t, Goal(p, t[p].target), n - 1) else {}
  }

  function Trail(t: Tree, p: Path): set<Path> {
    if LinkAt(t, p) then TrailUpTo(t, p, MAX_LINKS) else {p}
  }

  lemma {:induction false} FollowOnTrailUpTo(t: Tree, t': Tree, p: Path, n: nat)
    requires NoNewLinks(t, t')
    ensures FollowUpTo(t', p, n) in TrailUpTo(t, p, n)
    decreases n
  {
    hide Goal;
    if n > 0 && p != [] && LinkAt(t', p) {
      FollowOnTrailUpTo(t, t', Goal(p, t[p].target), n - 1);
    }
  }

  /** With links gone, following `p` ends somewhere on its old trail. */
  lemma FollowOnTrail(t: Tree, t': Tree, p: Path)
    requires NoNewLinks(t, t')
    ensures Follow(t', p) in Trail(t, p)
  {
    hide FollowUpTo;
    FollowOnTrailUpTo(t, t', p, MAX_LINKS);
    if !LinkAt(t', p) && LinkAt(t, p) {
      assert p in TrailUpTo(t, p, MAX_LINKS);
    }
  }

  lemma {:induction false} FollowBackUpTo(t: Tree, t': Tree, p: Path, n: nat)
    requires NoNewLinks(t, t') && !LinkAt(t, FollowUpTo(t', p, n))
    ensures FollowUpTo(t, p, n) == FollowUpTo(t', p, n)
    decreases n
  {
    hide Goal;
    if n > 0 && p != [] && LinkAt(t', p) {
      FollowBackUpTo(t, t', Goal(p, t[p].target), n - 1);
    }
  }

  /** ... and where no link was, it ended before. */
  lemma FollowBack(t: Tree, t': Tree, p: Path)
    requires NoNewLinks(t, t') && !LinkAt(t, Follow(t', p))
    ensures Follow(t, p) == Follow(t', p)
  {
    hide FollowUpTo;
    if LinkAt(t', p) {
      FollowBackUpTo(t, t', p, MAX_LINKS);
    }
  }

  // ---- What calls do to links ----

  lemma LinksChain(t: Tree, t1: Tree, t2: Tree)
    requires NoNewLinks(t, t1) && NoNewLinks(t1, t2)
    ensures NoNewLinks(t, t2)
  {
  }

  lemma DirsKeepLinks(d: Disk, p: Path)
    ensures SameLinks(d.tree, MakeDirs(d, p).disk.tree)
  {
  }

  lemma PutKeepsLinks(t: Tree, p: Path, content: Content, perm: Perm)
    requires CanPut(t, p)
    ensures SameLinks(t, Put(t, p, content, perm))
  {
  }

  lemma WriteKeepsLinks(d: Disk, dst: Path, content: Content)
    ensures SameLinks(d.tree, Write(d, dst, content).disk.tree)
  {
    hide FollowUpTo;
    var to := Follow(d.tree, dst);
    if CanPut(d.tree, to) {
      var perm: Perm := if to in d.tree then d.tree[to].perm else 420;
      PutKeepsLinks(d.tree, to, content, perm);
      if NextFault(d).Breaks? && NextFault(d).torn.Some? {
        PutKeepsLinks(d.tree, to, NextFault(d).torn.value, perm);
      }
    }
  }

  lemma CopyKeepsLinks(d: Disk, src: Path, dst: Path)
    ensures SameLinks(d.tree, Copy(d, src, dst).disk.tree)
  {
    hide Follow, CanPut, Put;
    forall c, perm | CanPut(d.tree, Follow(d.tree, dst))
      ensures SameLinks(d.tree, Put(d.tree, Follow(d.tree, dst), c, perm))
    {
      PutKeepsLinks(d.tree, Follow(d.tree, dst), c, perm);
    }
  }

  lemma MetadataKeepsLinks(d: Disk, p: Path, mode: nat, uid: nat, gid: nat)
    ensures SameLinks(d.tree, SetMode(d, p, mode).tree)
    ensures SameLinks(d.tree, ChangeOwner(d, p, uid, gid).tree)
  {
    hide Follow;
  }

  lemma RemovalKeepsLinks(t: Tree, p: Path)
    ensures NoNewLinks(t, t - {p})
  {
  }
}
