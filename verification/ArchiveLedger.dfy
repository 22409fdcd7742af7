/**
 A ledger of what a tracked application's rollback puts into the archive, kept from the tree it
 starts with and the list alone, and that the rollback does as the ledger says.
 */
module ArchiveLedger {
  import opened Paths
  import opened FileSystem
  import opened Archive
  import opened Review
  import opened Rollback
  import opened NoLoss
  import opened RoundTrip
  import opened ArchivePlaces
  import opened StepFrames
  import opened ArchiveKinds

  /**
   The paths whose directories in the archive were made, those of them archived and removed, those
   of these whose sidecar has been overwritten by a namesake's content, and those whose content has
   been overwritten by a sidecar.
   */
  datatype Ledger = Ledger(reached: set<Path>, taken: set<Path>, covered: set<Path>, hidden: set<Path>)

  const BLANK := Ledger({}, {}, {}, {})

  // ---- What may stand in the way from the start ----

  predicate DirsOpen(cfg: Config, t0: Tree, q: Path) {
    forall x | x in t0 :: x < Dest(cfg, q) ==> t0[x].Dir?
  }

  predicate ContentOpen(cfg: Config, t0: Tree, q: Path) {
    q in t0 && t0[q].File? && Dest(cfg, q) in t0 ==> t0[Dest(cfg, q)].File?
  }

  predicate SidecarOpen(cfg: Config, t0: Tree, q: Path)
    requires q != []
  {
    SidecarOf(Dest(cfg, q)) in t0 ==> t0[SidecarOf(Dest(cfg, q))].File?
  }

  // ---- One entry ----

  /** No archived path's sidecar is a file where `q` needs a directory. */
  predicate Reaches(cfg: Config, t0: Tree, l: Ledger, q: Path) {
    DirsOpen(cfg, t0, q) && forall r | r in l.taken && r != [] :: !(SidecarOf(r) < q)
  }

  predicate PutsContent(cfg: Config, t0: Tree, l: Ledger, q: Path) {
    Reaches(cfg, t0, l, q) && ContentOpen(cfg, t0, q) && q in t0 && t0[q].File?
  }

  /** ... and no directory made for another path is where `q` needs its sidecar. */
  predicate Takes(cfg: Config, t0: Tree, l: Ledger, q: Path)
    requires q != []
  {
    Reaches(cfg, t0, l, q) && ContentOpen(cfg, t0, q) && SidecarOpen(cfg, t0, q)
    && forall r | r in l.reached :: !(SidecarOf(q) < r)
  }

  function Enter(cfg: Config, t0: Tree, l: Ledger, q: Path): Ledger
    requires q != []
  {
    var s := SidecarOf(q);
    Ledger(
      if Reaches(cfg, t0, l, q) then l.reached + {q} else l.reached,
      if Takes(cfg, t0, l, q) then l.taken + {q} else l.taken,
      if PutsContent(cfg, t0, l, q)
        then l.covered + set p | p in l.taken && p != [] && SidecarOf(p) == q else l.covered,
      if Takes(cfg, t0, l, q) && s in l.taken && s in t0 && t0[s].File? then l.hidden + {s} else l.hidden)
  }

  /** The mutation finds a file or link at its path and acts on it. */
  predicate Finds(cfg: Config, t0: Tree, l: Ledger, m: Mutation) {
    Acts(cfg, m) && LeafAt(t0, m.path) && m.path !in l.taken && m.path != []
  }

  function LedgerOf(cfg: Config, t0: Tree, ms: seq<Mutation>): Ledger {
    if ms == [] then BLANK
    else
      var l := LedgerOf(cfg, t0, ms[..|ms| - 1]);
      var m := ms[|ms| - 1];
      if Finds(cfg, t0, l, m) then Enter(cfg, t0, l, m.path) else l
  }

  // ---- What an archiving without faults does ----

  /** From `t` to `t'`: the directories above the places of `q`, and its content or its sidecar or both. */
  ghost predicate Effect(cfg: Config, t: Tree, t': Tree, q: Path, n: Node, content: bool, sidecar: bool)
    requires q != [] && !n.Dir?
  {
    var x, s := Dest(cfg, q), SidecarOf(Dest(cfg, q));
    && (forall y | y in t && y != x && y != s :: y in t' && t'[y] == t[y])
    && (forall y | y in t' && y !in t && y != x && y != s :: t'[y].Dir? && y < x)
    && (forall y | y < x :: DirAt(t', y))
    && (if content then n.File? && x in t' && t'[x].File? && t'[x].content == n.content && t'[x].perm == n.perm
        else (x in t' <==> x in t) && (x in t ==> t'[x] == t[x]))
    && (if sidecar then s in t' && t'[s].File? && t'[s].content == Document(MetaOf(q, n, false))
                        && (s in t && t[s].File? ==> t'[s].perm == t[s].perm)
        else (s in t' <==> s in t) && (s in t ==> t'[s] == t[s]))
  }

  /** Whether each stage is reached. */
  predicate MakesDirs(cfg: Config, t: Tree, q: Path) {
    CanMakeDirs(t, Parent(Dest(cfg, q)))
  }

  predicate MakesContent(cfg: Config, t: Tree, q: Path) {
    MakesDirs(cfg, t, q) && q in t && t[q].File? && !DirAt(t, Dest(cfg, q))
  }

  predicate MakesSidecar(cfg: Config, t: Tree, q: Path)
    requires q != []
  {
    MakesDirs(cfg, t, q) && (q in t && t[q].File? ==> !DirAt(t, Dest(cfg, q))) && !DirAt(t, SidecarOf(Dest(cfg, q)))
  }

  lemma DirsEffect(cfg: Config, d: Disk, q: Path)
    requires WellFormed(d.tree) && Sealed(cfg, d.tree) && d.faults == []
    ensures var r := MakeDirs(d, Parent(Dest(cfg, q)));
      && r.disk.faults == [] && r.disk.rows == d.rows && WellFormed(r.disk.tree) && Sealed(cfg, r.disk.tree)
      && (r.ok <==> MakesDirs(cfg, d.tree, q)) && (!r.ok ==> r.disk == d)
      && (forall y | y in d.tree :: y in r.disk.tree && r.disk.tree[y] == d.tree[y])
      && (forall y | y in r.disk.tree && y !in d.tree :: r.disk.tree[y].Dir? && y < Dest(cfg, q))
      && (r.ok ==> forall y | y < Dest(cfg, q) :: DirAt(r.disk.tree, y))
  {
    hide ArchivePath;
    MakeDirsFrame(d, Parent(Dest(cfg, q)));
  }

  /** The three stages together. */
  lemma StagesEffect(cfg: Config, t: Tree, t1: Tree, t2: Tree, t3: Tree, q: Path, n: Node, content: bool, sidecar: bool)
    requires q != [] && !n.Dir?
    requires var x, s := Dest(cfg, q), SidecarOf(Dest(cfg, q));
      && (forall y | y in t :: y in t1 && t1[y] == t[y])
      && (forall y | y in t1 && y !in t :: t1[y].Dir? && y < x)
      && (forall y | y < x :: DirAt(t1, y))
      && (forall y | y != x :: (y in t2 <==> y in t1) && (y in t1 ==> t2[y] == t1[y]))
      && (if content then n.File? && x in t2 && t2[x].File? && t2[x].content == n.content && t2[x].perm == n.perm
        else t2 == t1)
      && (forall y | y != s :: (y in t3 <==> y in t2) && (y in t2 ==> t3[y] == t2[y]))
      && (if sidecar then s in t3 && t3[s].File? && t3[s].content == Document(MetaOf(q, n, false))
                          && (s in t2 && t2[s].File? ==> t3[s].perm == t2[s].perm)
          else t3 == t2)
    ensures Effect(cfg, t, t3, q, n, content, sidecar)
  {
    hide ArchivePath, MetaOf;
    var x, s := Dest(cfg, q), SidecarOf(Dest(cfg, q));
    SidecarIsNotDest(cfg, q);
    assert |s| == |x| && !(s < x);
    forall y | y < x ensures DirAt(t3, y) {
      assert DirAt(t1, y) && y != s && y != x;
    }
  }

  lemma ArchiveEffect(cfg: Config, d: Disk, q: Path)
    requires WellFormed(d.tree) && Sealed(cfg, d.tree) && d.faults == [] && LeafAt(d.tree, q) && q != []
    ensures var r := ArchiveFile(cfg.root, cfg.txid, d, q, false); var t := d.tree;
      && r.disk.faults == [] && (r.ok <==> MakesSidecar(cfg, t, q))
      && r.disk.rows == (if r.ok then d.rows[(cfg.txid, q) := Row(Dest(cfg, q), false)] else d.rows)
      && (if MakesDirs(cfg, t, q)
        then Effect(cfg, t, r.disk.tree, q, t[q], MakesContent(cfg, t, q), MakesSidecar(cfg, t, q))
          else r.disk.tree == t)
  {
    hide MakeDirs, StoreContent, StoreRecord, ArchivePath, MetaOf, MakesDirs, Effect, SidecarOf;
    var x, s := Dest(cfg, q), SidecarOf(Dest(cfg, q));
    SidecarIsNotDest(cfg, q);
    DirsEffect(cfg, d, q);
    var r1 := MakeDirs(d, Parent(x));
    if r1.ok {
      assert Parent(x) < x && !(s < x);
      ContentEffect(cfg, r1.disk, q);
      var r2 := StoreContent(r1.disk, q, x);
      assert DirAt(r1.disk.tree, x) <==> DirAt(d.tree, x);
      assert DirAt(r2.disk.tree, s) <==> DirAt(d.tree, s);
      RecordEffect(cfg, r2.disk, q, d.tree[q]);
      var t3 := if r2.ok then StoreRecord(r2.disk, cfg.txid, q, d.tree[q], x, false).disk.tree else r2.disk.tree;
      StagesEffect(cfg, d.tree, r1.disk.tree, r2.disk.tree, t3, q, d.tree[q], MakesContent(cfg, d.tree, q),
        MakesSidecar(cfg, d.tree, q));
    }
  }

  // ---- The disk the ledger describes ----

  ghost predicate Sound(cfg: Config, t0: Tree, l: Ledger) {
    && l.taken <= l.reached && l.covered <= l.taken && l.hidden <= l.taken
    && (forall r | r in l.reached :: LeafAt(t0, r) && r != [] && !(Zone(cfg.root, cfg.txid) <= r))
    && (forall p | p in l.covered :: p != [] && SidecarOf(p) in t0 && t0[SidecarOf(p)].File?)
    && (forall p | p in l.hidden :: p in t0 && t0[p].File? && exists o :: Hides(l, o, p))
  }

  /** The sidecar of `o` is where the content of `p` was put. */
  predicate Hides(l: Ledger, o: Path, p: Path) {
    o in l.taken && o != [] && SidecarOf(o) == p
  }

  /** What the places of an archived path hold. */
  ghost predicate Shelved(cfg: Config, t0: Tree, l: Ledger, t: Tree, p: Path)
    requires Sound(cfg, t0, l) && p in l.taken
  {
    var x, s := Dest(cfg, p), SidecarOf(Dest(cfg, p));
    && s in t && t[s].File?
    && t[s].content == (if p in l.covered then t0[SidecarOf(p)].content else Document(MetaOf(p, t0[p], false)))
    && (t0[p].File? ==>
          && x in t && t[x].File? && t[x].perm == t0[p].perm
          && (p !in l.hidden ==> t[x].content == t0[p].content)
          && (p in l.hidden ==> forall o | Hides(l, o, p) :: t[x].content == Document(MetaOf(o, t0[o], false))))
  }

  /** Directories and files in the archive are those of `t0` and those the ledger accounts for. */
  ghost predicate Accounted(cfg: Config, t0: Tree, l: Ledger, t: Tree) {
    var z := Zone(cfg.root, cfg.txid);
    && KeepsKindsIn(z, t0, t)
    && (forall x | DirAt(t, x) && z <= x :: DirAt(t0, x) || MadeFor(cfg, l, x))
    && (forall x | MadeFor(cfg, l, x) :: DirAt(t, x))
    && (forall x | LeafAt(t, x) && z <= x :: LeafAt(t0, x) || PutFor(cfg, l, x))
  }

  ghost predicate MadeFor(cfg: Config, l: Ledger, x: Path) {
    exists r :: r in l.reached && x < Dest(cfg, r)
  }

  ghost predicate PutFor(cfg: Config, l: Ledger, x: Path) {
    || (exists r :: r in l.reached && x == Dest(cfg, r))
    || (exists r :: r in l.taken && r != [] && x == SidecarOf(Dest(cfg, r)))
  }

  ghost predicate Holds(cfg: Config, t0: Tree, l: Ledger, d: Disk) {
    && Sound(cfg, t0, l) && SameOrGone(cfg, t0, d.tree) && d.faults == [] && Accounted(cfg, t0, l, d.tree)
    && (forall p | LeafAt(t0, p) && !(Zone(cfg.root, cfg.txid) <= p) :: p in d.tree <==> p !in l.taken)
    && (forall p :: (cfg.txid, p) in d.rows <==> p in l.taken)
    && (forall p | p in l.taken :: d.rows[(cfg.txid, p)].archivePath == Dest(cfg, p) && Shelved(cfg, t0, l, d.tree, p))
  }

  // ---- The ledger tells what an archiving will do ----

  lemma DirsAsSaid(cfg: Config, t0: Tree, l: Ledger, t: Tree, q: Path)
    requires WellFormed(t0) && RootUsable(cfg, t0) && Sound(cfg, t0, l) && SameOrGone(cfg, t0, t)
      && Accounted(cfg, t0, l, t)
    requires LeafAt(t0, q) && q != [] && forall r | r in l.taken ::
      SidecarOf(Dest(cfg, r)) in t && t[SidecarOf(Dest(cfg, r))].File?
    ensures MakesDirs(cfg, t, q) <==> Reaches(cfg, t0, l, q)
  {
    var z, dest := Zone(cfg.root, cfg.txid), Dest(cfg, q);
    var up := Parent(dest);
    if MakesDirs(cfg, t, q) {
      forall x | x in t0 && x < dest ensures t0[x].Dir? {
        PrefixesChain(x, z, dest);
        assert x <= Parent(dest);
      }
      forall r | r in l.taken && r != [] ensures !(SidecarOf(r) < q) {
        SidecarInArchive(cfg.root, cfg.txid, r);
        DestBelow(cfg, SidecarOf(r), q);
        var s := SidecarOf(Dest(cfg, r));
        assert s < dest ==> s <= up;
      }
    }
    if Reaches(cfg, t0, l, q) {
      forall x | x in t && x <= Parent(dest) ensures t[x].Dir? {
        assert x < dest;
        NothingInTheWay(cfg, t0, l, t, q, x);
      }
    }
  }

  lemma NothingPutThere(cfg: Config, t0: Tree, l: Ledger, q: Path, x: Path)
    requires WellFormed(t0) && Sound(cfg, t0, l) && LeafAt(t0, q) && Reaches(cfg, t0, l, q) && x < Dest(cfg, q)
    ensures !PutFor(cfg, l, x)
  {
    hide ArchivePath, SidecarOf, WellFormed, DirsOpen;
    if r :| r in l.reached && x == Dest(cfg, r) {
      DestBelow(cfg, r, q);
      LeafIsChildless(t0, r);
      assert false;
    }
    if r :| r in l.taken && r != [] && x == SidecarOf(Dest(cfg, r)) {
      SidecarInArchive(cfg.root, cfg.txid, r);
      DestBelow(cfg, SidecarOf(r), q);
      assert false;
    }
  }

  lemma NothingInTheWay(cfg: Config, t0: Tree, l: Ledger, t: Tree, q: Path, x: Path)
    requires WellFormed(t0) && RootUsable(cfg, t0) && Sound(cfg, t0, l) && SameOrGone(cfg, t0, t)
      && Accounted(cfg, t0, l, t)
    requires LeafAt(t0, q) && q != [] && Reaches(cfg, t0, l, q) && x in t && x < Dest(cfg, q)
    ensures t[x].Dir?
  {
    hide PutFor, MadeFor, Sound;
    var z := Zone(cfg.root, cfg.txid);
    PrefixesChain(x, z, Dest(cfg, q));
    NothingPutThere(cfg, t0, l, q, x);
    assert LeafAt(t, x) ==> LeafAt(t0, x);
  }

  lemma ContentAsSaid(cfg: Config, t0: Tree, l: Ledger, t: Tree, q: Path)
    requires WellFormed(t0) && Sealed(cfg, t0) && Sound(cfg, t0, l) && Accounted(cfg, t0, l, t) && LeafAt(t0, q)
    ensures t0[q].File? ==> (DirAt(t, Dest(cfg, q)) <==> !ContentOpen(cfg, t0, q))
  {
    hide PutFor;
    var z, x := Zone(cfg.root, cfg.txid), Dest(cfg, q);
    assert z <= x;
    LeafIsChildless(t0, q);
    if DirAt(t, x) && MadeFor(cfg, l, x) {
      var r :| r in l.reached && x < Dest(cfg, r);
      DestBelow(cfg, q, r);
      assert false;
    }
  }

  lemma SidecarAsSaid(cfg: Config, t0: Tree, l: Ledger, t: Tree, q: Path)
    requires WellFormed(t0) && Sealed(cfg, t0) && Accounted(cfg, t0, l, t) && q != []
    ensures DirAt(t, SidecarOf(Dest(cfg, q))) <==>
      !(SidecarOpen(cfg, t0, q) && forall r | r in l.reached :: !(SidecarOf(q) < r))
  {
    hide PutFor, SidecarOf, ArchivePath;
    var s := SidecarOf(Dest(cfg, q));
    SidecarInArchive(cfg.root, cfg.txid, q);
    forall r | r in l.reached ensures SidecarOf(q) < r <==> s < Dest(cfg, r) {
      DestBelow(cfg, SidecarOf(q), r);
    }
    if !SidecarOpen(cfg, t0, q) {
      assert DirAt(t0, s);
      assert DirAt(t, s);
    } else if r :| r in l.reached && SidecarOf(q) < r {
      assert MadeFor(cfg, l, s);
    }
  }

  lemma AsSaid(cfg: Config, t0: Tree, l: Ledger, d: Disk, q: Path)
    requires WellFormed(t0) && RootUsable(cfg, t0) && Sealed(cfg, t0) && Holds(cfg, t0, l, d)
    requires LeafAt(t0, q) && q != [] && q in d.tree && d.tree[q] == t0[q]
    ensures MakesDirs(cfg, d.tree, q) <==> Reaches(cfg, t0, l, q)
    ensures MakesContent(cfg, d.tree, q) <==> PutsContent(cfg, t0, l, q)
    ensures MakesSidecar(cfg, d.tree, q) <==> Takes(cfg, t0, l, q)
  {
    hide SameOrGone, Accounted, Reaches, SidecarOpen, RootUsable, WellFormed, Sealed, MakesDirs, ArchivePath, SidecarOf;
    forall r | r in l.taken ensures SidecarOf(Dest(cfg, r)) in d.tree && d.tree[SidecarOf(Dest(cfg, r))].File? {
      assert Shelved(cfg, t0, l, d.tree, r);
    }
    DirsAsSaid(cfg, t0, l, d.tree, q);
    ContentAsSaid(cfg, t0, l, d.tree, q);
    SidecarAsSaid(cfg, t0, l, d.tree, q);
  }

  // ---- One step ----

  lemma EnterSound(cfg: Config, t0: Tree, l: Ledger, q: Path)
    requires Sound(cfg, t0, l) && LeafAt(t0, q) && q != [] && !(Zone(cfg.root, cfg.txid) <= q) && q !in l.taken
    ensures Sound(cfg, t0, Enter(cfg, t0, l, q))
  {
    hide Reaches, ContentOpen, SidecarOpen, Zone, SidecarOf;
    var l' := Enter(cfg, t0, l, q);
    forall p | p in l'.hidden ensures p in t0 && t0[p].File? && exists o :: Hides(l', o, p) {
      if p in l.hidden {
        var o :| Hides(l, o, p);
        assert Hides(l', o, p);
      } else {
        assert Hides(l', q, p);
      }
    }
  }

  /** Directories of the archive after the entry. */
  lemma AccountedAfter(cfg: Config, t0: Tree, l: Ledger, t: Tree, t': Tree, q: Path)
    requires Sound(cfg, t0, l) && Accounted(cfg, t0, l, t) && LeafAt(t0, q) && q != []
    requires KeepsKindsIn(Zone(cfg.root, cfg.txid), t0, t')
    requires var c, s := PutsContent(cfg, t0, l, q), Takes(cfg, t0, l, q);
      if Reaches(cfg, t0, l, q) then Effect(cfg, t, t', q, t0[q], c, s) else t' == t
    requires !DirAt(t, Dest(cfg, q)) || !PutsContent(cfg, t0, l, q)
    requires !DirAt(t, SidecarOf(Dest(cfg, q))) || !Takes(cfg, t0, l, q)
    ensures Accounted(cfg, t0, Enter(cfg, t0, l, q), t')
  {
    hide ContentOpen, SidecarOpen, DirsOpen, Zone, ArchivePath, KeepsKindsIn, SidecarOf, MetaOf;
    var z, l' := Zone(cfg.root, cfg.txid), Enter(cfg, t0, l, q);
    forall x | DirAt(t', x) && z <= x ensures DirAt(t0, x) || MadeFor(cfg, l', x) {
      if DirAt(t, x) && MadeFor(cfg, l, x) {
        MadeMore(cfg, l, l', x);
      }
    }
    forall x | MadeFor(cfg, l', x) ensures DirAt(t', x) {
      if !MadeFor(cfg, l, x) {
        assert x < Dest(cfg, q) && Reaches(cfg, t0, l, q);
      }
    }
    forall x | LeafAt(t', x) && z <= x ensures LeafAt(t0, x) || PutFor(cfg, l', x) {
      if LeafAt(t, x) && PutFor(cfg, l, x) {
        PutMore(cfg, l, l', x);
      }
    }
  }

  lemma MadeMore(cfg: Config, l: Ledger, l': Ledger, x: Path)
    requires l.reached <= l'.reached && MadeFor(cfg, l, x)
    ensures MadeFor(cfg, l', x)
  {
  }

  lemma PutMore(cfg: Config, l: Ledger, l': Ledger, x: Path)
    requires l.reached <= l'.reached && l.taken <= l'.taken && PutFor(cfg, l, x)
    ensures PutFor(cfg, l', x)
  {
  }

  lemma ShelvedOwn(cfg: Config, t0: Tree, l: Ledger, t: Tree, t': Tree, q: Path)
    requires Sound(cfg, t0, l) && LeafAt(t0, q) && q != [] && !(Zone(cfg.root, cfg.txid) <= q) && q !in l.taken
    requires Takes(cfg, t0, l, q) && Effect(cfg, t, t', q, t0[q], PutsContent(cfg, t0, l, q), true)
    ensures Sound(cfg, t0, Enter(cfg, t0, l, q)) && Shelved(cfg, t0, Enter(cfg, t0, l, q), t', q)
  {
    hide Reaches, SidecarOpen, ArchivePath, MetaOf;
    EnterSound(cfg, t0, l, q);
    SidecarInArchive(cfg.root, cfg.txid, q);
  }

  /** Which of the two places of `p` the entry of `q` writes. */
  lemma PlacesOfBoth(cfg: Config, p: Path, q: Path)
    requires p != [] && q != [] && p != q
    ensures Dest(cfg, p) != Dest(cfg, q) && SidecarOf(Dest(cfg, p)) != SidecarOf(Dest(cfg, q))
    ensures SidecarOf(Dest(cfg, p)) == Dest(cfg, q) <==> SidecarOf(p) == q
    ensures Dest(cfg, p) == SidecarOf(Dest(cfg, q)) <==> SidecarOf(q) == p
  {
    SidecarInArchive(cfg.root, cfg.txid, p);
    SidecarInArchive(cfg.root, cfg.txid, q);
    DestBelow(cfg, p, q);
    DestBelow(cfg, SidecarOf(p), q);
    DestBelow(cfg, p, SidecarOf(q));
    DestBelow(cfg, SidecarOf(p), SidecarOf(q));
    if SidecarOf(p) == SidecarOf(q) {
      SidecarInjective(p, q);
    }
  }

  lemma ShelvedOther(cfg: Config, t0: Tree, l: Ledger, t: Tree, t': Tree, q: Path, p: Path)
    requires Sound(cfg, t0, l) && LeafAt(t0, q) && q != [] && !(Zone(cfg.root, cfg.txid) <= q) && q !in l.taken
    requires p in l.taken && Shelved(cfg, t0, l, t, p)
    requires Effect(cfg, t, t', q, t0[q], PutsContent(cfg, t0, l, q), Takes(cfg, t0, l, q))
    ensures Sound(cfg, t0, Enter(cfg, t0, l, q)) && Shelved(cfg, t0, Enter(cfg, t0, l, q), t', p)
  {
    hide Reaches, ContentOpen, SidecarOpen, ArchivePath, MetaOf, Zone, SidecarOf;
    var l' := Enter(cfg, t0, l, q);
    EnterSound(cfg, t0, l, q);
    PlacesOfBoth(cfg, p, q);
    var x := Dest(cfg, p);
    if t0[p].File? && p in l'.hidden {
      forall o | Hides(l', o, p) ensures t'[x].content == Document(MetaOf(o, t0[o], false)) {
        if o == q {
          assert SidecarOf(q) == p;
        } else {
          assert Hides(l, o, p);
          OneHides(l, o, q, p);
        }
      }
    }
  }

  lemma OneHides(l: Ledger, o: Path, q: Path, p: Path)
    requires Hides(l, o, p) && q != [] && q != o
    ensures SidecarOf(q) != p
  {
    if SidecarOf(q) == p {
      SidecarInjective(o, q);
    }
  }

  /** The archive is the same, whatever is gone outside it. */
  lemma ShelvedStays(cfg: Config, t0: Tree, l: Ledger, t: Tree, t': Tree, p: Path)
    requires Sound(cfg, t0, l) && p in l.taken && Shelved(cfg, t0, l, t, p)
    requires forall x | LeafAt(t, x) && Zone(cfg.root, cfg.txid) <= x :: x in t' && t'[x] == t[x]
    ensures Shelved(cfg, t0, l, t', p)
  {
    hide MetaOf, SidecarOf;
    SidecarInArchive(cfg.root, cfg.txid, p);
    assert Zone(cfg.root, cfg.txid) <= Dest(cfg, p);
  }

  lemma AccountedStays(cfg: Config, t0: Tree, l: Ledger, t: Tree, t': Tree, q: Path)
    requires Accounted(cfg, t0, l, t) && t' == t - {q} && !(Zone(cfg.root, cfg.txid) <= q) && !MadeFor(cfg, l, q)
    ensures Accounted(cfg, t0, l, t')
  {
    hide MadeFor, PutFor;
  }

  lemma TakenStays(cfg: Config, t0: Tree, l: Ledger, t: Tree, t': Tree, q: Path)
    requires Sound(cfg, t0, l) && LeafAt(t0, q) && q != [] && !(Zone(cfg.root, cfg.txid) <= q) && q !in l.taken
    requires forall p | p in l.taken :: Shelved(cfg, t0, l, t, p)
    requires var c, s := PutsContent(cfg, t0, l, q), Takes(cfg, t0, l, q);
      if Reaches(cfg, t0, l, q) then Effect(cfg, t, t', q, t0[q], c, s) else t' == t
    ensures var l' := Enter(cfg, t0, l, q);
      Sound(cfg, t0, l') && forall p | p in l'.taken :: Shelved(cfg, t0, l', t', p)
  {
    hide Reaches, ContentOpen, SidecarOpen, Effect, Sound, Shelved;
    var l' := Enter(cfg, t0, l, q);
    EnterSound(cfg, t0, l, q);
    if Reaches(cfg, t0, l, q) {
      forall p | p in l'.taken ensures Shelved(cfg, t0, l', t', p) {
        if p == q {
          ShelvedOwn(cfg, t0, l, t, t', q);
        } else {
          ShelvedOther(cfg, t0, l, t, t', q, p);
        }
      }
    } else {
      assert l' == l;
    }
  }

  /** Archiving a file or link that is still there, and removing it if that worked. */
  lemma LeafHolds(cfg: Config, t0: Tree, l: Ledger, d: Disk, q: Path)
    requires WellFormed(t0) && RootUsable(cfg, t0) && Sealed(cfg, t0) && Holds(cfg, t0, l, d)
    requires LeafAt(d.tree, q) && q != [] && !(Zone(cfg.root, cfg.txid) <= q)
    ensures LeafAt(t0, q) && q !in l.taken && Holds(cfg, t0, Enter(cfg, t0, l, q), Sweep(cfg, d, q).disk)
  {
    hide ArchiveFile, Effect, Accounted, Shelved, Sound, SameOrGone, RootUsable, Reaches, Takes, PutsContent;
    hide Enter, Discard, WellFormed, MakesSidecar, MakesContent, MakesDirs;
    LeafFacts(cfg, t0, l, d, q);
    AsSaid(cfg, t0, l, d, q);
    ArchiveEffect(cfg, d, q);
    ArchivingSameOrGone(cfg, t0, d, q);
    var r, l' := ArchiveFile(cfg.root, cfg.txid, d, q, false), Enter(cfg, t0, l, q);
    AccountedLeaf(cfg, t0, l, d, r.disk.tree, q);
    TakenStays(cfg, t0, l, d.tree, r.disk.tree, q);
    EnterTakes(cfg, t0, l, q);
    if r.ok {
      RemovedHolds(cfg, t0, l', r.disk, q);
    } else {
      assert Sweep(cfg, d, q).disk == r.disk;
    }
  }

  lemma EnterTakes(cfg: Config, t0: Tree, l: Ledger, q: Path)
    requires q != []
    ensures Enter(cfg, t0, l, q).taken == if Takes(cfg, t0, l, q) then l.taken + {q} else l.taken
  {
  }

  lemma LeafFacts(cfg: Config, t0: Tree, l: Ledger, d: Disk, q: Path)
    requires Holds(cfg, t0, l, d) && LeafAt(d.tree, q) && q != [] && !(Zone(cfg.root, cfg.txid) <= q)
    ensures LeafAt(t0, q) && d.tree[q] == t0[q] && q !in l.taken
    ensures WellFormed(d.tree) && Sealed(cfg, d.tree)
  {
    hide Accounted, Shelved, Sound;
  }

  lemma AccountedLeaf(cfg: Config, t0: Tree, l: Ledger, d: Disk, t': Tree, q: Path)
    requires Holds(cfg, t0, l, d) && LeafAt(t0, q) && q != [] && q in d.tree && d.tree[q] == t0[q]
    requires !(Zone(cfg.root, cfg.txid) <= q) && t' == ArchiveFile(cfg.root, cfg.txid, d, q, false).disk.tree
    requires MakesContent(cfg, d.tree, q) <==> PutsContent(cfg, t0, l, q)
    requires MakesSidecar(cfg, d.tree, q) <==> Takes(cfg, t0, l, q)
    requires var c, s := PutsContent(cfg, t0, l, q), Takes(cfg, t0, l, q);
      if Reaches(cfg, t0, l, q) then Effect(cfg, d.tree, t', q, t0[q], c, s) else t' == d.tree
    ensures Accounted(cfg, t0, Enter(cfg, t0, l, q), t')
  {
    hide ArchiveFile, Effect, Shelved, Sound, SameOrGone, Reaches, Takes, PutsContent, Enter, KeepsKindsIn, MakesDirs;
    ArchiveThenKinds(cfg, d, q, false);
    KindsInTwice(Zone(cfg.root, cfg.txid), t0, d.tree, t');
    AccountedAfter(cfg, t0, l, d.tree, t', q);
  }

  /** Taking `q` away once it is archived. */
  lemma RemovedHolds(cfg: Config, t0: Tree, l: Ledger, r: Disk, q: Path)
    requires WellFormed(t0) && Sound(cfg, t0, l) && SameOrGone(cfg, t0, r.tree) && r.faults == []
      && Accounted(cfg, t0, l, r.tree)
    requires LeafAt(r.tree, q) && q != [] && !(Zone(cfg.root, cfg.txid) <= q) && q in l.taken
    requires forall p | LeafAt(t0, p) && !(Zone(cfg.root, cfg.txid) <= p) :: p in r.tree <==> p !in l.taken || p == q
    requires forall p :: (cfg.txid, p) in r.rows <==> p in l.taken
    requires forall p | p in l.taken ::
      r.rows[(cfg.txid, p)].archivePath == Dest(cfg, p) && Shelved(cfg, t0, l, r.tree, p)
    ensures Holds(cfg, t0, l, Discard(r, q).disk)
  {
    hide Accounted, Shelved, Sound, SameOrGone;
    var d' := Discard(r, q).disk;
    assert d'.tree == r.tree - {q} && d'.rows == r.rows && d'.faults == [];
    RemovalSameOrGone(cfg, t0, r.tree, q);
    LeafIsNotMade(cfg, t0, l, r.tree, q);
    AccountedStays(cfg, t0, l, r.tree, d'.tree, q);
    forall p | p in l.taken ensures Shelved(cfg, t0, l, d'.tree, p) {
      ShelvedStays(cfg, t0, l, r.tree, d'.tree, p);
    }
  }

  lemma LeafIsNotMade(cfg: Config, t0: Tree, l: Ledger, t: Tree, q: Path)
    requires Accounted(cfg, t0, l, t) && LeafAt(t, q)
    ensures !MadeFor(cfg, l, q)
  {
    hide MadeFor, PutFor;
  }

  /** A directory goes only when empty, and one that leads to a place in the archive is not. */
  lemma DirHolds(cfg: Config, t0: Tree, l: Ledger, d: Disk, q: Path)
    requires WellFormed(t0) && Holds(cfg, t0, l, d) && DirAt(d.tree, q) && !(Zone(cfg.root, cfg.txid) <= q)
    ensures Holds(cfg, t0, l, Sweep(cfg, d, q).disk)
  {
    hide Accounted, Shelved, Sound;
    var d' := Sweep(cfg, d, q).disk;
    if d'.tree != d.tree {
      assert d'.tree == d.tree - {q} && Childless(d.tree, q) && q != [];
      RemoveFrame(d.tree, q);
      EmptyIsNotMade(cfg, t0, l, d.tree, q);
      AccountedStays(cfg, t0, l, d.tree, d'.tree, q);
      forall p | p in l.taken ensures Shelved(cfg, t0, l, d'.tree, p) {
        ShelvedStays(cfg, t0, l, d.tree, d'.tree, p);
      }
    }
  }

  lemma EmptyIsNotMade(cfg: Config, t0: Tree, l: Ledger, t: Tree, q: Path)
    requires Sound(cfg, t0, l) && Accounted(cfg, t0, l, t) && Childless(t, q) && !(Zone(cfg.root, cfg.txid) <= q)
    ensures !MadeFor(cfg, l, q)
  {
    hide PutFor, KeepsKindsIn;
    forall r | r in l.reached ensures !(q < Dest(cfg, r)) {
      var up := Parent(Dest(cfg, r));
      DestBelow(cfg, r, r);
      assert up < Dest(cfg, r) && Zone(cfg.root, cfg.txid) <= up;
      assert MadeFor(cfg, l, up);
    }
  }

  lemma StepHolds(cfg: Config, t0: Tree, l: Ledger, d: Disk, m: Mutation)
    requires TrackedApp(cfg) && WellFormed(t0) && RootUsable(cfg, t0) && Sealed(cfg, t0) && Holds(cfg, t0, l, d)
    requires !(Zone(cfg.root, cfg.txid) <= m.path)
    ensures Holds(cfg, t0, if Finds(cfg, t0, l, m) then Enter(cfg, t0, l, m.path) else l, Step(cfg, d, m).disk)
  {
    hide Holds, Step, Acts, Enter, RootUsable, Sealed;
    var q := m.path;
    StepSweeps(cfg, d, m);
    WhereItIs(cfg, t0, l, d, q);
    if Acts(cfg, m) && LeafAt(d.tree, q) {
      LeafHolds(cfg, t0, l, d, q);
    } else if Acts(cfg, m) && q in d.tree {
      DirHolds(cfg, t0, l, d, q);
    }
  }

  lemma WhereItIs(cfg: Config, t0: Tree, l: Ledger, d: Disk, q: Path)
    requires Holds(cfg, t0, l, d) && !(Zone(cfg.root, cfg.txid) <= q)
    ensures LeafAt(d.tree, q) ==> q != []
    ensures LeafAt(d.tree, q) <==> LeafAt(t0, q) && q !in l.taken
  {
    hide Accounted, Shelved, Sound;
    if LeafAt(d.tree, q) {
      LeafIsChildless(d.tree, q);
    }
  }

  lemma {:induction false} RunHolds(cfg: Config, t0: Tree, ms: seq<Mutation>, d: Disk, rep: Report, k: nat)
    requires TrackedApp(cfg) && WellFormed(t0) && RootUsable(cfg, t0) && Sealed(cfg, t0) && OutsideZone(cfg, ms)
    requires k <= |ms| && Holds(cfg, t0, LedgerOf(cfg, t0, ms[..k]), d)
    ensures Holds(cfg, t0, LedgerOf(cfg, t0, ms), RunAll(cfg, d, rep, ms[k..]).disk)
    decreases |ms| - k
  {
    hide Holds, Step, Finds, Enter, TrackedApp, RootUsable, Sealed;
    if k < |ms| {
      var m := ms[k];
      assert ms[k..][0] == m && ms[k..][1..] == ms[k + 1..];
      assert ms[..k + 1][..k] == ms[..k];
      var v := Step(cfg, d, m);
      StepHolds(cfg, t0, LedgerOf(cfg, t0, ms[..k]), d, m);
      RunHolds(cfg, t0, ms, v.disk, Note(rep, m.path, v.outcome), k + 1);
    } else {
      assert ms[..k] == ms;
    }
  }

  lemma NothingPutYet(cfg: Config, d: Disk)
    requires FreshStart(cfg, d) && d.faults == []
    ensures Holds(cfg, d.tree, BLANK, d)
  {
  }

  /** The rollback loop of a tracked application does exactly as its ledger says. */
  lemma LoopIsItsLedger(cfg: Config, d: Disk, ms: seq<Mutation>)
    requires TrackedApp(cfg) && FreshStart(cfg, d) && d.faults == [] && OutsideZone(cfg, ms)
    ensures Holds(cfg, d.tree, LedgerOf(cfg, d.tree, ms), RunAll(cfg, d, EMPTY_REPORT, ms).disk)
  {
    hide Holds, RunAll;
    assert ms[..0] == [] && ms[0..] == ms;
    NothingPutYet(cfg, d);
    RunHolds(cfg, d.tree, ms, d, EMPTY_REPORT, 0);
  }
}
