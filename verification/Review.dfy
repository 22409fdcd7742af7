/** Grouping recorded mutations for review, and the interactive review itself. */
module Review {
  import opened Paths
  import opened Ordering

  datatype Operation = Create | RenameTo | Modify | Delete | RenameFrom | Rename | Other

  datatype Record = Record(path: Path, op: Operation)

  datatype Tag = Cache | Log | State | Tmp | Data

  datatype Suggestion = Keep | Remove

  datatype Group = Group(key: Path, tag: Tag, suggested: Suggestion, paths: seq<Path>)

  // ---- Group keys and tags ----

  function LowerChar(c: char): char {
    if 'A' <= c <= 'Z' then c + 32 as char else c
  }

  function Lower(s: string): (r: string)
    ensures |r| == |s| && forall i | 0 <= i < |s| :: r[i] == LowerChar(s[i])
  {
    seq(|s|, i requires 0 <= i < |s| => LowerChar(s[i]))
  }

  /** Two components below home, three below `.local/share` and `.local/state`. */
  function Depth(rel: Path): nat {
    if |rel| >= 2 && Lower(rel[0]) == ".local" && Lower(rel[1]) in {"share", "state"} then 3 else 2
  }

  function GroupKey(p: Path): Option<Path> {
    match HomeRootOf(p)
    case None => None
    case Some(home) =>
      var rel := p[|home|..];
      var depth := Depth(rel);
      var capped := rel[..if depth < |rel| then depth else |rel|];
      if capped == [] then None else Some(home + capped)
  }

  /** A key is an ancestor of its paths, strictly below their home, and is its own key. */
  lemma GroupKeyIdempotent(p: Path)
    requires GroupKey(p).Some?
    ensures var k := GroupKey(p).value;
      && k <= p
      && HomeRootOf(p).Some? && HomeRootOf(p).value < k
      && HomeRootOf(k) == HomeRootOf(p)
      && GroupKey(k) == Some(k)
  {
    HomeRootOfBelow(p, p);
    var home := HomeRootOf(p).value;
    var rel := p[|home|..];
    var k := GroupKey(p).value;
    assert k == p[..|k|];
    assert home <= k;
    HomeRootOfBelow(p, k);
    var krel := k[|home|..];
    assert krel == rel[..|krel|];
    if |krel| >= 2 {
      assert krel[0] == rel[0] && krel[1] == rel[1];
      assert Depth(krel) == Depth(rel);
    }
    assert krel[..|krel|] == krel && home + krel == k;
  }

  function TrimDots(s: string): string {
    if s != "" && s[0] == '.' then TrimDots(s[1..]) else s
  }

  function TagOfName(n: Name): Option<Tag> {
    var s := TrimDots(Lower(n));
    if s == "cache" then Some(Cache)
    else if s == "log" || s == "logs" then Some(Log)
    else if s == "state" then Some(State)
    else if s == "tmp" || s == "temp" then Some(Tmp)
    else None
  }

  /** The first telling component decides. */
  function TagOf(rel: Path): Tag {
    if rel == [] then Data
    else match TagOfName(rel[0])
      case Some(tag) => tag
      case None => TagOf(rel[1..])
  }

  function SuggestionFor(tag: Tag): Suggestion {
    if tag == Data then Keep else Remove
  }

  function MakeGroup(key: Path, paths: seq<Path>): Group {
    var rel := match HomeRootOf(key) case Some(home) => key[|home|..] case None => [];
    Group(key, TagOf(rel), SuggestionFor(TagOf(rel)), paths)
  }

  predicate AlwaysSkipped(op: Operation) {
    op == RenameFrom || op == Rename
  }

  // ---- Grouping ----

  predicate Reviewable(m: Record) {
    !AlwaysSkipped(m.op) && GroupKey(m.path).Some?
  }

  /** The paths the review shows under key `k`, in recording order. */
  function PathsUnder(ms: seq<Record>, k: Path): seq<Path> {
    if ms == [] then []
    else
      var m := ms[|ms| - 1];
      PathsUnder(ms[..|ms| - 1], k) + if Reviewable(m) && GroupKey(m.path) == Some(k) then [m.path] else []
  }

  function ReviewablePaths(ms: seq<Record>): seq<Path> {
    if ms == [] then []
    else
      var m := ms[|ms| - 1];
      ReviewablePaths(ms[..|ms| - 1]) + if Reviewable(m) then [m.path] else []
  }

  datatype Bucket = Bucket(key: Path, paths: seq<Path>)

  function Keys(bs: seq<Bucket>): (ks: seq<Path>)
    ensures |ks| == |bs| && forall i | 0 <= i < |bs| :: ks[i] == bs[i].key
  {
    seq(|bs|, i requires 0 <= i < |bs| => bs[i].key)
  }

  /** `entry(key).or_default().push(path)` on a sorted map. */
  function AddTo(bs: seq<Bucket>, k: Path, p: Path): seq<Bucket> {
    if bs == [] then [Bucket(k, [p])]
    else if bs[0].key == k then [Bucket(k, bs[0].paths + [p])] + bs[1..]
    else if PathLess(k, bs[0].key) then [Bucket(k, [p])] + bs
    else [bs[0]] + AddTo(bs[1..], k, p)
  }

  function Lookup(bs: seq<Bucket>, k: Path): seq<Path> {
    if bs == [] then [] else if bs[0].key == k then bs[0].paths else Lookup(bs[1..], k)
  }

  function AllPaths(bs: seq<Bucket>): seq<Path> {
    if bs == [] then [] else bs[0].paths + AllPaths(bs[1..])
  }

  lemma {:induction false} AddToIsInsert(bs: seq<Bucket>, k: Path, p: Path)
    ensures Keys(AddTo(bs, k, p)) == Insert(Keys(bs), k)
  {
    if bs != [] {
      assert Keys(bs)[1..] == Keys(bs[1..]);
      if bs[0].key != k && !PathLess(k, bs[0].key) {
        AddToIsInsert(bs[1..], k, p);
      }
    }
  }

  lemma {:induction false} AddToLookup(bs: seq<Bucket>, k: Path, p: Path, k': Path)
    requires Increasing(Keys(bs))
    ensures Lookup(AddTo(bs, k, p), k') == if k' == k then Lookup(bs, k) + [p] else Lookup(bs, k')
  {
    if bs != [] {
      assert Keys(bs)[1..] == Keys(bs[1..]);
      if bs[0].key == k {
        assert AddTo(bs, k, p)[1..] == bs[1..];
      } else if PathLess(k, bs[0].key) {
        assert AddTo(bs, k, p)[1..] == bs;
        if k' == k {
          LookupBelow(bs, k);
        }
      } else {
        assert AddTo(bs, k, p)[1..] == AddTo(bs[1..], k, p);
        AddToLookup(bs[1..], k, p, k');
      }
    }
  }

  lemma {:induction false} LookupBelow(bs: seq<Bucket>, k: Path)
    requires Increasing(Keys(bs)) && (bs != [] ==> PathLess(k, bs[0].key))
    ensures Lookup(bs, k) == []
  {
    if bs != [] {
      PathLessTotal(k, bs[0].key);
      assert Keys(bs)[1..] == Keys(bs[1..]);
      if |bs| > 1 {
        assert PathLess(Keys(bs)[0], Keys(bs)[1]);
        PathLessTransitive(k, bs[0].key, bs[1].key);
      }
      LookupBelow(bs[1..], k);
    }
  }

  lemma {:induction false} AddToAddsOne(bs: seq<Bucket>, k: Path, p: Path)
    ensures multiset(AllPaths(AddTo(bs, k, p))) == multiset(AllPaths(bs)) + multiset{p}
  {
    if bs == [] {
      assert AllPaths(AddTo(bs, k, p)) == [p];
    } else if bs[0].key == k {
      assert AddTo(bs, k, p)[1..] == bs[1..];
    } else if PathLess(k, bs[0].key) {
      assert AddTo(bs, k, p)[1..] == bs;
    } else {
      assert AddTo(bs, k, p)[1..] == AddTo(bs[1..], k, p);
      AddToAddsOne(bs[1..], k, p);
    }
  }

  /** What the bucket-filling loop has built from a prefix of the mutations. */
  ghost predicate BucketsOf(bs: seq<Bucket>, ms: seq<Record>) {
    && Increasing(Keys(bs))
    && (forall i | 0 <= i < |bs| :: bs[i].paths != [])
    && (forall k :: Lookup(bs, k) == PathsUnder(ms, k))
    && multiset(AllPaths(bs)) == multiset(ReviewablePaths(ms))
  }

  lemma PathsUnderStep(ms: seq<Record>, m: Record, k: Path)
    ensures PathsUnder(ms + [m], k) == PathsUnder(ms, k) + if Reviewable(m) && GroupKey(m.path) == Some(k)
      then [m.path] else []
    ensures ReviewablePaths(ms + [m]) == ReviewablePaths(ms) + if Reviewable(m) then [m.path] else []
  {
    hide Reviewable, GroupKey;
    assert (ms + [m])[..|ms|] == ms;
  }

  lemma BucketsOfStep(bs: seq<Bucket>, ms: seq<Record>, m: Record)
    requires BucketsOf(bs, ms)
    ensures BucketsOf(if Reviewable(m) then AddTo(bs, GroupKey(m.path).value, m.path) else bs, ms + [m])
  {
    hide GroupKey, PathsUnder, ReviewablePaths, Increasing, Lookup, AllPaths, AddTo, Keys;
    forall k ensures PathsUnder(ms + [m], k) ==
      PathsUnder(ms, k) + if Reviewable(m) && GroupKey(m.path) == Some(k) then [m.path] else []
    {
      PathsUnderStep(ms, m, k);
    }
    PathsUnderStep(ms, m, []);
    if Reviewable(m) {
      var k := GroupKey(m.path).value;
      AddToIsInsert(bs, k, m.path);
      InsertKeepsOrder(Keys(bs), k);
      AddToNonEmpty(bs, k, m.path);
      AddToAddsOne(bs, k, m.path);
      forall k' ensures Lookup(AddTo(bs, k, m.path), k') == PathsUnder(ms + [m], k') {
        AddToLookup(bs, k, m.path, k');
      }
    }
  }

  lemma {:induction false} AddToNonEmpty(bs: seq<Bucket>, k: Path, p: Path)
    requires forall i | 0 <= i < |bs| :: bs[i].paths != []
    ensures forall i | 0 <= i < |AddTo(bs, k, p)| :: AddTo(bs, k, p)[i].paths != []
  {
    if bs != [] && bs[0].key != k && !PathLess(k, bs[0].key) {
      AddToNonEmpty(bs[1..], k, p);
    }
  }

  lemma {:induction false} LookupAt(bs: seq<Bucket>, i: nat)
    requires Increasing(Keys(bs)) && i < |bs|
    ensures Lookup(bs, bs[i].key) == bs[i].paths
  {
    assert Keys(bs)[1..] == Keys(bs[1..]);
    if i > 0 {
      assert PathLess(Keys(bs)[0], Keys(bs)[i]);
      PathLessTotal(bs[0].key, bs[i].key);
      LookupAt(bs[1..], i - 1);
    }
  }

  lemma {:induction false} LookupIsSomewhere(bs: seq<Bucket>, k: Path)
    requires Lookup(bs, k) != []
    ensures exists i | 0 <= i < |bs| :: bs[i].key == k
  {
    if bs[0].key != k {
      LookupIsSomewhere(bs[1..], k);
      var i :| 0 <= i < |bs[1..]| && bs[1..][i].key == k;
      assert bs[i + 1].key == k;
    }
  }

  function AllGroupPaths(gs: seq<Group>): seq<Path> {
    if gs == [] then [] else gs[0].paths + AllGroupPaths(gs[1..])
  }

  ghost predicate DistinctKeys(gs: seq<Group>) {
    forall i, j | 0 <= i < j < |gs| :: gs[i].key != gs[j].key
  }

  /**
   The groups are a partition of the reviewable mutations: strictly increasing keys, each
   group holds exactly its own paths in order, and together they hold every reviewable path
   as often as it was recorded.
   */
  ghost predicate IsGrouping(gs: seq<Group>, ms: seq<Record>) {
    && (forall i, j | 0 <= i < j < |gs| :: PathLess(gs[i].key, gs[j].key))
    && (forall i | 0 <= i < |gs| :: gs[i] == MakeGroup(gs[i].key, PathsUnder(ms, gs[i].key)) && gs[i].paths != [])
    && (forall k | PathsUnder(ms, k) != [] :: exists i | 0 <= i < |gs| :: gs[i].key == k)
    && multiset(AllGroupPaths(gs)) == multiset(ReviewablePaths(ms))
  }

  lemma {:induction false} SamePaths(gs: seq<Group>, bs: seq<Bucket>)
    requires |gs| == |bs| && forall i | 0 <= i < |gs| :: gs[i].paths == bs[i].paths
    ensures AllGroupPaths(gs) == AllPaths(bs)
  {
    if gs != [] {
      SamePaths(gs[1..], bs[1..]);
    }
  }

  lemma BucketsMakeGrouping(gs: seq<Group>, bs: seq<Bucket>, ms: seq<Record>)
    requires BucketsOf(bs, ms)
    requires |gs| == |bs| && forall i | 0 <= i < |gs| :: gs[i] == MakeGroup(bs[i].key, bs[i].paths)
    ensures IsGrouping(gs, ms)
  {
    SamePaths(gs, bs);
    forall i, j | 0 <= i < j < |gs| ensures PathLess(gs[i].key, gs[j].key) {
      assert PathLess(Keys(bs)[i], Keys(bs)[j]);
    }
    forall i | 0 <= i < |gs| ensures bs[i].paths == PathsUnder(ms, bs[i].key) {
      LookupAt(bs, i);
    }
    forall k | PathsUnder(ms, k) != [] ensures exists i | 0 <= i < |gs| :: gs[i].key == k {
      LookupIsSomewhere(bs, k);
      var i :| 0 <= i < |bs| && bs[i].key == k;
      assert gs[i].key == k;
    }
  }

  lemma GroupingHasDistinctKeys(gs: seq<Group>, ms: seq<Record>)
    requires IsGrouping(gs, ms)
    ensures DistinctKeys(gs)
  {
    forall i, j | 0 <= i < j < |gs| ensures gs[i].key != gs[j].key {
      PathLessTotal(gs[i].key, gs[j].key);
    }
  }

  lemma NoBuckets()
    ensures BucketsOf([], [])
  {
  }

  method GroupsOf(buckets: seq<Bucket>) returns (groups: seq<Group>)
    ensures |groups| == |buckets|
    ensures forall x | 0 <= x < |groups| :: groups[x] == MakeGroup(buckets[x].key, buckets[x].paths)
  {
    groups := [];
    var j := 0;
    while j < |buckets|
      invariant 0 <= j <= |buckets| && |groups| == j
      invariant forall x | 0 <= x < j :: groups[x] == MakeGroup(buckets[x].key, buckets[x].paths)
    {
      groups := groups + [MakeGroup(buckets[j].key, buckets[j].paths)];
      j := j + 1;
    }
  }

  method GroupMutations(ms: seq<Record>) returns (groups: seq<Group>)
    ensures IsGrouping(groups, ms)
  {
    hide IsGrouping, MakeGroup, AddTo, GroupKey, BucketsOf;
    var buckets: seq<Bucket> := [];
    var i := 0;
    NoBuckets();
    assert ms[..0] == [];
    while i < |ms|
      invariant 0 <= i <= |ms|
      invariant BucketsOf(buckets, ms[..i])
    {
      var m := ms[i];
      BucketsOfStep(buckets, ms[..i], m);
      assert ms[..i + 1] == ms[..i] + [m];
      i := i + 1;
      if AlwaysSkipped(m.op) {
        continue;
      }
      var key := GroupKey(m.path);
      if key.None? {
        continue;
      }
      buckets := AddTo(buckets, key.value, m.path);
    }
    assert ms[..i] == ms;
    groups := GroupsOf(buckets);
    BucketsMakeGrouping(groups, buckets, ms);
  }
}
