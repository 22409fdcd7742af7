/** What a review shows: which paths stand together, under which key, tag and suggestion. */
module GroupContents {
  import opened Paths
  import opened Ordering
  import opened Review

  /** The components of a home: `/root`, or `/home` and a user. */
  predicate IsHome(home: Path) {
    home == ["root"] || (|home| == 2 && home[0] == "home")
  }

  /**
   The part of `p` behind its home is cut to two components, to three behind `.local/share` and
   `.local/state`.
   */
  ghost predicate KeyedBy(p: Path, home: Path, k: Path) {
    && IsHome(home) && home < p && home < k <= p
    && var rel := p[|home|..];
       var deep := |rel| >= 2 && Lower(rel[0]) == ".local" && (Lower(rel[1]) == "share" || Lower(rel[1]) == "state");
       if |rel| <= (if deep then 3 else 2) then k == p else |k| == |home| + if deep then 3 else 2
  }

  lemma HomeByName(p: Path, home: Path)
    ensures HomeRootOf(p) == Some(home) <==> IsHome(home) && home <= p
  {
    if IsHome(home) && home <= p {
      assert p[0] == home[0];
      if |home| == 2 {
        assert p[..2] == home;
      }
    }
  }

  lemma KeyByComponents(p: Path, k: Path)
    ensures GroupKey(p) == Some(k) <==> exists home :: KeyedBy(p, home, k)
  {
    if GroupKey(p) == Some(k) {
      var home := HomeRootOf(p).value;
      HomeByName(p, home);
      var rel := p[|home|..];
      assert home + rel == p;
      var depth := Depth(rel);
      if |rel| <= depth {
        assert rel[..|rel|] == rel;
      } else {
        assert k == p[..|home| + depth];
      }
      assert KeyedBy(p, home, k);
    }
    if home :| KeyedBy(p, home, k) {
      HomeByName(p, home);
      var rel := p[|home|..];
      assert home + rel == p && k == p[..|k|];
      assert k == home + rel[..|k| - |home|];
    }
  }

  // ---- Tags ----

  /** Dots, then one of the telling words in either case. */
  ghost predicate Means(n: Name, tag: Tag) {
    exists dots, word :: DottedWord(n, dots, word) && WordMeans(Lower(word), tag)
  }

  predicate DottedWord(n: Name, dots: string, word: string) {
    n == dots + word && (forall i | 0 <= i < |dots| :: dots[i] == '.') && (word == "" || word[0] != '.')
  }

  predicate WordMeans(word: string, tag: Tag) {
    match tag
    case Cache => word == "cache"
    case Log => word == "log" || word == "logs"
    case State => word == "state"
    case Tmp => word == "tmp" || word == "temp"
    case Data => false
  }

  lemma {:induction false} DotsGo(dots: string, word: string)
    requires (forall i | 0 <= i < |dots| :: dots[i] == '.') && (word == "" || word[0] != '.')
    ensures TrimDots(dots + word) == word
  {
    if dots == "" {
      assert dots + word == word;
    } else {
      assert (dots + word)[1..] == dots[1..] + word;
      DotsGo(dots[1..], word);
    }
  }

  lemma {:induction false} DotsOf(s: string) returns (dots: string)
    ensures DottedWord(s, dots, TrimDots(s))
  {
    if s != "" && s[0] == '.' {
      var rest := DotsOf(s[1..]);
      dots := ['.'] + rest;
      assert s == ['.'] + s[1..];
    } else {
      dots := "";
    }
  }

  lemma LowerParts(dots: string, word: string)
    requires forall i | 0 <= i < |dots| :: dots[i] == '.'
    ensures Lower(dots + word) == dots + Lower(word)
    ensures word != "" ==> (Lower(word)[0] == '.' <==> word[0] == '.')
  {
    var a, b := Lower(dots + word), dots + Lower(word);
    assert forall i | 0 <= i < |a| :: a[i] == b[i];
  }

  lemma WordIsTrimmed(n: Name)
    ensures TrimDots(Lower(n)) == Lower(TrimDots(n))
  {
    var dots := DotsOf(n);
    var word := TrimDots(n);
    hide TrimDots;
    LowerParts(dots, word);
    DotsGo(dots, Lower(word));
  }

  lemma MeansByWord(n: Name, tag: Tag)
    ensures Means(n, tag) <==> WordMeans(Lower(TrimDots(n)), tag)
  {
    hide Lower, TrimDots, WordMeans;
    var dots := DotsOf(n);
    if Means(n, tag) {
      var dots', word :| DottedWord(n, dots', word) && WordMeans(Lower(word), tag);
      DotsGo(dots', word);
    }
  }

  lemma NameMeans(n: Name, tag: Tag)
    ensures TagOfName(n) == Some(tag) <==> Means(n, tag)
  {
    hide Lower, TrimDots, Means;
    WordIsTrimmed(n);
    MeansByWord(n, tag);
  }

  ghost predicate Mute(n: Name) {
    forall tag :: !Means(n, tag)
  }

  /** The first telling component decides; when none tells, it is data. */
  lemma {:induction false} FirstTellingDecides(rel: Path, tag: Tag)
    ensures TagOf(rel) == tag <==>
      if tag == Data then forall i | 0 <= i < |rel| :: Mute(rel[i])
      else exists i: nat :: FirstTold(rel, i, tag)
    decreases |rel|
  {
    hide Means;
    if rel != [] {
      forall t ensures TagOfName(rel[0]) == Some(t) <==> Means(rel[0], t) {
        NameMeans(rel[0], t);
      }
      NameMeans(rel[0], Data);
      FirstTellingDecides(rel[1..], tag);
      FirstOfRest(rel, tag);
    }
  }

  ghost predicate FirstTold(rel: Path, i: nat, tag: Tag) {
    i < |rel| && Means(rel[i], tag) && forall j | 0 <= j < i :: Mute(rel[j])
  }

  lemma FirstOfRest(rel: Path, tag: Tag)
    requires rel != []
    ensures (exists i: nat :: FirstTold(rel, i, tag)) <==>
      Means(rel[0], tag) || (Mute(rel[0]) && exists i: nat :: FirstTold(rel[1..], i, tag))
  {
    hide Means, Mute;
    if i: nat :| FirstTold(rel, i, tag) && i > 0 {
      assert FirstTold(rel[1..], i - 1, tag);
    }
    if Means(rel[0], tag) {
      assert FirstTold(rel, 0, tag);
    }
    if Mute(rel[0]) {
      if i: nat :| FirstTold(rel[1..], i, tag) {
        assert FirstTold(rel, i + 1, tag);
      }
    }
  }

  // ---- What `GroupMutations` returns ----

  lemma {:induction false} UnderExactly(ms: seq<Record>, k: Path, p: Path)
    ensures p in PathsUnder(ms, k) <==> exists i | 0 <= i < |ms| :: ms[i].path == p && ShownUnder(ms[i], k)
  {
    hide KeyedBy;
    if ms != [] {
      var before, m := ms[..|ms| - 1], ms[|ms| - 1];
      UnderExactly(before, k, p);
      KeyByComponents(m.path, k);
      assert forall i | 0 <= i < |before| :: before[i] == ms[i];
    }
  }

  /** Everything but the old names of renamed paths is shown, if it is strictly below a home. */
  ghost predicate ShownUnder(m: Record, k: Path) {
    m.op != RenameFrom && m.op != Rename && exists home :: KeyedBy(m.path, home, k)
  }

  /** A path is shown under a key exactly when a record of it, not of its old name in a rename, has that key. */
  lemma GroupedExactly(gs: seq<Group>, ms: seq<Record>, p: Path, k: Path)
    requires IsGrouping(gs, ms)
    ensures (exists g :: g in gs && g.key == k && p in g.paths) <==>
      exists i | 0 <= i < |ms| :: ms[i].path == p && ShownUnder(ms[i], k)
  {
    hide PathsUnder, ShownUnder, PathLess, TagOf, AllGroupPaths, ReviewablePaths;
    UnderExactly(ms, k, p);
    if g :| g in gs && g.key == k && p in g.paths {
      var i :| 0 <= i < |gs| && gs[i] == g;
    }
    if p in PathsUnder(ms, k) {
      var i :| 0 <= i < |gs| && gs[i].key == k;
      assert gs[i] in gs && gs[i].paths == PathsUnder(ms, k);
    }
  }

  /** A group is tagged by the first telling component of its key, and removing it suggested unless none tells. */
  lemma GroupTagged(gs: seq<Group>, ms: seq<Record>, i: nat) returns (home: Path)
    requires IsGrouping(gs, ms) && i < |gs|
    ensures IsHome(home) && home < gs[i].key
    ensures var rel := gs[i].key[|home|..];
      if gs[i].tag == Data then forall j | 0 <= j < |rel| :: Mute(rel[j])
      else exists j: nat :: FirstTold(rel, j, gs[i].tag)
    ensures gs[i].suggested == Keep <==> gs[i].tag == Data
  {
    hide PathsUnder, ShownUnder, PathLess, TagOf, AllGroupPaths, ReviewablePaths, Mute, FirstTold;
    var g := gs[i];
    var p := g.paths[0];
    assert p in g.paths && g.paths == PathsUnder(ms, g.key);
    UnderExactly(ms, g.key, p);
    var m :| m in ms && m.path == p && ShownUnder(m, g.key);
    home := KeyHome(m, g.key);
    HomeByName(g.key, home);
    FirstTellingDecides(g.key[|home|..], g.tag);
  }

  lemma KeyHome(m: Record, k: Path) returns (home: Path)
    requires ShownUnder(m, k)
    ensures IsHome(home) && home < k
  {
    home :| KeyedBy(m.path, home, k);
  }

  /** The records at `at`, in order, are those shown under `k`. */
  ghost predicate Picks(ms: seq<Record>, at: seq<nat>, k: Path) {
    && (forall x, y | 0 <= x < y < |at| :: at[x] < at[y])
    && (forall x | 0 <= x < |at| :: at[x] < |ms| && ShownUnder(ms[at[x]], k))
    && (forall i | 0 <= i < |ms| && ShownUnder(ms[i], k) :: i in at)
  }

  lemma {:induction false} UnderInOrder(ms: seq<Record>, k: Path) returns (at: seq<nat>)
    ensures Picks(ms, at, k) && |at| == |PathsUnder(ms, k)|
    ensures forall x | 0 <= x < |at| :: PathsUnder(ms, k)[x] == ms[at[x]].path
  {
    hide KeyedBy;
    at := [];
    if ms != [] {
      var n := |ms| - 1;
      at := UnderInOrder(ms[..n], k);
      KeyByComponents(ms[n].path, k);
      assert forall i | 0 <= i < n :: ms[..n][i] == ms[i];
      assert ShownUnder(ms[n], k) <==> Reviewable(ms[n]) && GroupKey(ms[n].path) == Some(k);
      hide ShownUnder, Reviewable, GroupKey;
      if ShownUnder(ms[n], k) {
        at := at + [n];
      }
    }
  }

  /** A group holds the path of each of its records once, in recording order, and none other. */
  lemma PathsInOrder(gs: seq<Group>, ms: seq<Record>, i: nat) returns (at: seq<nat>)
    requires IsGrouping(gs, ms) && i < |gs|
    ensures Picks(ms, at, gs[i].key) && |at| == |gs[i].paths|
    ensures forall x | 0 <= x < |at| :: gs[i].paths[x] == ms[at[x]].path
  {
    hide PathsUnder, Picks, PathLess, AllGroupPaths, ReviewablePaths;
    at := UnderInOrder(ms, gs[i].key);
  }
}
