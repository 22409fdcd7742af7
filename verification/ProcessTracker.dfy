/** Which processes belong to a launch: parent chains, and polling them while they change. */
module ProcessTracker {
  import opened Paths

  type Pid = int

  /** What `/proc` says at one moment: the parent of every process that can be read. */
  type Parents = map<Pid, Pid>

  // ---- Parent chains ----

  /** The chain from `pid` reaches `root` in at most `n` steps, and every earlier process is above 1. */
  ghost predicate ReachesIn(parents: Parents, pid: Pid, root: Pid, n: nat)
    decreases n
  {
    pid == root || (n > 0 && pid > 1 && pid in parents && ReachesIn(parents, parents[pid], root, n - 1))
  }

  ghost predicate Reaches(parents: Parents, pid: Pid, root: Pid) {
    exists n: nat :: ReachesIn(parents, pid, root, n)
  }

  lemma ReachesStep(parents: Parents, pid: Pid, root: Pid)
    ensures Reaches(parents, pid, root) <==>
      (pid == root || (pid > 1 && pid in parents && Reaches(parents, parents[pid], root)))
  {
    if pid == root {
      assert ReachesIn(parents, pid, root, 0);
    } else if Reaches(parents, pid, root) {
      var n: nat :| ReachesIn(parents, pid, root, n);
      assert ReachesIn(parents, parents[pid], root, n - 1);
    } else if pid > 1 && pid in parents && Reaches(parents, parents[pid], root) {
      var n: nat :| ReachesIn(parents, parents[pid], root, n);
      assert ReachesIn(parents, pid, root, n + 1);
    }
  }

  /** Each process but the last is above 1 and its parent comes next. */
  ghost predicate IsChain(parents: Parents, chain: seq<Pid>) {
    chain != [] && forall i | 0 <= i < |chain| - 1 ::
      chain[i] > 1 && chain[i] in parents && parents[chain[i]] == chain[i + 1]
  }

  lemma {:induction false} ChainOf(parents: Parents, pid: Pid, root: Pid, n: nat) returns (chain: seq<Pid>)
    requires ReachesIn(parents, pid, root, n)
    ensures IsChain(parents, chain) && chain[0] == pid && chain[|chain| - 1] == root
    decreases n
  {
    if pid == root {
      chain := [pid];
    } else {
      var rest := ChainOf(parents, parents[pid], root, n - 1);
      chain := [pid] + rest;
    }
  }

  /** To descend from a process is to be joined to it by a chain of parents. */
  lemma {:induction false} ReachesByChain(parents: Parents, chain: seq<Pid>)
    requires IsChain(parents, chain)
    ensures Reaches(parents, chain[0], chain[|chain| - 1])
    decreases |chain|
  {
    ReachesStep(parents, chain[0], chain[|chain| - 1]);
    if |chain| > 1 {
      ReachesByChain(parents, chain[1..]);
    }
  }

  lemma DescendsByChain(parents: Parents, pid: Pid, root: Pid)
    ensures Reaches(parents, pid, root) <==>
      exists chain :: IsChain(parents, chain) && chain[0] == pid && chain[|chain| - 1] == root
  {
    if Reaches(parents, pid, root) {
      var n: nat :| ReachesIn(parents, pid, root, n);
      var chain := ChainOf(parents, pid, root, n);
    }
    if chain :| IsChain(parents, chain) && chain[0] == pid && chain[|chain| - 1] == root {
      ReachesByChain(parents, chain);
    }
  }

  /** A set of processes closed under "parent of" and without `root` never reaches it. */
  lemma {:induction false} ClosedNeverReaches(parents: Parents, inside: set<Pid>, pid: Pid, root: Pid, n: nat)
    requires pid in inside && root !in inside
    requires forall p | p in inside :: p in parents && parents[p] in inside
    ensures !ReachesIn(parents, pid, root, n)
    decreases n
  {
    if n > 0 {
      ClosedNeverReaches(parents, inside, parents[pid], root, n - 1);
    }
  }

  /** Every process but the last has its parent in the set or at the loop's cursor. */
  ghost predicate Chained(parents: Parents, visited: set<Pid>, current: Pid, root: Pid) {
    && root !in visited
    && forall p | p in visited :: p in parents && (parents[p] in visited || parents[p] == current)
  }

  class Tracker {
    const root: Pid
    var known: set<Pid>

    constructor (root: Pid)
      ensures this.root == root && known == {root}
    {
      this.root := root;
      known := {root};
    }

    /** Terminates on every parent map, cyclic ones too. */
    method IsDescendant(parents: Parents, pid: Pid) returns (yes: bool)
      ensures yes <==> Reaches(parents, pid, root)
    {
      var current := pid;
      var visited: set<Pid> := {};
      while true
        invariant Chained(parents, visited, current, root)
        invariant Reaches(parents, pid, root) <==> Reaches(parents, current, root)
        decreases |parents.Keys - visited|
      {
        ReachesStep(parents, current, root);
        if current == root {
          return true;
        }
        if current in visited || current <= 1 {
          if current in visited && Reaches(parents, current, root) {
            var n: nat :| ReachesIn(parents, current, root, n);
            ClosedNeverReaches(parents, visited, current, root, n);
          }
          return false;
        }
        ghost var before := visited;
        visited := visited + {current};
        if current !in parents {
          return false;
        }
        assert parents.Keys - visited == (parents.Keys - before) - {current};
        current := parents[current];
      }
    }

    /** One scan of `/proc`: every entry with the parents as they were when it was looked at. */
    method ScanDescendants(entries: seq<(Pid, Parents)>) returns (pids: seq<Pid>)
      ensures pids == Descendants(entries, root)
    {
      pids := [];
      assert entries[..|entries|] == entries;
      for i := 0 to |entries|
        invariant pids == Descendants(entries[..i], root)
      {
        var (pid, parents) := entries[i];
        assert entries[..i + 1][..i] == entries[..i];
        if pid != root {
          var yes := IsDescendant(parents, pid);
          if yes {
            pids := pids + [pid];
          }
        }
      }
    }

    /** One tick's discoveries: each new process is announced. */
    method Discover(found: seq<Pid>) returns (announced: seq<Pid>)
      modifies this`known
      ensures announced == Fresh(found, old(known))
      ensures known == old(known) + Members(found)
    {
      announced := [];
      ghost var before := known;
      assert found[..|found|] == found;
      for i := 0 to |found|
        invariant announced == Fresh(found[..i], before)
        invariant known == before + Members(found[..i])
      {
        assert found[..i + 1][..i] == found[..i];
        if found[i] !in known {
          known := known + {found[i]};
          announced := announced + [found[i]];
        }
      }
    }

    /** The polling loop over an arbitrary run of the machine; `ended` when it stopped by itself. */
    method Watch(ticks: seq<Tick>) returns (announced: seq<Pid>, ended: bool)
      requires known == {root}
      modifies this`known
      ensures var w := Watched(root, ticks); known == w.known && announced == w.announced && ended == w.ended
    {
      announced, ended := [root], false;
      assert ticks[..|ticks|] == ticks;
      for i := 0 to |ticks|
        invariant Watched(root, ticks[..i]) == Watching(known, announced, false)
      {
        assert ticks[..i + 1][..i] == ticks[..i];
        var found := ScanDescendants(ticks[i].entries);
        var news := Discover(found);
        announced := announced + news;
        if known !! ticks[i].alive {
          ended := true;
          StaysEnded(root, ticks, i + 1);
          return;
        }
      }
    }
  }

  ghost function Descendants(entries: seq<(Pid, Parents)>, root: Pid): seq<Pid> {
    if entries == [] then []
    else
      var e := entries[|entries| - 1];
      Descendants(entries[..|entries| - 1], root) +
        if e.0 != root && Reaches(e.1, e.0, root) then [e.0] else []
  }

  /** A scan finds exactly the entries below the root. */
  lemma {:induction false} ScanFindsExactly(entries: seq<(Pid, Parents)>, root: Pid, pid: Pid)
    ensures pid in Descendants(entries, root) <==>
      exists i | 0 <= i < |entries| :: entries[i].0 == pid && pid != root && Reaches(entries[i].1, pid, root)
  {
    if entries != [] {
      var before := entries[..|entries| - 1];
      ScanFindsExactly(before, root, pid);
      assert forall i | 0 <= i < |before| :: before[i] == entries[i];
    }
  }

  // ---- Polling ----

  datatype Tick = Tick(entries: seq<(Pid, Parents)>, alive: set<Pid>)

  datatype Watching = Watching(known: set<Pid>, announced: seq<Pid>, ended: bool)

  function Members(pids: seq<Pid>): set<Pid> {
    set p | p in pids
  }

  function Fresh(found: seq<Pid>, known: set<Pid>): seq<Pid> {
    if found == [] then []
    else
      var before := found[..|found| - 1];
      var p := found[|found| - 1];
      Fresh(before, known) + if p in known || p in before then [] else [p]
  }

  /** The state after the given ticks; once ended it stays. */
  ghost function Watched(root: Pid, ticks: seq<Tick>): Watching {
    if ticks == [] then Watching({root}, [root], false)
    else
      var w := Watched(root, ticks[..|ticks| - 1]);
      if w.ended then w
      else
        var t := ticks[|ticks| - 1];
        var found := Descendants(t.entries, root);
        var known := w.known + Members(found);
        Watching(known, w.announced + Fresh(found, w.known), known !! t.alive)
  }

  lemma {:induction false} StaysEnded(root: Pid, ticks: seq<Tick>, k: nat)
    requires k <= |ticks| && Watched(root, ticks[..k]).ended
    ensures Watched(root, ticks) == Watched(root, ticks[..k])
    decreases |ticks|
  {
    if k == |ticks| {
      assert ticks[..k] == ticks;
    } else {
      assert ticks[..|ticks| - 1][..k] == ticks[..k];
      StaysEnded(root, ticks[..|ticks| - 1], k);
    }
  }

  ghost predicate Distinct(s: seq<Pid>) {
    forall i, j | 0 <= i < j < |s| :: s[i] != s[j]
  }

  lemma MembersOfSum(a: seq<Pid>, b: seq<Pid>)
    ensures Members(a + b) == Members(a) + Members(b)
    ensures Distinct(a) && Distinct(b) && Members(a) !! Members(b) ==> Distinct(a + b)
  {
    assert forall p | p in a + b :: p in a || p in b;
    forall i, j | 0 <= i < |a| <= j < |a + b| ensures (a + b)[i] in Members(a) && (a + b)[j] in Members(b) {
    }
  }

  lemma {:induction false} FreshIsNew(found: seq<Pid>, known: set<Pid>)
    ensures Distinct(Fresh(found, known))
    ensures Members(Fresh(found, known)) == Members(found) - known
  {
    if found != [] {
      var before, p := found[..|found| - 1], found[|found| - 1];
      FreshIsNew(before, known);
      assert found == before + [p];
      MembersOfSum(before, [p]);
      assert Members([p]) == {p};
      var f := Fresh(before, known);
      assert p in before <==> p in Members(before);
      if p in known || p in before {
        assert Fresh(found, known) == f;
      } else {
        assert Members(f) !! Members([p]);
        assert Distinct([p]);
        MembersOfSum(f, [p]);
        assert Fresh(found, known) == f + [p];
      }
    }
  }

  /** Each known process is announced exactly once, the root first and always. */
  lemma {:induction false} AnnouncedExactlyOnce(root: Pid, ticks: seq<Tick>)
    ensures var w := Watched(root, ticks);
      && Distinct(w.announced) && Members(w.announced) == w.known
      && root in w.known && w.announced != [] && w.announced[0] == root
  {
    hide Distinct, Descendants, Fresh;
    if ticks == [] {
      OnlyOne(root);
    } else {
      var before := ticks[..|ticks| - 1];
      AnnouncedExactlyOnce(root, before);
      var w := Watched(root, before);
      if !w.ended {
        var found := Descendants(ticks[|ticks| - 1].entries, root);
        FreshIsNew(found, w.known);
        assert Members(Fresh(found, w.known)) !! w.known;
        MembersOfSum(w.announced, Fresh(found, w.known));
        assert w.known + Members(Fresh(found, w.known)) == w.known + Members(found);
        assert (w.announced + Fresh(found, w.known))[0] == root;
      }
    }
  }

  lemma OnlyOne(root: Pid)
    ensures Distinct([root]) && Members([root]) == {root}
  {
  }

  /** What is known after `k` ticks stays known whatever the parents say later. */
  lemma {:induction false} KnownOnlyGrows(root: Pid, ticks: seq<Tick>, k: nat)
    requires k <= |ticks|
    ensures Watched(root, ticks[..k]).known <= Watched(root, ticks).known
    ensures Watched(root, ticks[..k]).announced <= Watched(root, ticks).announced
    decreases |ticks|
  {
    if k == |ticks| {
      assert ticks[..k] == ticks;
    } else {
      assert ticks[..|ticks| - 1][..k] == ticks[..k];
      KnownOnlyGrows(root, ticks[..|ticks| - 1], k);
    }
  }

  /** A process below the root on one tick is known from then on, reparented or not. */
  lemma SeenOnceKnownForever(root: Pid, ticks: seq<Tick>, k: nat, i: nat)
    requires k < |ticks| && !Watched(root, ticks[..k]).ended
    requires i < |ticks[k].entries| && Reaches(ticks[k].entries[i].1, ticks[k].entries[i].0, root)
    ensures ticks[k].entries[i].0 in Watched(root, ticks).known
  {
    var pid := ticks[k].entries[i].0;
    assert ticks[..k + 1][..k] == ticks[..k] && ticks[..k + 1][k] == ticks[k];
    ScanFindsExactly(ticks[k].entries, root, pid);
    AnnouncedExactlyOnce(root, ticks[..k]);
    KnownOnlyGrows(root, ticks, k + 1);
  }

  /** Everything that was ever found, polling or not. */
  ghost function EverFound(root: Pid, ticks: seq<Tick>): set<Pid> {
    if ticks == [] then {root}
    else EverFound(root, ticks[..|ticks| - 1]) + Members(Descendants(ticks[|ticks| - 1].entries, root))
  }

  ghost predicate AllDeadAt(root: Pid, ticks: seq<Tick>, k: nat)
    requires 0 < k <= |ticks|
  {
    EverFound(root, ticks[..k]) !! ticks[k - 1].alive
  }

  /** The loop has ended exactly when on some tick nothing found so far was alive. */
  lemma {:induction false} EndsWhenAllAreDead(root: Pid, ticks: seq<Tick>)
    ensures Watched(root, ticks).ended <==> exists k | 0 < k <= |ticks| :: AllDeadAt(root, ticks, k)
    ensures !Watched(root, ticks).ended ==> Watched(root, ticks).known == EverFound(root, ticks)
  {
    hide Descendants, Members, Fresh;
    if ticks != [] {
      var n := |ticks|;
      var before := ticks[..n - 1];
      EndsWhenAllAreDead(root, before);
      assert ticks[..n] == ticks;
      forall k | 0 < k < n ensures AllDeadAt(root, before, k) <==> AllDeadAt(root, ticks, k) {
        assert before[..k] == ticks[..k];
      }
      if Watched(root, before).ended {
        var k :| 0 < k <= n - 1 && AllDeadAt(root, before, k);
        assert AllDeadAt(root, ticks, k);
      } else {
        assert AllDeadAt(root, ticks, n) <==> Watched(root, ticks).ended;
      }
    }
  }
}
