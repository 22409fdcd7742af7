/** What is watched after a restart of the daemon: every path of every tracked application. */
module RestartWatches {
  import opened Paths
  import opened TrackedApps

  /**
   Path `j` of the tracked application `name` is really `r`, and no mark failed before it: a path
   that cannot be canonicalized stands for itself.
   */
  ghost predicate Leads(s: State, answers: Name -> Answers, name: Name, j: nat, r: Path) {
    && name in s.apps && s.apps[name].status == Tracking
    && j < |s.apps[name].paths| && j < answers(name).marks
    && var p := s.apps[name].paths[j];
       r == if p in answers(name).canonical then answers(name).canonical[p] else p
  }

  ghost predicate LeadsSomehow(s: State, answers: Name -> Answers, name: Name, r: Path) {
    exists j: nat :: Leads(s, answers, name, j, r)
  }

  lemma LeadsIsKey(s: State, answers: Name -> Answers, name: Name, r: Path)
    ensures LeadsSomehow(s, answers, name, r) <==>
      name in s.apps && s.apps[name].status.Tracking? && r in Keys(answers(name), s.apps[name].paths)
  {
    if LeadsSomehow(s, answers, name, r) {
      var j: nat :| Leads(s, answers, name, j, r);
      assert r == Canonical(answers(name), s.apps[name].paths[j]);
    }
    if name in s.apps && s.apps[name].status.Tracking? && r in Keys(answers(name), s.apps[name].paths) {
      var j :| 0 <= j < |s.apps[name].paths| && j < answers(name).marks
        && r == Canonical(answers(name), s.apps[name].paths[j]);
      assert Leads(s, answers, name, j, r);
    }
  }

  /** `r` is watched for the last application of the order that leads there. */
  ghost predicate LastToLead(s: State, order: seq<Name>, answers: Name -> Answers, i: nat, r: Path) {
    && i < |order| && LeadsSomehow(s, answers, order[i], r)
    && forall k | i < k < |order| :: !LeadsSomehow(s, answers, order[k], r)
  }

  lemma {:induction false} RearmExactly(s: State, order: seq<Name>, answers: Name -> Answers, r: Path)
    ensures var w := Rearm(s, order, answers);
      && (r in w ==> exists i: nat :: LastToLead(s, order, answers, i, r))
      && (forall i: nat | LastToLead(s, order, answers, i, r) ::
            r in w && w[r] == WatchedApp(order[i], s.apps[order[i]].txid))
  {
    hide LeadsSomehow, LastToLead;
    if order == [] {
      NobodyLeads(s, answers, r);
    } else {
      var n := |order| - 1;
      var before, name := order[..n], order[n];
      assert before + [name] == order;
      RearmExactly(s, before, answers, r);
      LeadsIsKey(s, answers, name, r);
      if name in s.apps && s.apps[name].status.Tracking? {
        WatchSets(Rearm(s, before, answers), name, s.apps[name].txid, s.apps[name].paths, answers(name), r);
      }
      forall i: nat ensures LastToLead(s, order, answers, i, r) <==>
        if LeadsSomehow(s, answers, name, r) then i == n else LastToLead(s, before, answers, i, r)
      {
        LastOfMore(s, before, name, answers, i, r);
      }
      forall i: nat | LastToLead(s, before, answers, i, r) ensures i < n && before[i] == order[i] {
        LeadsInside(s, before, answers, i, r);
      }
      assert LeadsSomehow(s, answers, name, r) ==> LastToLead(s, order, answers, n, r);
      if r in Rearm(s, before, answers) {
        var i: nat :| LastToLead(s, before, answers, i, r);
        assert LeadsSomehow(s, answers, name, r) || LastToLead(s, order, answers, i, r);
      }
    }
  }

  predicate WatchedFor(s: State, w: WatchedApp, name: Name) {
    name in s.apps && w.name == name && w.txid == s.apps[name].txid
  }

  lemma NobodyLeads(s: State, answers: Name -> Answers, r: Path)
    ensures forall i: nat :: !LastToLead(s, [], answers, i, r)
  {
  }

  lemma LeadsInside(s: State, order: seq<Name>, answers: Name -> Answers, i: nat, r: Path)
    requires LastToLead(s, order, answers, i, r)
    ensures i < |order| && LeadsSomehow(s, answers, order[i], r) && order[i] in s.apps
  {
  }

  lemma LastOfMore(s: State, before: seq<Name>, name: Name, answers: Name -> Answers, i: nat, r: Path)
    ensures LastToLead(s, before + [name], answers, i, r) <==>
      if LeadsSomehow(s, answers, name, r) then i == |before| else LastToLead(s, before, answers, i, r)
  {
    hide LeadsSomehow;
    var order := before + [name];
    assert order[|before|] == name && forall k | 0 <= k < |before| :: order[k] == before[k];
  }

  /** The last of those that lead there, when any does. */
  lemma {:induction false} SomebodyIsLast(s: State, order: seq<Name>, answers: Name -> Answers, i: nat, r: Path)
    returns (last: nat)
    requires i < |order| && LeadsSomehow(s, answers, order[i], r)
    ensures LastToLead(s, order, answers, last, r)
    decreases |order| - i
  {
    hide LeadsSomehow;
    if k :| i < k < |order| && LeadsSomehow(s, answers, order[k], r) {
      last := SomebodyIsLast(s, order, answers, k, r);
    } else {
      last := i;
    }
  }

  /**
   After a restart exactly the real paths of what the listed rows track are watched, of each row those
   before its first failing mark; each is watched for the last row of the order that leads there, and
   nothing else changes.
   */
  lemma RestartWatchesExactly(s: State, order: seq<Name>, answers: Name -> Answers, r: Path)
    ensures var s' := Handle(s, Restart(order, answers));
      && s'.apps == s.apps && s'.transactions == s.transactions && s'.nextTxid == s.nextTxid
      && (r in s'.watched <==> exists name, j: nat :: name in order && Leads(s, answers, name, j, r))
      && (r in s'.watched ==>
        exists i: nat :: LastToLead(s, order, answers, i, r) && WatchedFor(s, s'.watched[r], order[i]))
  {
    hide Leads;
    RearmExactly(s, order, answers, r);
    if r in Rearm(s, order, answers) {
      var i: nat :| LastToLead(s, order, answers, i, r);
      LeadsInside(s, order, answers, i, r);
      var j: nat :| Leads(s, answers, order[i], j, r);
      assert order[i] in order;
    }
    if name, j: nat :| name in order && Leads(s, answers, name, j, r) {
      var i :| 0 <= i < |order| && order[i] == name;
      assert LeadsSomehow(s, answers, name, r);
      var last := SomebodyIsLast(s, order, answers, i, r);
    }
  }

  /**
   So with working marks every path of a tracked application that is listed is watched under its real
   path, for an application that really has that path and under that application's transaction; for
   this application when no other one leads there.
   */
  lemma RestartWatchesAll(s: State, order: seq<Name>, answers: Name -> Answers, name: Name, j: nat)
    requires name in order && name in s.apps && s.apps[name].status == Tracking
    requires j < |s.apps[name].paths| <= answers(name).marks
    ensures var p, a := s.apps[name].paths[j], answers(name);
      var r := if p in a.canonical then a.canonical[p] else p;
      var w := Handle(s, Restart(order, answers)).watched;
      && r in w && w[r].name in s.apps && w[r].txid == s.apps[w[r].name].txid
      && (exists k: nat :: Leads(s, answers, w[r].name, k, r))
      && ((forall n, k: nat | n in order && Leads(s, answers, n, k, r) :: n == name) ==> w[r].name == name)
  {
    var p, a := s.apps[name].paths[j], answers(name);
    var r := if p in a.canonical then a.canonical[p] else p;
    assert Leads(s, answers, name, j, r);
    RestartWatchesExactly(s, order, answers, r);
    hide Leads, Handle;
    var w := Handle(s, Restart(order, answers)).watched;
    var i: nat :| LastToLead(s, order, answers, i, r) && WatchedFor(s, w[r], order[i]);
    LeadsInside(s, order, answers, i, r);
    var k: nat :| Leads(s, answers, order[i], k, r);
  }
}
