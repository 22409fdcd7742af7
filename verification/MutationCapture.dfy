/** Reference-counted marks, one per filesystem, and the one group that holds them. */
module MutationCapture {
  import opened Paths

  type Device = nat

  datatype Capture = Capture(refcounts: map<Device, nat>, group: bool, marked: set<Device>)

  const IDLE: Capture := Capture(map[], false, {})

  function Count(refcounts: map<Device, nat>, dev: Device): nat {
    if dev in refcounts then refcounts[dev] else 0
  }

  /** `start`: the device if it resolved, then whether the group and the mark could be made. */
  function Started(c: Capture, dev: Option<Device>, groupWorks: bool, markWorks: bool): (Capture, bool) {
    if dev.None? || (!c.group && !groupWorks) then (c, false)
    else
      var d := dev.value;
      var first := Count(c.refcounts, d) == 0;
      (Capture(c.refcounts[d := Count(c.refcounts, d) + 1], true,
               if first && markWorks then c.marked + {d} else c.marked), !first || markWorks)
  }

  /** `stop`: an unresolved device is left as it is; an unmark that fails is only logged. */
  function Stopped(c: Capture, dev: Option<Device>, unmarkWorks: bool): Capture {
    if dev.None? then c
    else
      var d := dev.value;
      var last := d in c.refcounts && c.refcounts[d] <= 1;
      var refcounts := if last then c.refcounts - {d}
                       else if d in c.refcounts then c.refcounts[d := c.refcounts[d] - 1] else c.refcounts;
      var marked := if last && c.group && unmarkWorks then c.marked - {d} else c.marked;
      // A group takes its marks with it.
      if refcounts == map[] then Capture(refcounts, false, if c.group then {} else marked)
      else Capture(refcounts, c.group, marked)
  }

  class SharedCapture {
    var refcounts: map<Device, nat>
    var group: bool
    var marked: set<Device>

    function Contents(): Capture
      reads this
    {
      Capture(refcounts, group, marked)
    }

    constructor ()
      ensures Contents() == IDLE
    {
      refcounts, group, marked := map[], false, {};
    }

    /** True on the first reference to `dev`. */
    method Bump(dev: Device) returns (first: bool)
      modifies this`refcounts
      ensures first == (Count(old(refcounts), dev) == 0)
      ensures refcounts == old(refcounts)[dev := Count(old(refcounts), dev) + 1]
    {
      first := Count(refcounts, dev) == 0;
      if dev !in refcounts {
        refcounts := refcounts[dev := 0];
      }
      refcounts := refcounts[dev := refcounts[dev] + 1];
    }

    /** True when `dev` just lost its last reference, and then its entry is gone. */
    method Release(dev: Device) returns (last: bool)
      modifies this`refcounts
      ensures last == (dev in old(refcounts) && old(refcounts)[dev] <= 1)
      ensures refcounts == if last then old(refcounts) - {dev}
                           else if dev in old(refcounts) then old(refcounts)[dev := old(refcounts)[dev] - 1]
                           else old(refcounts)
    {
      if dev in refcounts {
        refcounts := refcounts[dev := if refcounts[dev] == 0 then 0 else refcounts[dev] - 1];
        if refcounts[dev] == 0 {
          refcounts := refcounts - {dev};
          return true;
        }
      }
      return false;
    }

    method Start(dev: Option<Device>, groupWorks: bool, markWorks: bool) returns (ok: bool)
      modifies this
      ensures (Contents(), ok) == Started(old(Contents()), dev, groupWorks, markWorks)
    {
      if dev.None? {
        return false;
      }
      if !group {
        if !groupWorks {
          return false;
        }
        group := true;
      }
      var first := Bump(dev.value);
      if first {
        if !markWorks {
          return false;
        }
        marked := marked + {dev.value};
      }
      return true;
    }

    method Stop(dev: Option<Device>, unmarkWorks: bool)
      modifies this
      ensures Contents() == Stopped(old(Contents()), dev, unmarkWorks)
    {
      if dev.None? {
        return;
      }
      var last := Release(dev.value);
      if last && group && unmarkWorks {
        marked := marked - {dev.value};
      }
      if refcounts == map[] {
        if group {
          group := false;
          marked := {};
        }
      }
    }
  }

  // ---- What is counted and marked, whatever fails ----

  /** A start counts unless the device or the group is missing, even when the mark then fails. */
  lemma StartLeaves(c: Capture, dev: Option<Device>, groupWorks: bool, markWorks: bool)
    ensures var (c', ok) := Started(c, dev, groupWorks, markWorks);
      var counts := dev.Some? && (c.group || groupWorks);
      && (c'.group <==> c.group || counts)
      && (ok <==> counts && (markWorks || Count(c.refcounts, dev.value) > 0))
      && (forall x :: x in c'.refcounts <==> x in c.refcounts || (counts && x == dev.value))
      && (forall x | x in c'.refcounts ::
            c'.refcounts[x] == Count(c.refcounts, x) + if counts && x == dev.value then 1 else 0)
      && (forall x :: x in c'.marked <==>
            x in c.marked || (counts && x == dev.value && markWorks && Count(c.refcounts, x) == 0))
  {
  }

  /**
   A stop takes one reference off its device, and with the last one the entry and, if the unmark works,
   the mark; when nothing is counted any more the group goes, and the marks with it.
   */
  lemma StopLeaves(c: Capture, dev: Option<Device>, unmarkWorks: bool)
    requires forall x | x in c.refcounts :: c.refcounts[x] > 0
    ensures var c' := Stopped(c, dev, unmarkWorks);
      var last := dev.Some? && Count(c.refcounts, dev.value) == 1;
      var idle := dev.Some? && forall x | x in c.refcounts :: last && x == dev.value;
      && (c'.group <==> c.group && !idle)
      && (forall x :: x in c'.refcounts <==> x in c.refcounts && !(last && x == dev.value))
      && (forall x | x in c'.refcounts :: c'.refcounts[x] == c.refcounts[x] - if Some(x) == dev then 1 else 0)
      && (forall x :: x in c'.marked <==>
            x in c.marked && !(c.group && idle) && !(c.group && last && unmarkWorks && x == dev.value))
  {
    var c' := Stopped(c, dev, unmarkWorks);
    if dev.Some? && c'.refcounts == map[] {
      forall x | x in c.refcounts ensures c.refcounts[x] == 1 && x == dev.value {
        assert x !in c'.refcounts;
      }
    }
  }

  // ---- The balance ----

  /** `held` has one entry for every launch that was started on a device and not yet stopped. */
  ghost predicate Balanced(c: Capture, held: multiset<Device>) {
    && (forall d :: Count(c.refcounts, d) == held[d])
    && (forall d | d in c.refcounts :: c.refcounts[d] > 0)
    && (forall d :: d in c.marked <==> d in c.refcounts)
    && (c.group <==> c.refcounts != map[])
  }

  /** The device resolves, and what a first launch, here or anywhere, has to set up works. */
  predicate Startable(held: multiset<Device>, d: Device, dev: Option<Device>, groupWorks: bool, markWorks: bool) {
    dev.Some? && (held == multiset{} ==> groupWorks) && (d !in held ==> markWorks)
  }

  /** A start keeps the balance exactly when it reports success, and it does exactly when it can. */
  lemma StartBalances(c: Capture, held: multiset<Device>, d: Device, dev: Option<Device>, groupWorks: bool,
      markWorks: bool)
    requires Balanced(c, held) && (dev == Some(d) || dev == None)
    ensures var (c', ok) := Started(c, dev, groupWorks, markWorks);
      && (ok <==> Startable(held, d, dev, groupWorks, markWorks))
      && (Balanced(c', held + multiset{d}) <==> Startable(held, d, dev, groupWorks, markWorks))
  {
    GroupWhileHeld(c, held);
    assert Count(c.refcounts, d) == held[d];
    var (c', ok) := Started(c, dev, groupWorks, markWorks);
    if ok {
      assert d in c'.refcounts;
      forall x ensures Count(c'.refcounts, x) == (held + multiset{d})[x] && (x in c'.marked <==> x in c'.refcounts) {
        assert Count(c.refcounts, x) == held[x];
      }
    } else if c' == c {
      assert Count(c.refcounts, d) == held[d];
      assert (held + multiset{d})[d] == held[d] + 1;
    } else {
      assert d !in c.refcounts && d !in c'.marked && d in c'.refcounts;
    }
  }

  lemma GroupWhileHeld(c: Capture, held: multiset<Device>)
    requires Balanced(c, held)
    ensures c.group <==> held != multiset{}
  {
    if held != multiset{} {
      var x :| x in held;
      assert Count(c.refcounts, x) == held[x];
    }
    if c.refcounts != map[] {
      var x :| x in c.refcounts;
      assert Count(c.refcounts, x) == held[x];
    }
  }

  /**
   A stop after a counted start keeps the balance exactly when the device still resolves and,
   if other filesystems stay armed, an unmark that was needed works.
   */
  lemma StopBalances(c: Capture, held: multiset<Device>, d: Device, dev: Option<Device>, unmarkWorks: bool)
    requires Balanced(c, held) && d in held && (dev == Some(d) || dev == None)
    ensures Balanced(Stopped(c, dev, unmarkWorks), held - multiset{d}) <==>
      dev.Some? && (held[d] == 1 && held != multiset{d} ==> unmarkWorks)
  {
    var c' := Stopped(c, dev, unmarkWorks);
    var held' := held - multiset{d};
    assert Count(c.refcounts, d) == held[d];
    if dev == None {
      assert held'[d] == held[d] - 1;
    } else {
      OthersHeld(c, held, d);
      forall x ensures Count(c'.refcounts, x) == held'[x] {
        assert Count(c.refcounts, x) == held[x];
      }
      if c'.refcounts == map[] {
        forall x ensures x !in c.refcounts || x == d {
          assert Count(c'.refcounts, x) == 0;
        }
      } else {
        assert d in c.marked;
      }
    }
  }

  lemma OthersHeld(c: Capture, held: multiset<Device>, d: Device)
    requires Balanced(c, held) && d in held
    ensures held[d] == 1 ==> (held == multiset{d} <==> c.refcounts - {d} == map[])
  {
    if held[d] == 1 {
      if c.refcounts - {d} == map[] {
        forall x ensures held[x] == multiset{d}[x] {
          assert Count(c.refcounts, x) == held[x];
          assert x != d ==> x !in c.refcounts - {d};
        }
      } else {
        var x :| x in c.refcounts - {d};
        assert Count(c.refcounts, x) == held[x] > 0;
        assert multiset{d}[x] == 0;
      }
    }
  }

  /**
   The launch task stops whether or not its start succeeded. After a start that failed, wherever,
   this keeps the balance exactly when nobody else holds that device.
   */
  lemma StopAfterFailedStart(c: Capture, held: multiset<Device>, d: Device, dev: Option<Device>, groupWorks: bool,
                             markWorks: bool, unmarkWorks: bool)
    requires Balanced(c, held) && (dev == Some(d) || dev == None) && !Startable(held, d, dev, groupWorks, markWorks)
    ensures Balanced(Stopped(Started(c, dev, groupWorks, markWorks).0, Some(d), unmarkWorks), held) <==> d !in held
  {
    var c1 := Started(c, dev, groupWorks, markWorks).0;
    GroupWhileHeld(c, held);
    assert Count(c.refcounts, d) == held[d];
    var c' := Stopped(c1, Some(d), unmarkWorks);
    if d in held {
      assert c1 == c && Count(c'.refcounts, d) < held[d];
    } else if c1 == c {
      assert d !in c.refcounts && c'.refcounts == c.refcounts;
      assert forall x | x in c.marked :: x in c.refcounts;
    } else {
      // The mark failed: the stop takes back what the start counted.
      assert c.refcounts[d := 1] - {d} == c.refcounts;
      assert c'.refcounts == c.refcounts && d !in c.marked;
    }
  }

  /** When exactly one other launch holds it, that launch is left without its mark. */
  lemma FailedStartDisarmsAnother(c: Capture, held: multiset<Device>, d: Device, dev: Option<Device>,
      groupWorks: bool, markWorks: bool)
    requires Balanced(c, held) && (dev == Some(d) || dev == None) && !Startable(held, d, dev, groupWorks, markWorks)
    requires held[d] == 1
    ensures d in c.marked && d !in Stopped(Started(c, dev, groupWorks, markWorks).0, Some(d), true).marked
  {
    GroupWhileHeld(c, held);
    assert Count(c.refcounts, d) == held[d];
  }

  // ---- Whole runs ----

  datatype Step = Start(d: Device) | Stop(d: Device)

  function After(c: Capture, steps: seq<Step>): Capture {
    if steps == [] then c
    else
      var before := After(c, steps[..|steps| - 1]);
      match steps[|steps| - 1]
      case Start(d) => Started(before, Some(d), true, true).0
      case Stop(d) => Stopped(before, Some(d), true)
  }

  function Held(steps: seq<Step>): multiset<Device> {
    if steps == [] then multiset{}
    else
      var before := Held(steps[..|steps| - 1]);
      match steps[|steps| - 1]
      case Start(d) => before + multiset{d}
      case Stop(d) => before - multiset{d}
  }

  /** Every stop ends a launch that was started. */
  predicate Paired(steps: seq<Step>) {
    forall i | 0 <= i < |steps| :: steps[i].Stop? ==> steps[i].d in Held(steps[..i])
  }

  /** With working calls: balanced after every interleaving of starts and stops, idle when none is held. */
  lemma {:induction false} AlwaysBalanced(steps: seq<Step>)
    requires Paired(steps)
    ensures Balanced(After(IDLE, steps), Held(steps))
    ensures Held(steps) == multiset{} ==> After(IDLE, steps) == IDLE
  {
    if steps != [] {
      var before, last := steps[..|steps| - 1], steps[|steps| - 1];
      assert forall i | 0 <= i < |before| :: before[..i] == steps[..i];
      AlwaysBalanced(before);
      match last {
        case Start(d) => StartBalances(After(IDLE, before), Held(before), d, Some(d), true, true);
        case Stop(d) => StopBalances(After(IDLE, before), Held(before), d, Some(d), true);
      }
    }
    NothingHeld(After(IDLE, steps), Held(steps));
  }

  lemma NothingHeld(c: Capture, held: multiset<Device>)
    requires Balanced(c, held)
    ensures held == multiset{} ==> c == IDLE
  {
    if held == multiset{} {
      forall d ensures d !in c.refcounts && d !in c.marked {
        assert Count(c.refcounts, d) == held[d];
      }
    }
  }
}
