/** The order in which a sorted set or map of paths iterates: component by component. */
module Ordering {
  import opened Paths

  predicate NameLess(a: Name, b: Name)
    decreases |a|
  {
    b != [] && (a == [] || a[0] < b[0] || (a[0] == b[0] && NameLess(a[1..], b[1..])))
  }

  predicate PathLess(a: Path, b: Path)
    decreases |a|
  {
    b != [] && (a == [] || NameLess(a[0], b[0]) || (a[0] == b[0] && PathLess(a[1..], b[1..])))
  }

  lemma {:induction false} NameLessTransitive(a: Name, b: Name, c: Name)
    requires NameLess(a, b) && NameLess(b, c)
    ensures NameLess(a, c)
    decreases |a|
  {
    if a != [] && a[0] == b[0] && b[0] == c[0] {
      NameLessTransitive(a[1..], b[1..], c[1..]);
    }
  }

  lemma {:induction false} NameLessTotal(a: Name, b: Name)
    ensures a == b <==> !NameLess(a, b) && !NameLess(b, a)
    ensures !(NameLess(a, b) && NameLess(b, a))
    decreases |a|
  {
    if a != [] && b != [] {
      assert a == [a[0]] + a[1..] && b == [b[0]] + b[1..];
      NameLessTotal(a[1..], b[1..]);
    }
  }

  lemma {:induction false} PathLessTransitive(a: Path, b: Path, c: Path)
    requires PathLess(a, b) && PathLess(b, c)
    ensures PathLess(a, c)
    decreases |a|
  {
    if a != [] {
      if NameLess(a[0], b[0]) && NameLess(b[0], c[0]) {
        NameLessTransitive(a[0], b[0], c[0]);
      } else if a[0] == b[0] && b[0] == c[0] {
        PathLessTransitive(a[1..], b[1..], c[1..]);
      }
    }
  }

  lemma {:induction false} PathLessTotal(a: Path, b: Path)
    ensures a == b <==> !PathLess(a, b) && !PathLess(b, a)
    ensures !(PathLess(a, b) && PathLess(b, a))
    decreases |a|
  {
    if a != [] && b != [] {
      assert a == [a[0]] + a[1..] && b == [b[0]] + b[1..];
      NameLessTotal(a[0], b[0]);
      PathLessTotal(a[1..], b[1..]);
    }
  }

  ghost predicate Increasing(s: seq<Path>) {
    forall i, j | 0 <= i < j < |s| :: PathLess(s[i], s[j])
  }

  /** Insertion into a sorted set. */
  function Insert(s: seq<Path>, p: Path): seq<Path>
    decreases |s|
  {
    if s == [] then [p]
    else if s[0] == p then s
    else if PathLess(p, s[0]) then [p] + s
    else [s[0]] + Insert(s[1..], p)
  }

  lemma {:induction false} InsertKeepsOrder(s: seq<Path>, p: Path)
    requires Increasing(s)
    ensures Increasing(Insert(s, p))
    ensures forall q :: q in Insert(s, p) <==> q in s || q == p
    decreases |s|
  {
    if s == [] {
    } else if s[0] == p {
    } else if PathLess(p, s[0]) {
      forall j | 0 <= j < |s| ensures PathLess(p, s[j]) {
        if j > 0 {
          PathLessTransitive(p, s[0], s[j]);
        }
      }
    } else {
      PathLessTotal(p, s[0]);
      InsertKeepsOrder(s[1..], p);
      var rest := Insert(s[1..], p);
      forall j | 0 <= j < |rest| ensures PathLess(s[0], rest[j]) {
        assert rest[j] in rest;
      }
      assert s == [s[0]] + s[1..];
    }
  }

  // ---- The order, by the first difference ----

  ghost predicate NameBefore(a: Name, b: Name) {
    exists j: nat :: FirstCharDiffers(a, b, j)
  }

  predicate FirstCharDiffers(a: Name, b: Name, j: nat) {
    j <= |a| && j < |b| && a[..j] == b[..j] && (j == |a| || a[j] < b[j])
  }

  predicate FirstNameDiffers(a: Path, b: Path, i: nat) {
    i <= |a| && i < |b| && a[..i] == b[..i] && (i == |a| || NameLess(a[i], b[i]))
  }

  lemma {:induction false} NameLessByDifference(a: Name, b: Name)
    ensures NameLess(a, b) <==> NameBefore(a, b)
    decreases |a|
  {
    if a == [] {
      assert b != [] ==> FirstCharDiffers(a, b, 0);
    } else if b != [] && a[0] == b[0] {
      NameLessByDifference(a[1..], b[1..]);
      if j: nat :| FirstCharDiffers(a[1..], b[1..], j) {
        assert a[..j + 1] == [a[0]] + a[1..][..j] && b[..j + 1] == [b[0]] + b[1..][..j];
        assert FirstCharDiffers(a, b, j + 1);
      }
      if j: nat :| FirstCharDiffers(a, b, j) {
        assert j > 0 && a[1..][..j - 1] == a[..j][1..] && b[1..][..j - 1] == b[..j][1..];
        assert FirstCharDiffers(a[1..], b[1..], j - 1);
      }
    } else if b != [] {
      assert a[0] < b[0] ==> FirstCharDiffers(a, b, 0);
      if j: nat :| FirstCharDiffers(a, b, j) {
        assert j > 0 ==> a[..j][0] == b[..j][0];
      }
    }
  }

  /**
   A path stands before another one when it is above it, or when the first component in which they
   differ is an initial part of the other one's, or has the smaller character where they first differ.
   */
  lemma {:induction false} PathLessByDifference(a: Path, b: Path)
    ensures PathLess(a, b) <==>
      exists i: nat :: i <= |a| && i < |b| && a[..i] == b[..i] && (i == |a| || NameBefore(a[i], b[i]))
  {
    PathLessAtDifference(a, b);
    if i: nat :| FirstNameDiffers(a, b, i) {
      if i < |a| {
        NameLessByDifference(a[i], b[i]);
      }
    }
    if i: nat :| i <= |a| && i < |b| && a[..i] == b[..i] && (i == |a| || NameBefore(a[i], b[i])) {
      if i < |a| {
        NameLessByDifference(a[i], b[i]);
      }
      assert FirstNameDiffers(a, b, i);
    }
  }

  lemma {:induction false} PathLessAtDifference(a: Path, b: Path)
    ensures PathLess(a, b) <==> exists i: nat :: FirstNameDiffers(a, b, i)
    decreases |a|
  {
    if a == [] {
      assert b != [] ==> FirstNameDiffers(a, b, 0);
    } else if b != [] && a[0] == b[0] {
      NameLessTotal(a[0], b[0]);
      PathLessAtDifference(a[1..], b[1..]);
      if i: nat :| FirstNameDiffers(a[1..], b[1..], i) {
        assert a[..i + 1] == [a[0]] + a[1..][..i] && b[..i + 1] == [b[0]] + b[1..][..i];
        assert FirstNameDiffers(a, b, i + 1);
      }
      if i: nat :| FirstNameDiffers(a, b, i) {
        assert i > 0 && a[1..][..i - 1] == a[..i][1..] && b[1..][..i - 1] == b[..i][1..];
        assert FirstNameDiffers(a[1..], b[1..], i - 1);
      }
    } else if b != [] {
      assert NameLess(a[0], b[0]) ==> FirstNameDiffers(a, b, 0);
      if i: nat :| FirstNameDiffers(a, b, i) {
        assert i > 0 ==> a[..i][0] == b[..i][0];
      }
    }
  }
}
