/** Options and normalised absolute paths, held as their components: [] is "/". */
module Paths {

  datatype Option<+T> = None | Some(value: T)

  type Name = string
  type Path = seq<Name>

  function Parent(p: Path): Path
    requires p != []
  {
    p[..|p| - 1]
  }

  /** All prefixes of `p`: its ancestors, the root and `p` itself. */
  function Prefixes(p: Path): (s: set<Path>)
    ensures forall q :: q in s <==> q <= p
  {
    var s := set i | 0 <= i <= |p| :: p[..i];
    assert forall q | q <= p :: q == p[..|q|];
    s
  }

  /** The `/home/<user>` or `/root` a path lives under. */
  function HomeRootOf(p: Path): Option<Path> {
    if p == [] then None
    else if p[0] == "root" then Some(["root"])
    else if p[0] == "home" && |p| >= 2 then Some(p[..2])
    else None
  }

  /** Every path at or below a home root has that home root, and no other. */
  lemma HomeRootOfBelow(p: Path, q: Path)
    requires HomeRootOf(p).Some?
    ensures HomeRootOf(p).value <= p
    ensures HomeRootOf(p).value <= q ==> HomeRootOf(q) == HomeRootOf(p)
  {
    var h := HomeRootOf(p).value;
    if h <= q {
      assert q[0] == h[0];
      if |h| == 2 {
        assert q[..2] == h;
      }
    }
  }

  lemma PrefixesChain(a: Path, b: Path, c: Path)
    requires a <= c && b <= c
    ensures a <= b || b < a
  {
    assert a == c[..|a|] && b == c[..|b|];
  }
}
