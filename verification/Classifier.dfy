/** Semantic classification of a path by string prefixes, and what a rollback may do with it. */
module Classifier {
  import opened Paths

  datatype Category =
    | Binary | Config | Cache | RuntimeState | TempFile | Log | Symlink | UserData
    | Library | SystemCache | PackageDb | ServiceUnit | Unknown

  datatype Action = RemoveSafe | ArchiveAndRestore | RemoveCache | Skip | AskUser | NeverTouch

  /** The three ways `process_mutation` tells actions apart. */
  datatype Policy = Never | Ignore | Act

  predicate OccursAt(s: string, part: string, i: nat) {
    i + |part| <= |s| && s[i..i + |part|] == part
  }

  predicate Contains(s: string, part: string) {
    exists i: nat | i <= |s| :: OccursAt(s, part, i)
  }

  predicate EndsWith(s: string, suffix: string) {
    |suffix| <= |s| && s[|s| - |suffix|..] == suffix
  }

  /** The text of a path: each component behind its own slash. */
  function Tail(p: Path): string {
    if p == [] then "" else "/" + p[0] + Tail(p[1..])
  }

  function Render(p: Path): string {
    if p == [] then "/" else Tail(p)
  }

  predicate InHome(s: string) {
    "/home/" <= s || s == "/home" || "/root/" <= s || s == "/root"
  }

  predicate InPackageDb(s: string) {
    "/var/lib/pacman" <= s || "/var/lib/dpkg" <= s || "/var/lib/rpm" <= s || "/var/lib/dnf" <= s
  }

  predicate InGeneratedCache(s: string) {
    || "/var/cache/" <= s || Contains(s, "/icons/hicolor/icon-theme.cache")
    || Contains(s, "font") || "/usr/share/info/dir" <= s || Contains(s, "mime")
    || EndsWith(s, ".cache") || "/var/cache" <= s
  }

  function Classify(s: string, isLink: bool): Category {
    if InHome(s) then UserData
    else if InPackageDb(s) then PackageDb
    else if InGeneratedCache(s) then Cache
    else if "/tmp/" <= s || "/var/tmp/" <= s then TempFile
    else if "/run/" <= s || "/var/run/" <= s then RuntimeState
    else if "/var/log/" <= s then Log
    else if "/usr/lib/systemd/" <= s || "/etc/systemd/" <= s then ServiceUnit
    else if "/etc/" <= s then Config
    else if "/usr/lib/" <= s || "/lib/" <= s || "/lib64/" <= s || "/usr/lib64/" <= s then
      if Contains(s, ".cache") || Contains(s, "/locale/") then SystemCache else Library
    else if "/usr/bin/" <= s || "/usr/sbin/" <= s || "/bin/" <= s || "/sbin/" <= s then Binary
    else if "/usr/share/" <= s then
      if || Contains(s, "icons") || Contains(s, "pixmaps") || Contains(s, "applications")
         || Contains(s, "mime") || Contains(s, "fonts")
      then SystemCache else Binary
    else if isLink then Symlink
    else Unknown
  }

  function ActionFor(c: Category): Action {
    match c
    case UserData => NeverTouch
    case PackageDb | RuntimeState | Log => Skip
    case Cache | SystemCache | TempFile => RemoveCache
    case Config | ServiceUnit => ArchiveAndRestore
    case Binary | Library | Symlink => RemoveSafe
    case Unknown => AskUser
  }

  function PolicyFor(s: string, isLink: bool): Policy {
    match ActionFor(Classify(s, isLink))
    case NeverTouch => Never
    case Skip => Ignore
    case _ => Act
  }

  /** The one look at the disk that classification takes never changes what a rollback does. */
  lemma LinkCheckNeverMatters(s: string, isLink: bool)
    ensures PolicyFor(s, isLink) == PolicyFor(s, false)
  {
  }

  ghost predicate ValidName(n: Name) {
    n != "" && '/' !in n
  }

  lemma {:induction false} TailStart(p: Path)
    requires p != [] && forall n | n in p :: ValidName(n)
    ensures Tail(p)[0] == '/' && p[0] == Tail(p)[1..1 + |p[0]|]
    ensures |Tail(p)| == 1 + |p[0]| || Tail(p)[1 + |p[0]|] == '/'
    ensures |p| == 1 <==> |Tail(p)| == 1 + |p[0]|
  {
    if |p| > 1 {
      assert p[1] in p;
    }
  }

  /** The first component is read off the text: prefix tests with a slash are component tests. */
  lemma FirstComponent(p: Path, first: Name)
    requires p != [] && ValidName(first) && forall n | n in p :: ValidName(n)
    ensures ("/" + first + "/" <= Render(p) || Render(p) == "/" + first) <==> p[0] == first
  {
    TailStart(p);
    var s := Tail(p);
    var f := "/" + first + "/";
    assert p[0] in p;
    if f <= s {
      assert s[|first| + 1] == f[|first| + 1] == '/';
      assert forall i | 0 <= i < |first| :: s[1 + i] == f[1 + i] == first[i];
      assert p[0] == s[1..1 + |first|] == first;
    } else if s == "/" + first {
      assert p[0] == s[1..1 + |first|] == first;
    }
  }

  /** "Never touch" covers exactly the home directories, by component and not by text. */
  lemma NeverTouchIsHome(p: Path)
    requires p != [] && forall n | n in p :: ValidName(n)
    ensures PolicyFor(Render(p), false) == Never <==> p[0] == "home" || p[0] == "root"
  {
    hide Render, ValidName;
    FirstComponent(p, "home");
    FirstComponent(p, "root");
    assert "/" + "home" + "/" == "/home/" && "/" + "home" == "/home";
    assert "/" + "root" + "/" == "/root/" && "/" + "root" == "/root";
  }

  lemma NameThenMore(a: Name, more: string, b: Name, rest: string)
    requires '/' !in a && '/' !in b && more != "" && more[0] == '/' && (rest == "" || rest[0] == '/')
    ensures a + more <= b + rest <==> a == b && more <= rest
  {
    var x, y := a + more, b + rest;
    assert |a| < |b| ==> b[|a|] in b && y[|a|] == b[|a|] && x[|a|] == '/';
    assert |b| < |a| ==> a[|b|] in a && x[|b|] == a[|b|];
    assert rest != "" ==> y[|b|] == '/';
    assert x[..|a|] == a && x[|a|..] == more && y[..|b|] == b && y[|b|..] == rest;
  }

  lemma NameAlone(a: Name, b: Name, rest: string)
    requires '/' !in a && (rest == "" || rest[0] == '/')
    ensures a <= b + rest <==> a <= b
  {
    var y := b + rest;
    assert |b| < |a| ==> a[|b|] in a;
    assert rest != "" ==> y[|b|] == '/';
    assert y[..|b|] == b;
  }

  predicate SlashFree(p: Path) {
    forall i | 0 <= i < |p| :: '/' !in p[i]
  }

  /** A test for the beginning of the text is a test of components, the last of them for its beginning. */
  lemma {:induction false} TextIsComponents(p: Path, dir: Path, stem: string)
    requires p != [] && SlashFree(p) && SlashFree(dir) && '/' !in stem
    ensures Tail(dir + [stem]) <= Tail(p) <==> dir < p && stem <= p[|dir|]
  {
    var q := dir + [stem];
    var more, rest := Tail(q[1..]), Tail(p[1..]);
    assert rest == "" || rest[0] == '/';
    assert Tail(q) == "/" + q[0] + more && Tail(p) == "/" + p[0] + rest;
    SlashedPrefix(q[0] + more, p[0] + rest);
    assert "/" + q[0] + more == "/" + (q[0] + more) && "/" + p[0] + rest == "/" + (p[0] + rest);
    if dir == [] {
      assert more == "" && q[0] + more == stem;
      NameAlone(stem, p[0], rest);
    } else {
      assert q[0] == dir[0] && q[1..] == dir[1..] + [stem] && more != "";
      NameThenMore(dir[0], more, p[0], rest);
      if |p| > 1 {
        TextIsComponents(p[1..], dir[1..], stem);
        assert p == [p[0]] + p[1..] && dir == [dir[0]] + dir[1..];
      } else {
        assert rest == "";
      }
    }
  }

  lemma SlashedPrefix(a: string, b: string)
    ensures "/" + a <= "/" + b <==> a <= b
  {
    assert a == ("/" + a)[1..] && b == ("/" + b)[1..];
  }

  lemma TopText(p: Path, stem: string)
    requires p != [] && SlashFree(p) && '/' !in stem
    ensures "/" + stem <= Render(p) <==> stem <= p[0]
  {
    TextIsComponents(p, [], stem);
    assert [] + [stem] == [stem] && Tail([stem]) == "/" + stem;
  }

  /** Text behind a top directory, or behind a directory of one. */
  lemma BehindText(p: Path, top: Name, stem: string)
    requires p != [] && SlashFree(p) && '/' !in top && '/' !in stem
    ensures "/" + top + "/" + stem <= Render(p) <==> |p| >= 2 && p[0] == top && stem <= p[1]
  {
    TextIsComponents(p, [top], stem);
    var q := [top] + [stem];
    assert q[1..] == [stem] && Tail([stem]) == "/" + stem;
    assert Tail(q) == "/" + top + ("/" + stem) == "/" + top + "/" + stem;
    assert [top] < p <==> |p| >= 2 && p[0] == top;
    hide Tail;
  }

  lemma BehindTwoText(p: Path, top: Name, dir: Name, stem: string)
    requires p != [] && SlashFree(p) && '/' !in top && '/' !in dir && '/' !in stem
    ensures "/" + top + "/" + dir + "/" + stem <= Render(p) <==>
      |p| >= 3 && p[0] == top && p[1] == dir && stem <= p[2]
  {
    TextIsComponents(p, [top, dir], stem);
    var q := [top, dir] + [stem];
    assert q[1..][1..] == [stem] && Tail([stem]) == "/" + stem;
    assert Tail(q[1..]) == "/" + dir + ("/" + stem);
    assert Tail(q) == "/" + top + ("/" + dir + ("/" + stem)) == "/" + top + "/" + dir + "/" + stem;
    assert [top, dir] < p <==> |p| >= 3 && p[0] == top && p[1] == dir;
    hide Tail;
  }

  lemma LibByName(p: Path, stem: string)
    requires p != [] && SlashFree(p) && '/' !in stem
    ensures "/var/lib/" + stem <= Render(p) <==> |p| >= 3 && p[0] == "var" && p[1] == "lib" && stem <= p[2]
  {
    BehindTwoText(p, "var", "lib", stem);
    assert "/" + "var" + "/" + "lib" + "/" + stem == "/var/lib/" + stem;
    hide Render;
  }

  lemma PackageDbByName(p: Path)
    requires p != [] && SlashFree(p)
    ensures InPackageDb(Render(p)) <==>
      |p| >= 3 && p[0] == "var" && p[1] == "lib"
      && ("pacman" <= p[2] || "dpkg" <= p[2] || "rpm" <= p[2] || "dnf" <= p[2])
  {
    LibByName(p, "pacman");
    LibByName(p, "dpkg");
    LibByName(p, "rpm");
    LibByName(p, "dnf");
    hide Render;
    DatabaseTexts();
  }

  lemma DatabaseTexts()
    ensures "/var/lib/" + "pacman" == "/var/lib/pacman" && "/var/lib/" + "dpkg" == "/var/lib/dpkg"
    ensures "/var/lib/" + "rpm" == "/var/lib/rpm" && "/var/lib/" + "dnf" == "/var/lib/dnf"
  {
  }

  /** Below `/run`, `/var/run` or `/var/log`. */
  predicate RunsOrLogs(p: Path) {
    (|p| >= 2 && p[0] == "run") || (|p| >= 3 && p[0] == "var" && (p[1] == "run" || p[1] == "log"))
  }

  lemma RunsOrLogsByText(p: Path)
    requires p != [] && SlashFree(p)
    ensures var s := Render(p); RunsOrLogs(p) <==> "/run/" <= s || "/var/run/" <= s || "/var/log/" <= s
  {
    BehindText(p, "run", "");
    BehindTwoText(p, "var", "run", "");
    BehindTwoText(p, "var", "log", "");
    hide Render;
    assert "/" + "run" + "/" + "" == "/run/";
    assert "/" + "var" + "/" + "run" + "/" + "" == "/var/run/";
    assert "/" + "var" + "/" + "log" + "/" + "" == "/var/log/";
  }

  /** There no other test for the beginning of the text holds. */
  lemma NoOtherBeginning(p: Path)
    requires p != [] && SlashFree(p) && RunsOrLogs(p)
    ensures var s := Render(p);
      !("/var/cache" <= s) && !("/usr/share/info/dir" <= s) && !("/tmp/" <= s) && !("/var/tmp/" <= s)
  {
    BehindText(p, "var", "cache");
    BehindText(p, "usr", "");
    BehindText(p, "tmp", "");
    BehindTwoText(p, "var", "tmp", "");
    hide Render;
    var s := Render(p);
    assert "/" + "var" + "/" + "cache" == "/var/cache" && "/" + "tmp" + "/" + "" == "/tmp/";
    assert "/" + "usr" + "/" + "" == "/usr/" && "/" + "var" + "/" + "tmp" + "/" + "" == "/var/tmp/";
    assert "/usr/share/info/dir" <= s ==> "/usr/" <= s by {
      assert "/usr/share/info/dir"[..5] == "/usr/";
    }
  }

  predicate LooksGenerated(s: string) {
    || Contains(s, "/icons/hicolor/icon-theme.cache") || Contains(s, "font") || Contains(s, "mime")
    || EndsWith(s, ".cache")
  }

  /** Inside and at the end. */
  lemma LooksGeneratedInside(a: string, b: string)
    ensures LooksGenerated(a + "font" + b) && LooksGenerated(a + "mime" + b) && LooksGenerated(a + ".cache")
    ensures LooksGenerated(a + "/icons/hicolor/icon-theme.cache" + b)
  {
    assert OccursAt(a + "font" + b, "font", |a|);
    assert OccursAt(a + "mime" + b, "mime", |a|);
    assert OccursAt(a + "/icons/hicolor/icon-theme.cache" + b, "/icons/hicolor/icon-theme.cache", |a|);
    assert (a + ".cache")[|a|..] == ".cache";
  }

  lemma LooksGeneratedOnly(s: string) returns (a: string, part: string, b: string)
    requires LooksGenerated(s)
    ensures s == a + part + b
    ensures part in {"font", "mime", "/icons/hicolor/icon-theme.cache"} || (part == ".cache" && b == "")
  {
    part := if Contains(s, "font") then "font" else if Contains(s, "mime") then "mime"
    else if Contains(s, "/icons/hicolor/icon-theme.cache") then "/icons/hicolor/icon-theme.cache" else ".cache";
    if part == ".cache" {
      a, b := s[..|s| - 6], "";
    } else {
      var i: nat :| i <= |s| && OccursAt(s, part, i);
      a, b := s[..i], s[i + |part|..];
    }
  }

  /**
   A rollback ignores exactly the package databases, and what lies below `/run`, `/var/run` and
   `/var/log` unless its text looks like a generated cache.
   */
  lemma IgnoredExactly(p: Path, isLink: bool)
    requires p != [] && forall n | n in p :: ValidName(n)
    ensures PolicyFor(Render(p), isLink) == Ignore <==>
      (|p| >= 3 && p[0] == "var" && p[1] == "lib"
        && ("pacman" <= p[2] || "dpkg" <= p[2] || "rpm" <= p[2] || "dnf" <= p[2]))
      || (((|p| >= 2 && p[0] == "run") || (|p| >= 3 && p[0] == "var" && (p[1] == "run" || p[1] == "log")))
        && !LooksGenerated(Render(p)))
  {
    hide Render, Contains, EndsWith;
    assert forall i | 0 <= i < |p| :: p[i] in p;
    NeverTouchIsHome(p);
    LinkCheckNeverMatters(Render(p), isLink);
    PackageDbByName(p);
    RunsOrLogsByText(p);
    if RunsOrLogs(p) {
      NoOtherBeginning(p);
    }
  }
}
