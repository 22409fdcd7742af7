/** The per-group prompt loop: which groups a stream of answer lines selects for removal. */
module ReviewLoop {
  import opened Paths
  import opened Review

  datatype Answer = UseDefault | RemoveIt | KeepIt | RemoveRest | KeepRest | ListFiles | Invalid

  /** Unicode's white space. */
  predicate IsSpace(c: char) {
    var n := c as int;
    || 9 <= n <= 13 || n == 32 || n == 0x85 || n == 0xA0 || n == 0x1680 || 0x2000 <= n <= 0x200A
    || n == 0x2028 || n == 0x2029 || n == 0x202F || n == 0x205F || n == 0x3000
  }

  function Trim(s: string): string {
    if s == "" then s
    else if IsSpace(s[0]) then Trim(s[1..])
    else if IsSpace(s[|s| - 1]) then Trim(s[..|s| - 1])
    else s
  }

  function Parse(line: string): Answer {
    var s := Lower(Trim(line));
    if s == "" then UseDefault
    else if s == "r" then RemoveIt
    else if s == "k" then KeepIt
    else if s == "a" then RemoveRest
    else if s == "s" then KeepRest
    else if s == "l" then ListFiles
    else Invalid
  }

  function KeysOf(gs: seq<Group>): (ks: set<Path>)
    ensures forall k :: k in ks <==> exists g | g in gs :: g.key == k
  {
    set g | g in gs :: g.key
  }

  function Default(g: Group): set<Path> {
    if g.suggested == Remove then {g.key} else {}
  }

  function Defaults(gs: seq<Group>): set<Path> {
    if gs == [] then {} else Default(gs[0]) + Defaults(gs[1..])
  }

  /** What a review means: each group in turn takes the next answer that decides it. */
  function Decide(gs: seq<Group>, lines: seq<string>): set<Path>
    decreases |gs| + |lines|
  {
    if gs == [] then {}
    else if lines == [] then Defaults(gs)
    else
      match Parse(lines[0])
      case UseDefault => Default(gs[0]) + Decide(gs[1..], lines[1..])
      case RemoveIt => {gs[0].key} + Decide(gs[1..], lines[1..])
      case KeepIt => Decide(gs[1..], lines[1..])
      case RemoveRest => KeysOf(gs)
      case KeepRest => {}
      case ListFiles | Invalid => Decide(gs, lines[1..])
  }

  /** The groups behind the first one with key `k`: where the code resumes at end of input. */
  function Behind(gs: seq<Group>, k: Path): seq<Group> {
    if gs == [] then [] else if gs[0].key == k then gs[1..] else Behind(gs[1..], k)
  }

  /** As `Decide`, with the code's own way of finding the remaining groups at end of input. */
  function DecideAsCoded(all: seq<Group>, i: nat, lines: seq<string>): set<Path>
    requires i <= |all|
    decreases |all| - i + |lines|
  {
    if i == |all| then {}
    else if lines == [] then Default(all[i]) + Defaults(Behind(all, all[i].key))
    else
      match Parse(lines[0])
      case UseDefault => Default(all[i]) + DecideAsCoded(all, i + 1, lines[1..])
      case RemoveIt => {all[i].key} + DecideAsCoded(all, i + 1, lines[1..])
      case KeepIt => DecideAsCoded(all, i + 1, lines[1..])
      case RemoveRest => KeysOf(all[i..])
      case KeepRest => {}
      case ListFiles | Invalid => DecideAsCoded(all, i, lines[1..])
  }

  function Repeat(line: string, n: nat): seq<string> {
    seq(n, _ => line)
  }

  lemma {:induction false} InDefaults(gs: seq<Group>, k: Path)
    ensures k in Defaults(gs) <==> exists m | 0 <= m < |gs| :: k in Default(gs[m])
  {
    hide Default;
    if gs != [] {
      InDefaults(gs[1..], k);
      assert forall m | 0 <= m < |gs[1..]| :: gs[1..][m] == gs[m + 1];
      if k in Defaults(gs[1..]) {
        var m :| 0 <= m < |gs[1..]| && k in Default(gs[1..][m]);
        assert k in Default(gs[m + 1]);
      }
    }
  }

  /** The code resumes behind the first group with the key. */
  lemma {:induction false} BehindFirst(gs: seq<Group>, j: nat) returns (i: nat)
    requires j < |gs|
    ensures i <= j && gs[i].key == gs[j].key && Behind(gs, gs[j].key) == gs[i + 1..]
  {
    if gs[0].key == gs[j].key {
      i := 0;
    } else {
      var i' := BehindFirst(gs[1..], j - 1);
      i := i' + 1;
      assert gs[1..][i' + 1..] == gs[i + 1..];
    }
  }

  /**
   Whatever stands between two groups with one key and is to be removed by default is to be
   removed by default again at or behind the second of them.
   */
  ghost predicate RepeatsAreHarmless(gs: seq<Group>) {
    forall i, m, j | 0 <= i < m < j < |gs| && gs[i].key == gs[j].key && gs[m].suggested == Remove ::
      RemovedFrom(gs, j, gs[m].key)
  }

  ghost predicate RemovedFrom(gs: seq<Group>, j: nat, k: Path) {
    exists n | j <= n < |gs| :: gs[n].key == k && gs[n].suggested == Remove
  }

  lemma DefaultsFrom(gs: seq<Group>, j: nat, k: Path)
    requires j <= |gs|
    ensures k in Defaults(gs[j..]) <==> RemovedFrom(gs, j, k)
  {
    InDefaults(gs[j..], k);
    assert forall m | 0 <= m < |gs[j..]| :: gs[j..][m] == gs[j + m];
    if RemovedFrom(gs, j, k) {
      var n :| j <= n < |gs| && gs[n].key == k && gs[n].suggested == Remove;
      assert gs[j..][n - j] == gs[n];
    }
  }

  lemma EndIsRightFor(gs: seq<Group>, i: nat, j: nat, k: Path)
    requires RepeatsAreHarmless(gs) && i <= j < |gs| && gs[i].key == gs[j].key
    ensures k in Default(gs[j]) + Defaults(gs[i + 1..]) <==> k in Defaults(gs[j..])
  {
    hide Defaults;
    DefaultsFrom(gs, i + 1, k);
    DefaultsFrom(gs, j, k);
    if RemovedFrom(gs, i + 1, k) {
      var m :| i + 1 <= m < |gs| && gs[m].key == k && gs[m].suggested == Remove;
      assert m < j ==> RemovedFrom(gs, j, gs[m].key);
    }
  }

  /** At end of input the code then adds what it should. */
  lemma EndIsRight(gs: seq<Group>, j: nat)
    requires RepeatsAreHarmless(gs) && j < |gs|
    ensures Default(gs[j]) + Defaults(Behind(gs, gs[j].key)) == Defaults(gs[j..])
  {
    hide *;
    var i := BehindFirst(gs, j);
    forall k ensures k in Default(gs[j]) + Defaults(gs[i + 1..]) <==> k in Defaults(gs[j..]) {
      EndIsRightFor(gs, i, j, k);
    }
  }

  /** The code decides as it should, group by group, when repeated keys are harmless. */
  lemma {:induction false} CodeDecides(all: seq<Group>, i: nat, lines: seq<string>)
    requires RepeatsAreHarmless(all) && i <= |all|
    ensures DecideAsCoded(all, i, lines) == Decide(all[i..], lines)
    decreases |all| - i + |lines|
  {
    hide RepeatsAreHarmless, Parse;
    if i < |all| {
      assert all[i..][1..] == all[i + 1..];
      if lines == [] {
        EndIsRight(all, i);
      } else {
        CodeDecides(all, i + 1, lines[1..]);
        CodeDecides(all, i, lines[1..]);
      }
    }
  }

  lemma DistinctKeysDecide(gs: seq<Group>, lines: seq<string>)
    ensures DistinctKeys(gs) ==> DecideAsCoded(gs, 0, lines) == Decide(gs, lines)
  {
    hide Decide, DecideAsCoded;
    if DistinctKeys(gs) {
      DistinctKeysAreHarmless(gs);
      CodeDecides(gs, 0, lines);
      assert gs[0..] == gs;
    }
  }

  lemma AllDecided(all: seq<Group>, lines: seq<string>)
    ensures DecideAsCoded(all, |all|, lines) == {}
  {
  }

  lemma DistinctKeysAreHarmless(gs: seq<Group>)
    requires DistinctKeys(gs)
    ensures RepeatsAreHarmless(gs)
  {
  }

  /** `k` for every group up to the one where the input ends. */
  lemma {:induction false} KeepUpTo(all: seq<Group>, i: nat, j: nat)
    requires i <= j <= |all|
    ensures DecideAsCoded(all, i, Repeat("k", j - i)) == DecideAsCoded(all, j, [])
    ensures Decide(all[i..], Repeat("k", j - i)) == Decide(all[j..], [])
    decreases j - i
  {
    if i < j {
      assert Parse("k") == KeepIt by {
        assert Lower("k") == "k";
      }
      assert all[i..][1..] == all[i + 1..] && Repeat("k", j - i)[1..] == Repeat("k", j - i - 1);
      KeepUpTo(all, i + 1, j);
    }
  }

  /**
   For every answer stream the code decides as it should exactly when repeated keys are
   harmless; otherwise keeping every group up to some point and ending the input there makes it
   remove a group that was kept.
   */
  lemma CodeDecidesExactly(all: seq<Group>)
    ensures (forall lines :: DecideAsCoded(all, 0, lines) == Decide(all, lines)) <==> RepeatsAreHarmless(all)
  {
    hide DecideAsCoded, Decide;
    assert all[0..] == all;
    if RepeatsAreHarmless(all) {
      forall lines ensures DecideAsCoded(all, 0, lines) == Decide(all, lines) {
        CodeDecides(all, 0, lines);
      }
    } else {
      var i, m, j :| && 0 <= i < m < j < |all| && all[i].key == all[j].key && all[m].suggested == Remove
                     && !RemovedFrom(all, j, all[m].key);
      KeptIsRemoved(all, i, m, j);
    }
  }

  lemma KeptIsRemoved(all: seq<Group>, i: nat, m: nat, j: nat)
    requires i < m < j < |all| && all[i].key == all[j].key && all[m].suggested == Remove
    requires !RemovedFrom(all, j, all[m].key)
    ensures all[m].key in DecideAsCoded(all, 0, Repeat("k", j))
    ensures all[m].key !in Decide(all, Repeat("k", j))
  {
    hide *;
    KeepAll(all, j);
    AtEnd(all, j);
    DefaultsFrom(all, j, all[m].key);
    RemovedBehindFirst(all, i, m);
  }

  lemma KeepAll(all: seq<Group>, j: nat)
    requires j <= |all|
    ensures DecideAsCoded(all, 0, Repeat("k", j)) == DecideAsCoded(all, j, [])
    ensures Decide(all, Repeat("k", j)) == Decide(all[j..], [])
  {
    hide *;
    assert all[0..] == all;
    KeepUpTo(all, 0, j);
  }

  lemma RemovedBehindFirst(all: seq<Group>, i: nat, m: nat)
    requires i < m < |all| && all[m].suggested == Remove
    ensures all[m].key in Defaults(Behind(all, all[i].key))
  {
    hide Defaults, Behind;
    var first := BehindFirst(all, i);
    DefaultsFrom(all, first + 1, all[m].key);
    assert RemovedFrom(all, first + 1, all[m].key);
  }

  lemma AtEnd(all: seq<Group>, j: nat)
    requires j < |all|
    ensures Defaults(Behind(all, all[j].key)) <= DecideAsCoded(all, j, [])
    ensures Decide(all[j..], []) == Defaults(all[j..])
  {
  }

  lemma {:induction false} KeysOfSplit(gs: seq<Group>)
    requires gs != []
    ensures KeysOf(gs) == {gs[0].key} + KeysOf(gs[1..])
  {
    assert gs == [gs[0]] + gs[1..];
  }

  /** The first answer that decides, and the input behind it; nothing at end of input. */
  function NextAnswer(lines: seq<string>): Option<(Answer, seq<string>)> {
    if lines == [] then None
    else if Undecided(lines[0]) then NextAnswer(lines[1..])
    else Some((Parse(lines[0]), lines[1..]))
  }

  function DecideBy(all: seq<Group>, i: nat, next: Option<(Answer, seq<string>)>): set<Path>
    requires i < |all|
  {
    match next
    case None => Default(all[i]) + Defaults(Behind(all, all[i].key))
    case Some((answer, rest)) =>
      match answer
      case UseDefault => Default(all[i]) + DecideAsCoded(all, i + 1, rest)
      case RemoveIt => {all[i].key} + DecideAsCoded(all, i + 1, rest)
      case KeepIt => DecideAsCoded(all, i + 1, rest)
      case RemoveRest => KeysOf(all[i..])
      case _ => {}
  }

  lemma {:induction false} PromptUntilDecided(all: seq<Group>, i: nat, lines: seq<string>)
    requires i < |all|
    ensures DecideAsCoded(all, i, lines) == DecideBy(all, i, NextAnswer(lines))
    decreases |lines|
  {
    if lines != [] {
      PromptUntilDecided(all, i, lines[1..]);
    }
  }

  /** The inner loop: prompt until an answer decides or the input ends. */
  method Prompt(lines: seq<string>, start: nat) returns (answer: Option<Answer>, next: nat)
    requires start <= |lines|
    ensures start <= next <= |lines|
    ensures NextAnswer(lines[start..]) ==
            if answer.None? then None else Some((answer.value, lines[next..]))
    ensures answer.Some? ==> !answer.value.ListFiles? && !answer.value.Invalid?
  {
    next := start;
    while next < |lines|
      invariant start <= next <= |lines|
      invariant NextAnswer(lines[start..]) == NextAnswer(lines[next..])
    {
      var parsed := Parse(lines[next]);
      assert lines[next..][1..] == lines[next + 1..];
      next := next + 1;
      if !parsed.ListFiles? && !parsed.Invalid? {
        return Some(parsed), next;
      }
    }
    return None, next;
  }

  /** The loop at end of input over the groups still to come. */
  method SelectDefaults(remaining: seq<Group>, chosen: set<Path>) returns (selected: set<Path>)
    ensures selected == chosen + Defaults(remaining)
  {
    selected := chosen;
    var j := 0;
    assert remaining[0..] == remaining;
    while j < |remaining|
      invariant 0 <= j <= |remaining|
      invariant chosen + Defaults(remaining) == selected + Defaults(remaining[j..])
    {
      assert remaining[j..][1..] == remaining[j + 1..];
      if remaining[j].suggested == Remove {
        selected := selected + {remaining[j].key};
      }
      j := j + 1;
    }
  }

  /** The loop of the code, with its two flags and its early return at end of input. */
  method ReviewGroups(groups: seq<Group>, lines: seq<string>) returns (selected: set<Path>)
    ensures selected == DecideAsCoded(groups, 0, lines)
    ensures DistinctKeys(groups) ==> selected == Decide(groups, lines)
  {
    hide Parse, DecideAsCoded, Decide, Default, Defaults, Behind, DistinctKeys;
    DistinctKeysDecide(groups, lines);
    selected := {};
    var forceRemove, forceKeep := false, false;
    var next := 0;
    assert lines[0..] == lines;
    for i := 0 to |groups|
      invariant next <= |lines|
      invariant !(forceRemove && forceKeep)
      invariant DecideAsCoded(groups, 0, lines) ==
        selected + (if forceRemove then KeysOf(groups[i..]) else if forceKeep then {}
                    else DecideAsCoded(groups, i, lines[next..]))
    {
      var group := groups[i];
      KeysOfSplit(groups[i..]);
      assert groups[i..][1..] == groups[i + 1..];
      if forceRemove {
        selected := selected + {group.key};
        continue;
      }
      if forceKeep {
        continue;
      }
      PromptUntilDecided(groups, i, lines[next..]);
      var answer, after := Prompt(lines, next);
      next := after;
      if answer.None? {
        selected := SelectDefaults(Behind(groups, group.key), selected + Default(group));
        return;
      }
      match answer.value {
        case UseDefault => selected := selected + Default(group);
        case RemoveIt => selected := selected + {group.key};
        case KeepIt =>
        case RemoveRest =>
          selected := selected + {group.key};
          forceRemove := true;
        case _ => forceKeep := true;
      }
    }
    AllDecided(groups, lines[next..]);
  }

  // ---- Which line is which answer ----

  predicate Undecided(line: string) {
    Parse(line).ListFiles? || Parse(line).Invalid?
  }

  predicate Blank(s: string) {
    forall i | 0 <= i < |s| :: IsSpace(s[i])
  }

  /** One letter, in either case, with any white space around it. */
  ghost predicate Types(line: string, small: char, big: char) {
    exists before, c, after :: IsLetterIn(line, before, c, after) && (c == small || c == big)
  }

  predicate IsLetterIn(line: string, before: string, c: char, after: string) {
    line == before + [c] + after && Blank(before) && Blank(after)
  }

  /** None of the five letters and not nothing. */
  ghost predicate Mistyped(line: string) {
    && !Blank(line) && !Types(line, 'r', 'R') && !Types(line, 'k', 'K') && !Types(line, 'a', 'A')
    && !Types(line, 's', 'S') && !Types(line, 'l', 'L')
  }

  lemma SpacesAreBlank(c: char)
    ensures c == ' ' || c == '\t' || c == '\n' || c == '\r' ==> IsSpace(c)
    ensures '!' <= c <= '~' ==> !IsSpace(c)
  {
  }

  lemma {:induction false} TrimBlank(s: string)
    requires Blank(s)
    ensures Trim(s) == ""
  {
    if s != "" {
      TrimBlank(s[1..]);
    }
  }

  lemma {:induction false} TrimAround(before: string, core: string, after: string)
    requires Blank(before) && Blank(after) && core != "" && !IsSpace(core[0]) && !IsSpace(core[|core| - 1])
    ensures Trim(before + core + after) == core
    decreases |before| + |after|
  {
    var s := before + core + after;
    if before != "" {
      assert s[1..] == before[1..] + core + after;
      TrimAround(before[1..], core, after);
    } else if after != "" {
      assert s[0] == core[0] && s[|s| - 1] == after[|after| - 1];
      assert s[..|s| - 1] == before + core + after[..|after| - 1];
      TrimAround(before, core, after[..|after| - 1]);
    } else {
      assert s == core;
    }
  }

  /** What is trimmed away is white space on both sides. */
  lemma {:induction false} TrimLeaves(s: string) returns (before: string, after: string)
    ensures s == before + Trim(s) + after && Blank(before) && Blank(after)
  {
    before, after := "", "";
    if s != "" {
      if IsSpace(s[0]) {
        var rest;
        rest, after := TrimLeaves(s[1..]);
        before := [s[0]] + rest;
        assert s == [s[0]] + s[1..];
      } else if IsSpace(s[|s| - 1]) {
        var rest;
        before, rest := TrimLeaves(s[..|s| - 1]);
        after := rest + [s[|s| - 1]];
        assert s == s[..|s| - 1] + [s[|s| - 1]];
      }
    }
  }

  /** A line trims to one letter exactly when it is that letter with white space around it. */
  lemma TrimsToLetter(line: string, small: char, big: char)
    requires 'a' <= small <= 'z' && big == small - 32 as char
    ensures Types(line, small, big) <==> Lower(Trim(line)) == [small]
  {
    if Types(line, small, big) {
      var before, c, after :| IsLetterIn(line, before, c, after) && (c == small || c == big);
      SpacesAreBlank(c);
      TrimAround(before, [c], after);
    }
    if Lower(Trim(line)) == [small] {
      var before, after := TrimLeaves(line);
      var c := Trim(line)[0];
      assert Trim(line) == [c] && LowerChar(c) == Lower(Trim(line))[0];
      assert IsLetterIn(line, before, c, after);
    }
  }

  lemma TrimsToNothing(line: string)
    ensures Blank(line) <==> Lower(Trim(line)) == ""
  {
    if Blank(line) {
      TrimBlank(line);
    } else {
      var before, after := TrimLeaves(line);
      assert line == before + Trim(line) + after;
    }
  }

  lemma LinesParse(line: string)
    ensures Types(line, 'r', 'R') <==> Parse(line) == RemoveIt
    ensures Types(line, 'k', 'K') <==> Parse(line) == KeepIt
    ensures Types(line, 'a', 'A') <==> Parse(line) == RemoveRest
    ensures Types(line, 's', 'S') <==> Parse(line) == KeepRest
    ensures Types(line, 'l', 'L') <==> Parse(line) == ListFiles
    ensures Blank(line) <==> Parse(line) == UseDefault
    ensures Mistyped(line) <==> Parse(line) == Invalid
  {
    hide Types, Trim, Lower, Blank;
    TrimsToLetter(line, 'r', 'R');
    TrimsToLetter(line, 'k', 'K');
    TrimsToLetter(line, 'a', 'A');
    TrimsToLetter(line, 's', 'S');
    TrimsToLetter(line, 'l', 'L');
    TrimsToNothing(line);
  }

  // ---- What the answers mean ----

  /**
   At a group: `r` selects it, `k` does not, `a` selects it and all that follow, `s` none of them, Enter
   selects it when removing it is suggested, and everything else, `l` included, leaves it to the next line.
   */
  lemma LettersDecide(gs: seq<Group>, line: string, rest: seq<string>)
    requires gs != []
    ensures var d := Decide(gs, [line] + rest);
      && (Types(line, 'r', 'R') ==> d == {gs[0].key} + Decide(gs[1..], rest))
      && (Types(line, 'k', 'K') ==> d == Decide(gs[1..], rest))
      && (Types(line, 'a', 'A') ==> d == set g | g in gs :: g.key)
      && (Types(line, 's', 'S') ==> d == {})
      && (Blank(line) ==> d == (if gs[0].suggested == Remove then {gs[0].key} else {}) + Decide(gs[1..], rest))
      && (Types(line, 'l', 'L') || Mistyped(line) ==> d == Decide(gs, rest))
    ensures Types(line, 'r', 'R') || Types(line, 'k', 'K') || Types(line, 'a', 'A') || Types(line, 's', 'S')
      || Blank(line) || Types(line, 'l', 'L') || Mistyped(line)
  {
    hide Types, Mistyped, Parse, Blank;
    LinesParse(line);
    assert ([line] + rest)[1..] == rest;
  }

  /** At end of input the suggestions stand. */
  lemma {:induction false} EndTakesSuggestions(gs: seq<Group>)
    ensures Decide(gs, []) == set g | g in gs && g.suggested == Remove :: g.key
  {
    if gs != [] {
      EndTakesSuggestions(gs[1..]);
      assert gs == [gs[0]] + gs[1..];
    }
  }

  /** Listing files and mistyping change nothing, wherever it happens. */
  lemma ListingIsInert(gs: seq<Group>, before: seq<string>, line: string, after: seq<string>)
    requires Types(line, 'l', 'L') || Mistyped(line)
    ensures Decide(gs, before + ([line] + after)) == Decide(gs, before + after)
  {
    hide Types, Mistyped, Parse, Blank;
    LinesParse(line);
    forall g: seq<Group> | |g| <= |gs| ensures Decide(g, [line] + after) == Decide(g, after) {
      assert ([line] + after)[1..] == after;
    }
    EquivalentBehind(gs, before, [line] + after, after);
  }

  /** Two answer streams that mean the same for every number of groups up to `n`. */
  ghost predicate Equivalent(n: nat, a: seq<string>, b: seq<string>) {
    forall gs: seq<Group> | |gs| <= n :: Decide(gs, a) == Decide(gs, b)
  }

  /** ... still mean the same behind any answers given before. */
  lemma {:induction false} EquivalentBehind(gs: seq<Group>, before: seq<string>, a: seq<string>, b: seq<string>)
    requires Equivalent(|gs|, a, b)
    ensures Decide(gs, before + a) == Decide(gs, before + b)
    decreases |gs| + |before|
  {
    hide Parse;
    if before == [] {
      assert before + a == a && before + b == b;
    } else if gs != [] {
      assert (before + a)[1..] == before[1..] + a && (before + b)[1..] == before[1..] + b;
      EquivalentBehind(gs[1..], before[1..], a, b);
      EquivalentBehind(gs, before[1..], a, b);
    }
  }

  lemma {:induction false} RemoveAnswers(gs: seq<Group>, n: nat, line: string, rest: seq<string>)
    requires |gs| <= n && Parse(line) == RemoveIt
    ensures Decide(gs, Repeat(line, n) + rest) == KeysOf(gs)
    decreases n
  {
    if gs != [] {
      assert (Repeat(line, n) + rest)[1..] == Repeat(line, n - 1) + rest;
      RemoveAnswers(gs[1..], n - 1, line, rest);
      KeysOfSplit(gs);
    }
  }

  lemma {:induction false} KeepAnswers(gs: seq<Group>, n: nat, line: string, rest: seq<string>)
    requires |gs| <= n && Parse(line) == KeepIt
    ensures Decide(gs, Repeat(line, n) + rest) == {}
    decreases n
  {
    if gs != [] {
      assert (Repeat(line, n) + rest)[1..] == Repeat(line, n - 1) + rest;
      KeepAnswers(gs[1..], n - 1, line, rest);
    }
  }

  lemma {:induction false} EnterAnswers(gs: seq<Group>, n: nat, line: string)
    requires Parse(line) == UseDefault
    ensures Decide(gs, Repeat(line, n)) == Defaults(gs)
    decreases n
  {
    if gs != [] && n > 0 {
      assert Repeat(line, n)[1..] == Repeat(line, n - 1);
      EnterAnswers(gs[1..], n - 1, line);
    }
  }

  /** `a` is `r` for this and every remaining group, whatever is typed afterwards. */
  lemma RemoveRestIsRemoveEach(gs: seq<Group>, before: seq<string>, a: string, r: string, after: seq<string>)
    requires Types(a, 'a', 'A') && Types(r, 'r', 'R')
    ensures Decide(gs, before + ([a] + after)) == Decide(gs, before + (Repeat(r, |gs|) + after))
  {
    hide Types, Parse;
    LinesParse(a);
    LinesParse(r);
    forall g: seq<Group> | |g| <= |gs|
      ensures Decide(g, [a] + after) == Decide(g, Repeat(r, |gs|) + after)
    {
      RemoveAnswers(g, |gs|, r, after);
    }
    EquivalentBehind(gs, before, [a] + after, Repeat(r, |gs|) + after);
  }

  /** `s` is `k` for this and every remaining group, whatever is typed afterwards. */
  lemma KeepRestIsKeepEach(gs: seq<Group>, before: seq<string>, s: string, k: string, after: seq<string>)
    requires Types(s, 's', 'S') && Types(k, 'k', 'K')
    ensures Decide(gs, before + ([s] + after)) == Decide(gs, before + (Repeat(k, |gs|) + after))
  {
    hide Types, Parse;
    LinesParse(s);
    LinesParse(k);
    forall g: seq<Group> | |g| <= |gs|
      ensures Decide(g, [s] + after) == Decide(g, Repeat(k, |gs|) + after)
    {
      KeepAnswers(g, |gs|, k, after);
    }
    EquivalentBehind(gs, before, [s] + after, Repeat(k, |gs|) + after);
  }

  /** End of input anywhere is Enter for every remaining group. */
  lemma EndOfInputIsEnter(gs: seq<Group>, lines: seq<string>, enter: string, n: nat)
    requires Blank(enter)
    ensures Decide(gs, lines) == Decide(gs, lines + Repeat(enter, n))
  {
    hide Types, Parse, Blank;
    LinesParse(enter);
    forall g: seq<Group> | |g| <= |gs| ensures Decide(g, []) == Decide(g, Repeat(enter, n)) {
      EnterAnswers(g, n, enter);
    }
    EquivalentBehind(gs, lines, [], Repeat(enter, n));
    assert lines + [] == lines;
  }

  /** A review selects nothing but groups it was shown. */
  lemma {:induction false} SelectsShownGroups(gs: seq<Group>, lines: seq<string>)
    ensures Decide(gs, lines) <= KeysOf(gs)
    decreases |gs| + |lines|
  {
    if gs != [] {
      KeysOfSplit(gs);
      if lines == [] {
        SelectsShownGroups(gs[1..], []);
      } else {
        SelectsShownGroups(gs[1..], lines[1..]);
        SelectsShownGroups(gs, lines[1..]);
      }
    }
  }
}
