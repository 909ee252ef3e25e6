/**
 Glob matching of src/config/paths.rs.  The reference is declarative: a pattern
 matches when the value can be cut into consecutive pieces, one per pattern
 element, such that a star takes any piece and every other element takes exactly
 one matching item.  One relation serves both levels: characters of a component
 (`*`, `?`) and components of a path (`**`).
 */
module Glob {

  datatype Grammar<!A, !P> = Grammar(star: P -> bool, one: (A, P) -> bool)

  /** Pattern element `j` takes `value[cuts[j]..cuts[j + 1]]`. */
  predicate Takes<A, P>(g: Grammar<A, P>, value: seq<A>, pattern: seq<P>, cuts: seq<nat>, j: nat)
    requires j < |pattern| && j + 1 < |cuts|
  {
    && cuts[j] <= cuts[j + 1] <= |value|
    && (g.star(pattern[j]) || (cuts[j + 1] == cuts[j] + 1 && g.one(value[cuts[j]], pattern[j])))
  }

  /** The first `m` pattern elements take the first `n` items. */
  predicate Cuts<A, P>(g: Grammar<A, P>, value: seq<A>, pattern: seq<P>, n: nat, m: nat, cuts: seq<nat>)
    requires n <= |value| && m <= |pattern|
  {
    && |cuts| == m + 1 && cuts[0] == 0 && cuts[m] == n
    && forall j :: 0 <= j < m ==> Takes(g, value, pattern, cuts, j)
  }

  /** The declarative relation. */
  ghost predicate Matches<A, P>(g: Grammar<A, P>, value: seq<A>, pattern: seq<P>)
  {
    exists cuts :: Cuts(g, value, pattern, |value|, |pattern|, cuts)
  }

  /** A recursive form of the same relation on prefixes. */
  predicate MatchTo<A, P>(g: Grammar<A, P>, value: seq<A>, pattern: seq<P>, n: nat, m: nat)
    requires n <= |value| && m <= |pattern|
    decreases n + m
  {
    if m == 0 then n == 0
    else if g.star(pattern[m - 1]) then
      MatchTo(g, value, pattern, n, m - 1) || (n > 0 && MatchTo(g, value, pattern, n - 1, m))
    else
      n > 0 && g.one(value[n - 1], pattern[m - 1]) && MatchTo(g, value, pattern, n - 1, m - 1)
  }

  lemma {:induction false} CutsOfMatch<A, P>(g: Grammar<A, P>, value: seq<A>, pattern: seq<P>, n: nat, m: nat)
      returns (cuts: seq<nat>)
    requires n <= |value| && m <= |pattern| && MatchTo(g, value, pattern, n, m)
    ensures Cuts(g, value, pattern, n, m, cuts)
    decreases n + m
  {
    if m == 0 {
      cuts := [0];
    } else if g.star(pattern[m - 1]) && !MatchTo(g, value, pattern, n, m - 1) {
      var shorter := CutsOfMatch(g, value, pattern, n - 1, m);
      cuts := shorter[m := n];
      assert Takes(g, value, pattern, shorter, m - 1);
      forall j | 0 <= j < m ensures Takes(g, value, pattern, cuts, j) {
        assert Takes(g, value, pattern, shorter, j);
      }
    } else {
      var shorter := CutsOfMatch(g, value, pattern, if g.star(pattern[m - 1]) then n else n - 1, m - 1);
      cuts := shorter + [n];
      forall j | 0 <= j < m ensures Takes(g, value, pattern, cuts, j) {
        if j < m - 1 { assert Takes(g, value, pattern, shorter, j); }
      }
    }
  }

  lemma {:induction false} CutsPrefix<A, P>(g: Grammar<A, P>, value: seq<A>, pattern: seq<P>, n: nat, m: nat, cuts: seq<nat>)
    requires n <= |value| && 0 < m <= |pattern| && Cuts(g, value, pattern, n, m, cuts)
    ensures cuts[m - 1] <= n && Cuts(g, value, pattern, cuts[m - 1], m - 1, cuts[..m])
  {
    assert Takes(g, value, pattern, cuts, m - 1);
    forall j | 0 <= j < m - 1 ensures Takes(g, value, pattern, cuts[..m], j) {
      assert Takes(g, value, pattern, cuts, j);
    }
  }

  /** A star may take one item less, or more, as long as it takes at least none. */
  lemma {:induction false} MatchMoves<A, P>(g: Grammar<A, P>, value: seq<A>, pattern: seq<P>, n: nat, n': nat, m: nat)
    requires n <= n' <= |value| && 0 < m <= |pattern|
    requires g.star(pattern[m - 1]) && MatchTo(g, value, pattern, n, m)
    ensures MatchTo(g, value, pattern, n', m)
    decreases n' - n
  {
    if n < n' {
      MatchMoves(g, value, pattern, n, n' - 1, m);
    }
  }

  lemma {:induction false} MatchOfCuts<A, P>(
      g: Grammar<A, P>, value: seq<A>, pattern: seq<P>, n: nat, m: nat, cuts: seq<nat>)
    requires n <= |value| && m <= |pattern| && Cuts(g, value, pattern, n, m, cuts)
    ensures MatchTo(g, value, pattern, n, m)
    decreases m
  {
    if m > 0 {
      CutsPrefix(g, value, pattern, n, m, cuts);
      assert Takes(g, value, pattern, cuts, m - 1);
      MatchOfCuts(g, value, pattern, cuts[m - 1], m - 1, cuts[..m]);
      if g.star(pattern[m - 1]) {
        MatchMoves(g, value, pattern, cuts[m - 1], n, m);
      }
    }
  }

  /** The recursive form decides the declarative relation, on every prefix of the pattern. */
  lemma {:induction false} MatchToIsMatches<A, P>(g: Grammar<A, P>, value: seq<A>, pattern: seq<P>, m: nat)
    requires m <= |pattern|
    ensures MatchTo(g, value, pattern, |value|, m) <==> Matches(g, value, pattern[..m])
  {
    var prefix := pattern[..m];
    if MatchTo(g, value, pattern, |value|, m) {
      var cuts := CutsOfMatch(g, value, pattern, |value|, m);
      forall j | 0 <= j < m ensures Takes(g, value, prefix, cuts, j) { assert Takes(g, value, pattern, cuts, j); }
      assert Cuts(g, value, prefix, |value|, |prefix|, cuts);
    }
    if Matches(g, value, prefix) {
      var cuts :| Cuts(g, value, prefix, |value|, |prefix|, cuts);
      forall j | 0 <= j < m ensures Takes(g, value, pattern, cuts, j) { assert Takes(g, value, prefix, cuts, j); }
      MatchOfCuts(g, value, pattern, |value|, m, cuts);
    }
  }

  // --------------------------------------------------------------- the table

  /** The meaning of a table cell: a star under the cursor has already taken its piece. */
  predicate Cell<A, P>(g: Grammar<A, P>, value: seq<A>, pattern: seq<P>, n: nat, m: nat)
    requires n <= |value| && m <= |pattern|
  {
    if m < |pattern| && g.star(pattern[m]) then MatchTo(g, value, pattern, n, m + 1)
    else MatchTo(g, value, pattern, n, m)
  }

  /** The cells that cell `(i, j)` pushes `true` into. */
  predicate Pushes<A, P>(g: Grammar<A, P>, value: seq<A>, pattern: seq<P>, i: nat, j: nat, n: nat, m: nat)
    requires i <= |value| && j < |pattern|
  {
    if g.star(pattern[j]) then (n == i && m == j + 1) || (n == i + 1 && m == j)
    else i < |value| && g.one(value[i], pattern[j]) && n == i + 1 && m == j + 1
  }

  /** Cell `(a, b)` comes before `(i, j)` in the order of the loops. */
  predicate Before(a: nat, b: nat, i: nat, j: nat) { a < i || (a == i && b < j) }

  /** Some cell before `(i, j)` that holds has pushed into `(n, m)`, or it is the start. */
  predicate Pushed<A, P>(g: Grammar<A, P>, value: seq<A>, pattern: seq<P>, n: nat, m: nat, i: nat, j: nat)
    requires n <= |value| && m <= |pattern|
  {
    || (n == 0 && m == 0)
    || (m > 0 && g.star(pattern[m - 1]) && Before(n, m - 1, i, j) && Cell(g, value, pattern, n, m - 1))
    || (n > 0 && m < |pattern| && g.star(pattern[m]) && Before(n - 1, m, i, j) && Cell(g, value, pattern, n - 1, m))
    || (n > 0 && m > 0 && !g.star(pattern[m - 1]) && g.one(value[n - 1], pattern[m - 1])
        && Before(n - 1, m - 1, i, j) && Cell(g, value, pattern, n - 1, m - 1))
  }

  /** Once all its predecessors are done, a cell holds exactly its meaning. */
  lemma {:induction false} PushedIsCell<A, P>(
      g: Grammar<A, P>, value: seq<A>, pattern: seq<P>, n: nat, m: nat, i: nat, j: nat)
    requires n <= |value| && m <= |pattern| && (n < i || (n == i && m <= j))
    ensures Pushed(g, value, pattern, n, m, i, j) <==> Cell(g, value, pattern, n, m)
  {
    if m > 0 && g.star(pattern[m - 1]) {
      assert Cell(g, value, pattern, n, m - 1) == MatchTo(g, value, pattern, n, m);
    } else if m > 0 && n > 0 {
      assert Cell(g, value, pattern, n - 1, m - 1) == MatchTo(g, value, pattern, n - 1, m - 1);
    }
    if m < |pattern| && g.star(pattern[m]) {
      assert Cell(g, value, pattern, n, m)
        == (MatchTo(g, value, pattern, n, m) || (n > 0 && MatchTo(g, value, pattern, n - 1, m + 1)));
    }
  }

  /** Processing cell `(i, j)` adds what it pushes, if it holds. */
  lemma {:induction false} PushStep<A, P>(
      g: Grammar<A, P>, value: seq<A>, pattern: seq<P>, i: nat, j: nat, n: nat, m: nat)
    requires i <= |value| && j < |pattern| && n <= |value| && m <= |pattern|
    ensures Pushed(g, value, pattern, n, m, i, j + 1)
            <==> Pushed(g, value, pattern, n, m, i, j)
                 || (Cell(g, value, pattern, i, j) && Pushes(g, value, pattern, i, j, n, m))
  {
  }

  lemma {:induction false} PushRow<A, P>(g: Grammar<A, P>, value: seq<A>, pattern: seq<P>, i: nat, n: nat, m: nat)
    requires n <= |value| && m <= |pattern|
    ensures Pushed(g, value, pattern, n, m, i, |pattern|) <==> Pushed(g, value, pattern, n, m, i + 1, 0)
  {
  }

  // ------------------------------------------------------ the two levels

  /** Characters of one component: `*` takes any run, `?` any one character. */
  const CHARS: Grammar<char, char> := Grammar(p => p == '*', (c, p) => p == '?' || c == p)

  predicate ComponentFits(value: string, pattern: string)
  {
    MatchTo(CHARS, value, pattern, |value|, |pattern|)
  }

  /** Components of a path: `**` takes any run of components. */
  const PATHS: Grammar<string, string> := Grammar(p => p == "**", (c, p) => ComponentFits(c, p))

  /** The table loops of `component_glob_matches`. */
  method ComponentGlobMatches(value: string, pattern: string) returns (matched: bool)
    ensures matched <==> Matches(CHARS, value, pattern)
    ensures matched <==> ComponentFits(value, pattern)
  {
    var table := new bool[|value| + 1, |pattern| + 1]((i, j) => i == 0 && j == 0);
    for i := 0 to |value| + 1
      invariant forall n, m :: 0 <= n <= |value| && 0 <= m <= |pattern| ==>
        table[n, m] == Pushed(CHARS, value, pattern, n, m, i, 0)
    {
      for j := 0 to |pattern|
        invariant forall n, m :: 0 <= n <= |value| && 0 <= m <= |pattern| ==>
          table[n, m] == Pushed(CHARS, value, pattern, n, m, i, j)
      {
        PushedIsCell(CHARS, value, pattern, i, j, i, j);
        forall n, m | 0 <= n <= |value| && 0 <= m <= |pattern|
          ensures Pushed(CHARS, value, pattern, n, m, i, j + 1)
                  <==> Pushed(CHARS, value, pattern, n, m, i, j)
                       || (Cell(CHARS, value, pattern, i, j) && Pushes(CHARS, value, pattern, i, j, n, m))
        {
          PushStep(CHARS, value, pattern, i, j, n, m);
        }
        if !table[i, j] {
          continue;
        }
        if pattern[j] == '*' {
          table[i, j + 1] := true;
          if i < |value| {
            table[i + 1, j] := true;
          }
        } else if pattern[j] == '?' && i < |value| {
          table[i + 1, j + 1] := true;
        } else if i < |value| && pattern[j] == value[i] {
          table[i + 1, j + 1] := true;
        }
      }
      forall n, m | 0 <= n <= |value| && 0 <= m <= |pattern|
        ensures Pushed(CHARS, value, pattern, n, m, i, |pattern|) <==> Pushed(CHARS, value, pattern, n, m, i + 1, 0)
      {
        PushRow(CHARS, value, pattern, i, n, m);
      }
    }
    PushedIsCell(CHARS, value, pattern, |value|, |pattern|, |value| + 1, 0);
    MatchToIsMatches(CHARS, value, pattern, |pattern|);
    assert pattern[..|pattern|] == pattern;
    matched := table[|value|, |pattern|];
  }

  /** The table loops that `glob_components_match` and `pattern_prefix_matches` share. */
  method PathTable(path: seq<string>, pattern: seq<string>) returns (table: array2<bool>)
    ensures fresh(table) && table.Length0 == |path| + 1 && table.Length1 == |pattern| + 1
    ensures forall n, m :: 0 <= n <= |path| && 0 <= m <= |pattern| ==> table[n, m] == Cell(PATHS, path, pattern, n, m)
  {
    table := new bool[|path| + 1, |pattern| + 1]((i, j) => i == 0 && j == 0);
    for i := 0 to |path| + 1
      invariant forall n, m :: 0 <= n <= |path| && 0 <= m <= |pattern| ==>
        table[n, m] == Pushed(PATHS, path, pattern, n, m, i, 0)
    {
      for j := 0 to |pattern|
        invariant forall n, m :: 0 <= n <= |path| && 0 <= m <= |pattern| ==>
          table[n, m] == Pushed(PATHS, path, pattern, n, m, i, j)
      {
        PushedIsCell(PATHS, path, pattern, i, j, i, j);
        forall n, m | 0 <= n <= |path| && 0 <= m <= |pattern|
          ensures Pushed(PATHS, path, pattern, n, m, i, j + 1)
                  <==> Pushed(PATHS, path, pattern, n, m, i, j)
                       || (Cell(PATHS, path, pattern, i, j) && Pushes(PATHS, path, pattern, i, j, n, m))
        {
          PushStep(PATHS, path, pattern, i, j, n, m);
        }
        if !table[i, j] {
          continue;
        }
        if pattern[j] == "**" {
          table[i, j + 1] := true;
          if i < |path| {
            table[i + 1, j] := true;
          }
        } else if i < |path| {
          var fits := ComponentGlobMatches(path[i], pattern[j]);
          if fits {
            table[i + 1, j + 1] := true;
          }
        }
      }
      forall n, m | 0 <= n <= |path| && 0 <= m <= |pattern|
        ensures Pushed(PATHS, path, pattern, n, m, i, |pattern|) <==> Pushed(PATHS, path, pattern, n, m, i + 1, 0)
      {
        PushRow(PATHS, path, pattern, i, n, m);
      }
    }
    forall n, m | 0 <= n <= |path| && 0 <= m <= |pattern|
      ensures Pushed(PATHS, path, pattern, n, m, |path| + 1, 0) == Cell(PATHS, path, pattern, n, m)
    {
      PushedIsCell(PATHS, path, pattern, n, m, |path| + 1, 0);
    }
  }

  method GlobComponentsMatch(path: seq<string>, pattern: seq<string>) returns (matched: bool)
    ensures matched <==> Matches(PATHS, path, pattern)
  {
    var table := PathTable(path, pattern);
    MatchToIsMatches(PATHS, path, pattern, |pattern|);
    assert pattern[..|pattern|] == pattern;
    matched := table[|path|, |pattern|];
  }

  /** Some prefix of the pattern matches the entire path. */
  ghost predicate PrefixMatches(path: seq<string>, pattern: seq<string>)
  {
    exists m :: 0 <= m <= |pattern| && Matches(PATHS, path, pattern[..m])
  }

  method PatternPrefixMatches(path: seq<string>, pattern: seq<string>) returns (matched: bool)
    ensures matched <==> PrefixMatches(path, pattern)
  {
    var table := PathTable(path, pattern);
    matched := exists m :: 0 <= m <= |pattern| && table[|path|, m];
    forall m | 0 <= m <= |pattern|
      ensures MatchTo(PATHS, path, pattern, |path|, m) <==> Matches(PATHS, path, pattern[..m])
    {
      MatchToIsMatches(PATHS, path, pattern, m);
    }
    if m :| 0 <= m <= |pattern| && table[|path|, m] {
      var k := if m < |pattern| && PATHS.star(pattern[m]) then m + 1 else m;
      assert Matches(PATHS, path, pattern[..k]);
    }
    if PrefixMatches(path, pattern) {
      var m :| 0 <= m <= |pattern| && Matches(PATHS, path, pattern[..m]);
      assert table[|path|, m];
    }
  }
}
