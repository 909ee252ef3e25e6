/**
 The discovery filters of src/config/paths.rs: which files are wanted, which
 directories are entered, and exactly when entering only those directories loses
 no wanted file.  Patterns and paths are sequences of components.
 */
module Pruning {
  import opened Glob

  type Path = seq<string>

  datatype Filters = Filters(includes: seq<Path>, excludes: seq<Path>)

  /** `is_excluded`: some ancestor of the path, itself and the root included, matches an exclude. */
  ghost predicate Excluded(f: Filters, path: Path)
  {
    exists k, q :: 0 <= k <= |path| && q in f.excludes && Matches(PATHS, path[..k], q)
  }

  ghost predicate FileAllowed(f: Filters, path: Path)
  {
    !Excluded(f, path) && exists p :: p in f.includes && Matches(PATHS, path, p)
  }

  predicate AllStars(p: Path) { forall i :: 0 <= i < |p| ==> p[i] == "**" }

  /** The include pattern could still match below `dir`, as `allows_directory` decides it. */
  ghost predicate Reaches(dir: Path, p: Path)
  {
    p != [] && (AllStars(p) || PrefixMatches(dir, p[..|p| - 1]))
  }

  ghost predicate DirAllowed(f: Filters, dir: Path)
  {
    !Excluded(f, dir) && exists p :: p in f.includes && Reaches(dir, p)
  }

  // ------------------------------------------------ the three filter methods

  method IsExcluded(f: Filters, path: Path) returns (excluded: bool)
    ensures excluded <==> Excluded(f, path)
  {
    for k := 0 to |path| + 1
      invariant forall i, q :: 0 <= i < k && q in f.excludes ==> !Matches(PATHS, path[..i], q)
    {
      for n := 0 to |f.excludes|
        invariant forall j :: 0 <= j < n ==> !Matches(PATHS, path[..k], f.excludes[j])
      {
        var matched := GlobComponentsMatch(path[..k], f.excludes[n]);
        if matched {
          assert f.excludes[n] in f.excludes;
          return true;
        }
      }
    }
    return false;
  }

  method AllowsFile(f: Filters, path: Path) returns (allowed: bool)
    ensures allowed <==> FileAllowed(f, path)
  {
    var excluded := IsExcluded(f, path);
    if excluded {
      return false;
    }
    for n := 0 to |f.includes|
      invariant forall j :: 0 <= j < n ==> !Matches(PATHS, path, f.includes[j])
    {
      var matched := GlobComponentsMatch(path, f.includes[n]);
      if matched {
        assert f.includes[n] in f.includes;
        return true;
      }
    }
    return false;
  }

  method AllowsDirectory(f: Filters, dir: Path) returns (allowed: bool)
    ensures allowed <==> DirAllowed(f, dir)
  {
    var excluded := IsExcluded(f, dir);
    if excluded {
      return false;
    }
    for n := 0 to |f.includes|
      invariant forall j :: 0 <= j < n ==> !Reaches(dir, f.includes[j])
    {
      var p := f.includes[n];
      if p != [] {
        var reaches := AllStars(p);
        if !reaches {
          reaches := PatternPrefixMatches(dir, p[..|p| - 1]);
        }
        if reaches {
          assert f.includes[n] in f.includes && Reaches(dir, f.includes[n]);
          return true;
        }
      }
    }
    return false;
  }

  // ------------------------------------------------------- the pruning rule

  /** The only `**` is the last of two or more components. */
  predicate TrailingOnly(p: Path)
  {
    |p| >= 2 && p[|p| - 1] == "**" && forall i :: 0 <= i < |p| - 1 ==> p[i] != "**"
  }

  /** `cuts` never decreases. */
  lemma {:induction false} CutsGrow(value: Path, pattern: Path, n: nat, m: nat, cuts: seq<nat>, a: nat, b: nat)
    requires n <= |value| && m <= |pattern| && Cuts(PATHS, value, pattern, n, m, cuts) && a <= b <= m
    ensures cuts[a] <= cuts[b]
    decreases b - a
  {
    if a < b {
      assert Takes(PATHS, value, pattern, cuts, a);
      CutsGrow(value, pattern, n, m, cuts, a + 1, b);
    }
  }

  /** Without a star the cuts are at every item. */
  lemma {:induction false} SingleSteps(value: Path, pattern: Path, n: nat, m: nat, cuts: seq<nat>, k: nat)
    requires n <= |value| && m <= |pattern| && Cuts(PATHS, value, pattern, n, m, cuts) && k <= m
    requires forall i :: 0 <= i < k ==> pattern[i] != "**"
    ensures cuts[k] == k
  {
    if k > 0 {
      SingleSteps(value, pattern, n, m, cuts, k - 1);
      assert Takes(PATHS, value, pattern, cuts, k - 1);
    }
  }

  /** The pattern element that is taking item `d`: the last cut at or before `d`. */
  lemma {:induction false} CutAt(value: Path, pattern: Path, cuts: seq<nat>, d: nat) returns (k: nat)
    requires Cuts(PATHS, value, pattern, |value|, |pattern|, cuts) && d < |value|
    ensures k < |pattern| && cuts[k] <= d < cuts[k + 1]
  {
    k := 0;
    while cuts[k + 1] <= d
      invariant k < |pattern| && cuts[k] <= d
      decreases |pattern| - k
    {
      k := k + 1;
    }
  }

  /** If the star at `k` has begun by item `d`, the pattern up to and with it matches the first `d` items. */
  lemma {:induction false} StarReaches(value: Path, pattern: Path, cuts: seq<nat>, k: nat, d: nat)
    requires Cuts(PATHS, value, pattern, |value|, |pattern|, cuts)
    requires k < |pattern| && pattern[k] == "**" && cuts[k] <= d <= |value|
    ensures Matches(PATHS, value[..d], pattern[..k + 1])
  {
    var dir, prefix, cuts' := value[..d], pattern[..k + 1], cuts[..k + 1] + [d];
    forall j | 0 <= j < k + 1 ensures Takes(PATHS, dir, prefix, cuts', j) {
      assert Takes(PATHS, value, pattern, cuts, j);
      if j < k { CutsGrow(value, pattern, |value|, |pattern|, cuts, j + 1, k); }
    }
    assert Cuts(PATHS, dir, prefix, d, k + 1, cuts');
  }

  /** A cut at item `d` matches the first `d` items with the pattern before it. */
  lemma {:induction false} CutReaches(value: Path, pattern: Path, cuts: seq<nat>, k: nat)
    requires Cuts(PATHS, value, pattern, |value|, |pattern|, cuts) && k <= |pattern|
    ensures cuts[k] <= |value| && Matches(PATHS, value[..cuts[k]], pattern[..k])
  {
    CutsGrow(value, pattern, |value|, |pattern|, cuts, k, |pattern|);
    var d := cuts[k];
    var dir, prefix, cuts' := value[..d], pattern[..k], cuts[..k + 1];
    forall j | 0 <= j < k ensures Takes(PATHS, dir, prefix, cuts', j) {
      assert Takes(PATHS, value, pattern, cuts, j);
      CutsGrow(value, pattern, |value|, |pattern|, cuts, j + 1, k);
    }
    assert Cuts(PATHS, dir, prefix, d, k, cuts');
  }

  lemma {:induction false} PrefixOfFront(dir: Path, p: Path, k: nat)
    requires p != [] && k <= |p| - 1 && Matches(PATHS, dir, p[..k])
    ensures Reaches(dir, p)
  {
    assert p[..|p| - 1][..k] == p[..k];
  }

  /** Exactly which ancestors of a matching file the pattern keeps open: all of them, unless its only
      `**` is its last component; then only those no deeper than the components before it. */
  lemma {:induction false} ReachesExactly(file: Path, p: Path, d: nat)
    requires Matches(PATHS, file, p) && d < |file|
    ensures Reaches(file[..d], p) <==> !(TrailingOnly(p) && d > |p| - 1)
  {
    var cuts :| Cuts(PATHS, file, p, |file|, |p|, cuts);
    var dir, n := file[..d], |p|;
    if TrailingOnly(p) && d > n - 1 {
      NoReach(dir, p);
    } else {
      var k := CutAt(file, p, cuts, d);
      assert Takes(PATHS, file, p, cuts, k);
      if cuts[k] == d {
        CutReaches(file, p, cuts, k);
        PrefixOfFront(dir, p, k);
      } else if k < n - 1 {
        StarReaches(file, p, cuts, k, d);
        PrefixOfFront(dir, p, k + 1);
      } else if i :| 0 <= i < n - 1 && p[i] == "**" {
        CutsGrow(file, p, |file|, n, cuts, i, k);
        StarReaches(file, p, cuts, i, d);
        PrefixOfFront(dir, p, i + 1);
      } else {
        SingleSteps(file, p, |file|, n, cuts, n - 1);
        assert AllStars(p);
      }
    }
  }

  /** Below its last literal component such a pattern reaches no directory. */
  lemma {:induction false} NoReach(dir: Path, p: Path)
    requires TrailingOnly(p) && |dir| > |p| - 1
    ensures !Reaches(dir, p)
  {
    var front := p[..|p| - 1];
    assert p[0] != "**";
    forall m | 0 <= m <= |front| ensures !Matches(PATHS, dir, front[..m]) {
      if Matches(PATHS, dir, front[..m]) {
        var cuts :| Cuts(PATHS, dir, front[..m], |dir|, |front[..m]|, cuts);
        SingleSteps(dir, front[..m], |dir|, m, cuts, m);
        assert false;
      }
    }
  }
}
