/**
 Source discovery of src/config/paths.rs and src/config/resolve.rs: a worklist
 traversal that enters only the directories the filters allow.  The reference
 filters every file of the tree.
 */
module Discovery {
  import opened Options
  import opened Pruning
  import opened Glob
  import opened PathOrder

  /** A directory entry; `Other` stands for symbolic links and everything that is neither. */
  datatype Node = File | Other | Dir(entries: seq<Entry>)

  datatype Entry = Entry(name: string, node: Node)

  // ----------------------------------------------------------- file kinds

  datatype Kind = Verilog | SystemVerilog | VerilogHeader | SystemVerilogHeader

  function Lower(c: char): (r: char) { if 'A' <= c <= 'Z' then c + 32 as char else c }

  function LowerAll(s: string): (r: string) { seq(|s|, i requires 0 <= i < |s| => Lower(s[i])) }

  /** The text after the last dot, unless the only dot is the first character. */
  function Extension(name: string): (r: Option<string>)
  {
    var k := LastDot(name, |name|);
    if k <= 0 then None else Some(name[k + 1..])
  }

  function LastDot(name: string, n: nat): (k: int)
    requires n <= |name|
    ensures -1 <= k < n
  {
    if n == 0 then -1 else if name[n - 1] == '.' then n - 1 else LastDot(name, n - 1)
  }

  function KindOf(name: string): (r: Option<Kind>)
  {
    match Extension(name)
    case None => None
    case Some(e) =>
      var l := LowerAll(e);
      if l == "v" then Some(Verilog)
      else if l == "sv" then Some(SystemVerilog)
      else if l == "vh" then Some(VerilogHeader)
      else if l == "svh" then Some(SystemVerilogHeader)
      else None
  }

  // ------------------------------------------------------- what is in a tree

  /** Every regular file below the given entries, wherever it is. */
  ghost function Everything(entries: seq<Entry>, at: Path): (r: set<Path>)
    decreases entries
  {
    if entries == [] then {}
    else
      var here := at + [entries[0].name];
      (match entries[0].node
       case File => {here}
       case Other => {}
       case Dir(inner) => Everything(inner, here))
      + Everything(entries[1..], at)
  }

  ghost predicate Wanted(f: Filters, path: Path)
  {
    path != [] && FileAllowed(f, path) && KindOf(path[|path| - 1]).Some?
  }

  /** The wanted files found when only allowed directories are entered. */
  ghost function Pruned(f: Filters, entries: seq<Entry>, at: Path): (r: set<Path>)
    decreases entries
  {
    if entries == [] then {}
    else
      var here := at + [entries[0].name];
      (match entries[0].node
       case File => if Wanted(f, here) then {here} else {}
       case Other => {}
       case Dir(inner) => if DirAllowed(f, here) then Pruned(f, inner, here) else {})
      + Pruned(f, entries[1..], at)
  }

  /** Every directory on the way to `path`, below the first `n` components, is allowed. */
  ghost predicate WayOpen(f: Filters, path: Path, n: nat)
  {
    forall d :: n < d < |path| ==> DirAllowed(f, path[..d])
  }

  lemma {:induction false} Below(entries: seq<Entry>, at: Path, path: Path)
    requires path in Everything(entries, at)
    ensures |path| > |at| && path[..|at|] == at
    decreases entries
  {
    var here := at + [entries[0].name];
    if path in Everything(entries[1..], at) {
      Below(entries[1..], at, path);
    } else if entries[0].node.Dir? {
      Below(entries[0].node.entries, here, path);
      assert path[..|at|] == path[..|here|][..|at|];
    }
  }

  /** Pruned traversal finds exactly the wanted files to which every directory on the way is allowed. */
  lemma {:induction false} PrunedExactly(f: Filters, entries: seq<Entry>, at: Path, path: Path)
    ensures path in Pruned(f, entries, at)
            <==> path in Everything(entries, at) && Wanted(f, path) && WayOpen(f, path, |at|)
    decreases entries
  {
    if entries != [] {
      var here := at + [entries[0].name];
      PrunedExactly(f, entries[1..], at, path);
      match entries[0].node {
        case File =>
        case Other =>
        case Dir(inner) =>
          PrunedExactly(f, inner, here, path);
          if path in Everything(inner, here) {
            Below(inner, here, path);
            assert path[..|here|] == here;
            assert WayOpen(f, path, |at|) <==> DirAllowed(f, here) && WayOpen(f, path, |here|) by {
              if DirAllowed(f, here) && WayOpen(f, path, |here|) {
                forall d | |at| < d < |path| ensures DirAllowed(f, path[..d]) {
                  if d == |here| { assert path[..d] == here; }
                }
              }
            }
          } else if path in Pruned(f, inner, here) {
            assert false;
          }
      }
    }
  }

  // ------------------------------------------------- when pruning is harmless

  lemma {:induction false} ExcludedBelow(f: Filters, path: Path, d: nat)
    requires d <= |path| && Excluded(f, path[..d])
    ensures Excluded(f, path)
  {
    var k, q :| 0 <= k <= |path[..d]| && q in f.excludes && Matches(PATHS, path[..d][..k], q);
    assert path[..d][..k] == path[..k];
  }

  /** No include pattern has its only `**` as the last of several components. */
  predicate NoTrailing(f: Filters) { forall p :: p in f.includes ==> !TrailingOnly(p) }

  lemma {:induction false} WantedWayIsOpen(f: Filters, path: Path)
    requires NoTrailing(f) && Wanted(f, path)
    ensures WayOpen(f, path, 0)
  {
    var p :| p in f.includes && Matches(PATHS, path, p);
    forall d | 0 < d < |path| ensures DirAllowed(f, path[..d]) {
      ReachesExactly(path, p, d);
      if Excluded(f, path[..d]) { ExcludedBelow(f, path, d); }
    }
  }

  /** The reference: filter every file of the tree. */
  ghost function Filtered(f: Filters, entries: seq<Entry>): (r: set<Path>)
  {
    set path | path in Everything(entries, []) && Wanted(f, path)
  }

  /** Then pruned discovery equals filtering the whole tree. */
  lemma {:induction false} PrunedIsFiltered(f: Filters, entries: seq<Entry>)
    requires NoTrailing(f)
    ensures Pruned(f, entries, []) == Filtered(f, entries)
  {
    forall path ensures path in Pruned(f, entries, []) <==> path in Everything(entries, []) && Wanted(f, path) {
      PrunedExactly(f, entries, [], path);
      if Wanted(f, path) { WantedWayIsOpen(f, path); }
    }
  }

  /** With a single include pattern of the other kind, exactly the wanted files deeper than the
      pattern is long are lost. */
  lemma {:induction false} TrailingLoses(p: Path, excludes: seq<Path>, entries: seq<Entry>, path: Path)
    requires TrailingOnly(p) && path in Everything(entries, []) && Wanted(Filters([p], excludes), path)
    ensures path in Pruned(Filters([p], excludes), entries, []) <==> |path| <= |p|
  {
    var f := Filters([p], excludes);
    PrunedExactly(f, entries, [], path);
    forall d | 0 < d < |path| ensures DirAllowed(f, path[..d]) <==> d <= |p| - 1 {
      ReachesExactly(path, p, d);
      if Excluded(f, path[..d]) { ExcludedBelow(f, path, d); }
      assert p in f.includes;
    }
    if |path| > |p| {
      assert !DirAllowed(f, path[..|p|]);
    }
  }

  /** A component matches itself, read as a pattern. */
  lemma {:induction false} FitsItself(c: string, n: nat)
    requires n <= |c|
    ensures MatchTo(CHARS, c, c, n, n)
  {
    if n > 0 {
      FitsItself(c, n - 1);
      assert CHARS.star(c[n - 1]) ==> MatchTo(CHARS, c, c, n - 1, n);
    }
  }

  /** A tree with a single file. */
  function Chain(path: Path): (r: seq<Entry>)
    requires path != []
  {
    if |path| == 1 then [Entry(path[0], File)] else [Entry(path[0], Dir(Chain(path[1..])))]
  }

  lemma {:induction false} ChainHolds(path: Path, at: Path)
    requires path != []
    ensures Everything(Chain(path), at) == {at + path}
  {
    var here := at + [path[0]];
    assert Chain(path)[1..] == [];
    if |path| == 1 {
      assert here == at + path;
    } else {
      ChainHolds(path[1..], here);
      assert here + path[1..] == at + path;
    }
  }

  /** The file that a trailing-only pattern wants and pruning loses. */
  lemma {:induction false} LostFile(p: Path) returns (path: Path)
    requires TrailingOnly(p)
    ensures Wanted(Filters([p], []), path) && |path| == |p| + 1
  {
    var front := p[..|p| - 1];
    path := front + ["d", "x.v"];
    var n := |p|;
    var cuts := seq(n + 1, i => if i < n then i else n + 1);
    forall j | 0 <= j < n ensures Takes(PATHS, path, p, cuts, j) {
      if j < n - 1 { FitsItself(p[j], |p[j]|); }
    }
    assert Cuts(PATHS, path, p, |path|, |p|, cuts);
    assert p in Filters([p], []).includes;
    assert LastDot("x.v", 2) == 1 && LastDot("x.v", 3) == 1;
    assert "x.v"[2..] == "v";
    assert Extension("x.v") == Some("v");
    assert LowerAll("v") == "v";
  }

  /** Some include pattern keeps every directory on the way open. */
  ghost predicate KeptOpen(f: Filters, path: Path) { forall d :: 0 < d < |path| ==> Reached(f, path[..d]) }

  ghost predicate Reached(f: Filters, dir: Path) { exists q :: q in f.includes && Reaches(dir, q) }

  /** Excludes close no directory on the way to a wanted file. */
  lemma {:induction false} WayOfWanted(f: Filters, path: Path)
    requires Wanted(f, path)
    ensures WayOpen(f, path, 0) <==> KeptOpen(f, path)
  {
    forall d | 0 < d < |path|
      ensures DirAllowed(f, path[..d]) <==> Reached(f, path[..d])
    {
      if Excluded(f, path[..d]) { ExcludedBelow(f, path, d); }
    }
  }

  /** For a wanted file, only the directories below the literal part of a trailing-only include need
      another include to keep them open; for any other include, none does. */
  lemma {:induction false} OthersKeepOpen(f: Filters, p: Path, path: Path)
    requires p in f.includes && Matches(PATHS, path, p)
    ensures KeptOpen(f, path)
            <==> !TrailingOnly(p) || forall d :: |p| - 1 < d < |path| ==> Reached(f, path[..d])
  {
    forall d | 0 < d < |path|
      ensures !(TrailingOnly(p) && d > |p| - 1) ==> Reached(f, path[..d])
    {
      ReachesExactly(path, p, d);
    }
  }

  /** For any includes and excludes, pruning is harmless on every tree exactly when the includes keep
      open the way to every file that is wanted. */
  lemma {:induction false} HarmlessExactly(f: Filters)
    ensures (forall entries :: Pruned(f, entries, []) == Filtered(f, entries))
            <==> (forall path :: Wanted(f, path) ==> KeptOpen(f, path))
  {
    if forall path :: Wanted(f, path) ==> KeptOpen(f, path) {
      forall entries
        ensures Pruned(f, entries, []) == Filtered(f, entries)
      {
        forall path ensures path in Pruned(f, entries, []) <==> path in Filtered(f, entries) {
          PrunedExactly(f, entries, [], path);
          if Wanted(f, path) { WayOfWanted(f, path); }
        }
      }
    } else {
      var path :| Wanted(f, path) && !KeptOpen(f, path);
      LostInChain(f, path);
    }
  }

  lemma {:induction false} LostInChain(f: Filters, path: Path)
    requires Wanted(f, path) && !KeptOpen(f, path)
    ensures Pruned(f, Chain(path), []) != Filtered(f, Chain(path))
  {
    ChainHolds(path, []);
    assert [] + path == path;
    WayOfWanted(f, path);
    PrunedExactly(f, Chain(path), [], path);
    assert path in Filtered(f, Chain(path)) && path !in Pruned(f, Chain(path), []);
  }

  /** For one include pattern and any excludes, that means: the pattern is not trailing-only, or the
      excludes leave no wanted file deeper than it is long. */
  lemma {:induction false} OneIncludeIsHarmless(p: Path, excludes: seq<Path>)
    ensures var f := Filters([p], excludes);
            (forall entries :: Pruned(f, entries, []) == Filtered(f, entries))
            <==> !TrailingOnly(p) || forall path :: Wanted(f, path) ==> |path| <= |p|
  {
    var f := Filters([p], excludes);
    HarmlessExactly(f);
    forall path | Wanted(f, path)
      ensures KeptOpen(f, path) <==> !TrailingOnly(p) || |path| <= |p|
    {
      OneIncludeKeeps(f, p, path);
    }
  }

  lemma {:induction false} OneIncludeKeeps(f: Filters, p: Path, path: Path)
    requires f.includes == [p] && Wanted(f, path)
    ensures KeptOpen(f, path) <==> !TrailingOnly(p) || |path| <= |p|
  {
    assert p in f.includes;
    OthersKeepOpen(f, p, path);
    if TrailingOnly(p) && |path| > |p| {
      NoReach(path[..|p|], p);
      assert !Reached(f, path[..|p|]);
    }
  }

  /** Without excludes a trailing-only pattern always loses something. */
  lemma {:induction false} TrailingIsHarmful(p: Path)
    ensures (forall entries :: Pruned(Filters([p], []), entries, []) == Filtered(Filters([p], []), entries))
            <==> !TrailingOnly(p)
  {
    OneIncludeIsHarmless(p, []);
    if TrailingOnly(p) {
      var path := LostFile(p);
    }
  }

  // -------------------------------------------------------- the traversal

  datatype Pending = Pending(entries: seq<Entry>, at: Path)

  datatype Failure = NotADirectory

  ghost function PrunedAll(f: Filters, pending: seq<Pending>): (r: set<Path>)
  {
    if pending == [] then {}
    else
      var last := pending[|pending| - 1];
      PrunedAll(f, pending[..|pending| - 1]) + Pruned(f, last.entries, last.at)
  }

  function Size(entries: seq<Entry>): (n: nat)
    decreases entries
  {
    if entries == [] then 0
    else (match entries[0].node
          case Dir(inner) => 1 + Size(inner)
          case _ => 1) + Size(entries[1..])
  }

  function Weight(pending: seq<Pending>): (n: nat)
  {
    if pending == [] then 0
    else 1 + Size(pending[|pending| - 1].entries) + Weight(pending[..|pending| - 1])
  }

  lemma {:induction false} Push(f: Filters, pending: seq<Pending>, x: Pending)
    ensures PrunedAll(f, pending + [x]) == PrunedAll(f, pending) + Pruned(f, x.entries, x.at)
    ensures Weight(pending + [x]) == 1 + Size(x.entries) + Weight(pending)
  {
    assert (pending + [x])[..|pending|] == pending;
  }

  /** `discover_files`: the listing of exactly the files that pruned traversal finds, in path order. */
  method DiscoverFiles(root: Node, f: Filters) returns (r: Result<seq<Path>, Failure>)
    ensures r.Ok? <==> root.Dir?
    ensures r.Ok? ==> Ascending(r.value) && forall path :: path in r.value <==> path in Pruned(f, root.entries, [])
  {
    if !root.Dir? {
      return Err(NotADirectory);
    }
    var pending, found: seq<Path> := [Pending(root.entries, [])], [];
    Push(f, [], pending[0]);
    assert [] + [pending[0]] == pending;
    while pending != []
      invariant Ascending(found)
      invariant forall path :: path in Pruned(f, root.entries, []) <==> path in found || path in PrunedAll(f, pending)
      decreases Weight(pending)
    {
      var current := pending[|pending| - 1];
      ghost var total := Weight(pending);
      pending := pending[..|pending| - 1];
      var entries, at := current.entries, current.at;
      assert entries[0..] == entries;
      for k := 0 to |entries|
        invariant Ascending(found)
        invariant Weight(pending) + Size(entries[k..]) < total
        invariant forall path :: path in Pruned(f, root.entries, []) <==>
          path in found || path in PrunedAll(f, pending) || path in Pruned(f, entries[k..], at)
      {
        var here := at + [entries[k].name];
        assert entries[k..][0] == entries[k] && entries[k..][1..] == entries[k + 1..];
        match entries[k].node {
          case Other =>
          case File =>
            var allowed := AllowsFile(f, here);
            if allowed && KindOf(here[|here| - 1]).Some? {
              found := Insert(found, here);
            }
          case Dir(inner) =>
            var allowed := AllowsDirectory(f, here);
            if allowed {
              Push(f, pending, Pending(inner, here));
              pending := pending + [Pending(inner, here)];
            }
        }
      }
      assert entries[|entries|..] == [];
    }
    return Ok(found);
  }

  // -------------------------------------------------------- source directories

  datatype SourceDirectory = SourceDirectory(path: Path, root: Node)

  predicate IsUnit(path: Path)
  {
    path != [] && KindOf(path[|path| - 1]) in {Some(Verilog), Some(SystemVerilog)}
  }

  ghost predicate UnitOf(f: Filters, dirs: seq<SourceDirectory>, i: nat, rel: Path, path: Path)
    requires i < |dirs|
  {
    dirs[i].root.Dir? && rel in Pruned(f, dirs[i].root.entries, []) && path == dirs[i].path + rel && IsUnit(path)
  }

  /** `discover_sources`: the compilation units below all source directories, each once, in order. */
  method DiscoverSources(dirs: seq<SourceDirectory>, f: Filters) returns (r: Result<seq<Path>, Failure>)
    ensures r.Ok? <==> forall i :: 0 <= i < |dirs| ==> dirs[i].root.Dir?
    ensures r.Ok? ==> Ascending(r.value)
    ensures r.Ok? ==> forall path :: path in r.value <==> exists i, rel :: 0 <= i < |dirs| && UnitOf(f, dirs, i, rel, path)
  {
    var units: seq<Path> := [];
    for n := 0 to |dirs|
      invariant Ascending(units)
      invariant forall i :: 0 <= i < n ==> dirs[i].root.Dir?
      invariant forall path :: path in units <==> exists i, rel :: 0 <= i < n && UnitOf(f, dirs, i, rel, path)
    {
      var files := DiscoverFiles(dirs[n].root, f);
      if files.Err? {
        return Err(files.error);
      }
      ghost var before := units;
      for k := 0 to |files.value|
        invariant Ascending(units)
        invariant forall path :: path in units <==>
          path in before || exists j :: 0 <= j < k && UnitOf(f, dirs, n, files.value[j], path)
      {
        var path := dirs[n].path + files.value[k];
        if IsUnit(path) {
          units := Insert(units, path);
        }
        assert files.value[k] in files.value;
      }
      forall path ensures path in units <==> exists i, rel :: 0 <= i < n + 1 && UnitOf(f, dirs, i, rel, path) {
        if exists i, rel :: 0 <= i < n + 1 && UnitOf(f, dirs, i, rel, path) {
          var i, rel :| 0 <= i < n + 1 && UnitOf(f, dirs, i, rel, path);
          if i == n {
            assert rel in files.value;
            var j :| 0 <= j < |files.value| && files.value[j] == rel;
          }
        }
      }
    }
    return Ok(units);
  }
}
