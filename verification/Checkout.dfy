/**
 The vendor checkout as the preparer changes it, step by step
 (build_support/vendor_patches.rs).  `swaps` is the number of atomic
 replacements the machine still completes before it stops, so one call stands
 for every interruption of a run.
 */
module Checkout {
  import opened Options
  import opened SourceText
  import opened Planning
  import opened Restoring
  import opened Runs

  /** A file to restore, as the survey saw it. */
  datatype Target = Target(path: Path, current: Digest, base: Digest, crlf: bool, origin: Option<string>)

  function TargetAt(env: Env, path: Path, base: Digest, contents: string): (t: Target)
  {
    Target(path, env.digest(contents), base, HasCrlf(contents), None)
  }

  // --------------------------------------------------- the history search

  lemma {:induction false} OriginSnoc(log: seq<Revision>, n: nat, path: Path, digest: Digest)
    requires n < |log|
    ensures Origin(log[..n + 1], path, digest)
            == if Origin(log[..n], path, digest).Some? then Origin(log[..n], path, digest)
               else if Explains(log[n], path, digest) then Some(log[n].commit) else None
  {
    if n > 0 && !Explains(log[0], path, digest) {
      assert log[..n + 1][1..] == log[1..][..n] && log[..n][1..] == log[1..][..n - 1];
      OriginSnoc(log[1..], n - 1, path, digest);
    } else if n == 0 {
      assert log[..1][1..] == [];
    }
  }

  lemma {:induction false} OriginOfPrefix(log: seq<Revision>, n: nat, path: Path, digest: Digest)
    requires n <= |log| && Origin(log[..n], path, digest).Some?
    ensures Origin(log, path, digest) == Origin(log[..n], path, digest)
  {
    if !Explains(log[0], path, digest) {
      assert log[..n][1..] == log[1..][..n - 1];
      OriginOfPrefix(log[1..], n - 1, path, digest);
    }
  }

  /** `match_manifest_history`: one pass over the log that stops once every file is explained.  Each
      file gets the first revision in log order whose applied digest names its content. */
  method MatchHistory(log: seq<Revision>, stale: array<Target>)
    requires forall i :: 0 <= i < stale.Length ==> stale[i].origin == None
    modifies stale
    ensures forall i :: 0 <= i < stale.Length ==>
      stale[i] == old(stale[i]).(origin := Origin(Searched(log), old(stale[i].path), old(stale[i].current)))
  {
    var searched := Searched(log);
    for n := 0 to |searched|
      invariant forall i :: 0 <= i < stale.Length ==>
        stale[i] == old(stale[i]).(origin := Origin(searched[..n], old(stale[i].path), old(stale[i].current)))
    {
      for i := 0 to stale.Length
        invariant forall j :: 0 <= j < i ==>
          stale[j] == old(stale[j]).(origin := Origin(searched[..n + 1], old(stale[j].path), old(stale[j].current)))
        invariant forall j :: i <= j < stale.Length ==>
          stale[j] == old(stale[j]).(origin := Origin(searched[..n], old(stale[j].path), old(stale[j].current)))
      {
        OriginSnoc(searched, n, old(stale[i].path), old(stale[i].current));
        if stale[i].origin.None? && Explains(searched[n], stale[i].path, stale[i].current) {
          stale[i] := stale[i].(origin := Some(searched[n].commit));
        }
      }
      if forall i :: 0 <= i < stale.Length ==> stale[i].origin.Some? {
        forall i | 0 <= i < stale.Length
          ensures Origin(searched, old(stale[i].path), old(stale[i].current))
                  == Origin(searched[..n + 1], old(stale[i].path), old(stale[i].current))
        {
          OriginOfPrefix(searched, n + 1, old(stale[i].path), old(stale[i].current));
        }
        return;
      }
    }
    assert searched[..|searched|] == searched;
  }

  // ------------------------------------------------------- surveying the tree

  type Look = Path -> Target

  /** What restoration records of each file it reads. */
  function LookOf(env: Env, p: Patches, tree: Tree): (l: Look)
  {
    path =>
      if (path in p.manifest || path in p.retired) && path in tree
      then TargetAt(env, path, Expect(p, path).base, tree[path])
      else Target(path, [], [], false, None)
  }

  function TargetsFor(look: Look, paths: seq<Path>): (r: seq<Target>)
    ensures |r| == |paths|
    ensures forall i :: 0 <= i < |r| ==> r[i] == look(paths[i])
  {
    seq(|paths|, i requires 0 <= i < |paths| => look(paths[i]))
  }

  /** The targets of one standing, in order. */
  function Found(order: seq<Path>, c: Census, look: Look, want: Standing): (r: seq<Target>)
  {
    TargetsFor(look, Select(order, c, want))
  }

  lemma {:induction false} SelectSnoc(order: seq<Path>, c: Census, want: Standing, x: Path)
    ensures Select(order + [x], c, want) == if c(x) == want then Select(order, c, want) + [x] else Select(order, c, want)
  {
    if order == [] {
      assert order + [x] == [x] && [x][1..] == [];
    } else {
      assert (order + [x])[1..] == order[1..] + [x];
      SelectSnoc(order[1..], c, want, x);
    }
  }

  /** The same for the first `n` files, the way a loop collects them. */
  function Collected(order: seq<Path>, c: Census, look: Look, want: Standing, n: nat): (r: seq<Target>)
    requires n <= |order|
  {
    if n == 0 then []
    else
      var before := Collected(order, c, look, want, n - 1);
      if c(order[n - 1]) == want then before + [look(order[n - 1])] else before
  }

  lemma {:induction false} CollectedIsFound(order: seq<Path>, c: Census, look: Look, want: Standing, n: nat)
    requires n <= |order|
    ensures Collected(order, c, look, want, n) == Found(order[..n], c, look, want)
  {
    if n > 0 {
      CollectedIsFound(order, c, look, want, n - 1);
      assert order[..n] == order[..n - 1] + [order[n - 1]];
      SelectSnoc(order[..n - 1], c, want, order[n - 1]);
    }
  }

  lemma {:induction false} FoundSplit(a: seq<Path>, b: seq<Path>, c: Census, look: Look, want: Standing)
    ensures Found(a + b, c, look, want) == Found(a, c, look, want) + Found(b, c, look, want)
  {
    SelectConcat(a, b, c, want);
  }

  lemma {:induction false} SelectConcat(a: seq<Path>, b: seq<Path>, c: Census, want: Standing)
    ensures Select(a + b, c, want) == Select(a, c, want) + Select(b, c, want)
  {
    if a == [] {
      assert a + b == b;
    } else {
      assert (a + b)[1..] == a[1..] + b;
      SelectConcat(a[1..], b, c, want);
    }
  }

  /** The census and the record of one file are those of its content. */
  predicate Seen(env: Env, e: Expectation, path: Path, contents: string, c: Census, look: Look)
  {
    c(path) == StandingOf(env, e, contents) && look(path) == TargetAt(env, path, e.base, contents)
  }

  /** Read the given files once: the stale ones and those at the current applied digest. */
  method Survey(env: Env, order: seq<Path>, wanted: map<Path, Expectation>, tree: Tree, ghost c: Census, ghost look: Look)
    returns (complete: bool, stale: seq<Target>, applied: seq<Target>)
    requires forall path :: path in order ==> path in wanted
    requires forall path :: path in order && path in tree ==> Seen(env, wanted[path], path, tree[path], c, look)
    ensures complete <==> forall path :: path in order ==> path in tree
    ensures complete ==> stale == Found(order, c, look, Stale) && applied == Found(order, c, look, AtApplied)
  {
    stale, applied := [], [];
    for n := 0 to |order|
      invariant forall i :: 0 <= i < n ==> order[i] in tree
      invariant stale == Collected(order, c, look, Stale, n)
      invariant applied == Collected(order, c, look, AtApplied, n)
    {
      var path := order[n];
      if path !in tree {
        return false, [], [];
      }
      assert Seen(env, wanted[path], path, tree[path], c, look);
      var expectation := wanted[path];
      var target := TargetAt(env, path, expectation.base, tree[path]);
      if target.current != expectation.base {
        if target.current == expectation.applied {
          applied := applied + [target];
        } else {
          stale := stale + [target];
        }
      }
    }
    complete := true;
    CollectedIsFound(order, c, look, Stale, |order|);
    CollectedIsFound(order, c, look, AtApplied, |order|);
    assert order[..|order|] == order;
  }

  /** All renderings, or none if a base blob is missing or has the wrong digest. */
  method RenderAll(render: Target -> Option<string>, targets: seq<Target>) returns (ok: bool, rendered: seq<string>)
    ensures ok <==> forall i :: 0 <= i < |targets| ==> render(targets[i]).Some?
    ensures ok ==> |rendered| == |targets| && forall i :: 0 <= i < |targets| ==> render(targets[i]) == Some(rendered[i])
  {
    rendered := [];
    for n := 0 to |targets|
      invariant |rendered| == n
      invariant forall i :: 0 <= i < n ==> render(targets[i]) == Some(rendered[i])
    {
      var r := render(targets[n]);
      if r.None? {
        return false, [];
      }
      rendered := rendered + [r.value];
    }
    ok := true;
  }

  function RetiredWanted(p: Patches): (m: map<Path, Expectation>)
  {
    map path | path in p.retired :: Expectation(p.retired[path], p.retired[path])
  }

  lemma {:induction false} SeenAt(env: Env, p: Patches, tree: Tree, path: Path)
    requires (path in p.manifest || path in p.retired) && path in tree
    ensures Seen(env, Expect(p, path), path, tree[path], CensusOf(env, p, tree), LookOf(env, p, tree))
  {
  }

  /** The manifest entries, then the retired ones. */
  method SurveyAll(env: Env, p: Patches, tree: Tree) returns (complete: bool, stale: seq<Target>, applied: seq<Target>)
    requires Ready(p)
    ensures complete <==> Present(p, tree)
    ensures complete ==> stale == Found(Order(p), CensusOf(env, p, tree), LookOf(env, p, tree), Stale)
    ensures complete ==> applied == Found(Order(p), CensusOf(env, p, tree), LookOf(env, p, tree), AtApplied)
  {
    ReadyOrder(p);
    ghost var c, look := CensusOf(env, p, tree), LookOf(env, p, tree);
    forall path | path in Order(p) && path in tree
      ensures Seen(env, Expect(p, path), path, tree[path], c, look)
    {
      SeenAt(env, p, tree, path);
    }
    assert forall path :: path in Order(p) <==> path in p.manifestOrder || path in p.retiredOrder;
    var complete1, stale1, applied1 := Survey(env, p.manifestOrder, p.manifest, tree, c, look);
    if !complete1 {
      return false, [], [];
    }
    var complete2, stale2, applied2 := Survey(env, p.retiredOrder, RetiredWanted(p), tree, c, look);
    FoundSplit(p.manifestOrder, p.retiredOrder, c, look, Stale);
    FoundSplit(p.manifestOrder, p.retiredOrder, c, look, AtApplied);
    return complete2, stale1 + stale2, applied1 + applied2;
  }

  predicate Explained(log: seq<Revision>, t: Target) { Origin(Searched(log), t.path, t.current).Some? }

  /** Whether the history explains every stale file. */
  method Identify(log: seq<Revision>, stale: seq<Target>) returns (all: bool)
    requires forall i :: 0 <= i < |stale| ==> stale[i].origin == None
    ensures all <==> forall i :: 0 <= i < |stale| ==> Explained(log, stale[i])
  {
    var targets := new Target[|stale|](i requires 0 <= i < |stale| => stale[i]);
    assert forall i :: 0 <= i < |stale| ==> targets[i] == stale[i];
    MatchHistory(log, targets);
    all := forall i :: 0 <= i < targets.Length ==> targets[i].origin.Some?;
    assert all ==> forall i :: 0 <= i < |stale| ==> targets[i].origin.Some?;
  }

  function RenderWith(env: Env, blobs: map<Path, string>): (f: Target -> Option<string>)
  {
    (t: Target) => Restored(env, blobs, t.path, t.base, t.crlf)
  }

  function WritesFor(targets: seq<Target>, rendered: seq<string>): (w: seq<Write>)
    requires |targets| == |rendered|
    ensures |w| == |targets|
    ensures forall i :: 0 <= i < |w| ==> w[i] == Write(targets[i].path, rendered[i])
  {
    seq(|targets|, i requires 0 <= i < |targets| => Write(targets[i].path, rendered[i]))
  }

  function Currents(targets: seq<Target>): (r: seq<Digest>)
    ensures |r| == |targets| && forall i :: 0 <= i < |r| ==> r[i] == targets[i].current
  {
    seq(|targets|, i requires 0 <= i < |targets| => targets[i].current)
  }

  function Bases(targets: seq<Target>): (r: seq<Digest>)
    ensures |r| == |targets| && forall i :: 0 <= i < |r| ==> r[i] == targets[i].base
  {
    seq(|targets|, i requires 0 <= i < |targets| => targets[i].base)
  }

  /** A target is explained, and rendered, exactly as the plan sees its path. */
  lemma {:induction false} SeenAlike(env: Env, p: Patches, log: seq<Revision>, blobs: map<Path, string>, tree: Tree, path: Path)
    requires (path in p.manifest || path in p.retired) && path in tree
    ensures var t := LookOf(env, p, tree)(path);
            && t.path == path && t.origin == None
            && (Explained(log, t) <==> KnownTo(env, log, tree)(path))
            && RenderWith(env, blobs)(t) == RendererOf(env, p, blobs, tree)(path)
            && t.current == env.digest(tree[path]) && t.base == Expect(p, path).base
  {
  }

  /** The survey and the plan speak of the same files. */
  lemma {:induction false} TargetsAlike(
      env: Env, p: Patches, log: seq<Revision>, blobs: map<Path, string>, tree: Tree, paths: seq<Path>)
    requires Ready(p) && Present(p, tree) && forall i :: 0 <= i < |paths| ==> paths[i] in Order(p)
    ensures var targets := TargetsFor(LookOf(env, p, tree), paths);
            forall i :: 0 <= i < |paths| ==>
              && targets[i].path == paths[i] && paths[i] in tree && targets[i].origin == None
              && (Explained(log, targets[i]) <==> KnownTo(env, log, tree)(paths[i]))
              && RenderWith(env, blobs)(targets[i]) == RendererOf(env, p, blobs, tree)(paths[i])
              && targets[i].current == env.digest(tree[paths[i]])
  {
    ReadyOrder(p);
    var targets := TargetsFor(LookOf(env, p, tree), paths);
    forall i | 0 <= i < |paths|
      ensures targets[i].path == paths[i] && paths[i] in tree && targets[i].origin == None
      ensures Explained(log, targets[i]) <==> KnownTo(env, log, tree)(paths[i])
      ensures RenderWith(env, blobs)(targets[i]) == RendererOf(env, p, blobs, tree)(paths[i])
      ensures targets[i].current == env.digest(tree[paths[i]])
    {
      SeenAlike(env, p, log, blobs, tree, paths[i]);
    }
  }

  /** What carrying out a plan with a limited number of replacements leaves. */
  predicate Performed(tree: Tree, budget: nat, plan: Result<seq<Write>, Reason>, files: Tree, swaps: nat, r: Outcome)
  {
    match plan
    case Err(e) => files == tree && swaps == budget && r == Rejected(e)
    case Ok(w) =>
      if |w| <= budget then files == Replay(tree, w) && swaps == budget - |w| && r == Accepted
      else files == Replay(tree, w[..budget]) && swaps == 0 && r == Rejected(Interrupted)
  }

  /** The digests a sequence of writes starts from and ends with. */
  predicate Chained(env: Env, tree: Tree, w: seq<Write>, before: seq<Digest>, after: seq<Digest>)
  {
    && |before| == |after| == |w| && Distinct(TargetsOf(w))
    && forall i :: 0 <= i < |w| ==>
         && w[i].path in tree && env.digest(tree[w[i].path]) == before[i] != after[i]
         && env.digest(w[i].contents) == after[i]
  }

  /** What the restoration plan is, read off the surveyed targets. */
  lemma {:induction false} PlanOfSurvey(
      env: Env, p: Patches, log: seq<Revision>, blobs: map<Path, string>, tree: Tree, stale: seq<Target>, targets: seq<Target>)
    requires Ready(p) && Present(p, tree) && stale != []
    requires stale == Found(Order(p), CensusOf(env, p, tree), LookOf(env, p, tree), Stale)
    requires targets == TargetsFor(LookOf(env, p, tree), ToRestore(Order(p), CensusOf(env, p, tree)))
    ensures forall i :: 0 <= i < |stale| ==> stale[i].origin == None
    ensures var plan, render := RestorePlan(env, p, Usable(log, blobs), tree), RenderWith(env, blobs);
            if exists i :: 0 <= i < |stale| && !Explained(log, stale[i]) then plan == Err(Unidentified)
            else if exists i :: 0 <= i < |targets| && render(targets[i]).None? then plan == Err(BadBaseBlob)
            else plan.Ok? && |plan.value| == |targets| && forall i :: 0 <= i < |targets| ==>
                   plan.value[i] == Write(targets[i].path, render(targets[i]).value)
  {
    var order, c := Order(p), CensusOf(env, p, tree);
    var known, r := KnownTo(env, log, tree), RendererOf(env, p, blobs, tree);
    var stalePaths, paths := Select(order, c, Stale), ToRestore(order, c);
    ReadyDistinct(p);
    ToRestoreMembers(order, c);
    forall i | 0 <= i < |paths| ensures paths[i] in order { assert paths[i] in paths; }
    forall i | 0 <= i < |stalePaths| ensures stalePaths[i] in order { SelectMembers(order, c, Stale, stalePaths[i]); }
    TargetsAlike(env, p, log, blobs, tree, paths);
    TargetsAlike(env, p, log, blobs, tree, stalePaths);
    assert RestorePlan(env, p, Usable(log, blobs), tree) == RestoreAll(order, c, known, r);
    PlanOfPaths(order, c, known, r, log, RenderWith(env, blobs), stale, targets);
  }

  lemma {:induction false} PlanOfPaths(
      order: seq<Path>, c: Census, known: Path -> bool, r: Renderer,
      log: seq<Revision>, render: Target -> Option<string>, stale: seq<Target>, targets: seq<Target>)
    requires |stale| == |Select(order, c, Stale)| && |targets| == |ToRestore(order, c)|
    requires forall i :: 0 <= i < |stale| ==> (Explained(log, stale[i]) <==> known(Select(order, c, Stale)[i]))
    requires forall i :: 0 <= i < |targets| ==>
      targets[i].path == ToRestore(order, c)[i] && render(targets[i]) == r(ToRestore(order, c)[i])
    ensures var plan := RestoreAll(order, c, known, r);
            if exists i :: 0 <= i < |stale| && !Explained(log, stale[i]) then plan == Err(Unidentified)
            else if exists i :: 0 <= i < |targets| && render(targets[i]).None? then plan == Err(BadBaseBlob)
            else plan.Ok? && |plan.value| == |targets| && forall i :: 0 <= i < |targets| ==>
                   plan.value[i] == Write(targets[i].path, render(targets[i]).value)
  {
    var stalePaths, paths := Select(order, c, Stale), ToRestore(order, c);
    assert (exists i :: 0 <= i < |stale| && !Explained(log, stale[i]))
      <==> (exists i :: 0 <= i < |stalePaths| && !known(stalePaths[i])) by {
      if i :| 0 <= i < |stalePaths| && !known(stalePaths[i]) { assert !Explained(log, stale[i]); }
    }
    assert (exists i :: 0 <= i < |targets| && render(targets[i]).None?)
      <==> (exists i :: 0 <= i < |paths| && r(paths[i]).None?) by {
      if i :| 0 <= i < |paths| && r(paths[i]).None? { assert render(targets[i]).None?; }
    }
  }

  /** The restoring writes replace what the survey saw. */
  lemma {:induction false} RestorationIsChained(env: Env, p: Patches, source: RestoreSource, tree: Tree, targets: seq<Target>)
    requires Ready(p) && RestorePlan(env, p, source, tree).Ok?
    requires |targets| == |RestorePlan(env, p, source, tree).value|
    requires forall i :: 0 <= i < |targets| ==>
      var path := RestorePlan(env, p, source, tree).value[i].path;
      path in Order(p) ==> targets[i] == LookOf(env, p, tree)(path)
    ensures Chained(env, tree, RestorePlan(env, p, source, tree).value, Currents(targets), Bases(targets))
  {
    var w := RestorePlan(env, p, source, tree).value;
    RestoreFacts(env, p, source, tree);
    forall i | 0 <= i < |w|
      ensures && w[i].path in tree && env.digest(tree[w[i].path]) == targets[i].current != targets[i].base
              && env.digest(w[i].contents) == targets[i].base
    {
      RestoringWrites(env, p, source, tree, i);
      SeenAt(env, p, tree, w[i].path);
    }
  }

  /** The surveyed targets look as the paths to restore do. */
  lemma {:induction false} TargetPaths(env: Env, p: Patches, tree: Tree, targets: seq<Target>)
    requires Ready(p) && Present(p, tree)
    requires targets == TargetsFor(LookOf(env, p, tree), ToRestore(Order(p), CensusOf(env, p, tree)))
    ensures forall i :: 0 <= i < |targets| ==> targets[i] == LookOf(env, p, tree)(targets[i].path)
  {
    var paths := ToRestore(Order(p), CensusOf(env, p, tree));
    ReadyOrder(p);
    ToRestoreMembers(Order(p), CensusOf(env, p, tree));
    forall i | 0 <= i < |targets| ensures targets[i].path == paths[i] {
      assert paths[i] in paths;
      SeenAlike(env, p, [], map[], tree, paths[i]);
    }
  }

  /** The surveyed files, stale ones first, are the files to restore. */
  ghost predicate Surveyed(env: Env, p: Patches, tree: Tree, stale: seq<Target>, targets: seq<Target>)
  {
    && Ready(p) && Present(p, tree) && stale != []
    && stale == Found(Order(p), CensusOf(env, p, tree), LookOf(env, p, tree), Stale)
    && targets == TargetsFor(LookOf(env, p, tree), ToRestore(Order(p), CensusOf(env, p, tree)))
  }

  lemma {:induction false} SurveyedTargets(
      env: Env, p: Patches, tree: Tree, stale: seq<Target>, applied: seq<Target>, targets: seq<Target>)
    requires Ready(p) && Present(p, tree) && stale != [] && targets == stale + applied
    requires stale == Found(Order(p), CensusOf(env, p, tree), LookOf(env, p, tree), Stale)
    requires applied == Found(Order(p), CensusOf(env, p, tree), LookOf(env, p, tree), AtApplied)
    ensures Surveyed(env, p, tree, stale, targets)
    ensures forall i :: 0 <= i < |stale| ==> stale[i].origin == None
  {
    assert targets == TargetsFor(LookOf(env, p, tree), ToRestore(Order(p), CensusOf(env, p, tree)));
    PlanOfSurvey(env, p, [], map[], tree, stale, targets);
  }

  lemma {:induction false} UnidentifiedPlan(
      env: Env, p: Patches, log: seq<Revision>, blobs: map<Path, string>, tree: Tree, stale: seq<Target>, targets: seq<Target>)
    requires Surveyed(env, p, tree, stale, targets) && exists i :: 0 <= i < |stale| && !Explained(log, stale[i])
    ensures RestorePlan(env, p, Usable(log, blobs), tree) == Err(Unidentified)
  {
    PlanOfSurvey(env, p, log, blobs, tree, stale, targets);
  }

  lemma {:induction false} UnrenderedPlan(
      env: Env, p: Patches, log: seq<Revision>, blobs: map<Path, string>, tree: Tree, stale: seq<Target>, targets: seq<Target>)
    requires Surveyed(env, p, tree, stale, targets) && forall i :: 0 <= i < |stale| ==> Explained(log, stale[i])
    requires exists i :: 0 <= i < |targets| && RenderWith(env, blobs)(targets[i]).None?
    ensures RestorePlan(env, p, Usable(log, blobs), tree) == Err(BadBaseBlob)
  {
    PlanOfSurvey(env, p, log, blobs, tree, stale, targets);
  }

  /** Once every stale file is explained and every target rendered, the plan is to write the renderings,
      and each replaces what the survey saw. */
  lemma {:induction false} SurveyedWrites(
      env: Env, p: Patches, log: seq<Revision>, blobs: map<Path, string>, tree: Tree, stale: seq<Target>,
      targets: seq<Target>, rendered: seq<string>)
    requires Surveyed(env, p, tree, stale, targets) && |rendered| == |targets|
    requires forall i :: 0 <= i < |stale| ==> Explained(log, stale[i])
    requires forall i :: 0 <= i < |targets| ==> RenderWith(env, blobs)(targets[i]) == Some(rendered[i])
    ensures RestorePlan(env, p, Usable(log, blobs), tree) == Ok(WritesFor(targets, rendered))
    ensures Chained(env, tree, WritesFor(targets, rendered), Currents(targets), Bases(targets))
  {
    PlanOfSurvey(env, p, log, blobs, tree, stale, targets);
    assert RestorePlan(env, p, Usable(log, blobs), tree).value == WritesFor(targets, rendered);
    TargetPaths(env, p, tree, targets);
    RestorationIsChained(env, p, Usable(log, blobs), tree, targets);
  }

  function BasesOf(p: Patches, w: seq<Write>): (r: seq<Digest>)
    requires forall i :: 0 <= i < |w| ==> w[i].path in p.manifest
    ensures |r| == |w| && forall i :: 0 <= i < |r| ==> r[i] == p.manifest[w[i].path].base
  {
    seq(|w|, i requires 0 <= i < |w| => p.manifest[w[i].path].base)
  }

  function AppliedOf(p: Patches, w: seq<Write>): (r: seq<Digest>)
    requires forall i :: 0 <= i < |w| ==> w[i].path in p.manifest
    ensures |r| == |w| && forall i :: 0 <= i < |r| ==> r[i] == p.manifest[w[i].path].applied
  {
    seq(|w|, i requires 0 <= i < |w| => p.manifest[w[i].path].applied)
  }

  lemma {:induction false} ApplicationIsChained(env: Env, p: Patches, checkoutOk: bool, tree: Tree)
    requires Ready(p) && ApplyPlan(env, p, checkoutOk, tree).Ok?
    ensures var w := ApplyPlan(env, p, checkoutOk, tree).value;
            && (forall i :: 0 <= i < |w| ==> w[i].path in p.manifest)
            && Chained(env, tree, w, BasesOf(p, w), AppliedOf(p, w))
  {
    ApplyFacts(env, p, checkoutOk, tree);
    var w := ApplyPlan(env, p, checkoutOk, tree).value;
    forall i | 0 <= i < |w|
      ensures && w[i].path in tree
              && env.digest(tree[w[i].path]) == p.manifest[w[i].path].base != p.manifest[w[i].path].applied
    {
      assert AtDigests(env, p, tree, w[i].path, false);
    }
  }

  /** What a run with `budget` replacements leaves: the run, or its interruption. */
  predicate RunPerformed(tree: Tree, budget: nat, run: Run, files: Tree, swaps: nat, r: Outcome)
  {
    var total := |run.restores| + |run.applies|;
    && files == After(tree, run, budget)
    && (if total <= budget then swaps == budget - total && r == run.outcome else swaps == 0 && r == Rejected(Interrupted))
  }

  /** Carrying out the two plans one after the other is carrying out the run. */
  lemma {:induction false} TwoPlansMakeARun(
      tree: Tree, budget: nat, w: seq<Write>, plan: Result<seq<Write>, Reason>, middle: Tree, left: nat,
      files: Tree, swaps: nat, r: Outcome)
    requires Performed(tree, budget, Ok(w), middle, left, Accepted)
    requires Performed(middle, left, plan, files, swaps, r)
    ensures RunPerformed(tree, budget, RunAfter(w, plan), files, swaps, r)
  {
  }

  lemma {:induction false} InterruptedRestore(
      tree: Tree, budget: nat, w: seq<Write>, plan: Result<seq<Write>, Reason>, files: Tree, swaps: nat, r: Outcome)
    requires Performed(tree, budget, Ok(w), files, swaps, r) && r != Accepted
    ensures RunPerformed(tree, budget, RunAfter(w, plan), files, swaps, r)
  {
  }

  lemma {:induction false} FailedRestore(tree: Tree, budget: nat, e: Reason)
    ensures RunPerformed(tree, budget, Run(Rejected(e), [], []), tree, budget, Rejected(e))
  {
  }

  // ------------------------------------------------------- the state machine

  class VendorCheckout {
    var files: Tree
    var swaps: nat

    constructor (files: Tree, swaps: nat)
      ensures this.files == files && this.swaps == swaps
    {
      this.files := files;
      this.swaps := swaps;
    }

    /** `atomic_replace`: refuse a target that is missing, not at `before` or already at `after`;
        otherwise swap the whole content, then check the digest it ended with. */
    method Replace(env: Env, path: Path, contents: string, before: Digest, after: Digest) returns (r: Outcome)
      modifies this
      ensures r == Accepted
              <==> && path in old(files) && env.digest(old(files)[path]) == before != after
                   && old(swaps) > 0 && env.digest(contents) == after
      ensures if r == Accepted || (r == Rejected(ChangedUnderfoot) && env.digest(contents) != after && swaps < old(swaps))
              then files == old(files)[path := contents] && swaps == old(swaps) - 1
              else files == old(files) && swaps == old(swaps)
      ensures path in old(files) && env.digest(old(files)[path]) == before != after && old(swaps) == 0 ==>
                r == Rejected(Interrupted)
    {
      if path !in files {
        return Rejected(MissingFile);
      }
      if env.digest(files[path]) != before || env.digest(files[path]) == after {
        return Rejected(ChangedUnderfoot);
      }
      if swaps == 0 {
        return Rejected(Interrupted);
      }
      files := files[path := contents];
      swaps := swaps - 1;
      if env.digest(files[path]) != after {
        return Rejected(ChangedUnderfoot);
      }
      return Accepted;
    }

    /** The write loops of restoring and of applying: one atomic replacement after the other. */
    method WriteAll(env: Env, w: seq<Write>, before: seq<Digest>, after: seq<Digest>) returns (r: Outcome)
      requires Chained(env, files, w, before, after)
      modifies this
      ensures Performed(old(files), old(swaps), Ok(w), files, swaps, r)
    {
      ghost var tree := files;
      assert w[..0] == [];
      for n := 0 to |w|
        invariant n <= old(swaps) && swaps == old(swaps) - n
        invariant files == Replay(tree, w[..n])
      {
        ReplayPrefix(tree, w, n, n);
        r := Replace(env, w[n].path, w[n].contents, before[n], after[n]);
        if r != Accepted {
          return;
        }
        assert w[..n + 1] == w[..n] + [w[n]];
        ReplayAppend(tree, w[..n], [w[n]]);
        assert [w[n]][1..] == [];
      }
      assert w[..|w|] == w;
      r := Accepted;
    }

    /** `restore_build_written_files`. */
    method RestoreBuildWritten(env: Env, p: Patches, source: RestoreSource) returns (r: Outcome)
      requires Ready(p)
      modifies this
      ensures Performed(old(files), old(swaps), RestorePlan(env, p, source, old(files)), files, swaps, r)
    {
      var tree := files;
      var complete, stale, applied := SurveyAll(env, p, tree);
      if !complete {
        return Rejected(MissingFile);
      }
      if stale == [] {
        assert Select(Order(p), CensusOf(env, p, tree), Stale) == [];
        return Accepted;
      }
      assert Select(Order(p), CensusOf(env, p, tree), Stale) != [];
      match source {
        case Refused => return Rejected(CheckoutRefused);
        case Unusable => return Rejected(NoMetadata);
        case Usable(log, blobs) => r := RestoreFrom(env, p, log, blobs, stale, applied);
      }
    }

    /** Identify every stale file, render every file to restore, and only then write. */
    method RestoreFrom(
        env: Env, p: Patches, log: seq<Revision>, blobs: map<Path, string>, stale: seq<Target>, applied: seq<Target>)
      returns (r: Outcome)
      requires Ready(p) && Present(p, files) && stale != []
      requires stale == Found(Order(p), CensusOf(env, p, files), LookOf(env, p, files), Stale)
      requires applied == Found(Order(p), CensusOf(env, p, files), LookOf(env, p, files), AtApplied)
      modifies this
      ensures Performed(old(files), old(swaps), RestorePlan(env, p, Usable(log, blobs), old(files)), files, swaps, r)
    {
      ghost var tree := files;
      var targets := stale + applied;
      SurveyedTargets(env, p, tree, stale, applied, targets);
      var identified := Identify(log, stale);
      if !identified {
        UnidentifiedPlan(env, p, log, blobs, tree, stale, targets);
        return Rejected(Unidentified);
      }
      var ok, rendered := RenderAll(RenderWith(env, blobs), targets);
      if !ok {
        UnrenderedPlan(env, p, log, blobs, tree, stale, targets);
        return Rejected(BadBaseBlob);
      }
      var w := WritesFor(targets, rendered);
      SurveyedWrites(env, p, log, blobs, tree, stale, targets, rendered);
      r := WriteAll(env, w, Currents(targets), Bases(targets));
    }

    /** `apply_directory_with_base`: every run, complete or interrupted, performs exactly the leading
        replacements of `RunOf`. */
    method ApplyDirectory(env: Env, p: Patches, view: GitView) returns (r: Outcome)
      requires ValidPatches(p)
      modifies this
      ensures RunPerformed(old(files), old(swaps), RunOf(env, p, view, old(files)), files, swaps, r)
    {
      ghost var tree, budget := files, swaps;
      r := Validate(p);
      if r != Accepted {
        FailedRestore(tree, budget, r.reason);
        return;
      }
      r := RestoreBuildWritten(env, p, view.source);
      ghost var restore := RestorePlan(env, p, view.source, tree);
      if r != Accepted {
        if restore.Ok? {
          InterruptedRestore(tree, budget, restore.value,
                             ApplyPlan(env, p, view.checkoutOk, Replay(tree, restore.value)), files, swaps, r);
        } else {
          FailedRestore(tree, budget, restore.error);
        }
        return;
      }
      ghost var middle, left := files, swaps;
      r := ApplyAll(env, p, view.checkoutOk);
      TwoPlansMakeARun(tree, budget, restore.value, ApplyPlan(env, p, view.checkoutOk, middle), middle, left, files, swaps, r);
    }

    /** Plan every patch on the restored tree, then write, or write nothing at all. */
    method ApplyAll(env: Env, p: Patches, checkoutOk: bool) returns (r: Outcome)
      requires Ready(p)
      modifies this
      ensures Performed(old(files), old(swaps), ApplyPlan(env, p, checkoutOk, old(files)), files, swaps, r)
    {
      var plan := ApplyPlan(env, p, checkoutOk, files);
      if plan.Err? {
        return Rejected(plan.error);
      }
      ApplicationIsChained(env, p, checkoutOk, files);
      r := WriteAll(env, plan.value, BasesOf(p, plan.value), AppliedOf(p, plan.value));
    }
  }
}
