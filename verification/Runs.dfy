/**
 Whole-run properties of the vendor patch preparer: what an accepted run leaves,
 what every replacement overwrites, when a run is accepted, what an interrupted
 run leaves behind and what the next run makes of it.
 */
module Runs {
  import opened Options
  import opened Hunks
  import opened Planning
  import opened Restoring

  // ------------------------------------------------------- replaying writes

  lemma {:induction false} ReplayAppend(tree: Tree, a: seq<Write>, b: seq<Write>)
    ensures Replay(tree, a + b) == Replay(Replay(tree, a), b)
    decreases |a|
  {
    if a == [] {
      assert a + b == b;
    } else {
      assert (a + b)[1..] == a[1..] + b;
      ReplayAppend(tree[a[0].path := a[0].contents], a[1..], b);
    }
  }

  /** Only the targets change, and nothing disappears. */
  lemma {:induction false} ReplayElsewhere(tree: Tree, writes: seq<Write>, path: Path)
    requires forall i :: 0 <= i < |writes| ==> writes[i].path != path
    ensures path in Replay(tree, writes) <==> path in tree
    ensures path in tree ==> Replay(tree, writes)[path] == tree[path]
    decreases |writes|
  {
    if writes != [] {
      ReplayElsewhere(tree[writes[0].path := writes[0].contents], writes[1..], path);
    }
  }

  /** With distinct targets every target ends with what was written to it. */
  lemma {:induction false} ReplayAt(tree: Tree, writes: seq<Write>, i: nat)
    requires i < |writes| && Distinct(TargetsOf(writes))
    ensures writes[i].path in Replay(tree, writes)
    ensures Replay(tree, writes)[writes[i].path] == writes[i].contents
    decreases |writes|
  {
    var tree', rest := tree[writes[0].path := writes[0].contents], writes[1..];
    var targets := TargetsOf(writes);
    assert Distinct(TargetsOf(rest)) by {
      forall a, b | 0 <= a < b < |rest| ensures rest[a].path != rest[b].path {
        assert targets[a + 1] != targets[b + 1];
      }
    }
    if i == 0 {
      forall k | 0 <= k < |rest| ensures rest[k].path != writes[0].path {
        assert targets[0] != targets[k + 1];
      }
      ReplayElsewhere(tree', rest, writes[0].path);
    } else {
      ReplayAt(tree', rest, i - 1);
    }
  }

  /** After the first `k` writes, target `i` holds its new content if `i < k` and its old one otherwise. */
  lemma {:induction false} ReplayPrefix(tree: Tree, writes: seq<Write>, k: nat, i: nat)
    requires k <= |writes| && i < |writes| && Distinct(TargetsOf(writes))
    ensures var now, path := Replay(tree, writes[..k]), writes[i].path;
            if i < k then path in now && now[path] == writes[i].contents
            else (path in now <==> path in tree) && (path in tree ==> now[path] == tree[path])
  {
    var targets, prefix := TargetsOf(writes), writes[..k];
    assert forall j :: 0 <= j < |writes| ==> targets[j] == writes[j].path;
    if i < k {
      assert Distinct(TargetsOf(prefix)) by {
        forall a, b | 0 <= a < b < k ensures prefix[a].path != prefix[b].path {
          assert targets[a] != targets[b];
        }
      }
      ReplayAt(tree, prefix, i);
    } else {
      forall j | 0 <= j < k ensures prefix[j].path != writes[i].path {
        assert targets[j] != targets[i];
      }
      ReplayElsewhere(tree, prefix, writes[i].path);
    }
  }

  // ------------------------------------------------------- selecting targets

  lemma {:induction false} SelectMembers(order: seq<Path>, c: Census, want: Standing, path: Path)
    ensures path in Select(order, c, want) <==> path in order && c(path) == want
  {
    if order != [] {
      SelectMembers(order[1..], c, want, path);
      assert order == [order[0]] + order[1..];
    }
  }

  lemma {:induction false} SelectDistinct(order: seq<Path>, c: Census, want: Standing)
    requires Distinct(order)
    ensures Distinct(Select(order, c, want))
  {
    if order != [] {
      var rest := order[1..];
      forall a, b | 0 <= a < b < |rest| ensures rest[a] != rest[b] {
        assert order[a + 1] != order[b + 1];
      }
      SelectDistinct(rest, c, want);
      SelectMembers(rest, c, want, order[0]);
      var s := Select(rest, c, want);
      if c(order[0]) == want {
        var r := [order[0]] + s;
        forall a, b | 0 <= a < b < |r| ensures r[a] != r[b] {
          if a == 0 { assert r[b] in s; } else { assert s[a - 1] != s[b - 1]; }
        }
      }
    }
  }

  lemma {:induction false} ToRestoreMembers(order: seq<Path>, c: Census)
    requires Distinct(order)
    ensures Distinct(ToRestore(order, c))
    ensures forall path :: path in ToRestore(order, c) <==> path in order && c(path) != AtBase
  {
    var a, b := Select(order, c, Stale), Select(order, c, AtApplied);
    SelectDistinct(order, c, Stale);
    SelectDistinct(order, c, AtApplied);
    forall path ensures path in a <==> path in order && c(path) == Stale { SelectMembers(order, c, Stale, path); }
    forall path ensures path in b <==> path in order && c(path) == AtApplied { SelectMembers(order, c, AtApplied, path); }
    var r := a + b;
    forall i, j | 0 <= i < j < |r| ensures r[i] != r[j] {
      if j < |a| { assert a[i] != a[j]; }
      else if i >= |a| { assert b[i - |a|] != b[j - |a|]; }
      else { assert r[i] in a && r[j] in b; }
    }
  }

  lemma {:induction false} OrderDistinct(p: Patches)
    requires ValidPatches(p) && p.manifest.Keys !! p.retired.Keys
    ensures Distinct(Order(p))
    ensures forall path :: path in Order(p) <==> path in p.manifest || path in p.retired
  {
    var r, n := Order(p), |p.manifestOrder|;
    forall i, j | 0 <= i < j < |r| ensures r[i] != r[j] {
      if i < n <= j {
        assert r[i] in p.manifestOrder && r[j] in p.retiredOrder;
      }
    }
  }

  // ------------------------------------------------------- the two halves

  /** A patch directory that passes validation. */
  ghost predicate Ready(p: Patches) { ValidPatches(p) && Validate(p) == Accepted }

  lemma {:induction false} ReadyOrder(p: Patches)
    requires Ready(p)
    ensures Distinct(Order(p))
    ensures forall path :: path in Order(p) <==> path in p.manifest || path in p.retired
    ensures p.manifest.Keys !! p.retired.Keys
    ensures forall f :: f in Flatten(p.specs) ==> f.path in p.manifest
    ensures forall path :: path in p.manifest ==> path in PathsOf(Flatten(p.specs))
  {
    OrderDistinct(p);
    var files := Flatten(p.specs);
    forall f | f in files ensures f.path in p.manifest {
      var i :| 0 <= i < |files| && files[i] == f;
      assert files[i].path in Listed(files);
    }
    forall path | path in p.manifest ensures path in PathsOf(files) {
      assert path in Listed(files);
      var i :| 0 <= i < |files| && files[i].path == path;
      assert PathsOf(files)[i] == path;
    }
  }

  lemma {:induction false} ReadyDistinct(p: Patches)
    requires Ready(p)
    ensures Distinct(Order(p))
  {
    OrderDistinct(p);
  }

  predicate NoneIn(order: seq<Path>, c: Census, standing: Standing)
  {
    forall path :: path in order ==> c(path) != standing
  }

  /** Every stale file is identified and every file off its base has an authentic base blob. */
  predicate AllRestorable(order: seq<Path>, c: Census, known: Path -> bool, r: Renderer)
  {
    && (forall path :: path in order && c(path) == Stale ==> known(path))
    && (forall path :: path in order && c(path) != AtBase ==> r(path).Some?)
  }

  predicate Restorable(env: Env, p: Patches, source: RestoreSource, tree: Tree)
  {
    && source.Usable?
    && AllRestorable(Order(p), CensusOf(env, p, tree), KnownTo(env, source.log, tree),
                     RendererOf(env, p, source.blobs, tree))
  }

  lemma {:induction false} StaleEmpty(order: seq<Path>, c: Census, want: Standing)
    ensures Select(order, c, want) == [] <==> NoneIn(order, c, want)
  {
    var found := Select(order, c, want);
    forall path ensures path in found <==> path in order && c(path) == want { SelectMembers(order, c, want, path); }
    if found != [] {
      assert found[0] in found;
    }
  }

  lemma {:induction false} RestoreAllCases(order: seq<Path>, c: Census, known: Path -> bool, r: Renderer)
    requires Distinct(order)
    ensures var w := RestoreAll(order, c, known, r);
            && (w.Ok? <==> AllRestorable(order, c, known, r))
            && (w.Ok? ==> forall i :: 0 <= i < |ToRestore(order, c)| ==> r(ToRestore(order, c)[i]).Some?)
            && (w.Ok? ==> w.value == RestoreWrites(r, ToRestore(order, c)))
  {
    var stale, paths := Select(order, c, Stale), ToRestore(order, c);
    ToRestoreMembers(order, c);
    forall path ensures path in stale <==> path in order && c(path) == Stale { SelectMembers(order, c, Stale, path); }
    assert forall i :: 0 <= i < |stale| ==> stale[i] in stale;
    assert forall i :: 0 <= i < |paths| ==> paths[i] in paths;
  }

  predicate NoStale(env: Env, p: Patches, tree: Tree) { NoneIn(Order(p), CensusOf(env, p, tree), Stale) }

  /** Restoration succeeds exactly when there is nothing stale or everything can be restored. */
  lemma {:induction false} RestoreCases(env: Env, p: Patches, source: RestoreSource, tree: Tree)
    requires Ready(p)
    ensures var r := RestorePlan(env, p, source, tree);
            && (r.Ok? <==> Present(p, tree) && (NoStale(env, p, tree) || Restorable(env, p, source, tree)))
            && (r.Ok? && NoStale(env, p, tree) ==> r.value == [])
            && (r.Ok? && !NoStale(env, p, tree) ==>
                  source.Usable? && r == RestoreAll(Order(p), CensusOf(env, p, tree), KnownTo(env, source.log, tree),
                                                    RendererOf(env, p, source.blobs, tree)))
  {
    ReadyDistinct(p);
    var c := CensusOf(env, p, tree);
    StaleEmpty(Order(p), c, Stale);
    if source.Usable? {
      RestoreAllCases(Order(p), c, KnownTo(env, source.log, tree), RendererOf(env, p, source.blobs, tree));
    }
  }

  lemma {:induction false} RestoreAllFacts(order: seq<Path>, c: Census, known: Path -> bool, r: Renderer)
    requires Distinct(order) && RestoreAll(order, c, known, r).Ok?
    ensures var w := RestoreAll(order, c, known, r).value;
            && TargetsOf(w) == ToRestore(order, c)
            && Distinct(TargetsOf(w))
            && (forall path :: path in TargetsOf(w) <==> path in order && c(path) != AtBase)
            && (forall i :: 0 <= i < |w| ==> w[i].path in order && r(w[i].path) == Some(w[i].contents))
  {
    RestoreAllCases(order, c, known, r);
    ToRestoreMembers(order, c);
    var w := RestoreAll(order, c, known, r).value;
    assert TargetsOf(w) == ToRestore(order, c);
    forall i | 0 <= i < |w| ensures w[i].path in order { assert w[i].path in ToRestore(order, c); }
  }

  /** What a restoring run replaces: files off their base, by content at their base. */
  lemma {:induction false} RestoreFacts(env: Env, p: Patches, source: RestoreSource, tree: Tree)
    requires Ready(p) && RestorePlan(env, p, source, tree).Ok?
    ensures var w := RestorePlan(env, p, source, tree).value;
            && Present(p, tree) && Distinct(TargetsOf(w))
            && (NoStale(env, p, tree) ==> w == [])
            && (!NoStale(env, p, tree) ==> forall path ::
                  path in TargetsOf(w) <==> path in Order(p) && CensusOf(env, p, tree)(path) != AtBase)
            && (forall i :: 0 <= i < |w| ==>
                  w[i].path in Order(p) && w[i].path in tree && (w[i].path in p.manifest || w[i].path in p.retired)
                  && env.digest(w[i].contents) == Expect(p, w[i].path).base)
  {
    RestoreCases(env, p, source, tree);
    ReadyDistinct(p);
    var w := RestorePlan(env, p, source, tree).value;
    if !NoStale(env, p, tree) {
      RestoreAllFacts(Order(p), CensusOf(env, p, tree), KnownTo(env, source.log, tree), RendererOf(env, p, source.blobs, tree));
      forall i | 0 <= i < |w|
        ensures w[i].path in tree && (w[i].path in p.manifest || w[i].path in p.retired)
        ensures env.digest(w[i].contents) == Expect(p, w[i].path).base
      {
        RendererRestores(env, p, source.blobs, tree, w[i].path);
      }
    }
  }

  lemma {:induction false} RendererRestores(env: Env, p: Patches, blobs: map<Path, string>, tree: Tree, path: Path)
    ensures var r := RendererOf(env, p, blobs, tree)(path);
            r.Some? ==> path in tree && (path in p.manifest || path in p.retired)
                        && env.digest(r.value) == Expect(p, path).base
  {
  }

  /** The tree a successful restoration hands to planning: unchanged, or entirely at base. */
  lemma {:induction false} RestoredTree(env: Env, p: Patches, source: RestoreSource, tree: Tree)
    requires Ready(p) && RestorePlan(env, p, source, tree).Ok?
    ensures var tree' := Replay(tree, RestorePlan(env, p, source, tree).value);
            && Present(p, tree')
            && (NoStale(env, p, tree) ==> tree' == tree)
            && (!NoStale(env, p, tree) ==> forall path :: path in Order(p) ==>
                  env.digest(tree'[path]) == Expect(p, path).base)
            && (forall path :: path !in Order(p) ==> (path in tree' <==> path in tree)
                                                      && (path in tree ==> tree'[path] == tree[path]))
  {
    RestoreFacts(env, p, source, tree);
    ReadyOrder(p);
    var w := RestorePlan(env, p, source, tree).value;
    var tree' := Replay(tree, w);
    forall path
      ensures path !in TargetsOf(w) ==> (path in tree' <==> path in tree) && (path in tree ==> tree'[path] == tree[path])
      ensures path in TargetsOf(w) ==> path in tree' && env.digest(tree'[path]) == Expect(p, path).base
    {
      RestoredAt(env, p, tree, w, path);
    }
    if !NoStale(env, p, tree) {
      forall path | path in Order(p) ensures path in tree' && env.digest(tree'[path]) == Expect(p, path).base {
        if path !in TargetsOf(w) {
          AtBaseDigest(env, p, tree, path);
        }
      }
    }
  }

  lemma {:induction false} AtBaseDigest(env: Env, p: Patches, tree: Tree, path: Path)
    requires path in tree && (path in p.manifest || path in p.retired)
    ensures CensusOf(env, p, tree)(path) == AtBase <==> env.digest(tree[path]) == Expect(p, path).base
    ensures CensusOf(env, p, tree)(path) == AtApplied
            <==> env.digest(tree[path]) == Expect(p, path).applied != Expect(p, path).base
  {
  }

  lemma {:induction false} RestoredAt(env: Env, p: Patches, tree: Tree, w: seq<Write>, path: Path)
    requires Distinct(TargetsOf(w))
    requires forall i :: 0 <= i < |w| ==> (w[i].path in p.manifest || w[i].path in p.retired)
                                          && env.digest(w[i].contents) == Expect(p, w[i].path).base
    ensures var tree' := Replay(tree, w);
            && (path !in TargetsOf(w) ==> (path in tree' <==> path in tree) && (path in tree ==> tree'[path] == tree[path]))
            && (path in TargetsOf(w) ==> (path in p.manifest || path in p.retired)
                                         && path in tree' && env.digest(tree'[path]) == Expect(p, path).base)
  {
    if path in TargetsOf(w) {
      var i :| 0 <= i < |w| && TargetsOf(w)[i] == path;
      ReplayAt(tree, w, i);
    } else {
      forall i | 0 <= i < |w| ensures w[i].path != path { assert TargetsOf(w)[i] == w[i].path; }
      ReplayElsewhere(tree, w, path);
    }
  }

  lemma {:induction false} VerdictFacts(env: Env, p: Patches, tree: Tree, f: FilePatch)
    ensures var v := JudgeOf(env, p, tree)(f);
            && (v.Clean? || v.Applied? ==> f.path in tree && f.path in p.manifest)
            && (v.Clean? ==> env.digest(tree[f.path]) == p.manifest[f.path].base != p.manifest[f.path].applied
                             && env.digest(v.rendered) == p.manifest[f.path].applied)
            && (v.Applied? ==> env.digest(tree[f.path]) == p.manifest[f.path].applied != p.manifest[f.path].base)
  {
  }

  predicate AtDigests(env: Env, p: Patches, tree: Tree, path: Path, applied: bool)
    requires path in p.manifest
  {
    && p.manifest[path].base != p.manifest[path].applied
    && path in tree
    && env.digest(tree[path]) == if applied then p.manifest[path].applied else p.manifest[path].base
  }

  /** Every manifest target holds its applied content, or every one its base content. */
  predicate AllAt(env: Env, p: Patches, tree: Tree, applied: bool)
  {
    forall path :: path in p.manifest ==> AtDigests(env, p, tree, path, applied)
  }

  lemma {:induction false} JudgedAt(env: Env, p: Patches, tree: Tree)
    requires Ready(p)
    ensures EveryApplied(JudgeOf(env, p, tree), Flatten(p.specs)) ==> AllAt(env, p, tree, true)
    ensures EveryClean(JudgeOf(env, p, tree), Flatten(p.specs)) ==> AllAt(env, p, tree, false)
  {
    ReadyOrder(p);
    var files, v := Flatten(p.specs), JudgeOf(env, p, tree);
    forall path | path in p.manifest
      ensures EveryApplied(v, files) ==> AtDigests(env, p, tree, path, true)
      ensures EveryClean(v, files) ==> AtDigests(env, p, tree, path, false)
    {
      var i :| 0 <= i < |files| && PathsOf(files)[i] == path;
      VerdictFacts(env, p, tree, files[i]);
    }
  }

  /** What an accepted plan writes: nothing on an applied tree, every target on a clean one. */
  lemma {:induction false} ApplyFacts(env: Env, p: Patches, checkoutOk: bool, tree: Tree)
    requires Ready(p) && ApplyPlan(env, p, checkoutOk, tree).Ok?
    ensures var w := ApplyPlan(env, p, checkoutOk, tree).value;
            && RetiredAtBase(env, p, tree) && checkoutOk
            && Distinct(TargetsOf(w))
            && (w == [] ==> AllAt(env, p, tree, true))
            && (w != [] ==> AllAt(env, p, tree, false)
                            && forall path :: path in TargetsOf(w) <==> path in p.manifest)
            && (forall i :: 0 <= i < |w| ==> w[i].path in p.manifest
                                             && env.digest(w[i].contents) == p.manifest[w[i].path].applied)
  {
    ApplyPlanCases(env, p, checkoutOk, tree);
    JudgedAt(env, p, tree);
    FilesExist(p);
    if !EveryApplied(JudgeOf(env, p, tree), Flatten(p.specs)) {
      WritingFacts(env, p, tree, ApplyPlan(env, p, checkoutOk, tree).value);
    }
  }

  /** What a plan that finds every file clean writes. */
  lemma {:induction false} WritingFacts(env: Env, p: Patches, tree: Tree, w: seq<Write>)
    requires Ready(p) && EveryClean(JudgeOf(env, p, tree), Flatten(p.specs)) && Distinct(PathsOf(Flatten(p.specs)))
    requires w == WritesOf(JudgeOf(env, p, tree), Flatten(p.specs))
    ensures Distinct(TargetsOf(w)) && (Flatten(p.specs) != [] ==> w != [])
    ensures forall path :: path in TargetsOf(w) <==> path in p.manifest
    ensures forall i :: 0 <= i < |w| ==>
      w[i].path in p.manifest && env.digest(w[i].contents) == p.manifest[w[i].path].applied
  {
    var files := Flatten(p.specs);
    assert TargetsOf(w) == PathsOf(files);
    ManifestPaths(p);
    forall i | 0 <= i < |w|
      ensures w[i].path in p.manifest && env.digest(w[i].contents) == p.manifest[w[i].path].applied
    {
      VerdictFacts(env, p, tree, files[i]);
    }
  }

  lemma {:induction false} ManifestPaths(p: Patches)
    requires Ready(p)
    ensures forall path :: path in PathsOf(Flatten(p.specs)) <==> path in p.manifest
  {
    ReadyOrder(p);
    var files := Flatten(p.specs);
    forall path | path in PathsOf(files) ensures path in p.manifest {
      var i :| 0 <= i < |files| && PathsOf(files)[i] == path;
      assert files[i] in files;
    }
  }

  lemma {:induction false} FilesExist(p: Patches)
    requires Ready(p)
    ensures Flatten(p.specs) != []
  {
    assert p.specs[0] != [];
  }

  // --------------------------------------------------- an accepted run

  /** Targets at their applied content, retired files at their base. */
  predicate Prepared(env: Env, p: Patches, tree: Tree) { AllAt(env, p, tree, true) && RetiredAtBase(env, p, tree) }

  ghost predicate SameElsewhere(p: Patches, a: Tree, b: Tree)
  {
    forall path :: path !in p.manifest && path !in p.retired ==>
      (path in b <==> path in a) && (path in a ==> b[path] == a[path])
  }

  /** Applying an accepted plan to its tree prepares it. */
  lemma {:induction false} AppliedTree(env: Env, p: Patches, checkoutOk: bool, tree: Tree)
    requires Ready(p) && ApplyPlan(env, p, checkoutOk, tree).Ok?
    ensures Prepared(env, p, Replay(tree, ApplyPlan(env, p, checkoutOk, tree).value))
    ensures SameElsewhere(p, tree, Replay(tree, ApplyPlan(env, p, checkoutOk, tree).value))
  {
    ApplyFacts(env, p, checkoutOk, tree);
    ReadyOrder(p);
    var w := ApplyPlan(env, p, checkoutOk, tree).value;
    var final := Replay(tree, w);
    if w != [] {
      forall path | path in p.manifest ensures AtDigests(env, p, final, path, true) {
        assert AtDigests(env, p, tree, path, false);
        var i :| 0 <= i < |w| && TargetsOf(w)[i] == path;
        ReplayAt(tree, w, i);
      }
    }
    forall path | path !in p.manifest
      ensures (path in final <==> path in tree) && (path in tree ==> final[path] == tree[path])
    {
      forall i | 0 <= i < |w| ensures w[i].path != path {}
      ReplayElsewhere(tree, w, path);
    }
  }

  /** An accepted run leaves every patch target at its applied digest and every retired target at its
      base, and touches no other file. */
  lemma {:induction false} AcceptedRunPrepares(env: Env, p: Patches, view: GitView, tree: Tree)
    requires ValidPatches(p) && RunOf(env, p, view, tree).outcome == Accepted
    ensures Prepared(env, p, Final(tree, RunOf(env, p, view, tree)))
    ensures SameElsewhere(p, tree, Final(tree, RunOf(env, p, view, tree)))
  {
    RestoredTree(env, p, view.source, tree);
    AppliedTree(env, p, view.checkoutOk, Replay(tree, RunOf(env, p, view, tree).restores));
    ReadyOrder(p);
  }

  // ---------------------------------------------- what a write overwrites

  /** Some searched manifest revision, or the current one, lists `digest` as applied for the path. */
  predicate BuildWritten(env: Env, p: Patches, log: seq<Revision>, path: Path, digest: Digest)
  {
    || (path in p.manifest && p.manifest[path].applied == digest)
    || exists k :: 0 <= k < |Searched(log)| && Explains(Searched(log)[k], path, digest)
  }

  lemma {:induction false} OriginExplains(log: seq<Revision>, path: Path, digest: Digest)
    ensures match Origin(log, path, digest)
            case None => forall k :: 0 <= k < |log| ==> !Explains(log[k], path, digest)
            case Some(commit) => exists k :: 0 <= k < |log| && log[k].commit == commit && Explains(log[k], path, digest)
                                             && forall j :: 0 <= j < k ==> !Explains(log[j], path, digest)
  {
    if log != [] && !Explains(log[0], path, digest) {
      OriginExplains(log[1..], path, digest);
      match Origin(log[1..], path, digest)
      case None =>
        forall k | 0 <= k < |log| ensures !Explains(log[k], path, digest) {
          assert k > 0 ==> log[k] == log[1..][k - 1];
        }
      case Some(commit) =>
        var k :| 0 <= k < |log[1..]| && log[1..][k].commit == commit && Explains(log[1..][k], path, digest)
                 && forall j :: 0 <= j < k ==> !Explains(log[1..][j], path, digest);
        forall j | 0 <= j < k + 1 ensures !Explains(log[j], path, digest) {
          assert j > 0 ==> log[j] == log[1..][j - 1];
        }
        assert log[k + 1].commit == commit;
    }
  }

  /** `w` puts the base back over content that some patch set is known to have applied. */
  predicate RestoringWrite(env: Env, p: Patches, source: RestoreSource, tree: Tree, now: Tree, w: Write)
  {
    && source.Usable? && (w.path in p.manifest || w.path in p.retired)
    && w.path in tree && w.path in now && now[w.path] == tree[w.path]
    && BuildWritten(env, p, source.log, w.path, env.digest(now[w.path]))
    && env.digest(now[w.path]) != Expect(p, w.path).base == env.digest(w.contents)
  }

  /** `w` puts the applied content over the base. */
  predicate ApplyingWrite(env: Env, p: Patches, now: Tree, w: Write)
  {
    && w.path in p.manifest && w.path in now
    && env.digest(now[w.path]) == p.manifest[w.path].base
    && env.digest(w.contents) == p.manifest[w.path].applied
  }

  lemma {:induction false} KnownIsBuildWritten(env: Env, p: Patches, log: seq<Revision>, tree: Tree, path: Path)
    requires path in tree && (path in p.manifest || path in p.retired)
    requires CensusOf(env, p, tree)(path) == Stale ==> KnownTo(env, log, tree)(path)
    requires CensusOf(env, p, tree)(path) != AtBase
    ensures BuildWritten(env, p, log, path, env.digest(tree[path]))
    ensures env.digest(tree[path]) != Expect(p, path).base
  {
    AtBaseDigest(env, p, tree, path);
    if CensusOf(env, p, tree)(path) == Stale {
      OriginExplains(Searched(log), path, env.digest(tree[path]));
    }
  }

  lemma {:induction false} RestoringWrites(env: Env, p: Patches, source: RestoreSource, tree: Tree, i: nat)
    requires Ready(p) && RestorePlan(env, p, source, tree).Ok? && i < |RestorePlan(env, p, source, tree).value|
    ensures var w := RestorePlan(env, p, source, tree).value;
            RestoringWrite(env, p, source, tree, Replay(tree, w[..i]), w[i])
  {
    var w := RestorePlan(env, p, source, tree).value;
    RestoreFacts(env, p, source, tree);
    RestoreCases(env, p, source, tree);
    ReplayPrefix(tree, w, i, i);
    assert w[i].path == TargetsOf(w)[i];
    KnownIsBuildWritten(env, p, source.log, tree, w[i].path);
  }

  lemma {:induction false} ApplyingWrites(env: Env, p: Patches, checkoutOk: bool, tree: Tree, i: nat)
    requires Ready(p) && ApplyPlan(env, p, checkoutOk, tree).Ok? && i < |ApplyPlan(env, p, checkoutOk, tree).value|
    ensures var w := ApplyPlan(env, p, checkoutOk, tree).value;
            ApplyingWrite(env, p, Replay(tree, w[..i]), w[i])
  {
    var w := ApplyPlan(env, p, checkoutOk, tree).value;
    ApplyFacts(env, p, checkoutOk, tree);
    ReplayPrefix(tree, w, i, i);
    assert AtDigests(env, p, tree, w[i].path, false);
  }

  /** Every replacement of every run, accepted or not, is of one of these two kinds: content that no
      searched or current patch set produced, and that is not the pinned base, is never overwritten. */
  lemma {:induction false} EveryWriteIsJustified(env: Env, p: Patches, view: GitView, tree: Tree, i: nat)
    requires ValidPatches(p)
    ensures var run := RunOf(env, p, view, tree);
            && (i < |run.restores| ==>
                  RestoringWrite(env, p, view.source, tree, Replay(tree, run.restores[..i]), run.restores[i]))
            && (i < |run.applies| ==>
                  ApplyingWrite(env, p, Replay(Replay(tree, run.restores), run.applies[..i]), run.applies[i]))
  {
    var run := RunOf(env, p, view, tree);
    if i < |run.restores| {
      RestoringWrites(env, p, view.source, tree, i);
    }
    if i < |run.applies| {
      ApplyingWrites(env, p, view.checkoutOk, Replay(tree, run.restores), i);
    }
  }

  /** Restoration is all or nothing: while any stale file is unidentified, or any file to restore
      lacks an authentic base blob, the run is rejected and no file changes. */
  lemma {:induction false} UnrestorableTreeIsUntouched(env: Env, p: Patches, view: GitView, tree: Tree)
    requires ValidPatches(p)
    requires !NoStale(env, p, tree) && !Restorable(env, p, view.source, tree)
    ensures var run := RunOf(env, p, view, tree); run.outcome.Rejected? && run.restores == [] && run.applies == []
  {
    if Ready(p) {
      RestoreCases(env, p, view.source, tree);
    }
  }
}
