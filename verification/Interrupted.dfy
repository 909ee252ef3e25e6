/**
 Interrupted and repeated runs of the vendor patch preparer.  A run that stops
 after some of its atomic replacements leaves a tree in which every target holds
 wholly its old or wholly its new content; these lemmas say what a later run
 makes of that tree.
 */
module Interrupted {
  import opened Options
  import opened SourceText
  import opened Hunks
  import opened Planning
  import opened Restoring
  import opened Runs
  import opened Acceptance
  import Edits

  predicate Untouched(run: Run) { run.outcome.Rejected? && run.restores == [] && run.applies == [] }

  /** A tree whose targets are all at base or applied is left alone by restoration. */
  lemma {:induction false} SettledNeedsNoRestore(env: Env, p: Patches, source: RestoreSource, tree: Tree)
    requires Ready(p) && RetiredAtBase(env, p, tree)
    requires forall path :: path in p.manifest ==>
      path in tree && (env.digest(tree[path]) == p.manifest[path].base || env.digest(tree[path]) == p.manifest[path].applied)
    ensures RestorePlan(env, p, source, tree) == Ok([])
  {
    ReadyOrder(p);
    RestoreCases(env, p, source, tree);
    forall path | path in Order(p) ensures path in tree && CensusOf(env, p, tree)(path) != Stale {
      AtBaseDigest(env, p, tree, path);
    }
  }

  /** A tree without a stale file, with one target at base and another applied, is rejected without a
      write. */
  lemma {:induction false} MixedTreeIsRejected(env: Env, p: Patches, view: GitView, tree: Tree, base: Path, applied: Path)
    requires Ready(p) && RestorePlan(env, p, view.source, tree) == Ok([])
    requires base in p.manifest && AtDigests(env, p, tree, base, false)
    requires applied in p.manifest && AtDigests(env, p, tree, applied, true)
    ensures Untouched(RunOf(env, p, view, tree))
  {
    RunWithoutRestore(env, p, view, tree);
    MixedHasNoPlan(env, p, view.checkoutOk, tree, base, applied);
  }

  lemma {:induction false} RunWithoutRestore(env: Env, p: Patches, view: GitView, tree: Tree)
    requires Ready(p) && RestorePlan(env, p, view.source, tree) == Ok([])
    ensures RunOf(env, p, view, tree) == RunAfter([], ApplyPlan(env, p, view.checkoutOk, tree))
  {
    assert Replay(tree, []) == tree;
  }

  lemma {:induction false} MixedHasNoPlan(env: Env, p: Patches, checkoutOk: bool, tree: Tree, base: Path, applied: Path)
    requires Ready(p)
    requires base in p.manifest && AtDigests(env, p, tree, base, false)
    requires applied in p.manifest && AtDigests(env, p, tree, applied, true)
    ensures ApplyPlan(env, p, checkoutOk, tree).Err?
  {
    ApplyPlanCases(env, p, checkoutOk, tree);
    JudgedAt(env, p, tree);
    assert AllAt(env, p, tree, true) ==> AtDigests(env, p, tree, base, true);
    assert AllAt(env, p, tree, false) ==> AtDigests(env, p, tree, applied, false);
  }

  /** After `k` of the writes each target holds wholly its new content or wholly its old one. */
  predicate Halfway(before: Tree, now: Tree, writes: seq<Write>, k: nat)
  {
    forall i :: 0 <= i < |writes| ==>
      && writes[i].path in before && writes[i].path in now
      && now[writes[i].path] == if i < k then writes[i].contents else before[writes[i].path]
  }

  /** The tree after `k` of the applying writes, target by target. */
  lemma {:induction false} ApplyPrefix(env: Env, p: Patches, checkoutOk: bool, tree: Tree, k: nat)
    requires Ready(p) && ApplyPlan(env, p, checkoutOk, tree).Ok? && k <= |ApplyPlan(env, p, checkoutOk, tree).value|
    ensures var w := ApplyPlan(env, p, checkoutOk, tree).value;
            var now := Replay(tree, w[..k]);
            && Halfway(tree, now, w, k)
            && (forall i :: 0 <= i < |w| ==> w[i].path in p.manifest && AtDigests(env, p, now, w[i].path, i < k))
            && RetiredAtBase(env, p, now)
  {
    var w := ApplyPlan(env, p, checkoutOk, tree).value;
    var now := Replay(tree, w[..k]);
    ApplyFacts(env, p, checkoutOk, tree);
    ReadyOrder(p);
    forall i | 0 <= i < |w|
      ensures w[i].path in tree && w[i].path in now
      ensures now[w[i].path] == (if i < k then w[i].contents else tree[w[i].path])
      ensures AtDigests(env, p, now, w[i].path, i < k)
    {
      assert AtDigests(env, p, tree, w[i].path, false);
      ReplayPrefix(tree, w, k, i);
    }
    forall path | path in p.retired ensures path in now && now[path] == tree[path] {
      forall i | 0 <= i < k ensures w[..k][i].path != path { assert w[i].path in p.manifest; }
      ReplayElsewhere(tree, w[..k], path);
    }
  }

  lemma {:induction false} CutPlanNeedsNoRestore(env: Env, p: Patches, checkoutOk: bool, tree: Tree, k: nat, source: RestoreSource)
    requires Ready(p) && ApplyPlan(env, p, checkoutOk, tree).Ok? && 0 < k < |ApplyPlan(env, p, checkoutOk, tree).value|
    ensures RestorePlan(env, p, source, Replay(tree, ApplyPlan(env, p, checkoutOk, tree).value[..k])) == Ok([])
  {
    var w := ApplyPlan(env, p, checkoutOk, tree).value;
    var cut := Replay(tree, w[..k]);
    ApplyPrefix(env, p, checkoutOk, tree, k);
    ApplyFacts(env, p, checkoutOk, tree);
    forall path | path in p.manifest
      ensures path in cut && (env.digest(cut[path]) == p.manifest[path].base || env.digest(cut[path]) == p.manifest[path].applied)
    {
      var i :| 0 <= i < |w| && TargetsOf(w)[i] == path;
      assert AtDigests(env, p, cut, w[i].path, i < k);
    }
    SettledNeedsNoRestore(env, p, source, cut);
  }

  lemma {:induction false} CutPlanIsRejected(env: Env, p: Patches, checkoutOk: bool, tree: Tree, k: nat, later: GitView)
    requires Ready(p) && ApplyPlan(env, p, checkoutOk, tree).Ok? && 0 < k < |ApplyPlan(env, p, checkoutOk, tree).value|
    ensures var w := ApplyPlan(env, p, checkoutOk, tree).value;
            Halfway(tree, Replay(tree, w[..k]), w, k) && Untouched(RunOf(env, p, later, Replay(tree, w[..k])))
  {
    var w := ApplyPlan(env, p, checkoutOk, tree).value;
    ApplyPrefix(env, p, checkoutOk, tree, k);
    CutPlanNeedsNoRestore(env, p, checkoutOk, tree, k, later.source);
    MixedTreeIsRejected(env, p, later, Replay(tree, w[..k]), w[k].path, w[0].path);
  }

  /** A run stopped strictly between its first and its last applying write: every target is wholly
      base or wholly applied, and every later run rejects the tree without writing. */
  lemma {:induction false} CutApplyIsRejected(env: Env, p: Patches, view: GitView, tree: Tree, k: nat, later: GitView)
    requires ValidPatches(p)
    requires 0 < k < |RunOf(env, p, view, tree).applies|
    ensures var run := RunOf(env, p, view, tree);
            var cut := After(tree, run, |run.restores| + k);
            Halfway(Replay(tree, run.restores), cut, run.applies, k) && Untouched(RunOf(env, p, later, cut))
  {
    CutPlanIsRejected(env, p, view.checkoutOk, Replay(tree, RunOf(env, p, view, tree).restores), k, later);
  }

  /** The content shows the patch applied and no longer applicable. */
  predicate Settled(env: Env, hunks: seq<Hunk>, contents: string)
  {
    && env.utf8(contents)
    && Edits.AllNewMatch(Parse(contents).lines, EditsOf(hunks))
    && !Edits.AllOldMatch(Parse(contents).lines, EditsOf(hunks))
  }

  lemma {:induction false} SettledVerdict(env: Env, p: Patches, tree: Tree, f: FilePatch)
    requires f.path in p.manifest && AtDigests(env, p, tree, f.path, true)
    ensures JudgeOf(env, p, tree)(f).Applied? <==> Settled(env, f.hunks, tree[f.path])
  {
  }

  predicate AllSettled(env: Env, files: seq<FilePatch>, tree: Tree)
  {
    forall i :: 0 <= i < |files| ==> files[i].path in tree && Settled(env, files[i].hunks, tree[files[i].path])
  }

  lemma {:induction false} PreparedJudgement(env: Env, p: Patches, tree: Tree)
    requires Ready(p) && AllAt(env, p, tree, true)
    ensures !EveryClean(JudgeOf(env, p, tree), Flatten(p.specs))
    ensures EveryApplied(JudgeOf(env, p, tree), Flatten(p.specs)) <==> AllSettled(env, Flatten(p.specs), tree)
  {
    var files, v := Flatten(p.specs), JudgeOf(env, p, tree);
    ReadyOrder(p);
    FilesExist(p);
    forall i | 0 <= i < |files|
      ensures files[i].path in tree && !v(files[i]).Clean?
      ensures v(files[i]).Applied? <==> Settled(env, files[i].hunks, tree[files[i].path])
    {
      assert files[i] in files;
      assert AtDigests(env, p, tree, files[i].path, true);
      VerdictFacts(env, p, tree, files[i]);
      SettledVerdict(env, p, tree, files[i]);
    }
    assert !v(files[0]).Clean?;
  }

  lemma {:induction false} PreparedRun(env: Env, p: Patches, view: GitView, tree: Tree)
    requires Ready(p) && Prepared(env, p, tree)
    ensures var run := RunOf(env, p, view, tree);
            && run.restores == [] && run.applies == []
            && (run.outcome == Accepted <==> view.checkoutOk && AllSettled(env, Flatten(p.specs), tree))
  {
    assert forall path :: path in p.manifest ==> AtDigests(env, p, tree, path, true);
    SettledNeedsNoRestore(env, p, view.source, tree);
    ApplyPlanCases(env, p, view.checkoutOk, tree);
    PreparedJudgement(env, p, tree);
  }

  // ------------------------------------------------ stopped while restoring

  lemma {:induction false} SelectSame(order: seq<Path>, c: Census, c': Census, want: Standing)
    requires forall x :: x in order ==> (c'(x) == want <==> c(x) == want)
    ensures Select(order, c', want) == Select(order, c, want)
  {
    if order != [] {
      assert order[0] in order;
      SelectSame(order[1..], c, c', want);
    }
  }

  /** Taking the first `k` selected paths out of the selection. */
  lemma {:induction false} SelectDrop(order: seq<Path>, c: Census, c': Census, want: Standing, k: nat)
    requires Distinct(order) && k <= |Select(order, c, want)|
    requires forall x :: x in order ==> (c'(x) == want <==> c(x) == want && x !in Select(order, c, want)[..k])
    ensures Select(order, c', want) == Select(order, c, want)[k..]
  {
    if k == 0 {
      SelectSame(order, c, c', want);
    } else {
      var first, rest := order[0], order[1..];
      RestIsDistinct(order);
      SelectMembers(rest, c, want, first);
      assert first in order;
      if c(first) == want {
        DroppedFirst(order, c, want, k);
        SelectDrop(rest, c, c', want, k - 1);
      } else {
        SelectDrop(rest, c, c', want, k);
      }
    }
  }

  lemma {:induction false} RestIsDistinct(order: seq<Path>)
    requires Distinct(order) && order != []
    ensures Distinct(order[1..]) && order[0] !in order[1..]
  {
    var rest := order[1..];
    forall a, b | 0 <= a < b < |rest| ensures rest[a] != rest[b] { assert order[a + 1] != order[b + 1]; }
    forall i | 0 <= i < |rest| ensures rest[i] != order[0] { assert order[0] != order[i + 1]; }
  }

  lemma {:induction false} DroppedFirst(order: seq<Path>, c: Census, want: Standing, k: nat)
    requires order != [] && c(order[0]) == want && 0 < k <= |Select(order, c, want)|
    ensures var all, tail := Select(order, c, want), Select(order[1..], c, want);
            all == [order[0]] + tail && all[..k] == [order[0]] + tail[..k - 1] && all[k..] == tail[k - 1..]
  {
  }

  /** The restoration that remains after the first `k` files have been put back to their base. */
  lemma {:induction false} RemainingRestore(
      order: seq<Path>, c: Census, known: Path -> bool, r: Renderer,
      c': Census, known': Path -> bool, r': Renderer, k: nat)
    requires Distinct(order) && RestoreAll(order, c, known, r).Ok?
    requires k <= |Select(order, c, Stale)|
    requires forall x :: x in order ==>
      if x in ToRestore(order, c)[..k] then c'(x) == AtBase
      else c'(x) == c(x) && known'(x) == known(x) && r'(x) == r(x)
    ensures Select(order, c', Stale) == Select(order, c, Stale)[k..]
    ensures RestoreAll(order, c', known', r') == Ok(RestoreAll(order, c, known, r).value[k..])
  {
    RemainingPaths(order, c, c', k);
    RestoreAllCases(order, c, known, r);
    RestoreAllCases(order, c', known', r');
    RemainingIsRestorable(order, c, known, r, c', known', r', k);
    var paths, paths' := ToRestore(order, c), ToRestore(order, c');
    forall i | 0 <= i < |paths'| ensures r'(paths'[i]) == r(paths[k + i]) {
      assert paths'[i] in paths';
    }
    assert RestoreWrites(r', paths') == RestoreWrites(r, paths)[k..];
  }

  lemma {:induction false} RemainingPaths(order: seq<Path>, c: Census, c': Census, k: nat)
    requires Distinct(order) && k <= |Select(order, c, Stale)|
    requires forall x :: x in order ==> if x in ToRestore(order, c)[..k] then c'(x) == AtBase else c'(x) == c(x)
    ensures Select(order, c', Stale) == Select(order, c, Stale)[k..]
    ensures ToRestore(order, c') == ToRestore(order, c)[k..]
  {
    var stale := Select(order, c, Stale);
    assert ToRestore(order, c)[..k] == stale[..k];
    forall x | x in order ensures x in stale[..k] ==> c(x) == Stale { SelectMembers(order, c, Stale, x); }
    SelectDrop(order, c, c', Stale, k);
    SelectSame(order, c, c', AtApplied);
  }

  lemma {:induction false} RemainingIsRestorable(
      order: seq<Path>, c: Census, known: Path -> bool, r: Renderer,
      c': Census, known': Path -> bool, r': Renderer, k: nat)
    requires Distinct(order) && AllRestorable(order, c, known, r) && k <= |ToRestore(order, c)|
    requires forall x :: x in order ==>
      if x in ToRestore(order, c)[..k] then c'(x) == AtBase
      else c'(x) == c(x) && known'(x) == known(x) && r'(x) == r(x)
    ensures AllRestorable(order, c', known', r')
    ensures forall x :: x in ToRestore(order, c') ==> r'(x) == r(x)
  {
    ToRestoreMembers(order, c);
    ToRestoreMembers(order, c');
  }

  /** What the later lemmas need of a non-empty restoring plan `w`. */
  predicate IsRestoration(env: Env, p: Patches, tree: Tree, w: seq<Write>)
  {
    && Present(p, tree) && Distinct(TargetsOf(w))
    && TargetsOf(w) == ToRestore(Order(p), CensusOf(env, p, tree))
    && forall i :: 0 <= i < |w| ==>
         (w[i].path in p.manifest || w[i].path in p.retired) && env.digest(w[i].contents) == Expect(p, w[i].path).base
  }

  lemma {:induction false} PlanIsRestoration(env: Env, p: Patches, source: RestoreSource, tree: Tree)
    requires Ready(p) && RestorePlan(env, p, source, tree).Ok? && RestorePlan(env, p, source, tree).value != []
    ensures IsRestoration(env, p, tree, RestorePlan(env, p, source, tree).value)
  {
    RestoreFacts(env, p, source, tree);
    RestoreCases(env, p, source, tree);
    ReadyDistinct(p);
    RestoreAllFacts(Order(p), CensusOf(env, p, tree), KnownTo(env, source.log, tree), RendererOf(env, p, source.blobs, tree));
  }

  lemma {:induction false} InPrefix(paths: seq<Path>, k: nat, i: nat)
    requires Distinct(paths) && k <= |paths| && i < |paths|
    ensures paths[i] in paths[..k] <==> i < k
  {
    if i < k {
      assert paths[..k][i] == paths[i];
    } else {
      forall j | 0 <= j < k ensures paths[..k][j] != paths[i] { assert paths[j] != paths[i]; }
    }
  }

  /** The tree after `k` restoring writes, target by target. */
  lemma {:induction false} CutRestoreAt(env: Env, p: Patches, tree: Tree, w: seq<Write>, k: nat, path: Path)
    requires IsRestoration(env, p, tree, w) && k <= |w| && path in Order(p)
    ensures var cut := Replay(tree, w[..k]);
            && path in tree && path in cut
            && (path in TargetsOf(w)[..k] ==>
                  (path in p.manifest || path in p.retired) && env.digest(cut[path]) == Expect(p, path).base)
            && (path !in TargetsOf(w)[..k] ==> cut[path] == tree[path])
  {
    var targets := TargetsOf(w);
    if path in targets {
      var i :| 0 <= i < |w| && targets[i] == path;
      ReplayPrefix(tree, w, k, i);
      InPrefix(targets, k, i);
    } else {
      forall i | 0 <= i < k ensures w[..k][i].path != path && targets[..k][i] != path { assert targets[i] in targets; }
      ReplayElsewhere(tree, w[..k], path);
    }
  }

  /** The same, as the next run sees it. */
  lemma {:induction false} CutRestoreSeen(
      env: Env, p: Patches, log: seq<Revision>, blobs: map<Path, string>, tree: Tree, w: seq<Write>, k: nat, path: Path)
    requires IsRestoration(env, p, tree, w) && k <= |w| && path in Order(p)
    ensures var cut := Replay(tree, w[..k]);
            && path in cut
            && if path in TargetsOf(w)[..k] then CensusOf(env, p, cut)(path) == AtBase
               else && CensusOf(env, p, cut)(path) == CensusOf(env, p, tree)(path)
                    && KnownTo(env, log, cut)(path) == KnownTo(env, log, tree)(path)
                    && RendererOf(env, p, blobs, cut)(path) == RendererOf(env, p, blobs, tree)(path)
  {
    CutRestoreAt(env, p, tree, w, k, path);
  }

  /** How many of the restoring writes repair stale files; the rest reset currently applied ones. */
  function StaleCount(env: Env, p: Patches, tree: Tree): (n: nat)
  {
    |Select(Order(p), CensusOf(env, p, tree), Stale)|
  }

  lemma {:induction false} RemainingPlan(env: Env, p: Patches, source: RestoreSource, tree: Tree, k: nat)
    requires Ready(p) && RestorePlan(env, p, source, tree).Ok? && RestorePlan(env, p, source, tree).value != []
    requires k < StaleCount(env, p, tree)
    ensures var w := RestorePlan(env, p, source, tree).value;
            k < |w| && RestorePlan(env, p, source, Replay(tree, w[..k])) == Ok(w[k..])
  {
    var order, c := Order(p), CensusOf(env, p, tree);
    var w := RestorePlan(env, p, source, tree).value;
    PlanIsRestoration(env, p, source, tree);
    RestoreCases(env, p, source, tree);
    ReadyDistinct(p);
    var known, r := KnownTo(env, source.log, tree), RendererOf(env, p, source.blobs, tree);
    assert |ToRestore(order, c)| >= StaleCount(env, p, tree);
    var cut := Replay(tree, w[..k]);
    var c', known', r' := CensusOf(env, p, cut), KnownTo(env, source.log, cut), RendererOf(env, p, source.blobs, cut);
    forall x | x in order
      ensures x in cut
      ensures if x in ToRestore(order, c)[..k] then c'(x) == AtBase
              else c'(x) == c(x) && known'(x) == known(x) && r'(x) == r(x)
    {
      CutRestoreSeen(env, p, source.log, source.blobs, tree, w, k, x);
    }
    RemainingRestore(order, c, known, r, c', known', r', k);
  }

  /** Two trees that restoration takes to the same tree have the same run from there on. */
  lemma {:induction false} SameAfterRestore(env: Env, p: Patches, view: GitView, a: Tree, b: Tree)
    requires Validate(p) == Accepted
    requires RestorePlan(env, p, view.source, a).Ok? && RestorePlan(env, p, view.source, b).Ok?
    requires Replay(a, RestorePlan(env, p, view.source, a).value) == Replay(b, RestorePlan(env, p, view.source, b).value)
    ensures var run := RunOf(env, p, view, a);
            RunOf(env, p, view, b) == Run(run.outcome, RestorePlan(env, p, view.source, b).value, run.applies)
  {
  }

  lemma {:induction false} RunRestores(env: Env, p: Patches, view: GitView, tree: Tree)
    requires RunOf(env, p, view, tree).restores != []
    ensures Validate(p) == Accepted
    ensures RestorePlan(env, p, view.source, tree) == Ok(RunOf(env, p, view, tree).restores)
  {
  }

  lemma {:induction false} SplitReplay(tree: Tree, w: seq<Write>, k: nat)
    requires k <= |w|
    ensures Replay(Replay(tree, w[..k]), w[k..]) == Replay(tree, w)
  {
    ReplayAppend(tree, w[..k], w[k..]);
    assert w[..k] + w[k..] == w;
  }

  /** A run stopped while stale files remain resumes where it stopped: the next run performs exactly
      the remaining replacements, with the same outcome and the same final tree. */
  lemma {:induction false} CutRestoreResumes(env: Env, p: Patches, view: GitView, tree: Tree, k: nat)
    requires ValidPatches(p) && k < |RunOf(env, p, view, tree).restores| && k < StaleCount(env, p, tree)
    ensures var run := RunOf(env, p, view, tree);
            var cut := After(tree, run, k);
            && RunOf(env, p, view, cut) == Run(run.outcome, run.restores[k..], run.applies)
            && Final(cut, RunOf(env, p, view, cut)) == Final(tree, run)
  {
    var run := RunOf(env, p, view, tree);
    ResumedRun(env, p, view, tree, run, k);
    SameFinal(tree, run, k);
  }

  lemma {:induction false} ResumedRun(env: Env, p: Patches, view: GitView, tree: Tree, run: Run, k: nat)
    requires ValidPatches(p) && run == RunOf(env, p, view, tree)
    requires k < |run.restores| && k < StaleCount(env, p, tree)
    ensures RunOf(env, p, view, Replay(tree, run.restores[..k])) == Run(run.outcome, run.restores[k..], run.applies)
  {
    RunRestores(env, p, view, tree);
    RemainingPlan(env, p, view.source, tree, k);
    SplitReplay(tree, run.restores, k);
    SameAfterRestore(env, p, view, tree, Replay(tree, run.restores[..k]));
  }

  lemma {:induction false} SameFinal(tree: Tree, run: Run, k: nat)
    requires k <= |run.restores|
    ensures Final(Replay(tree, run.restores[..k]), Run(run.outcome, run.restores[k..], run.applies)) == Final(tree, run)
  {
    SplitReplay(tree, run.restores, k);
  }

  // ------------------- stopped after the stale files, while resetting applied ones

  predicate NoManifestFile(env: Env, p: Patches, tree: Tree, standing: Standing)
  {
    NoneIn(p.manifestOrder, CensusOf(env, p, tree), standing)
  }

  /** The targets of a restoring plan: stale files first, then manifest files at their applied content. */
  lemma {:induction false} TargetStanding(env: Env, p: Patches, tree: Tree, w: seq<Write>, i: nat)
    requires IsRestoration(env, p, tree, w) && i < |w|
    ensures CensusOf(env, p, tree)(w[i].path) == (if i < StaleCount(env, p, tree) then Stale else AtApplied)
    ensures i >= StaleCount(env, p, tree) ==> w[i].path in p.manifest
  {
    var order, c, path := Order(p), CensusOf(env, p, tree), w[i].path;
    var stale, applied := Select(order, c, Stale), Select(order, c, AtApplied);
    assert TargetsOf(w)[i] == path;
    SelectMembers(order, c, Stale, path);
    SelectMembers(order, c, AtApplied, path);
    assert if i < |stale| then path == stale[i] else path == applied[i - |stale|];
    RetiredIsNotApplied(env, p, tree, path);
  }

  lemma {:induction false} RetiredIsNotApplied(env: Env, p: Patches, tree: Tree, path: Path)
    ensures CensusOf(env, p, tree)(path) == AtApplied ==> path in p.manifest
  {
  }

  lemma {:induction false} StaleComesFirst(env: Env, p: Patches, tree: Tree, w: seq<Write>, k: nat, path: Path)
    requires IsRestoration(env, p, tree, w) && StaleCount(env, p, tree) <= k <= |w|
    requires path in Order(p) && CensusOf(env, p, tree)(path) == Stale
    ensures path in TargetsOf(w)[..k]
  {
    var stale := Select(Order(p), CensusOf(env, p, tree), Stale);
    SelectMembers(Order(p), CensusOf(env, p, tree), Stale, path);
    var i :| 0 <= i < |stale| && stale[i] == path;
    assert TargetsOf(w)[..k][i] == path;
  }

  /** Once every stale file is back at its base, each file is at its base or its applied content. */
  lemma {:induction false} LateCutAt(env: Env, p: Patches, tree: Tree, w: seq<Write>, k: nat, path: Path)
    requires IsRestoration(env, p, tree, w) && StaleCount(env, p, tree) <= k <= |w|
    requires path in Order(p) && (path in p.manifest || path in p.retired)
    ensures var cut := Replay(tree, w[..k]);
            path in cut && (env.digest(cut[path]) == Expect(p, path).base || env.digest(cut[path]) == Expect(p, path).applied)
  {
    CutRestoreAt(env, p, tree, w, k, path);
    AtBaseDigest(env, p, tree, path);
    if CensusOf(env, p, tree)(path) == Stale {
      StaleComesFirst(env, p, tree, w, k, path);
    }
  }

  lemma {:induction false} LateCutIsSettled(env: Env, p: Patches, tree: Tree, w: seq<Write>, k: nat, later: RestoreSource)
    requires Ready(p) && IsRestoration(env, p, tree, w) && StaleCount(env, p, tree) <= k <= |w|
    ensures RetiredAtBase(env, p, Replay(tree, w[..k]))
    ensures RestorePlan(env, p, later, Replay(tree, w[..k])) == Ok([])
  {
    var cut := Replay(tree, w[..k]);
    ReadyOrder(p);
    forall path | path in p.retired ensures path in cut && env.digest(cut[path]) == p.retired[path] {
      LateCutAt(env, p, tree, w, k, path);
    }
    forall path | path in p.manifest
      ensures path in cut && (env.digest(cut[path]) == p.manifest[path].base || env.digest(cut[path]) == p.manifest[path].applied)
    {
      LateCutAt(env, p, tree, w, k, path);
    }
    SettledNeedsNoRestore(env, p, later, cut);
  }

  /** Which manifest files are still applied in the cut tree, and which are at their base. */
  lemma {:induction false} LateCutManifest(env: Env, p: Patches, tree: Tree, w: seq<Write>, k: nat, path: Path)
    requires IsRestoration(env, p, tree, w) && k <= |w|
    requires path in Order(p) && path in p.manifest && p.manifest[path].base != p.manifest[path].applied
    ensures var cut, done := Replay(tree, w[..k]), TargetsOf(w)[..k];
            && (path !in done && CensusOf(env, p, tree)(path) == AtApplied ==> AtDigests(env, p, cut, path, true))
            && (path in done || CensusOf(env, p, tree)(path) == AtBase ==> AtDigests(env, p, cut, path, false))
            && (path !in done ==> path in tree && path in cut && cut[path] == tree[path])
  {
    CutRestoreAt(env, p, tree, w, k, path);
    AtBaseDigest(env, p, tree, path);
  }

  /** Cut right after the stale files, when those were all retired ones and no target was clean. */
  lemma {:induction false} UnresetTree(env: Env, p: Patches, tree: Tree, w: seq<Write>)
    requires Ready(p) && Disjoint(p) && IsRestoration(env, p, tree, w) && StaleCount(env, p, tree) <= |w|
    requires NoManifestFile(env, p, tree, Stale) && NoManifestFile(env, p, tree, AtBase)
    ensures var cut := Replay(tree, w[..StaleCount(env, p, tree)]);
            AllAt(env, p, cut, true) && forall path :: path in p.manifest ==> path in tree && cut[path] == tree[path]
  {
    var k := StaleCount(env, p, tree);
    var cut := Replay(tree, w[..k]);
    ReadyOrder(p);
    forall path | path in p.manifest
      ensures AtDigests(env, p, cut, path, true) && path in tree && cut[path] == tree[path]
    {
      assert path in p.manifestOrder;
      forall j | 0 <= j < k ensures TargetsOf(w)[..k][j] != path { TargetStanding(env, p, tree, w, j); }
      LateCutManifest(env, p, tree, w, k, path);
    }
  }

  /** The next file to reset is still applied in the cut tree. */
  lemma {:induction false} AppliedWitness(env: Env, p: Patches, tree: Tree, w: seq<Write>, k: nat)
    requires Ready(p) && Disjoint(p) && IsRestoration(env, p, tree, w) && StaleCount(env, p, tree) <= k < |w|
    ensures w[k].path in p.manifest && AtDigests(env, p, Replay(tree, w[..k]), w[k].path, true)
  {
    TargetStanding(env, p, tree, w, k);
    ReadyOrder(p);
    InPrefix(TargetsOf(w), k, k);
    LateCutManifest(env, p, tree, w, k, w[k].path);
  }

  lemma {:induction false} FindStanding(order: seq<Path>, c: Census, standing: Standing) returns (path: Path)
    requires !NoneIn(order, c, standing)
    ensures path in order && c(path) == standing
  {
    path :| path in order && c(path) == standing;
  }

  lemma {:induction false} LastReset(env: Env, p: Patches, tree: Tree, w: seq<Write>, k: nat) returns (base: Path)
    requires IsRestoration(env, p, tree, w) && StaleCount(env, p, tree) < k < |w|
    ensures base in p.manifest && base in TargetsOf(w)[..k]
  {
    TargetStanding(env, p, tree, w, k - 1);
    base := PathBefore(w, k);
  }

  lemma {:induction false} PathBefore(w: seq<Write>, k: nat) returns (path: Path)
    requires 0 < k <= |w|
    ensures path == w[k - 1].path && path in TargetsOf(w)[..k]
  {
    path := w[k - 1].path;
    assert TargetsOf(w)[..k][k - 1] == path;
  }

  /** Unless nothing but retired files was stale or clean and no file was reset, some target of the
      cut tree is at its base. */
  lemma {:induction false} BaseWitness(env: Env, p: Patches, tree: Tree, w: seq<Write>, k: nat) returns (base: Path)
    requires Ready(p) && Disjoint(p) && IsRestoration(env, p, tree, w) && StaleCount(env, p, tree) <= k < |w|
    requires !(k == StaleCount(env, p, tree) && NoManifestFile(env, p, tree, Stale) && NoManifestFile(env, p, tree, AtBase))
    ensures base in p.manifest
    ensures base in TargetsOf(w)[..k] || CensusOf(env, p, tree)(base) == AtBase
  {
    if k > StaleCount(env, p, tree) {
      base := LastReset(env, p, tree, w, k);
    } else if !NoManifestFile(env, p, tree, Stale) {
      base := FindStanding(p.manifestOrder, CensusOf(env, p, tree), Stale);
      StaleComesFirst(env, p, tree, w, k, base);
    } else {
      base := FindStanding(p.manifestOrder, CensusOf(env, p, tree), AtBase);
    }
  }

  lemma {:induction false} SettledAlike(env: Env, p: Patches, a: Tree, b: Tree)
    requires Ready(p)
    requires forall path :: path in p.manifest ==> path in a && path in b && a[path] == b[path]
    ensures AllSettled(env, Flatten(p.specs), a) <==> AllSettled(env, Flatten(p.specs), b)
  {
    ReadyOrder(p);
    var files := Flatten(p.specs);
    assert forall i :: 0 <= i < |files| ==> files[i] in files;
  }

  /** A run stopped after the stale files are restored but before all applied files are reset is not
      resumed.  No later run writes; it is accepted only if nothing but retired files had been stale,
      no patch target had been clean, no applied file had been reset yet, and every target shows its
      patch applied. */
  lemma {:induction false} CutResetIsStuck(env: Env, p: Patches, view: GitView, tree: Tree, k: nat, later: GitView)
    requires ValidPatches(p) && Disjoint(p)
    requires StaleCount(env, p, tree) <= k < |RunOf(env, p, view, tree).restores|
    ensures var run := RunOf(env, p, view, tree);
            var cut := After(tree, run, k);
            var again := RunOf(env, p, later, cut);
            && again.restores == [] && again.applies == []
            && (again.outcome == Accepted
                <==> && later.checkoutOk && k == StaleCount(env, p, tree)
                     && NoManifestFile(env, p, tree, Stale) && NoManifestFile(env, p, tree, AtBase)
                     && AllSettled(env, Flatten(p.specs), tree))
  {
    RunRestores(env, p, view, tree);
    PlanIsRestoration(env, p, view.source, tree);
    CutResetOfPlan(env, p, tree, RunOf(env, p, view, tree).restores, k, later);
  }

  lemma {:induction false} CutResetOfPlan(env: Env, p: Patches, tree: Tree, w: seq<Write>, k: nat, later: GitView)
    requires Ready(p) && Disjoint(p) && IsRestoration(env, p, tree, w) && StaleCount(env, p, tree) <= k < |w|
    ensures var again := RunOf(env, p, later, Replay(tree, w[..k]));
            && again.restores == [] && again.applies == []
            && (again.outcome == Accepted
                <==> && later.checkoutOk && k == StaleCount(env, p, tree)
                     && NoManifestFile(env, p, tree, Stale) && NoManifestFile(env, p, tree, AtBase)
                     && AllSettled(env, Flatten(p.specs), tree))
  {
    var cut := Replay(tree, w[..k]);
    LateCutIsSettled(env, p, tree, w, k, later.source);
    if k == StaleCount(env, p, tree) && NoManifestFile(env, p, tree, Stale) && NoManifestFile(env, p, tree, AtBase) {
      UnresetTree(env, p, tree, w);
      assert forall path :: path in p.manifest ==> AtDigests(env, p, cut, path, true);
      SettledAlike(env, p, tree, cut);
      PreparedRun(env, p, later, cut);
    } else {
      var base := BaseWitness(env, p, tree, w, k);
      ReadyOrder(p);
      LateCutManifest(env, p, tree, w, k, base);
      AppliedWitness(env, p, tree, w, k);
      MixedTreeIsRejected(env, p, later, cut, base, w[k].path);
    }
  }

  // ------------------------------------------------- stopped between the halves

  lemma {:induction false} RestoredNeedsNoRestore(env: Env, p: Patches, source: RestoreSource, tree: Tree)
    requires Ready(p) && RestorePlan(env, p, source, tree).Ok?
    ensures RestorePlan(env, p, source, Replay(tree, RestorePlan(env, p, source, tree).value)) == Ok([])
  {
    var done := Replay(tree, RestorePlan(env, p, source, tree).value);
    RestoredTree(env, p, source, tree);
    ReadyOrder(p);
    if NoStale(env, p, tree) {
      RestoreCases(env, p, source, tree);
    } else {
      forall path | path in p.manifest || path in p.retired
        ensures path in done && env.digest(done[path]) == Expect(p, path).base
      {
        assert path in Order(p);
      }
      assert forall path :: path in p.retired ==> path !in p.manifest;
      SettledNeedsNoRestore(env, p, source, done);
    }
  }

  /** A run stopped after its last restoring write and before its first applying one goes on from
      there. */
  lemma {:induction false} CutBetweenContinues(env: Env, p: Patches, view: GitView, tree: Tree)
    requires ValidPatches(p)
    ensures var run := RunOf(env, p, view, tree);
            && RunOf(env, p, view, Replay(tree, run.restores)) == Run(run.outcome, [], run.applies)
            && Final(Replay(tree, run.restores), Run(run.outcome, [], run.applies)) == Final(tree, run)
  {
    if RunOf(env, p, view, tree).restores != [] {
      RunRestores(env, p, view, tree);
      RestoredNeedsNoRestore(env, p, view.source, tree);
    }
  }

  /** What the next runs make of a run stopped after `k` writes: `same` with the same view of Git,
      `again` with any.  While stale files remain, the same view completes the run; while applied files
      are being reset, no later run writes; between the halves, the same view goes on; while applying,
      every later run is rejected without a write; and after a complete run no later run writes. */
  predicate CutOutcome(run: Run, stale: nat, k: nat, same: Run, again: Run)
  {
    var restores, total := |run.restores|, |run.restores| + |run.applies|;
    && (k < restores && k < stale ==> same == Run(run.outcome, run.restores[k..], run.applies))
    && (stale <= k < restores ==> again.restores == [] && again.applies == [])
    && (k == restores ==> same == Run(run.outcome, [], run.applies))
    && (restores < k < total ==> Untouched(again))
    && (restores < k == total ==> again.restores == [] && again.applies == [])
  }

  /** Every point at which a run can stop. */
  lemma {:induction false} EveryCut(env: Env, p: Patches, view: GitView, tree: Tree, k: nat, later: GitView)
    requires ValidPatches(p) && Disjoint(p)
    requires var run := RunOf(env, p, view, tree); k <= |run.restores| + |run.applies|
    ensures var run := RunOf(env, p, view, tree);
            var cut := After(tree, run, k);
            CutOutcome(run, StaleCount(env, p, tree), k, RunOf(env, p, view, cut), RunOf(env, p, later, cut))
  {
    var run := RunOf(env, p, view, tree);
    if k < |run.restores| {
      CutWhileRestoring(env, p, view, tree, k, later);
    } else if k == |run.restores| {
      CutBetween(env, p, view, tree, later);
    } else {
      CutLater(env, p, view, tree, k, k - |run.restores|, later);
    }
  }

  lemma {:induction false} CutLater(env: Env, p: Patches, view: GitView, tree: Tree, k: nat, j: nat, later: GitView)
    requires ValidPatches(p) && 0 < j <= |RunOf(env, p, view, tree).applies|
    requires k == |RunOf(env, p, view, tree).restores| + j
    ensures var run := RunOf(env, p, view, tree);
            var cut := After(tree, run, k);
            CutOutcome(run, StaleCount(env, p, tree), k, RunOf(env, p, view, cut), RunOf(env, p, later, cut))
  {
    CutWhileApplying(env, p, view, tree, j, later);
  }

  lemma {:induction false} CutWhileRestoring(env: Env, p: Patches, view: GitView, tree: Tree, k: nat, later: GitView)
    requires ValidPatches(p) && Disjoint(p) && k < |RunOf(env, p, view, tree).restores|
    ensures var run := RunOf(env, p, view, tree);
            var cut := After(tree, run, k);
            CutOutcome(run, StaleCount(env, p, tree), k, RunOf(env, p, view, cut), RunOf(env, p, later, cut))
  {
    if k < StaleCount(env, p, tree) {
      CutRestoreResumes(env, p, view, tree, k);
    } else {
      CutResetIsStuck(env, p, view, tree, k, later);
    }
  }

  lemma {:induction false} CutBetween(env: Env, p: Patches, view: GitView, tree: Tree, later: GitView)
    requires ValidPatches(p)
    ensures var run := RunOf(env, p, view, tree);
            var cut := After(tree, run, |run.restores|);
            CutOutcome(run, StaleCount(env, p, tree), |run.restores|, RunOf(env, p, view, cut), RunOf(env, p, later, cut))
  {
    CutBetweenContinues(env, p, view, tree);
    CutAtHalf(tree, RunOf(env, p, view, tree));
  }

  lemma {:induction false} CutWhileApplying(env: Env, p: Patches, view: GitView, tree: Tree, j: nat, later: GitView)
    requires ValidPatches(p) && 0 < j <= |RunOf(env, p, view, tree).applies|
    ensures var run := RunOf(env, p, view, tree);
            var k, cut := |run.restores| + j, After(tree, run, |run.restores| + j);
            CutOutcome(run, StaleCount(env, p, tree), k, RunOf(env, p, view, cut), RunOf(env, p, later, cut))
  {
    var run := RunOf(env, p, view, tree);
    var cut := After(tree, run, |run.restores| + j);
    if j < |run.applies| {
      CutApplyIsRejected(env, p, view, tree, j, later);
    } else {
      AfterAll(tree, run, |run.restores| + j);
      CutAtEnd(env, p, view, tree, later);
    }
    LateCut(run, StaleCount(env, p, tree), j, RunOf(env, p, view, cut), RunOf(env, p, later, cut));
  }

  lemma {:induction false} LateCut(run: Run, stale: nat, j: nat, same: Run, again: Run)
    requires 0 < j <= |run.applies| && again.restores == [] && again.applies == []
    requires j < |run.applies| ==> Untouched(again)
    ensures CutOutcome(run, stale, |run.restores| + j, same, again)
  {
  }

  lemma {:induction false} CutAtEnd(env: Env, p: Patches, view: GitView, tree: Tree, later: GitView)
    requires ValidPatches(p) && RunOf(env, p, view, tree).applies != []
    ensures var again := RunOf(env, p, later, Final(tree, RunOf(env, p, view, tree)));
            again.restores == [] && again.applies == []
  {
    AppliesIsAccepted(env, p, view, tree);
    AcceptedRunPrepares(env, p, view, tree);
    PreparedRun(env, p, later, Final(tree, RunOf(env, p, view, tree)));
  }

  lemma {:induction false} AppliesIsAccepted(env: Env, p: Patches, view: GitView, tree: Tree)
    requires RunOf(env, p, view, tree).applies != []
    ensures RunOf(env, p, view, tree).outcome == Accepted
  {
  }

  lemma {:induction false} AfterAll(tree: Tree, run: Run, k: nat)
    requires k == |run.restores| + |run.applies|
    ensures After(tree, run, k) == Final(tree, run)
  {
    if run.applies == [] {
      CutAtHalf(tree, run);
    }
  }

  lemma {:induction false} CutAtHalf(tree: Tree, run: Run)
    ensures After(tree, run, |run.restores|) == Replay(tree, run.restores)
  {
    if run.applies != [] {
      assert run.applies[..0] == [];
    }
  }
}
