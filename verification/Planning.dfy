/**
 Data of the vendor patch preparer (build_support/vendor_patches.rs) and the
 planning half of a run: every target is judged against its manifest digests and
 its hunks, and a tree is accepted only if it is entirely clean or entirely
 applied.

 The digest of a file and the UTF-8 check are parameters; Git is an input of the
 run (`GitView`).
 */
module Planning {
  import opened Options
  import opened SourceText
  import opened Hunks
  import Edits

  type Path = string
  type Digest = seq<int>
  type Tree = map<Path, string>

  datatype Env = Env(digest: string -> Digest, utf8: string -> bool)

  datatype Expectation = Expectation(base: Digest, applied: Digest)

  /** The parsed patch directory.  The two orders are the key orders of the manifest maps. */
  datatype Patches = Patches(
    specs: seq<seq<FilePatch>>,
    manifest: map<Path, Expectation>,
    manifestOrder: seq<Path>,
    retired: map<Path, Digest>,
    retiredOrder: seq<Path>)

  /** One line of `git log` for the manifest; no manifest when the revision is unusable. */
  datatype Revision = Revision(commit: string, manifest: Option<map<Path, Expectation>>)

  datatype RestoreSource =
    | Refused
    | Unusable
    | Usable(log: seq<Revision>, blobs: map<Path, string>)

  datatype GitView = GitView(source: RestoreSource, checkoutOk: bool)

  datatype Reason =
    | NoPatches | ManifestMismatch | ManifestOverlap | MissingFile
    | CheckoutRefused | NoMetadata | Unidentified | BadBaseBlob
    | RetiredEdited | ForeignContent | NotText | NotApplicable | WrongRendering
    | OverlappingPatches | PartlyApplied | Interrupted | ChangedUnderfoot

  datatype Outcome = Accepted | Rejected(reason: Reason)

  datatype Write = Write(path: Path, contents: string)

  /** The outcome of a run and the atomic replacements it performs, in order: first the restoring
      ones, then the applying ones. */
  datatype Run = Run(outcome: Outcome, restores: seq<Write>, applies: seq<Write>)

  const HISTORY_LIMIT: nat := 128

  // ------------------------------------------------------------- one file

  datatype Verdict = Broken(reason: Reason) | Mismatch | Clean(rendered: string) | Applied

  /** What planning makes of one target: its digest must be the clean or the applied one, and its
      lines must show the hunks in that same state and in no other. */
  function Examine(env: Env, hunks: seq<Hunk>, e: Expectation, contents: string): (v: Verdict)
  {
    var digest := env.digest(contents);
    if digest != e.base && digest != e.applied then Broken(ForeignContent)
    else if !env.utf8(contents) then Broken(NotText)
    else
      var text, edits := Parse(contents), EditsOf(hunks);
      var clean := Edits.AllOldMatch(text.lines, edits);
      var applied := Edits.AllNewMatch(text.lines, edits);
      if digest == e.base && digest != e.applied && clean && !applied then
        match Patched(text, hunks)
        case None => Broken(NotApplicable)
        case Some(rendered) => if env.digest(rendered) != e.applied then Broken(WrongRendering) else Clean(rendered)
      else if digest != e.base && digest == e.applied && !clean && applied then Applied
      else Mismatch
  }

  // ------------------------------------------------------------- planning

  datatype State = AllClean | AllApplied | Mixed

  datatype Plan = Plan(state: State, writes: seq<Write>)

  function VerdictOf(env: Env, p: Patches, tree: Tree, f: FilePatch): (v: Verdict)
  {
    if f.path !in tree then Broken(MissingFile)
    else if f.path !in p.manifest then Broken(ManifestMismatch)
    else Examine(env, f.hunks, p.manifest[f.path], tree[f.path])
  }

  /** The verdict on each file of the patch set; planning depends on nothing else. */
  type Judge = FilePatch -> Verdict

  function JudgeOf(env: Env, p: Patches, tree: Tree): (v: Judge) { f => VerdictOf(env, p, tree, f) }

  predicate EveryClean(v: Judge, files: seq<FilePatch>)
  {
    forall i :: 0 <= i < |files| ==> v(files[i]).Clean?
  }

  predicate EveryApplied(v: Judge, files: seq<FilePatch>)
  {
    forall i :: 0 <= i < |files| ==> v(files[i]).Applied?
  }

  function WritesOf(v: Judge, files: seq<FilePatch>): (r: seq<Write>)
    requires EveryClean(v, files)
    ensures |r| == |files|
    ensures forall i :: 0 <= i < |r| ==>
      r[i] == Write(files[i].path, v(files[i]).rendered)
  {
    seq(|files|, i requires 0 <= i < |files| => Write(files[i].path, v(files[i]).rendered))
  }

  /** `plan_patch`: the first broken file is an error; writes only when every file is clean. */
  function PlanPatch(v: Judge, files: seq<FilePatch>): (r: Result<Plan, Reason>)
  {
    if exists i :: 0 <= i < |files| && v(files[i]).Broken? then
      Err(FirstBroken(v, files))
    else if EveryClean(v, files) then Ok(Plan(AllClean, WritesOf(v, files)))
    else if EveryApplied(v, files) then Ok(Plan(AllApplied, []))
    else Ok(Plan(Mixed, []))
  }

  function FirstBroken(v: Judge, files: seq<FilePatch>): (r: Reason)
    requires exists i :: 0 <= i < |files| && v(files[i]).Broken?
  {
    if v(files[0]).Broken? then v(files[0]).reason
    else
      var i :| 0 <= i < |files| && v(files[i]).Broken?;
      assert files[1..][i - 1] == files[i];
      FirstBroken(v, files[1..])
  }

  function PathsOf(files: seq<FilePatch>): (r: seq<Path>)
    ensures |r| == |files|
    ensures forall i :: 0 <= i < |r| ==> r[i] == files[i].path
  {
    seq(|files|, i requires 0 <= i < |files| => files[i].path)
  }

  predicate Distinct(paths: seq<Path>)
  {
    forall i, j :: 0 <= i < j < |paths| ==> paths[i] != paths[j]
  }

  function TargetsOf(writes: seq<Write>): (r: seq<Path>)
    ensures |r| == |writes|
    ensures forall i :: 0 <= i < |r| ==> r[i] == writes[i].path
  {
    seq(|writes|, i requires 0 <= i < |writes| => writes[i].path)
  }

  /** The planning loop over the patches: `targets` are the paths that earlier patches write. */
  function PlanAll(v: Judge, specs: seq<seq<FilePatch>>, targets: seq<Path>)
    : (r: Result<seq<Plan>, Reason>)
  {
    if specs == [] then Ok([])
    else
      match PlanPatch(v, specs[0])
      case Err(e) => Err(e)
      case Ok(plan) =>
        var targets' := targets + TargetsOf(plan.writes);
        if !Distinct(targets') then Err(OverlappingPatches)
        else
          match PlanAll(v, specs[1..], targets')
          case Err(e) => Err(e)
          case Ok(plans) => Ok([plan] + plans)
  }

  predicate AllIn(plans: seq<Plan>, state: State) { forall i :: 0 <= i < |plans| ==> plans[i].state == state }

  function AllWrites(plans: seq<Plan>): (r: seq<Write>)
  {
    if plans == [] then [] else plans[0].writes + AllWrites(plans[1..])
  }

  predicate RetiredAtBase(env: Env, p: Patches, tree: Tree)
  {
    forall path :: path in p.retired ==> path in tree && env.digest(tree[path]) == p.retired[path]
  }

  /** From the retired-file check to `tree_state`: the writes of an accepted tree. */
  function ApplyPlan(env: Env, p: Patches, checkoutOk: bool, tree: Tree): (r: Result<seq<Write>, Reason>)
  {
    if !RetiredAtBase(env, p, tree) then Err(RetiredEdited)
    else if !checkoutOk then Err(CheckoutRefused)
    else
      match PlanAll(JudgeOf(env, p, tree), p.specs, [])
      case Err(e) => Err(e)
      case Ok(plans) =>
        if AllIn(plans, AllApplied) then Ok([])
        else if AllIn(plans, AllClean) then Ok(AllWrites(plans))
        else Err(PartlyApplied)
  }

  // ------------------------------------------------- planning, file by file

  function Flatten(specs: seq<seq<FilePatch>>): (r: seq<FilePatch>)
  {
    if specs == [] then [] else specs[0] + Flatten(specs[1..])
  }

  predicate NoEmptySpec(specs: seq<seq<FilePatch>>) { forall i :: 0 <= i < |specs| ==> specs[i] != [] }

  lemma {:induction false} EveryConcat(v: Judge, a: seq<FilePatch>, b: seq<FilePatch>)
    ensures EveryClean(v, a + b) <==> EveryClean(v, a) && EveryClean(v, b)
    ensures EveryApplied(v, a + b) <==> EveryApplied(v, a) && EveryApplied(v, b)
  {
    var c := a + b;
    assert forall i :: 0 <= i < |a| ==> c[i] == a[i];
    assert forall i :: 0 <= i < |b| ==> c[|a| + i] == b[i];
    assert forall i :: |a| <= i < |c| ==> c[i] == b[i - |a|];
  }

  lemma {:induction false} DistinctPrefix(a: seq<Path>, b: seq<Path>)
    requires Distinct(a + b)
    ensures Distinct(a)
  {
    forall i, j | 0 <= i < j < |a| ensures a[i] != a[j] {
      assert (a + b)[i] == a[i] && (a + b)[j] == a[j];
    }
  }

  predicate PlannedClean(plans: Result<seq<Plan>, Reason>) { plans.Ok? && AllIn(plans.value, AllClean) }

  /** The whole plan is clean exactly when every file is and no two files share a path. */
  lemma {:induction false} PlanAllClean(v: Judge, specs: seq<seq<FilePatch>>, targets: seq<Path>)
    requires Distinct(targets)
    ensures PlannedClean(PlanAll(v, specs, targets))
            <==> EveryClean(v, Flatten(specs)) && Distinct(targets + PathsOf(Flatten(specs)))
  {
    if specs == [] {
      assert targets + PathsOf([]) == targets;
    } else {
      var first, rest := specs[0], Flatten(specs[1..]);
      EveryConcat(v, first, rest);
      if EveryClean(v, first) {
        var targets' := CleanTargets(v, first, targets);
        assert targets' + PathsOf(rest) == targets + PathsOf(first + rest);
        if Distinct(targets') {
          PlanAllClean(v, specs[1..], targets');
          ConsPlan(v, specs, targets);
        } else if Distinct(targets + PathsOf(first + rest)) {
          DistinctPrefix(targets', PathsOf(rest));
        }
      } else {
        NotCleanFirst(v, specs, targets);
      }
    }
  }

  lemma {:induction false} CleanTargets(v: Judge, first: seq<FilePatch>, targets: seq<Path>) returns (targets': seq<Path>)
    requires EveryClean(v, first)
    ensures targets' == targets + PathsOf(first)
    ensures PlanPatch(v, first) == Ok(Plan(AllClean, WritesOf(v, first)))
    ensures targets' == targets + TargetsOf(WritesOf(v, first))
  {
    assert TargetsOf(WritesOf(v, first)) == PathsOf(first);
    targets' := targets + PathsOf(first);
  }

  /** A clean plan writes every file's rendering, in file order. */
  lemma {:induction false} PlanAllWrites(v: Judge, specs: seq<seq<FilePatch>>, targets: seq<Path>)
    requires EveryClean(v, Flatten(specs)) && PlannedClean(PlanAll(v, specs, targets))
    ensures AllWrites(PlanAll(v, specs, targets).value) == WritesOf(v, Flatten(specs))
  {
    if specs != [] {
      var first, rest := specs[0], Flatten(specs[1..]);
      EveryConcat(v, first, rest);
      var targets' := CleanTargets(v, first, targets);
      ConsPlan(v, specs, targets);
      PlanAllWrites(v, specs[1..], targets');
      assert WritesOf(v, first) + WritesOf(v, rest) == WritesOf(v, first + rest);
    }
  }

  lemma {:induction false} ConsPlan(v: Judge, specs: seq<seq<FilePatch>>, targets: seq<Path>)
    requires specs != [] && PlanPatch(v, specs[0]).Ok?
    requires Distinct(targets + TargetsOf(PlanPatch(v, specs[0]).value.writes))
    ensures var plan := PlanPatch(v, specs[0]).value;
            var rest := PlanAll(v, specs[1..], targets + TargetsOf(plan.writes));
            var all := PlanAll(v, specs, targets);
            && (all.Ok? <==> rest.Ok?)
            && (all.Ok? ==>
                  && AllWrites(all.value) == plan.writes + AllWrites(rest.value)
                  && forall s :: AllIn(all.value, s) <==> plan.state == s && AllIn(rest.value, s))
  {
    var plan := PlanPatch(v, specs[0]).value;
    var rest := PlanAll(v, specs[1..], targets + TargetsOf(plan.writes));
    if rest.Ok? {
      var all := [plan] + rest.value;
      assert all[1..] == rest.value;
      assert forall i :: 0 <= i < |rest.value| ==> all[i + 1] == rest.value[i];
    }
  }

  lemma {:induction false} NotCleanFirst(v: Judge, specs: seq<seq<FilePatch>>, targets: seq<Path>)
    requires specs != []
    requires !EveryClean(v, specs[0])
    ensures !PlannedClean(PlanAll(v, specs, targets))
  {
    var plans := PlanAll(v, specs, targets);
    if plans.Ok? {
      assert plans.value[0] == PlanPatch(v, specs[0]).value;
    }
  }

  /** The whole plan is applied exactly when every file is. */
  lemma {:induction false} PlanAllApplied(v: Judge, specs: seq<seq<FilePatch>>, targets: seq<Path>)
    requires Distinct(targets) && NoEmptySpec(specs)
    ensures var plans := PlanAll(v, specs, targets);
            (plans.Ok? && AllIn(plans.value, AllApplied)) <==> EveryApplied(v, Flatten(specs))
  {
    if specs != [] {
      var first := specs[0];
      var plan := PlanPatch(v, first);
      EveryConcat(v, first, Flatten(specs[1..]));
      assert first != [];
      if EveryApplied(v, first) {
        assert v(first[0]).Applied?;
        assert plan == Ok(Plan(AllApplied, []));
        assert targets + TargetsOf([]) == targets;
        PlanAllApplied(v, specs[1..], targets);
        ConsPlan(v, specs, targets);
      } else {
        var plans := PlanAll(v, specs, targets);
        if plans.Ok? {
          assert plans.value[0] == plan.value;
        }
      }
    }
  }

  /** The second half of a run, in terms of the files alone. */
  lemma {:induction false} ApplyPlanCases(env: Env, p: Patches, checkoutOk: bool, tree: Tree)
    requires NoEmptySpec(p.specs)
    ensures var r, files, v := ApplyPlan(env, p, checkoutOk, tree), Flatten(p.specs), JudgeOf(env, p, tree);
            && (r.Ok? <==> RetiredAtBase(env, p, tree) && checkoutOk
                           && (EveryApplied(v, files)
                               || (EveryClean(v, files) && Distinct(PathsOf(files)))))
            && (r.Ok? ==> r.value == if EveryApplied(v, files) then [] else WritesOf(v, files))
  {
    var v := JudgeOf(env, p, tree);
    PlanAllApplied(v, p.specs, []);
    PlanAllClean(v, p.specs, []);
    assert [] + PathsOf(Flatten(p.specs)) == PathsOf(Flatten(p.specs));
    if PlannedClean(PlanAll(v, p.specs, [])) {
      PlanAllWrites(v, p.specs, []);
    }
  }
}
