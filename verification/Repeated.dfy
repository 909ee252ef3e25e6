/**
 Repeating an accepted run of the vendor patch preparer: it never writes, and when it is accepted
 again is decided by the patch and the lines the first run read.
 */
module Repeated {
  import opened Options
  import opened SourceText
  import opened Hunks
  import opened Planning
  import opened Restoring
  import opened Runs
  import opened Interrupted
  import Edits

  // ------------------------------------------------------ what the first run wrote

  /** The tree that planning saw. */
  function Planned(tree: Tree, run: Run): (r: Tree) { Replay(tree, run.restores) }

  lemma {:induction false} AcceptedPlan(env: Env, p: Patches, view: GitView, tree: Tree)
    requires ValidPatches(p) && RunOf(env, p, view, tree).outcome == Accepted
    ensures var run := RunOf(env, p, view, tree);
            Ready(p) && ApplyPlan(env, p, view.checkoutOk, Planned(tree, run)) == Ok(run.applies)
  {
  }

  /** A writing run found every file clean and left each one as it rendered it. */
  lemma {:induction false} WrittenFile(env: Env, p: Patches, view: GitView, tree: Tree, i: nat)
    requires ValidPatches(p) && RunOf(env, p, view, tree).outcome == Accepted
    requires RunOf(env, p, view, tree).applies != [] && i < |Flatten(p.specs)|
    ensures var run, f := RunOf(env, p, view, tree), Flatten(p.specs)[i];
            && f.path in p.manifest && f.path in Planned(tree, run) && f.path in Final(tree, run)
            && Examine(env, f.hunks, p.manifest[f.path], Planned(tree, run)[f.path]) == Clean(Final(tree, run)[f.path])
  {
    AcceptedPlan(env, p, view, tree);
    WrittenByPlan(env, p, view.checkoutOk, Planned(tree, RunOf(env, p, view, tree)), i);
  }

  lemma {:induction false} WrittenByPlan(env: Env, p: Patches, checkoutOk: bool, seen: Tree, i: nat)
    requires Ready(p) && ApplyPlan(env, p, checkoutOk, seen).Ok? && ApplyPlan(env, p, checkoutOk, seen).value != []
    requires i < |Flatten(p.specs)|
    ensures var f := Flatten(p.specs)[i];
            var done := Replay(seen, ApplyPlan(env, p, checkoutOk, seen).value);
            && f.path in p.manifest && f.path in seen && f.path in done
            && Examine(env, f.hunks, p.manifest[f.path], seen[f.path]) == Clean(done[f.path])
  {
    var w, files, v := ApplyPlan(env, p, checkoutOk, seen).value, Flatten(p.specs), JudgeOf(env, p, seen);
    ApplyPlanCases(env, p, checkoutOk, seen);
    ApplyFacts(env, p, checkoutOk, seen);
    assert EveryClean(v, files) && w == WritesOf(v, files);
    VerdictFacts(env, p, seen, files[i]);
    ReplayAt(seen, w, i);
  }

  lemma {:induction false} UnwrittenFile(env: Env, p: Patches, checkoutOk: bool, seen: Tree)
    requires Ready(p) && ApplyPlan(env, p, checkoutOk, seen) == Ok([])
    ensures EveryApplied(JudgeOf(env, p, seen), Flatten(p.specs))
  {
    ApplyPlanCases(env, p, checkoutOk, seen);
    FilesExist(p);
  }

  // ------------------------------------------------------- the lines it wrote

  function ResultLines(hunks: seq<Hunk>, contents: string): (r: Option<seq<string>>)
  {
    Edits.ApplyFrom(Parse(contents).lines, 0, EditsOf(hunks))
  }

  /** The patched lines are the same lines when the file is read back, and it is UTF-8. */
  predicate ReadsBack(env: Env, hunks: seq<Hunk>, contents: string)
  {
    var text, lines := Parse(contents), ResultLines(hunks, contents);
    && lines.Some? && env.utf8(Render(text, lines.value))
    && Parse(Render(text, lines.value)).lines == lines.value
  }

  /** Lines without CR and LF read back, if there is one and a final newline or its text marks the last. */
  lemma {:induction false} CleanReadsBack(env: Env, hunks: seq<Hunk>, contents: string)
    requires ResultLines(hunks, contents).Some?
    requires var text, lines := Parse(contents), ResultLines(hunks, contents).value;
             && CleanLines(lines) && lines != [] && (text.finalNewline || Last(lines) != "")
             && env.utf8(Render(text, lines))
    ensures ReadsBack(env, hunks, contents)
  {
    ParseOfRender(Parse(contents), ResultLines(hunks, contents).value);
  }

  /** The patch leaves its old lines standing where they were. */
  predicate OldLinesStand(hunks: seq<Hunk>, contents: string)
  {
    var lines := ResultLines(hunks, contents);
    lines.Some? && Edits.AllOldMatch(lines.value, EditsOf(hunks))
  }

  /** The patch puts its new lines where its headers say. */
  predicate NewLinesStand(hunks: seq<Hunk>, contents: string)
  {
    var lines := ResultLines(hunks, contents);
    lines.Some? && Edits.AllNewMatch(lines.value, EditsOf(hunks))
  }

  lemma {:induction false} CleanRendering(env: Env, hunks: seq<Hunk>, e: Expectation, contents: string, rendered: string)
    requires Examine(env, hunks, e, contents) == Clean(rendered)
    ensures ResultLines(hunks, contents).Some?
    ensures rendered == Render(Parse(contents), ResultLines(hunks, contents).value)
  {
    assert Patched(Parse(contents), hunks) == Some(rendered);
  }

  lemma {:induction false} RenderingReadsBack(env: Env, hunks: seq<Hunk>, e: Expectation, contents: string, rendered: string)
    requires Examine(env, hunks, e, contents) == Clean(rendered) && ReadsBack(env, hunks, contents)
    ensures env.utf8(rendered) && Parse(rendered).lines == ResultLines(hunks, contents).value
  {
    CleanRendering(env, hunks, e, contents, rendered);
  }

  lemma {:induction false} RenderingSettles(env: Env, hunks: seq<Hunk>, e: Expectation, contents: string, rendered: string)
    requires Examine(env, hunks, e, contents) == Clean(rendered) && ReadsBack(env, hunks, contents)
    ensures Settled(env, hunks, rendered) <==> NewLinesStand(hunks, contents) && !OldLinesStand(hunks, contents)
  {
    RenderingReadsBack(env, hunks, e, contents, rendered);
  }

  /** Well-numbered hunks put their new lines where their headers say. */
  lemma {:induction false} NumberedStand(env: Env, hunks: seq<Hunk>, e: Expectation, contents: string)
    requires Examine(env, hunks, e, contents).Clean? && WellNumbered(hunks, Parse(contents).lines)
    ensures NewLinesStand(hunks, contents)
  {
    ReversedPatchRestores(Parse(contents), hunks);
  }

  // ------------------------------------------------------------ the repeated run

  // Of the files as planning saw them:

  predicate AllReadBack(env: Env, files: seq<FilePatch>, seen: Tree)
  {
    forall i :: 0 <= i < |files| ==> files[i].path in seen && ReadsBack(env, files[i].hunks, seen[files[i].path])
  }

  predicate AllNumbered(files: seq<FilePatch>, seen: Tree)
  {
    forall i :: 0 <= i < |files| ==>
      files[i].path in seen && WellNumbered(files[i].hunks, Parse(seen[files[i].path]).lines)
  }

  predicate AllPlaced(files: seq<FilePatch>, seen: Tree)
  {
    forall i :: 0 <= i < |files| ==> files[i].path in seen && NewLinesStand(files[i].hunks, seen[files[i].path])
  }

  predicate NoneStands(files: seq<FilePatch>, seen: Tree)
  {
    forall i :: 0 <= i < |files| ==> files[i].path in seen && !OldLinesStand(files[i].hunks, seen[files[i].path])
  }

  /** One file of a writing run. */
  lemma {:induction false} WrittenFileSettles(env: Env, p: Patches, view: GitView, tree: Tree, i: nat)
    requires ValidPatches(p) && RunOf(env, p, view, tree).outcome == Accepted
    requires RunOf(env, p, view, tree).applies != [] && i < |Flatten(p.specs)|
    requires AllReadBack(env, Flatten(p.specs), Planned(tree, RunOf(env, p, view, tree)))
    ensures var run := RunOf(env, p, view, tree);
            SettlesAt(env, Flatten(p.specs)[i], Planned(tree, run), Final(tree, run))
  {
    var run, f := RunOf(env, p, view, tree), Flatten(p.specs)[i];
    WrittenFile(env, p, view, tree, i);
    SettlesWritten(env, f, p.manifest[f.path], Planned(tree, run)[f.path], Final(tree, run)[f.path]);
  }

  lemma {:induction false} SettlesWritten(env: Env, f: FilePatch, e: Expectation, seen: string, done: string)
    requires Examine(env, f.hunks, e, seen) == Clean(done) && ReadsBack(env, f.hunks, seen)
    ensures Settled(env, f.hunks, done) <==> NewLinesStand(f.hunks, seen) && !OldLinesStand(f.hunks, seen)
    ensures WellNumbered(f.hunks, Parse(seen).lines) ==> NewLinesStand(f.hunks, seen)
  {
    RenderingSettles(env, f.hunks, e, seen, done);
    if WellNumbered(f.hunks, Parse(seen).lines) {
      NumberedStand(env, f.hunks, e, seen);
    }
  }

  lemma {:induction false} WrittenSettles(env: Env, p: Patches, view: GitView, tree: Tree)
    requires ValidPatches(p) && RunOf(env, p, view, tree).outcome == Accepted
    requires RunOf(env, p, view, tree).applies != []
    requires AllReadBack(env, Flatten(p.specs), Planned(tree, RunOf(env, p, view, tree)))
    ensures var run, files := RunOf(env, p, view, tree), Flatten(p.specs);
            var seen := Planned(tree, run);
            && (AllSettled(env, files, Final(tree, run)) <==> AllPlaced(files, seen) && NoneStands(files, seen))
            && (AllNumbered(files, seen) ==> AllPlaced(files, seen))
  {
    forall i | 0 <= i < |Flatten(p.specs)|
      ensures SettlesAt(env, Flatten(p.specs)[i], Planned(tree, RunOf(env, p, view, tree)), Final(tree, RunOf(env, p, view, tree)))
    {
      WrittenFileSettles(env, p, view, tree, i);
    }
    SettleAll(env, Flatten(p.specs), Planned(tree, RunOf(env, p, view, tree)), Final(tree, RunOf(env, p, view, tree)));
  }

  predicate SettlesAt(env: Env, f: FilePatch, seen: Tree, done: Tree)
  {
    && f.path in seen && f.path in done
    && (Settled(env, f.hunks, done[f.path])
        <==> NewLinesStand(f.hunks, seen[f.path]) && !OldLinesStand(f.hunks, seen[f.path]))
    && (WellNumbered(f.hunks, Parse(seen[f.path]).lines) ==> NewLinesStand(f.hunks, seen[f.path]))
  }

  lemma {:induction false} SettleAll(env: Env, files: seq<FilePatch>, seen: Tree, done: Tree)
    requires forall i :: 0 <= i < |files| ==> SettlesAt(env, files[i], seen, done)
    ensures AllSettled(env, files, done) <==> AllPlaced(files, seen) && NoneStands(files, seen)
    ensures AllNumbered(files, seen) ==> AllPlaced(files, seen)
  {
    assert forall i :: 0 <= i < |files| ==> SettlesAt(env, files[i], seen, done);
  }

  /** Repeating an accepted run never writes.  If the first run wrote nothing, the repetition is
      accepted exactly when the checkout passes.  If it wrote, and its results read back as the lines
      they were, the repetition is accepted exactly when the checkout passes, every hunk's new lines
      stand where its header says and no patch leaves all its old lines standing; for well-numbered
      hunks the latter alone decides. */
  lemma {:induction false} RepeatedRun(env: Env, p: Patches, view: GitView, tree: Tree, later: GitView)
    requires ValidPatches(p) && RunOf(env, p, view, tree).outcome == Accepted
    ensures var run, files := RunOf(env, p, view, tree), Flatten(p.specs);
            var seen := Planned(tree, run);
            var again := RunOf(env, p, later, Final(tree, run));
            && again.restores == [] && again.applies == []
            && (run.applies == [] ==> (again.outcome == Accepted <==> later.checkoutOk))
            && (run.applies != [] && AllReadBack(env, files, seen) ==>
                  (again.outcome == Accepted
                   <==> later.checkoutOk && AllPlaced(files, seen) && NoneStands(files, seen)))
            && (run.applies != [] && AllReadBack(env, files, seen) && AllNumbered(files, seen) ==>
                  (again.outcome == Accepted <==> later.checkoutOk && NoneStands(files, seen)))
  {
    var run, files := RunOf(env, p, view, tree), Flatten(p.specs);
    AcceptedRunPrepares(env, p, view, tree);
    PreparedRun(env, p, later, Final(tree, run));
    AcceptedPlan(env, p, view, tree);
    if run.applies == [] {
      UnwrittenFile(env, p, view.checkoutOk, Planned(tree, run));
      PreparedJudgement(env, p, Final(tree, run));
    } else if AllReadBack(env, files, Planned(tree, run)) {
      WrittenSettles(env, p, view, tree);
    }
  }

  // ------------------------------------------- runs that cannot be repeated

  /** A patch set of one file, whose manifest holds the digests of its text before and after. */
  function OnePatch(env: Env, f: FilePatch, before: string, after: string): (p: Patches)
  {
    Patches([[f]], map[f.path := Expectation(env.digest(before), env.digest(after))], [f.path], map[], [])
  }

  lemma {:induction false} OneFile(specs: seq<seq<FilePatch>>, f: FilePatch)
    requires specs == [[f]]
    ensures Flatten(specs) == [f] && Listed([f]) == {f.path}
  {
    assert specs[1..] == [];
    assert Flatten(specs[1..]) == [];
    assert Flatten(specs) == [f] + [];
    assert [f][0] == f;
  }

  lemma {:induction false} OnePatchIsReady(env: Env, f: FilePatch, before: string, after: string)
    requires AllCounted(f.hunks)
    ensures Ready(OnePatch(env, f, before, after)) && Flatten(OnePatch(env, f, before, after).specs) == [f]
  {
    var p := OnePatch(env, f, before, after);
    OneFile(p.specs, f);
    assert p.manifest.Keys == {f.path} && p.retired.Keys == {};
    assert Listed(Flatten(p.specs)) == p.manifest.Keys;
    OnePatchIsValid(p, f);
    assert Validate(p) == Accepted;
  }

  lemma {:induction false} OnePatchIsValid(p: Patches, f: FilePatch)
    requires p.specs == [[f]] && Flatten(p.specs) == [f] && AllCounted(f.hunks)
    requires p.manifest.Keys == {f.path} && p.manifestOrder == [f.path] && p.retired == map[] && p.retiredOrder == []
    ensures ValidPatches(p)
  {
  }

  /** The run of such a patch set on the tree it was made for, and what every later run makes of the
      result. */
  lemma {:induction false} OnePatchRun(
      env: Env, p: Patches, f: FilePatch, before: string, after: string, view: GitView, later: GitView, tree: Tree)
    requires AllCounted(f.hunks) && view.checkoutOk
    requires p == OnePatch(env, f, before, after) && tree == map[f.path := before]
    requires Examine(env, f.hunks, p.manifest[f.path], before) == Clean(after)
    ensures var run := RunOf(env, p, view, tree);
            && ValidPatches(p) && run == Run(Accepted, [], [Write(f.path, after)])
            && (RunOf(env, p, later, Final(tree, run)).outcome == Accepted
                <==> later.checkoutOk && Settled(env, f.hunks, after))
  {
    OnePatchIsReady(env, f, before, after);
    OnePatchPlan(env, p, f, before, after, view, tree);
    var run := RunOf(env, p, view, tree);
    OneWrite(tree, f.path, after, run);
    AcceptedRunPrepares(env, p, view, tree);
    OnePatchAgain(env, p, f, after, later, Final(tree, run));
  }

  lemma {:induction false} OneWrite(tree: Tree, path: Path, after: string, run: Run)
    requires run == Run(Accepted, [], [Write(path, after)])
    ensures Final(tree, run) == tree[path := after]
  {
    assert run.applies[1..] == [];
    assert Replay(tree[path := after], []) == tree[path := after];
    assert Replay(tree, run.restores) == tree;
  }

  lemma {:induction false} OnePatchAgain(env: Env, p: Patches, f: FilePatch, after: string, later: GitView, done: Tree)
    requires Ready(p) && Flatten(p.specs) == [f] && Prepared(env, p, done) && f.path in done && done[f.path] == after
    ensures RunOf(env, p, later, done).outcome == Accepted <==> later.checkoutOk && Settled(env, f.hunks, after)
  {
    PreparedRun(env, p, later, done);
    OneSettled(env, f, done);
  }

  lemma {:induction false} OneSettled(env: Env, f: FilePatch, done: Tree)
    requires f.path in done
    ensures AllSettled(env, [f], done) <==> Settled(env, f.hunks, done[f.path])
  {
    assert [f][0] == f;
  }

  lemma {:induction false} OnePatchPlan(
      env: Env, p: Patches, f: FilePatch, before: string, after: string, view: GitView, tree: Tree)
    requires p == OnePatch(env, f, before, after) && tree == map[f.path := before] && view.checkoutOk
    requires Ready(p) && Flatten(p.specs) == [f]
    requires Examine(env, f.hunks, p.manifest[f.path], before) == Clean(after)
    ensures RunOf(env, p, view, tree) == Run(Accepted, [], [Write(f.path, after)])
  {
    var v := JudgeOf(env, p, tree);
    assert v(f) == Clean(after);
    SettledNeedsNoRestore(env, p, view.source, tree);
    ApplyPlanCases(env, p, view.checkoutOk, tree);
    assert EveryClean(v, [f]) && Distinct(PathsOf([f]));
    assert WritesOf(v, [f]) == [Write(f.path, after)];
  }

  const TWICE := Hunk(1, 1, 1, 2, [Context("a"), Added("a")])

  const MISNUMBERED := Hunk(1, 1, 5, 1, [Removed("o"), Added("n")])

  /** A patch that inserts a line after one that equals it still shows its old lines: its run is
      accepted once and every later run is rejected, for any digest that tells the two texts apart. */
  lemma {:induction false} InsertionThatNeverSettles(env: Env, p: Patches, view: GitView, later: GitView, tree: Tree)
    requires env.digest("a") != env.digest("a\na") && env.utf8("a") && view.checkoutOk
    requires p == OnePatch(env, FilePatch("f", [TWICE]), "a", "a\na") && tree == map["f" := "a"]
    ensures ValidPatches(p) && WellNumbered([TWICE], ["a"])
    ensures var run := RunOf(env, p, view, tree);
            run.outcome == Accepted && RunOf(env, p, later, Final(tree, run)).outcome.Rejected?
  {
    var f := FilePatch("f", [TWICE]);
    TwiceEdits();
    TwiceVerdict(env, f);
    OnePatchRun(env, p, f, "a", "a\na", view, later, tree);
    TwiceStands(env);
  }

  /** A hunk that replaces its line but announces it at another one: the old line is gone, and still
      every later run is rejected. */
  lemma {:induction false} MisnumberedHunkNeverSettles(env: Env, p: Patches, view: GitView, later: GitView, tree: Tree)
    requires env.digest("o") != env.digest("n") && env.utf8("o") && view.checkoutOk
    requires p == OnePatch(env, FilePatch("f", [MISNUMBERED]), "o", "n") && tree == map["f" := "o"]
    ensures ValidPatches(p) && !OldLinesStand([MISNUMBERED], "o")
    ensures var run := RunOf(env, p, view, tree);
            run.outcome == Accepted && RunOf(env, p, later, Final(tree, run)).outcome.Rejected?
  {
    var f := FilePatch("f", [MISNUMBERED]);
    MisnumberedEdits();
    MisnumberedVerdict(env, f);
    OnePatchRun(env, p, f, "o", "n", view, later, tree);
    MisnumberedStands(env);
  }

  // The two witnesses, worked out.

  const TWICE_EDIT := Edits.Edit(1, ["a"], 1, ["a", "a"])

  lemma {:induction false} TwiceEdits()
    ensures AllCounted([TWICE]) && EditsOf([TWICE]) == [TWICE_EDIT]
    ensures WellNumbered([TWICE], ["a"])
  {
    TwiceLines();
    assert [TWICE][0] == TWICE;
    assert EditsOf([TWICE])[0] == TWICE_EDIT;
    assert EditsOf([TWICE]) == [TWICE_EDIT];
    TwiceIsNumbered(TWICE_EDIT);
  }

  lemma {:induction false} TwiceLines()
    ensures OldLines(TWICE.lines) == ["a"] && NewLines(TWICE.lines) == ["a", "a"]
  {
    assert TWICE.lines[1..] == [Added("a")] && TWICE.lines[1..][1..] == [];
  }

  lemma {:induction false} TwiceIsNumbered(e: Edits.Edit)
    requires e.oldStart == 1 && e.newStart == 1 && |e.before| == 1 && |e.after| == 2
    ensures Edits.Ascending([e], 0) && Edits.Renumbered([e], 0)
    ensures Edits.TotalNew([e]) == 2 && Edits.Growth([e]) == 1 && Edits.TotalNew(Edits.InvertAll([e])) == 1
  {
    var inverse := Edits.InvertAll([e]);
    assert [e][0] == e && [e][1..] == [];
    assert inverse[0] == Edits.Invert(e) && inverse[1..] == [];
    assert Edits.TotalNew([]) == 0 && Edits.Growth([]) == 0;
  }

  lemma {:induction false} OneLine(line: string)
    requires line != "" && CleanLine(line)
    ensures Parse(line) == SourceText([line], [LF], false)
  {
    SplitNoLF(line);
  }

  lemma {:induction false} TwoLines()
    ensures Parse("a\na").lines == ["a", "a"] && Join(["a", "a"], [LF]) == "a\na"
  {
    assert ["a", "a"][1..] == ["a"];
    assert Join(["a", "a"], [LF]) == "a" + [LF] + "a";
    SplitPrefix("a", "a");
    SplitNoLF("a");
    assert "a" + [LF] + "a" == "a\na";
    assert Split("a\na") == ["a", "a"];
  }

  lemma {:induction false} ApplyOne(source: seq<string>, e: Edits.Edit)
    requires 0 < e.oldStart <= Edits.ISIZE_MAX && Edits.Matches(source, e.oldStart, e.before)
    ensures Edits.ApplyFrom(source, 0, [e]) == Some(Edits.Splice(source, e.oldStart - 1, |e.before|, e.after))
  {
    assert [e][0] == e && [e][1..] == [];
  }

  lemma {:induction false} TwiceApplies()
    ensures Edits.AllOldMatch(["a"], [TWICE_EDIT]) && !Edits.AllNewMatch(["a"], [TWICE_EDIT])
    ensures Edits.ApplyFrom(["a"], 0, [TWICE_EDIT]) == Some(["a", "a"])
  {
    assert Edits.Matches(["a"], 1, ["a"]) by { assert ["a"][0..1] == ["a"]; }
    assert !Edits.Matches(["a"], 1, ["a", "a"]);
    assert [TWICE_EDIT][0] == TWICE_EDIT;
    assert Edits.Splice(["a"], 0, 1, ["a", "a"]) == ["a", "a"];
    ApplyOne(["a"], TWICE_EDIT);
  }

  lemma {:induction false} TwiceRenders()
    ensures Parse("a").lines == ["a"] && Render(Parse("a"), ["a", "a"]) == "a\na"
  {
    OneLine("a");
    TwoLines();
    assert "a\na" + "" == "a\na";
  }

  lemma {:induction false} TwiceVerdict(env: Env, f: FilePatch)
    requires f.hunks == [TWICE] && env.digest("a") != env.digest("a\na") && env.utf8("a")
    ensures Examine(env, f.hunks, Expectation(env.digest("a"), env.digest("a\na")), "a") == Clean("a\na")
  {
    TwiceEdits();
    TwiceRenders();
    TwiceApplies();
    CleanVerdict(env, f.hunks, "a", ["a", "a"], "a\na");
  }

  /** When a text is judged clean. */
  lemma {:induction false} CleanVerdict(env: Env, hunks: seq<Hunk>, before: string, lines: seq<string>, after: string)
    requires env.digest(before) != env.digest(after) && env.utf8(before)
    requires Edits.AllOldMatch(Parse(before).lines, EditsOf(hunks)) && !Edits.AllNewMatch(Parse(before).lines, EditsOf(hunks))
    requires ResultLines(hunks, before) == Some(lines) && Render(Parse(before), lines) == after
    ensures Examine(env, hunks, Expectation(env.digest(before), env.digest(after)), before) == Clean(after)
  {
  }

  lemma {:induction false} TwiceStands(env: Env)
    ensures !Settled(env, [TWICE], "a\na")
  {
    TwiceEdits();
    TwoLines();
    assert Edits.Matches(["a", "a"], 1, ["a"]) by { assert ["a", "a"][0..1] == ["a"]; }
    assert [TWICE_EDIT][0] == TWICE_EDIT;
  }

  lemma {:induction false} MisnumberedEdits()
    ensures AllCounted([MISNUMBERED]) && EditsOf([MISNUMBERED]) == [Edits.Edit(1, ["o"], 5, ["n"])]
  {
    assert MISNUMBERED.lines[1..] == [Added("n")] && MISNUMBERED.lines[1..][1..] == [];
    assert OldLines(MISNUMBERED.lines) == ["o"] && NewLines(MISNUMBERED.lines) == ["n"];
    assert [MISNUMBERED][0] == MISNUMBERED;
    assert EditsOf([MISNUMBERED])[0] == Edits.Edit(1, ["o"], 5, ["n"]);
  }

  lemma {:induction false} MisnumberedApplies()
    ensures ResultLines([MISNUMBERED], "o") == Some(["n"]) && Join(["n"], [LF]) == "n"
    ensures Parse("o") == SourceText(["o"], [LF], false) && Parse("n") == SourceText(["n"], [LF], false)
    ensures Edits.AllOldMatch(["o"], EditsOf([MISNUMBERED])) && !Edits.AllNewMatch(["o"], EditsOf([MISNUMBERED]))
    ensures !Edits.AllOldMatch(["n"], EditsOf([MISNUMBERED])) && !Edits.AllNewMatch(["n"], EditsOf([MISNUMBERED]))
  {
    var edit := Edits.Edit(1, ["o"], 5, ["n"]);
    MisnumberedEdits();
    OneLine("o");
    OneLine("n");
    assert [edit][0] == edit && [edit][1..] == [];
    assert Edits.Matches(["o"], 1, ["o"]) by { assert ["o"][0..1] == ["o"]; }
    assert !Edits.Matches(["n"], 1, ["o"]) by { assert ["n"][0..1] == ["n"]; }
    assert Edits.Splice(["o"], 0, 1, ["n"]) == ["n"];
    ApplyOne(["o"], edit);
  }

  lemma {:induction false} MisnumberedVerdict(env: Env, f: FilePatch)
    requires f.hunks == [MISNUMBERED] && env.digest("o") != env.digest("n") && env.utf8("o")
    ensures Examine(env, f.hunks, Expectation(env.digest("o"), env.digest("n")), "o") == Clean("n")
    ensures !OldLinesStand(f.hunks, "o")
  {
    MisnumberedApplies();
    assert Render(Parse("o"), ["n"]) == "n" by { assert "n" + "" == "n"; }
    CleanVerdict(env, f.hunks, "o", ["n"], "n");
  }

  lemma {:induction false} MisnumberedStands(env: Env)
    ensures !Settled(env, [MISNUMBERED], "n")
  {
    MisnumberedApplies();
  }
}
