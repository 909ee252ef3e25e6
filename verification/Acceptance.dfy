/**
 When a preparer run is accepted.  First for any patch set that behaves on the
 contents the run reads, then for the patch sets the repository ships: LF or
 CRLF checkouts of one canonical base text, patched by well-numbered hunks.
 */
module Acceptance {
  import opened Options
  import opened SourceText
  import opened Hunks
  import opened Planning
  import opened Restoring
  import opened Runs
  import Edits

  /** On this content the verdict follows the digest: clean at the base, applied at the applied one. */
  predicate Behaves(env: Env, f: FilePatch, e: Expectation, contents: string)
  {
    && (env.digest(contents) == e.base ==> Examine(env, f.hunks, e, contents).Clean?)
    && (env.digest(contents) == e.applied ==> Examine(env, f.hunks, e, contents).Applied?)
  }

  predicate BehavesIn(env: Env, p: Patches, files: seq<FilePatch>, tree: Tree)
  {
    forall i :: 0 <= i < |files| && files[i].path in tree && files[i].path in p.manifest ==>
      Behaves(env, files[i], p.manifest[files[i].path], tree[files[i].path])
  }

  /** The same for every base blob, as restoration would write it. */
  predicate BehavesRestored(env: Env, p: Patches, files: seq<FilePatch>, r: Renderer)
  {
    forall i :: 0 <= i < |files| && files[i].path in p.manifest && r(files[i].path).Some? ==>
      Behaves(env, files[i], p.manifest[files[i].path], r(files[i].path).value)
  }

  /** No two patches share a target, and base and applied digests differ. */
  predicate Disjoint(p: Patches)
  {
    && Distinct(PathsOf(Flatten(p.specs)))
    && forall path :: path in p.manifest ==> p.manifest[path].base != p.manifest[path].applied
  }

  lemma {:induction false} BehavedJudgement(env: Env, p: Patches, tree: Tree)
    requires Ready(p) && Disjoint(p) && BehavesIn(env, p, Flatten(p.specs), tree)
    ensures EveryApplied(JudgeOf(env, p, tree), Flatten(p.specs)) <==> AllAt(env, p, tree, true)
    ensures EveryClean(JudgeOf(env, p, tree), Flatten(p.specs)) <==> AllAt(env, p, tree, false)
  {
    JudgedAt(env, p, tree);
    ReadyOrder(p);
    var files, v := Flatten(p.specs), JudgeOf(env, p, tree);
    forall i | 0 <= i < |files|
      ensures AllAt(env, p, tree, true) ==> v(files[i]).Applied?
      ensures AllAt(env, p, tree, false) ==> v(files[i]).Clean?
    {
      assert files[i] in files;
      if AllAt(env, p, tree, true) { assert AtDigests(env, p, tree, files[i].path, true); }
      if AllAt(env, p, tree, false) { assert AtDigests(env, p, tree, files[i].path, false); }
    }
  }

  lemma {:induction false} NoStaleRetired(env: Env, p: Patches, tree: Tree)
    requires Ready(p) && Present(p, tree) && NoStale(env, p, tree)
    ensures RetiredAtBase(env, p, tree)
  {
    ReadyOrder(p);
    forall path | path in p.retired ensures path in tree && env.digest(tree[path]) == p.retired[path] {
      assert path in Order(p);
      AtBaseDigest(env, p, tree, path);
    }
  }

  /** Each restored file holds either its old content at the base digest or its rendered base blob. */
  lemma {:induction false} RestoredContents(env: Env, p: Patches, source: RestoreSource, tree: Tree, path: Path)
    requires Ready(p) && RestorePlan(env, p, source, tree).Ok? && !NoStale(env, p, tree) && path in Order(p)
    ensures var tree' := Replay(tree, RestorePlan(env, p, source, tree).value);
            && source.Usable? && path in tree && path in tree'
            && (tree'[path] == tree[path] || RendererOf(env, p, source.blobs, tree)(path) == Some(tree'[path]))
  {
    RestoreCases(env, p, source, tree);
    RestoreFacts(env, p, source, tree);
    ReadyDistinct(p);
    var r := RendererOf(env, p, source.blobs, tree);
    RestoreAllFacts(Order(p), CensusOf(env, p, tree), KnownTo(env, source.log, tree), r);
    var w := RestorePlan(env, p, source, tree).value;
    if path in TargetsOf(w) {
      var i :| 0 <= i < |w| && TargetsOf(w)[i] == path;
      ReplayAt(tree, w, i);
    } else {
      forall i | 0 <= i < |w| ensures w[i].path != path { assert TargetsOf(w)[i] == w[i].path; }
      ReplayElsewhere(tree, w, path);
    }
  }

  /** A restored tree is entirely at base, so planning finds it clean. */
  lemma {:induction false} RestoredIsClean(env: Env, p: Patches, source: RestoreSource, tree: Tree)
    requires Ready(p) && Disjoint(p) && RestorePlan(env, p, source, tree).Ok? && !NoStale(env, p, tree)
    requires source.Usable?
    requires BehavesIn(env, p, Flatten(p.specs), tree)
    requires BehavesRestored(env, p, Flatten(p.specs), RendererOf(env, p, source.blobs, tree))
    ensures var tree' := Replay(tree, RestorePlan(env, p, source, tree).value);
            EveryClean(JudgeOf(env, p, tree'), Flatten(p.specs)) && RetiredAtBase(env, p, tree')
  {
    var tree', files := Replay(tree, RestorePlan(env, p, source, tree).value), Flatten(p.specs);
    RestoredTree(env, p, source, tree);
    ReadyOrder(p);
    forall path | path in p.manifest ensures AtDigests(env, p, tree', path, false) {
      assert path in Order(p);
    }
    forall i | 0 <= i < |files| && files[i].path in tree' && files[i].path in p.manifest
      ensures Behaves(env, files[i], p.manifest[files[i].path], tree'[files[i].path])
    {
      RestoredContents(env, p, source, tree, files[i].path);
    }
    BehavedJudgement(env, p, tree');
  }

  /** When a run is accepted: Git agrees, every target exists, and the tree is entirely clean,
      entirely applied, or stale in a way that can be restored completely. */
  lemma {:induction false} RunIsAcceptedWhen(env: Env, p: Patches, view: GitView, tree: Tree)
    requires Ready(p) && Disjoint(p) && BehavesIn(env, p, Flatten(p.specs), tree)
    requires view.source.Usable? ==>
               BehavesRestored(env, p, Flatten(p.specs), RendererOf(env, p, view.source.blobs, tree))
    ensures RunOf(env, p, view, tree).outcome == Accepted
            <==> && view.checkoutOk && Present(p, tree)
                 && if NoStale(env, p, tree) then AllAt(env, p, tree, false) || AllAt(env, p, tree, true)
                    else Restorable(env, p, view.source, tree)
  {
    RestoreCases(env, p, view.source, tree);
    if RestorePlan(env, p, view.source, tree).Ok? {
      var tree' := Replay(tree, RestorePlan(env, p, view.source, tree).value);
      ApplyPlanCases(env, p, view.checkoutOk, tree');
      if NoStale(env, p, tree) {
        NoStaleRetired(env, p, tree);
        BehavedJudgement(env, p, tree);
      } else {
        RestoredIsClean(env, p, view.source, tree);
      }
    }
  }

  // ------------------------------------- patches of one canonical base text

  /** A patch of one file as it is shipped: its manifest entry holds the hashes of the canonical base
      text and of that text patched; its hunks are well numbered, match the base, do not already show
      their result there, and do not all match the result. */
  predicate Shipped(hash: string -> Digest, f: FilePatch, e: Expectation, baseText: string, applied: seq<string>)
  {
    var text, edits := Parse(baseText), EditsOf(f.hunks);
    && CR !in baseText && CleanLines(text.lines)
    && WellNumbered(f.hunks, text.lines)
    && Edits.AllOldMatch(text.lines, edits) && !Edits.AllNewMatch(text.lines, edits)
    && Edits.ApplyFrom(text.lines, 0, edits) == Some(applied)
    && CleanLines(applied) && applied != [] && (text.finalNewline || Last(applied) != "")
    && !Edits.AllOldMatch(applied, edits)
    && e == Expectation(hash(baseText), hash(Render(text, applied)))
    && e.base != e.applied
  }

  /** The digest of a file is the hash of its canonical content. */
  ghost predicate CanonicalDigest(env: Env, hash: string -> Digest)
  {
    forall c: string :: env.digest(c) == hash(Canonical(c))
  }

  /** A file at the hash of one of the two texts is that text, in UTF-8 and without a lone CR. */
  predicate Readable(env: Env, hash: string -> Digest, contents: string, baseText: string, appliedText: string)
  {
    hash(Canonical(contents)) == hash(baseText) || hash(Canonical(contents)) == hash(appliedText) ==>
      && NoLoneCR(contents) && env.utf8(contents)
      && (hash(Canonical(contents)) == hash(baseText) ==> Canonical(contents) == baseText)
      && (hash(Canonical(contents)) == hash(appliedText) ==> Canonical(contents) == appliedText)
  }

  lemma {:induction false} NewlineOfLF(t: string)
    requires CR !in t
    ensures Parse(t).newline == [LF]
  {
    assert forall i :: 0 <= i < |t| ==> t[i] in t;
  }

  /** At the base text, an LF or a CRLF checkout alike, the file is clean; it is rendered in its own
      newline style, and the rendering is at the applied digest. */
  lemma {:induction false} ShippedClean(
      env: Env, hash: string -> Digest, f: FilePatch, e: Expectation, baseText: string, applied: seq<string>, contents: string)
    requires Shipped(hash, f, e, baseText, applied) && CanonicalDigest(env, hash)
    requires NoLoneCR(contents) && env.utf8(contents) && Canonical(contents) == baseText
    ensures Examine(env, f.hunks, e, contents) == Clean(Render(Parse(contents), applied))
  {
    var text, own := Parse(baseText), Parse(contents);
    ParseOfCanonical(contents);
    NewlineOfLF(baseText);
    CanonicalOfRender(own, applied);
    assert own.(newline := [LF]) == text;
    assert env.digest(contents) == hash(baseText);
    assert env.digest(Render(own, applied)) == hash(Canonical(Render(own, applied)));
  }

  /** At the patched text the file is applied. */
  lemma {:induction false} ShippedApplied(
      env: Env, hash: string -> Digest, f: FilePatch, e: Expectation, baseText: string, applied: seq<string>, contents: string)
    requires Shipped(hash, f, e, baseText, applied) && CanonicalDigest(env, hash)
    requires NoLoneCR(contents) && env.utf8(contents) && Canonical(contents) == Render(Parse(baseText), applied)
    ensures Examine(env, f.hunks, e, contents) == Applied
  {
    var text := Parse(baseText);
    ParseOfCanonical(contents);
    NewlineOfLF(baseText);
    ParseOfRender(text, applied);
    ReversedPatchRestores(text, f.hunks);
    assert env.digest(contents) == hash(Render(text, applied));
  }

  /** So a shipped patch behaves on every readable file, and `RunIsAcceptedWhen` applies to it. */
  lemma {:induction false} ShippedBehaves(
      env: Env, hash: string -> Digest, f: FilePatch, e: Expectation, baseText: string, applied: seq<string>, contents: string)
    requires Shipped(hash, f, e, baseText, applied) && CanonicalDigest(env, hash)
    requires Readable(env, hash, contents, baseText, Render(Parse(baseText), applied))
    ensures Behaves(env, f, e, contents)
  {
    assert env.digest(contents) == hash(Canonical(contents));
    if env.digest(contents) == e.base {
      ShippedClean(env, hash, f, e, baseText, applied, contents);
    } else if env.digest(contents) == e.applied {
      ShippedApplied(env, hash, f, e, baseText, applied, contents);
    }
  }

  lemma {:induction false} RenderedHasNoLoneCR(text: SourceText, lines: seq<string>)
    requires CleanLines(lines) && lines != []
    requires text.newline == [LF] || text.newline == [CR, LF]
    ensures NoLoneCR(Render(text, lines))
  {
    RenderAsJoin(text, lines);
    JoinHasNoLoneCR(if text.finalNewline then lines + [""] else lines, text.newline);
  }

  lemma {:induction false} JoinHasNoLoneCR(lines: seq<string>, newline: string)
    requires CleanLines(lines)
    requires newline == [LF] || newline == [CR, LF]
    ensures NoLoneCR(Join(lines, newline))
  {
    if |lines| == 1 {
      assert CleanLine(lines[0]);
    } else if |lines| > 1 {
      JoinHasNoLoneCR(lines[1..], newline);
      var a, b := lines[0], Join(lines[1..], newline);
      var s := a + newline + b;
      assert CleanLine(a);
      forall i | 0 <= i < |s| && s[i] == CR ensures i + 1 < |s| && s[i + 1] == LF {
        if i >= |a| + |newline| {
          var j := i - |a| - |newline|;
          assert b[j] == CR && b[j + 1] == LF;
        }
      }
    }
  }

  /** What a clean run writes is recognised as applied by the next run: the preparer is idempotent on
      shipped patches. */
  lemma {:induction false} ShippedRenderingIsApplied(
      env: Env, hash: string -> Digest, f: FilePatch, e: Expectation, baseText: string, applied: seq<string>, contents: string)
    requires Shipped(hash, f, e, baseText, applied) && CanonicalDigest(env, hash)
    requires NoLoneCR(contents) && env.utf8(contents) && Canonical(contents) == baseText
    requires env.utf8(Render(Parse(contents), applied))
    ensures Examine(env, f.hunks, e, Render(Parse(contents), applied)) == Applied
  {
    var own := Parse(contents);
    RenderedHasNoLoneCR(own, applied);
    ParseOfCanonical(contents);
    NewlineOfLF(baseText);
    CanonicalOfRender(own, applied);
    assert own.(newline := [LF]) == Parse(baseText);
    ShippedApplied(env, hash, f, e, baseText, applied, Render(own, applied));
  }
}
