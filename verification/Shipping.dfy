/**
 Whole runs of the vendor patch preparer on the patch sets that a repository ships: every manifest
 entry was computed from a canonical base text and that text patched, and files are LF or CRLF
 checkouts.  For these, acceptance and repetition need no premise about verdicts.
 */
module Shipping {
  import opened SourceText
  import opened Hunks
  import opened Planning
  import opened Restoring
  import opened Runs
  import opened Acceptance
  import opened Interrupted
  import opened Repeated

  /** The canonical base text of every target and its lines once patched. */
  datatype Texts = Texts(base: Path -> string, patched: Path -> seq<string>)

  function AppliedText(t: Texts, path: Path): (r: string) { Render(Parse(t.base(path)), t.patched(path)) }

  /** Every file patch is shipped, and its patched text is UTF-8. */
  predicate AllShipped(env: Env, hash: string -> Digest, p: Patches, t: Texts)
  {
    forall i :: 0 <= i < |Flatten(p.specs)| ==>
      var f := Flatten(p.specs)[i];
      && f.path in p.manifest && Shipped(hash, f, p.manifest[f.path], t.base(f.path), t.patched(f.path))
      && env.utf8(AppliedText(t, f.path))
  }

  predicate ReadableAt(env: Env, hash: string -> Digest, t: Texts, path: Path, contents: string)
  {
    Readable(env, hash, contents, t.base(path), AppliedText(t, path))
  }

  predicate ReadableTree(env: Env, hash: string -> Digest, p: Patches, t: Texts, tree: Tree)
  {
    forall path :: path in p.manifest && path in tree ==> ReadableAt(env, hash, t, path, tree[path])
  }

  /** The base blobs hold no lone CR, and one at the hash of a text is that text. */
  predicate ReadableBlobs(env: Env, hash: string -> Digest, p: Patches, t: Texts, source: RestoreSource)
  {
    source.Usable? ==> forall path :: path in p.manifest && path in source.blobs ==>
      NoLoneCR(source.blobs[path]) && ReadableAt(env, hash, t, path, source.blobs[path])
  }

  /** Newlines are ASCII, so UTF-8 depends on the canonical content alone. */
  ghost predicate PlainNewlines(env: Env)
  {
    forall a, b :: Canonical(a) == Canonical(b) ==> env.utf8(a) == env.utf8(b)
  }

  /** All that is known of a shipped patch set, the files and the blobs. */
  ghost predicate Shipment(env: Env, hash: string -> Digest, p: Patches, t: Texts, source: RestoreSource, tree: Tree)
  {
    && CanonicalDigest(env, hash) && PlainNewlines(env) && AllShipped(env, hash, p, t)
    && ReadableTree(env, hash, p, t, tree) && ReadableBlobs(env, hash, p, t, source)
  }

  // --------------------------------------------------------- restored files

  /** A base blob in another newline style has the same canonical content and no lone CR. */
  lemma {:induction false} RestyledBlob(blob: string, newline: string)
    requires NoLoneCR(blob) && (newline == [LF] || newline == [CR, LF])
    ensures var text := Parse(blob).(newline := newline);
            var rendered := Render(text, text.lines);
            NoLoneCR(rendered) && Canonical(rendered) == Canonical(blob)
  {
    var own := Parse(blob);
    var text := own.(newline := newline);
    ParseOfCanonical(blob);
    if text.lines == [] {
      EmptyLines(blob);
    } else {
      RenderedHasNoLoneCR(text, text.lines);
      CanonicalOfRender(text, text.lines);
      CanonicalOfRender(own, text.lines);
      assert text.(newline := [LF]) == own.(newline := [LF]);
      NoLoneCREnd(blob);
      RenderKeepsCanonical(blob);
    }
  }

  lemma {:induction false} NoLoneCREnd(t: string)
    requires NoLoneCR(t)
    ensures !EndsCR(t)
  {
  }

  lemma {:induction false} EmptyLines(t: string)
    requires Parse(t).lines == []
    ensures t == "" && !Parse(t).finalNewline
  {
    SplitJoin(t);
    SegmentFacts(Split(t));
  }

  /** What restoration writes for a shipped target is readable. */
  lemma {:induction false} RestoredIsReadable(
      env: Env, hash: string -> Digest, t: Texts, blobs: map<Path, string>, path: Path, base: Digest, crlf: bool)
    requires CanonicalDigest(env, hash) && PlainNewlines(env) && Restored(env, blobs, path, base, crlf).Some?
    requires NoLoneCR(blobs[path]) && ReadableAt(env, hash, t, path, blobs[path])
    ensures ReadableAt(env, hash, t, path, Restored(env, blobs, path, base, crlf).value)
  {
    RestyledBlob(blobs[path], if crlf then [CR, LF] else [LF]);
  }

  lemma {:induction false} RenderedIsReadable(
      env: Env, hash: string -> Digest, p: Patches, t: Texts, source: RestoreSource, tree: Tree, path: Path)
    requires Shipment(env, hash, p, t, source, tree) && source.Usable? && path in p.manifest
    requires RendererOf(env, p, source.blobs, tree)(path).Some?
    ensures ReadableAt(env, hash, t, path, RendererOf(env, p, source.blobs, tree)(path).value)
  {
    RestoredIsReadable(env, hash, t, source.blobs, path, Expect(p, path).base, HasCrlf(tree[path]));
  }

  /** The tree that planning sees is readable, restored or not. */
  lemma {:induction false} PlannedIsReadable(
      env: Env, hash: string -> Digest, p: Patches, t: Texts, source: RestoreSource, tree: Tree)
    requires Shipment(env, hash, p, t, source, tree) && Ready(p) && RestorePlan(env, p, source, tree).Ok?
    ensures ReadableTree(env, hash, p, t, Replay(tree, RestorePlan(env, p, source, tree).value))
  {
    var seen := Replay(tree, RestorePlan(env, p, source, tree).value);
    RestoredTree(env, p, source, tree);
    if !NoStale(env, p, tree) {
      ReadyOrder(p);
      forall path | path in p.manifest && path in seen
        ensures ReadableAt(env, hash, t, path, seen[path])
      {
        assert path in Order(p);
        RestoredContents(env, p, source, tree, path);
        if seen[path] != tree[path] {
          RenderedIsReadable(env, hash, p, t, source, tree, path);
        }
      }
    }
  }

  // ------------------------------------------------------------- acceptance

  lemma {:induction false} ShipmentBehaves(
      env: Env, hash: string -> Digest, p: Patches, t: Texts, source: RestoreSource, tree: Tree)
    requires Shipment(env, hash, p, t, source, tree)
    ensures BehavesIn(env, p, Flatten(p.specs), tree)
    ensures source.Usable? ==> BehavesRestored(env, p, Flatten(p.specs), RendererOf(env, p, source.blobs, tree))
  {
    var files := Flatten(p.specs);
    forall i | 0 <= i < |files|
      ensures files[i].path in tree ==> Behaves(env, files[i], p.manifest[files[i].path], tree[files[i].path])
      ensures source.Usable? && RendererOf(env, p, source.blobs, tree)(files[i].path).Some? ==>
                Behaves(env, files[i], p.manifest[files[i].path], RendererOf(env, p, source.blobs, tree)(files[i].path).value)
    {
      var f := files[i];
      var path, e := f.path, p.manifest[f.path];
      if path in tree {
        ShippedBehaves(env, hash, f, e, t.base(path), t.patched(path), tree[path]);
      }
      if source.Usable? && RendererOf(env, p, source.blobs, tree)(path).Some? {
        RenderedIsReadable(env, hash, p, t, source, tree, path);
        ShippedBehaves(env, hash, f, e, t.base(path), t.patched(path),
                       RendererOf(env, p, source.blobs, tree)(path).value);
      }
    }
  }

  /** A run of a shipped patch set is accepted if and only if the checkout passes, every target exists
      and the tree is entirely clean, entirely applied, or stale and completely restorable. */
  lemma {:induction false} ShippedRunIsAcceptedWhen(
      env: Env, hash: string -> Digest, p: Patches, t: Texts, view: GitView, tree: Tree)
    requires Ready(p) && Disjoint(p) && Shipment(env, hash, p, t, view.source, tree)
    ensures RunOf(env, p, view, tree).outcome == Accepted
            <==> && view.checkoutOk && Present(p, tree)
                 && if NoStale(env, p, tree) then AllAt(env, p, tree, false) || AllAt(env, p, tree, true)
                    else Restorable(env, p, view.source, tree)
  {
    ShipmentBehaves(env, hash, p, t, view.source, tree);
    RunIsAcceptedWhen(env, p, view, tree);
  }

  // ------------------------------------------------------------- repetition

  /** What a shipped patch makes of a clean file is recognised as applied. */
  lemma {:induction false} ShippedSettles(
      env: Env, hash: string -> Digest, t: Texts, f: FilePatch, e: Expectation, contents: string, rendered: string)
    requires CanonicalDigest(env, hash) && PlainNewlines(env) && env.utf8(AppliedText(t, f.path))
    requires Shipped(hash, f, e, t.base(f.path), t.patched(f.path)) && ReadableAt(env, hash, t, f.path, contents)
    requires Examine(env, f.hunks, e, contents) == Clean(rendered)
    ensures Settled(env, f.hunks, rendered)
  {
    var base, applied := t.base(f.path), t.patched(f.path);
    CleanIsBase(env, hash, t, f, e, contents);
    ShippedClean(env, hash, f, e, base, applied, contents);
    RenderedIsText(env, t, f.path, contents);
    ShippedRenderingIsApplied(env, hash, f, e, base, applied, contents);
    AppliedIsSettled(env, f.hunks, e, rendered);
  }

  lemma {:induction false} AppliedIsSettled(env: Env, hunks: seq<Hunk>, e: Expectation, contents: string)
    requires Examine(env, hunks, e, contents) == Applied
    ensures Settled(env, hunks, contents)
  {
  }

  lemma {:induction false} CleanIsBase(
      env: Env, hash: string -> Digest, t: Texts, f: FilePatch, e: Expectation, contents: string)
    requires CanonicalDigest(env, hash) && ReadableAt(env, hash, t, f.path, contents)
    requires Shipped(hash, f, e, t.base(f.path), t.patched(f.path)) && Examine(env, f.hunks, e, contents).Clean?
    ensures Canonical(contents) == t.base(f.path) && NoLoneCR(contents) && env.utf8(contents)
    ensures CR !in t.base(f.path) && CleanLines(t.patched(f.path)) && t.patched(f.path) != []
  {
    assert env.digest(contents) == hash(Canonical(contents));
    CleanIsAtBase(env, f.hunks, e, contents);
  }

  lemma {:induction false} CleanIsAtBase(env: Env, hunks: seq<Hunk>, e: Expectation, contents: string)
    requires Examine(env, hunks, e, contents).Clean?
    ensures env.digest(contents) == e.base
  {
  }

  lemma {:induction false} RenderedIsText(env: Env, t: Texts, path: Path, contents: string)
    requires PlainNewlines(env) && env.utf8(AppliedText(t, path)) && NoLoneCR(contents) && CR !in t.base(path)
    requires Canonical(contents) == t.base(path) && CleanLines(t.patched(path)) && t.patched(path) != []
    ensures env.utf8(Render(Parse(contents), t.patched(path)))
  {
    var own, text, lines := Parse(contents), Parse(t.base(path)), t.patched(path);
    ParseOfCanonical(contents);
    NewlineOfLF(t.base(path));
    CanonicalOfRender(own, lines);
    CanonicalOfRender(text, lines);
    assert own.(newline := [LF]) == text;
  }

  lemma {:induction false} ShippedFileSettles(
      env: Env, hash: string -> Digest, p: Patches, t: Texts, seen: Tree, i: nat, rendered: string)
    requires CanonicalDigest(env, hash) && PlainNewlines(env) && AllShipped(env, hash, p, t)
    requires ReadableTree(env, hash, p, t, seen) && i < |Flatten(p.specs)|
    requires var f := Flatten(p.specs)[i];
             f.path in seen && Examine(env, f.hunks, p.manifest[f.path], seen[f.path]) == Clean(rendered)
    ensures Settled(env, Flatten(p.specs)[i].hunks, rendered)
  {
    var f := Flatten(p.specs)[i];
    ShippedSettles(env, hash, t, f, p.manifest[f.path], seen[f.path], rendered);
  }

  /** Repeating an accepted run of a shipped patch set writes nothing and is accepted exactly when the
      checkout passes. */
  lemma {:induction false} ShippedRunRepeats(
      env: Env, hash: string -> Digest, p: Patches, t: Texts, view: GitView, tree: Tree, later: GitView)
    requires ValidPatches(p) && Shipment(env, hash, p, t, view.source, tree)
    requires RunOf(env, p, view, tree).outcome == Accepted
    ensures var again := RunOf(env, p, later, Final(tree, RunOf(env, p, view, tree)));
            && again.restores == [] && again.applies == []
            && (again.outcome == Accepted <==> later.checkoutOk)
  {
    RepeatedRun(env, p, view, tree, later);
    if RunOf(env, p, view, tree).applies != [] {
      ShippedFinalSettles(env, hash, p, t, view, tree);
      AcceptedRunPrepares(env, p, view, tree);
      PreparedRun(env, p, later, Final(tree, RunOf(env, p, view, tree)));
    }
  }

  lemma {:induction false} ShippedFinalSettles(
      env: Env, hash: string -> Digest, p: Patches, t: Texts, view: GitView, tree: Tree)
    requires ValidPatches(p) && Shipment(env, hash, p, t, view.source, tree)
    requires RunOf(env, p, view, tree).outcome == Accepted && RunOf(env, p, view, tree).applies != []
    ensures AllSettled(env, Flatten(p.specs), Final(tree, RunOf(env, p, view, tree)))
  {
    var run, files := RunOf(env, p, view, tree), Flatten(p.specs);
    SeenIsReadable(env, hash, p, t, view, tree);
    forall i | 0 <= i < |files|
      ensures files[i].path in Final(tree, run) && Settled(env, files[i].hunks, Final(tree, run)[files[i].path])
    {
      WrittenFile(env, p, view, tree, i);
      ShippedFileSettles(env, hash, p, t, Planned(tree, run), i, Final(tree, run)[files[i].path]);
    }
  }

  lemma {:induction false} SeenIsReadable(
      env: Env, hash: string -> Digest, p: Patches, t: Texts, view: GitView, tree: Tree)
    requires ValidPatches(p) && Shipment(env, hash, p, t, view.source, tree)
    requires RunOf(env, p, view, tree).outcome == Accepted
    ensures ReadableTree(env, hash, p, t, Planned(tree, RunOf(env, p, view, tree)))
  {
    PlannedIsReadable(env, hash, p, t, view.source, tree);
  }

}
