/**
 The restoring half of a preparer run (`restore_build_written_files` and
 `match_manifest_history` of build_support/vendor_patches.rs), and the run as a
 whole, given by the sequence of atomic replacements it performs.  An
 interrupted run is a prefix of that sequence.
 */
module Restoring {
  import opened Options
  import opened SourceText
  import opened Hunks
  import opened Planning

  /** A retired file is expected at its base and nowhere else. */
  function Expect(p: Patches, path: Path): (e: Expectation)
    requires path in p.manifest || path in p.retired
  {
    if path in p.manifest then p.manifest[path] else Expectation(p.retired[path], p.retired[path])
  }

  /** The order in which restoration reads the targets: manifest entries, then retired entries. */
  function Order(p: Patches): (r: seq<Path>) { p.manifestOrder + p.retiredOrder }

  ghost predicate Enumerates(order: seq<Path>, keys: set<Path>)
  {
    Distinct(order) && forall x :: x in order <==> x in keys
  }

  /** What reading the patch directory guarantees of its result. */
  ghost predicate ValidPatches(p: Patches)
  {
    && Enumerates(p.manifestOrder, p.manifest.Keys)
    && Enumerates(p.retiredOrder, p.retired.Keys)
    && NoEmptySpec(p.specs)
    && forall i :: 0 <= i < |Flatten(p.specs)| ==> AllCounted(Flatten(p.specs)[i].hunks)
  }

  datatype Standing = AtBase | AtApplied | Stale

  type Census = Path -> Standing

  function StandingOf(env: Env, e: Expectation, contents: string): (s: Standing)
  {
    var digest := env.digest(contents);
    if digest == e.base then AtBase else if digest == e.applied then AtApplied else Stale
  }

  function CensusOf(env: Env, p: Patches, tree: Tree): (c: Census)
  {
    path =>
      if (path in p.manifest || path in p.retired) && path in tree
      then StandingOf(env, Expect(p, path), tree[path]) else Stale
  }

  /** The paths of one standing, in order. */
  function Select(order: seq<Path>, c: Census, want: Standing): (r: seq<Path>)
  {
    if order == [] then []
    else if c(order[0]) == want then [order[0]] + Select(order[1..], c, want)
    else Select(order[1..], c, want)
  }

  /** The revisions that `git log --max-count` lists. */
  function Searched(log: seq<Revision>): (r: seq<Revision>)
  {
    if |log| <= HISTORY_LIMIT then log else log[..HISTORY_LIMIT]
  }

  predicate Explains(rev: Revision, path: Path, digest: Digest)
  {
    rev.manifest.Some? && path in rev.manifest.value && rev.manifest.value[path].applied == digest
  }

  /** The newest searched revision whose applied digest for the path is `digest`. */
  function Origin(log: seq<Revision>, path: Path, digest: Digest): (r: Option<string>)
  {
    if log == [] then None
    else if Explains(log[0], path, digest) then Some(log[0].commit)
    else Origin(log[1..], path, digest)
  }

  predicate Identified(env: Env, log: seq<Revision>, tree: Tree, path: Path)
  {
    path in tree && Origin(Searched(log), path, env.digest(tree[path])).Some?
  }

  /** The pinned base blob in the newline style of the file it replaces, if it is authentic. */
  function Restored(env: Env, blobs: map<Path, string>, path: Path, base: Digest, crlf: bool): (r: Option<string>)
  {
    if path !in blobs || !env.utf8(blobs[path]) then None
    else
      var text := Parse(blobs[path]).(newline := if crlf then [CR, LF] else [LF]);
      var rendered := Render(text, text.lines);
      if env.digest(rendered) == base then Some(rendered) else None
  }

  type Renderer = Path -> Option<string>

  function RendererOf(env: Env, p: Patches, blobs: map<Path, string>, tree: Tree): (r: Renderer)
  {
    path =>
      if (path in p.manifest || path in p.retired) && path in tree
      then Restored(env, blobs, path, Expect(p, path).base, HasCrlf(tree[path])) else None
  }

  function RestoreWrites(r: Renderer, paths: seq<Path>): (w: seq<Write>)
    requires forall i :: 0 <= i < |paths| ==> r(paths[i]).Some?
    ensures |w| == |paths|
    ensures forall i :: 0 <= i < |w| ==> w[i] == Write(paths[i], r(paths[i]).value)
  {
    seq(|paths|, i requires 0 <= i < |paths| => Write(paths[i], r(paths[i]).value))
  }

  /** Every file to restore: the stale ones first, then those at the current applied digest. */
  function ToRestore(order: seq<Path>, c: Census): (r: seq<Path>)
  {
    Select(order, c, Stale) + Select(order, c, AtApplied)
  }

  /** With usable Git metadata: all or nothing. */
  function RestoreAll(order: seq<Path>, c: Census, known: Path -> bool, r: Renderer): (w: Result<seq<Write>, Reason>)
  {
    var stale, paths := Select(order, c, Stale), ToRestore(order, c);
    if exists i :: 0 <= i < |stale| && !known(stale[i]) then Err(Unidentified)
    else if exists i :: 0 <= i < |paths| && r(paths[i]).None? then Err(BadBaseBlob)
    else Ok(RestoreWrites(r, paths))
  }

  function KnownTo(env: Env, log: seq<Revision>, tree: Tree): (k: Path -> bool)
  {
    path => Identified(env, log, tree, path)
  }

  predicate Present(p: Patches, tree: Tree) { forall path :: path in Order(p) ==> path in tree }

  function RestorePlan(env: Env, p: Patches, source: RestoreSource, tree: Tree): (r: Result<seq<Write>, Reason>)
  {
    var c := CensusOf(env, p, tree);
    if !Present(p, tree) then Err(MissingFile)
    else if Select(Order(p), c, Stale) == [] then Ok([])
    else
      match source
      case Refused => Err(CheckoutRefused)
      case Unusable => Err(NoMetadata)
      case Usable(log, blobs) =>
        RestoreAll(Order(p), c, KnownTo(env, log, tree), RendererOf(env, p, blobs, tree))
  }

  // ------------------------------------------------------------- the run

  function Replay(tree: Tree, writes: seq<Write>): (r: Tree)
    decreases |writes|
  {
    if writes == [] then tree
    else Replay(tree[writes[0].path := writes[0].contents], writes[1..])
  }

  function Listed(files: seq<FilePatch>): (r: set<Path>) { set i | 0 <= i < |files| :: files[i].path }

  /** `validate_paths` and the check for an empty patch directory. */
  function Validate(p: Patches): (r: Outcome)
  {
    if p.specs == [] then Rejected(NoPatches)
    else if Listed(Flatten(p.specs)) != p.manifest.Keys then Rejected(ManifestMismatch)
    else if !(p.manifest.Keys !! p.retired.Keys) then Rejected(ManifestOverlap)
    else Accepted
  }

  /** One run of `apply_directory_with_base`. */
  function RunOf(env: Env, p: Patches, view: GitView, tree: Tree): (r: Run)
  {
    if Validate(p).Rejected? then Run(Validate(p), [], [])
    else
      match RestorePlan(env, p, view.source, tree)
      case Err(e) => Run(Rejected(e), [], [])
      case Ok(restores) => RunAfter(restores, ApplyPlan(env, p, view.checkoutOk, Replay(tree, restores)))
  }

  function RunAfter(restores: seq<Write>, plan: Result<seq<Write>, Reason>): (r: Run)
  {
    match plan
    case Err(e) => Run(Rejected(e), restores, [])
    case Ok(applies) => Run(Accepted, restores, applies)
  }

  /** The tree after the first `k` replacements of a run. */
  function After(tree: Tree, run: Run, k: nat): (r: Tree)
  {
    if k < |run.restores| then Replay(tree, run.restores[..k])
    else
      var j := k - |run.restores|;
      Replay(Replay(tree, run.restores), if j < |run.applies| then run.applies[..j] else run.applies)
  }

  /** The tree a complete run leaves. */
  function Final(tree: Tree, run: Run): (r: Tree) { Replay(Replay(tree, run.restores), run.applies) }
}
