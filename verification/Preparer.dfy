/**
 The parts of build_support/vendor_patches.rs joined: what the patch parser and the digest hand to a
 run is what the run assumes of them.
 */
module Preparer {
  import opened SourceText
  import opened Hunks
  import PatchTokens
  import PatchText
  import opened Planning
  import opened Restoring
  import opened Acceptance
  import Padding
  import Sha256

  // ------------------------------------------------------------------ paths

  // The run knows a file by a string; the source compares paths by their components.  `KeyOf` is the
  // string that stands for all spellings of a path.

  function Slashed(names: seq<string>): (s: string)
  {
    if names == [] then "" else if |names| == 1 then names[0] else names[0] + ['/'] + Slashed(names[1..])
  }

  function KeyOf(path: string): (key: Path) { Slashed(PatchTokens.Components(path)) }

  predicate Names(names: seq<string>) { forall i :: 0 <= i < |names| ==> names[i] != "" && '/' !in names[i] }

  lemma {:induction false} SplitHasNoSlash(s: string)
    ensures forall i :: 0 <= i < |PatchTokens.SplitAt(s, '/')| ==> '/' !in PatchTokens.SplitAt(s, '/')[i]
  {
    if s != "" {
      SplitHasNoSlash(s[1..]);
    }
  }

  lemma {:induction false} DroppedAreNames(names: seq<string>)
    requires forall i :: 0 <= i < |names| ==> '/' !in names[i]
    ensures Names(PatchTokens.DropDots(names))
  {
    if names != [] {
      DroppedAreNames(names[1..]);
    }
  }

  lemma {:induction false} ComponentsAreNames(path: string)
    ensures Names(PatchTokens.Components(path))
  {
    var names := PatchTokens.SplitAt(path, '/');
    SplitHasNoSlash(path);
    DroppedAreNames(names);
    DroppedAreNames(names[1..]);
  }

  lemma {:induction false} SplitName(name: string)
    requires '/' !in name
    ensures PatchTokens.SplitAt(name, '/') == [name]
  {
    if name != "" {
      SplitName(name[1..]);
      assert name == [name[0]] + name[1..];
    }
  }

  lemma {:induction false} SplitFirst(name: string, rest: string)
    requires '/' !in name
    ensures PatchTokens.SplitAt(name + ['/'] + rest, '/') == [name] + PatchTokens.SplitAt(rest, '/')
  {
    var s := name + ['/'] + rest;
    if name == "" {
      assert s[1..] == rest;
    } else {
      assert s[1..] == name[1..] + ['/'] + rest;
      SplitFirst(name[1..], rest);
      assert name == [s[0]] + name[1..];
    }
  }

  lemma {:induction false} SplitSlashed(names: seq<string>)
    requires names != [] && Names(names)
    ensures PatchTokens.SplitAt(Slashed(names), '/') == names
  {
    if |names| == 1 {
      SplitName(names[0]);
    } else {
      SplitSlashed(names[1..]);
      SplitFirst(names[0], Slashed(names[1..]));
      assert names == [names[0]] + names[1..];
    }
  }

  lemma {:induction false} SlashedIsInjective(a: seq<string>, b: seq<string>)
    requires Names(a) && Names(b) && Slashed(a) == Slashed(b)
    ensures a == b
  {
    if a != [] && b != [] {
      SplitSlashed(a);
      SplitSlashed(b);
    } else {
      assert a != [] ==> Slashed(a) != "";
      assert b != [] ==> Slashed(b) != "";
    }
  }

  /** Two paths have one key exactly when the source takes them for the same path. */
  lemma {:induction false} KeysAreComponents(a: string, b: string)
    ensures KeyOf(a) == KeyOf(b) <==> PatchTokens.Components(a) == PatchTokens.Components(b)
  {
    ComponentsAreNames(a);
    ComponentsAreNames(b);
    if KeyOf(a) == KeyOf(b) {
      SlashedIsInjective(PatchTokens.Components(a), PatchTokens.Components(b));
    }
  }

  // ---------------------------------------------------------- parsed patches

  function Keyed(f: FilePatch): (r: FilePatch) { f.(path := KeyOf(f.path)) }

  function KeyedAll(files: seq<FilePatch>): (r: seq<FilePatch>)
    ensures |r| == |files| && forall i :: 0 <= i < |r| ==> r[i] == Keyed(files[i])
  {
    seq(|files|, i requires 0 <= i < |files| => Keyed(files[i]))
  }

  /** Every patch file of the directory was parsed, into the specs of the run. */
  predicate Parsed(texts: seq<string>, specs: seq<seq<FilePatch>>)
  {
    |texts| == |specs| && forall i :: 0 <= i < |texts| ==> ParsedTo(texts[i], specs[i])
  }

  predicate ParsedTo(text: string, files: seq<FilePatch>)
  {
    var r := PatchText.ReadPatch(text);
    r.Ok? && files == KeyedAll(r.value)
  }

  lemma {:induction false} ParsedIsCounted(text: string, files: seq<FilePatch>)
    requires ParsedTo(text, files)
    ensures files != [] && forall i :: 0 <= i < |files| ==> AllCounted(files[i].hunks)
  {
    PatchText.ReadShape(text);
    var parsed := PatchText.ReadPatch(text).value;
    forall i | 0 <= i < |files| ensures AllCounted(files[i].hunks) {
      assert PatchText.GoodFile(parsed[i]);
    }
  }

  predicate CountedFiles(files: seq<FilePatch>) { forall i :: 0 <= i < |files| ==> AllCounted(files[i].hunks) }

  lemma {:induction false} FlattenIsCounted(specs: seq<seq<FilePatch>>)
    requires forall i :: 0 <= i < |specs| ==> CountedFiles(specs[i])
    ensures CountedFiles(Flatten(specs))
  {
    if specs != [] {
      assert forall i :: 0 <= i < |specs[1..]| ==> specs[1..][i] == specs[i + 1];
      FlattenIsCounted(specs[1..]);
      assert CountedFiles(specs[0]);
    }
  }

  /** Whatever the patch files say, if they parse, and with the manifests listed in their key order, the
      run gets what it assumes. */
  lemma {:induction false} ParsedIsValid(texts: seq<string>, p: Patches)
    requires Parsed(texts, p.specs)
    requires Enumerates(p.manifestOrder, p.manifest.Keys) && Enumerates(p.retiredOrder, p.retired.Keys)
    ensures ValidPatches(p)
  {
    forall i | 0 <= i < |p.specs| ensures p.specs[i] != [] && CountedFiles(p.specs[i]) {
      assert ParsedTo(texts[i], p.specs[i]);
      ParsedIsCounted(texts[i], p.specs[i]);
    }
    FlattenIsCounted(p.specs);
  }

  // ----------------------------------------------------------------- digests

  function ByteOf(c: char): (b: Padding.Byte) { c as int % 256 }

  /** The bytes of a text in which a char stands for one byte. */
  function BytesOf(s: string): (r: seq<Padding.Byte>)
    ensures |r| == |s| && forall i :: 0 <= i < |r| ==> r[i] == ByteOf(s[i])
  {
    seq(|s|, i requires 0 <= i < |s| => ByteOf(s[i]))
  }

  function Sha(s: string): (d: Digest) { Sha256.Hash(Sha256.OPS, Sha256.K, Sha256.INITIAL, BytesOf(s)) }

  function ShaDigest(contents: string): (d: Digest) { Sha(Canonical(contents)) }

  /** `canonical_digest`, the loop over the bytes and the hash after it. */
  method DigestOf(contents: string) returns (digest: seq<Padding.Byte>)
    ensures digest == ShaDigest(contents) && |digest| == 32
  {
    var canonical := CanonicalBytes(contents);
    digest := Sha256.Sha256(BytesOf(canonical));
  }

  /** With this digest, a run's digest is the hash of the canonical content. */
  lemma {:induction false} ShaIsCanonical(env: Env)
    requires env.digest == ShaDigest
    ensures CanonicalDigest(env, Sha)
  {
    forall c: string ensures env.digest(c) == Sha(Canonical(c)) {
      assert env.digest(c) == ShaDigest(c);
    }
  }

}
