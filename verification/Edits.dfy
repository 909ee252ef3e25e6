/**
 Replacing line ranges of a file.  An edit says: the lines `before`, standing at
 line `oldStart`, become the lines `after`, standing at line `newStart` of the
 result.  `ApplyFrom` replaces one range after the other with a running offset,
 the way `apply_file` of build_support/vendor_patches.rs does; `Replaced` is the
 reference, the simultaneous replacement of all ranges.
 */
module Edits {
  import opened Options

  type Lines = seq<string>

  datatype Edit = Edit(oldStart: nat, before: Lines, newStart: nat, after: Lines)

  // The machine word of the source: line numbers are `usize`, the offset is `isize`.
  const USIZE := 0x1_0000_0000_0000_0000
  const ISIZE_MAX := 0x7fff_ffff_ffff_ffff

  /** `start - 1 + offset` in two's complement, refused when negative or out of range. */
  function AdjustedIndex(start: nat, offset: int): (r: Option<nat>)
  {
    if start == 0 then None
    else
      var base := if start - 1 <= ISIZE_MAX then start - 1 else start - 1 - USIZE;
      if 0 <= base + offset <= ISIZE_MAX then Some(base + offset) else None
  }

  predicate Matches(lines: Lines, start: nat, expected: Lines)
  {
    if start == 0 then expected == []
    else start - 1 + |expected| <= |lines| && lines[start - 1..start - 1 + |expected|] == expected
  }

  predicate AllOldMatch(lines: Lines, edits: seq<Edit>)
  {
    forall i :: 0 <= i < |edits| ==> Matches(lines, edits[i].oldStart, edits[i].before)
  }

  predicate AllNewMatch(lines: Lines, edits: seq<Edit>)
  {
    forall i :: 0 <= i < |edits| ==> Matches(lines, edits[i].newStart, edits[i].after)
  }

  function Splice(lines: Lines, index: nat, drop: nat, insert: Lines): (r: Lines)
    requires index + drop <= |lines|
  {
    lines[..index] + insert + lines[index + drop..]
  }

  /** What the loop of `apply_file` computes from here on. */
  function ApplyFrom(lines: Lines, offset: int, edits: seq<Edit>): (r: Option<Lines>)
    decreases |edits|
  {
    if edits == [] then Some(lines)
    else
      var e := edits[0];
      match AdjustedIndex(e.oldStart, offset)
      case None => None
      case Some(index) =>
        if !Matches(lines, index + 1, e.before) then None
        else ApplyFrom(Splice(lines, index, |e.before|, e.after), offset + |e.after| - |e.before|, edits[1..])
  }

  // -------------------------------------------------- simultaneous replacement

  /** The line index after the old range of an edit, and after its new range. */
  function OldNext(e: Edit): (r: int) { e.oldStart - 1 + |e.before| }

  function NewNext(e: Edit): (r: int) { e.newStart - 1 + |e.after| }

  /** Edits in ascending order that do not overlap, all at or after line index `from`. */
  predicate Ascending(edits: seq<Edit>, from: int)
    decreases |edits|
  {
    edits != [] ==>
      && from + 1 <= edits[0].oldStart <= ISIZE_MAX
      && Ascending(edits[1..], OldNext(edits[0]))
  }

  /** Every range lies within the source. */
  predicate Within(edits: seq<Edit>, source: Lines)
  {
    edits != [] ==> OldNext(edits[0]) <= |source| && Within(edits[1..], source)
  }

  function TotalNew(edits: seq<Edit>): (r: nat)
  {
    if edits == [] then 0 else |edits[0].after| + TotalNew(edits[1..])
  }

  function Growth(edits: seq<Edit>): (r: int)
  {
    if edits == [] then 0 else |edits[0].after| - |edits[0].before| + Growth(edits[1..])
  }

  /** `source[from..]` with every old range replaced at once by its new lines. */
  function Replaced(source: Lines, edits: seq<Edit>, from: nat): (r: Lines)
    requires from <= |source| && Ascending(edits, from) && Within(edits, source)
    decreases |edits|
  {
    if edits == [] then source[from..]
    else source[from..edits[0].oldStart - 1] + edits[0].after + Replaced(source, edits[1..], OldNext(edits[0]))
  }

  lemma {:induction false} FirstAndRest(source: Lines, edits: seq<Edit>)
    requires edits != []
    ensures AllOldMatch(source, edits)
            <==> Matches(source, edits[0].oldStart, edits[0].before) && AllOldMatch(source, edits[1..])
  {
    if AllOldMatch(source, edits[1..]) {
      forall i | 1 <= i < |edits| ensures Matches(source, edits[i].oldStart, edits[i].before) {
        assert edits[i] == edits[1..][i - 1];
      }
    }
  }

  lemma {:induction false} MatchingIsWithin(source: Lines, edits: seq<Edit>, from: nat)
    requires Ascending(edits, from) && AllOldMatch(source, edits)
    ensures Within(edits, source)
    decreases |edits|
  {
    if edits != [] {
      FirstAndRest(source, edits);
      MatchingIsWithin(source, edits[1..], OldNext(edits[0]));
    }
  }

  /** The lines that are final once the loop has passed edit `e`. */
  function Passed(done: Lines, source: Lines, from: nat, e: Edit): (r: Lines)
    requires from <= e.oldStart - 1 <= |source|
    ensures |r| == |done| + (e.oldStart - 1 - from) + |e.after|
  {
    done + source[from..e.oldStart - 1] + e.after
  }

  /** Slices of `source`, found again behind `done` in place of what was before `from`. */
  lemma {:induction false} ShiftedSlice(done: Lines, source: Lines, from: nat, a: nat, b: nat)
    requires from <= a <= b <= |source|
    ensures var lines, shift := done + source[from..], |done| - from;
            lines[a + shift..b + shift] == source[a..b]
  {
  }

  lemma {:induction false} ShiftedEnds(done: Lines, source: Lines, from: nat, a: nat)
    requires from <= a <= |source|
    ensures var lines, shift := done + source[from..], |done| - from;
            lines[..a + shift] == done + source[from..a] && lines[a + shift..] == source[a..]
  {
  }

  lemma {:induction false} StepMatches(done: Lines, source: Lines, from: nat, e: Edit)
    requires from <= |source| && from + 1 <= e.oldStart
    ensures var lines := done + source[from..];
            var index := e.oldStart - 1 + |done| - from;
            && (Matches(lines, index + 1, e.before) <==> Matches(source, e.oldStart, e.before))
            && (Matches(source, e.oldStart, e.before) ==>
                  Splice(lines, index, |e.before|, e.after) == Passed(done, source, from, e) + source[OldNext(e)..])
  {
    if OldNext(e) <= |source| {
      ShiftedSlice(done, source, from, e.oldStart - 1, OldNext(e));
      ShiftedEnds(done, source, from, e.oldStart - 1);
      ShiftedEnds(done, source, from, OldNext(e));
    }
  }

  /** One step of the running-offset loop: the edit matches the partly patched lines exactly when it
      matches the source, and the splice moves the boundary between patched and untouched lines. */
  lemma {:induction false} ApplyStep(done: Lines, source: Lines, from: nat, edits: seq<Edit>)
    requires edits != [] && from <= |source| <= ISIZE_MAX && Ascending(edits, from)
    requires |done| + |source| - from <= ISIZE_MAX
    ensures var e := edits[0];
            ApplyFrom(done + source[from..], |done| - from, edits)
            == if !Matches(source, e.oldStart, e.before) then None
               else var done' := Passed(done, source, from, e);
                    ApplyFrom(done' + source[OldNext(e)..], |done'| - OldNext(e), edits[1..])
  {
    StepMatches(done, source, from, edits[0]);
  }

  lemma {:induction false} ReplacedStep(done: Lines, source: Lines, from: nat, edits: seq<Edit>)
    requires edits != [] && from <= |source| && Ascending(edits, from) && Within(edits, source)
    ensures Passed(done, source, from, edits[0]) + Replaced(source, edits[1..], OldNext(edits[0]))
            == done + Replaced(source, edits, from)
  {
  }

  lemma {:induction false} ApplyOn(done: Lines, source: Lines, from: nat, edits: seq<Edit>)
    requires edits != [] && from <= |source| <= ISIZE_MAX && Ascending(edits, from)
    requires |done| + |source| - from <= ISIZE_MAX && Matches(source, edits[0].oldStart, edits[0].before)
    ensures var e := edits[0];
            var done' := Passed(done, source, from, e);
            ApplyFrom(done + source[from..], |done| - from, edits)
            == ApplyFrom(done' + source[OldNext(e)..], |done'| - OldNext(e), edits[1..])
  {
    ApplyStep(done, source, from, edits);
  }

  lemma {:induction false} ApplyMatching(done: Lines, source: Lines, from: nat, edits: seq<Edit>)
    requires from <= |source| <= ISIZE_MAX && Ascending(edits, from) && Within(edits, source)
    requires |done| + |source| - from + TotalNew(edits) <= ISIZE_MAX && AllOldMatch(source, edits)
    ensures ApplyFrom(done + source[from..], |done| - from, edits) == Some(done + Replaced(source, edits, from))
    decreases |edits|
  {
    if edits != [] {
      FirstAndRest(source, edits);
      ApplyOn(done, source, from, edits);
      ApplyMatching(Passed(done, source, from, edits[0]), source, OldNext(edits[0]), edits[1..]);
      ReplacedStep(done, source, from, edits);
    }
  }

  lemma {:induction false} ApplyFailing(done: Lines, source: Lines, from: nat, edits: seq<Edit>)
    requires from <= |source| <= ISIZE_MAX && Ascending(edits, from) && !AllOldMatch(source, edits)
    requires |done| + |source| - from + TotalNew(edits) <= ISIZE_MAX
    ensures ApplyFrom(done + source[from..], |done| - from, edits) == None
    decreases |edits|
  {
    var e := edits[0];
    if Matches(source, e.oldStart, e.before) {
      ApplyOn(done, source, from, edits);
      var done' := Passed(done, source, from, e);
      assert ApplyFrom(done' + source[OldNext(e)..], |done'| - OldNext(e), edits[1..]) == None by {
        FirstAndRest(source, edits);
        ApplyFailing(done', source, OldNext(e), edits[1..]);
      }
    } else {
      ApplyStep(done, source, from, edits);
    }
  }

  /** The loop, from any intermediate point, is the simultaneous replacement. */
  lemma {:induction false} ApplyFromIsReplaced(done: Lines, source: Lines, from: nat, edits: seq<Edit>)
    requires from <= |source| <= ISIZE_MAX && Ascending(edits, from)
    requires |done| + |source| - from + TotalNew(edits) <= ISIZE_MAX
    ensures AllOldMatch(source, edits) ==> Within(edits, source)
    ensures ApplyFrom(done + source[from..], |done| - from, edits)
            == if AllOldMatch(source, edits) then Some(done + Replaced(source, edits, from)) else None
  {
    if AllOldMatch(source, edits) {
      MatchingIsWithin(source, edits, from);
      ApplyMatching(done, source, from, edits);
    } else {
      ApplyFailing(done, source, from, edits);
    }
  }

  /** Ascending, disjoint edits are applied exactly when every one matches the source at its own
      old start, and the result then is the simultaneous replacement. */
  lemma {:induction false} ApplyIsReplaced(source: Lines, edits: seq<Edit>)
    requires Ascending(edits, 0) && |source| + TotalNew(edits) <= ISIZE_MAX
    ensures AllOldMatch(source, edits) ==> Within(edits, source)
    ensures ApplyFrom(source, 0, edits)
            == if AllOldMatch(source, edits) then Some(Replaced(source, edits, 0)) else None
  {
    assert source[0..] == source;
    EmptyFront(source);
    if AllOldMatch(source, edits) {
      MatchingIsWithin(source, edits, 0);
      ApplyMatching([], source, 0, edits);
      EmptyFront(Replaced(source, edits, 0));
    } else {
      ApplyFailing([], source, 0, edits);
    }
  }

  lemma {:induction false} EmptyFront(lines: Lines)
    ensures [] + lines == lines
  {
  }

  lemma {:induction false} ReplacedLength(source: Lines, edits: seq<Edit>, from: nat)
    requires from <= |source| && Ascending(edits, from) && Within(edits, source)
    ensures |Replaced(source, edits, from)| == |source| - from + Growth(edits)
    decreases |edits|
  {
    if edits != [] {
      ReplacedLength(source, edits[1..], OldNext(edits[0]));
    }
  }

  /** Edits in ascending order that do not overlap, whatever their line numbers. */
  predicate Ordered(edits: seq<Edit>, from: int)
    decreases |edits|
  {
    edits != [] ==> from + 1 <= edits[0].oldStart && Ordered(edits[1..], OldNext(edits[0]))
  }

  /** Edits that match a file are within the signed range: the bound in `Ascending` excludes nothing
      that planning hands to the loop, which it enters only when every edit matches. */
  lemma {:induction false} MatchingIsAscending(source: Lines, edits: seq<Edit>, from: int)
    requires Ordered(edits, from) && AllOldMatch(source, edits) && 0 <= from && |source| < ISIZE_MAX
    ensures Ascending(edits, from)
    decreases |edits|
  {
    if edits != [] {
      FirstAndRest(source, edits);
      MatchingIsAscending(source, edits[1..], OldNext(edits[0]));
    }
  }

  /** Where planning applies ordered edits, they are replaced all at once. */
  lemma {:induction false} PlannedIsReplaced(source: Lines, edits: seq<Edit>)
    requires Ordered(edits, 0) && AllOldMatch(source, edits)
    requires |source| < ISIZE_MAX && |source| + TotalNew(edits) <= ISIZE_MAX
    ensures Ascending(edits, 0) && Within(edits, source)
    ensures ApplyFrom(source, 0, edits) == Some(Replaced(source, edits, 0))
  {
    MatchingIsAscending(source, edits, 0);
    ApplyIsReplaced(source, edits);
  }

  /** Line numbers beyond `isize` wrap: without the bound in `Ascending`, an edit that does not match
      the source at its own line is applied at the start of the file.  Planning never gets there, since
      such an edit fails its test that every edit matches. */
  lemma {:induction false} WrappedStartApplies()
    ensures var source := ["a", "b"];
            var grow := Edit(1, ["a"], 1, ["a", "x", "y"]);
            var far := Edit(USIZE - 1, ["a"], 1, ["z"]);
            && !Matches(source, far.oldStart, far.before)
            && ApplyFrom(source, 0, [grow, far]) == Some(["z", "x", "y", "b"])
  {
    var grow := Edit(1, ["a"], 1, ["a", "x", "y"]);
    var far := Edit(USIZE - 1, ["a"], 1, ["z"]);
    var grown := Splice(["a", "b"], 0, 1, grow.after);
    assert grown == ["a", "x", "y", "b"];
    assert Splice(grown, 0, 1, far.after) == ["z", "x", "y", "b"];
    assert [grow, far][1..] == [far];
    assert ApplyFrom(grown, 2, [far]) == Some(["z", "x", "y", "b"]);
  }

  // ------------------------------------------------- insertions without context

  /** An edit without old lines is refused at line 0 and beyond the end, and otherwise puts its lines
      before the line it names. */
  lemma {:induction false} InsertionGoesBefore(source: Lines, e: Edit)
    requires e.before == [] && e.oldStart <= ISIZE_MAX
    ensures ApplyFrom(source, 0, [e])
            == if e.oldStart == 0 || e.oldStart > |source| + 1 then None
               else Some(source[..e.oldStart - 1] + e.after + source[e.oldStart - 1..])
  {
    assert [e][0] == e && [e][1..] == [];
    if 0 < e.oldStart <= |source| + 1 {
      assert source[e.oldStart - 1..e.oldStart - 1] == [];
    }
  }

  /** Diff tools name the line after which such lines belong.  The result is the one they mean if and
      only if all the lines equal that line. */
  lemma {:induction false} InsertionAsMeant(source: Lines, e: Edit)
    requires e.before == [] && 0 < e.oldStart <= |source| && e.oldStart <= ISIZE_MAX
    ensures ApplyFrom(source, 0, [e]) == Some(source[..e.oldStart] + e.after + source[e.oldStart..])
            <==> forall i :: 0 <= i < |e.after| ==> e.after[i] == source[e.oldStart - 1]
  {
    InsertionGoesBefore(source, e);
    var s := e.oldStart - 1;
    var x := source[s];
    var front, rest := source[..s], source[e.oldStart..];
    assert source[s..] == [x] + rest && source[..e.oldStart] == front + [x];
    assert front + e.after + ([x] + rest) == front + (e.after + [x]) + rest;
    assert front + [x] + e.after + rest == front + ([x] + e.after) + rest;
    BetweenIsUnique(front, e.after + [x], [x] + e.after, rest);
    Rotated(e.after, x);
  }

  lemma {:induction false} BetweenIsUnique(front: Lines, a: Lines, b: Lines, rest: Lines)
    requires |a| == |b|
    ensures front + a + rest == front + b + rest <==> a == b
  {
    assert (front + a + rest)[|front|..|front| + |a|] == a;
    assert (front + b + rest)[|front|..|front| + |b|] == b;
  }

  lemma {:induction false} Rotated(lines: Lines, x: string)
    ensures lines + [x] == [x] + lines <==> forall i :: 0 <= i < |lines| ==> lines[i] == x
  {
    if lines + [x] == [x] + lines {
      RotatedAt(lines, x, |lines|);
    }
    if forall i :: 0 <= i < |lines| ==> lines[i] == x {
      forall k | 0 <= k <= |lines| ensures (lines + [x])[k] == ([x] + lines)[k] {
      }
    }
  }

  lemma {:induction false} RotatedAt(lines: Lines, x: string, n: nat)
    requires lines + [x] == [x] + lines && n <= |lines|
    ensures forall i :: 0 <= i < n ==> lines[i] == x
  {
    if n > 0 {
      RotatedAt(lines, x, n - 1);
      assert lines[n - 1] == (lines + [x])[n - 1] == ([x] + lines)[n - 1];
    }
  }

  // ------------------------------------------------------- the reversed edits

  /** Every new start is its old start shifted by the growth of the edits before it. */
  predicate Renumbered(edits: seq<Edit>, shift: int)
    decreases |edits|
  {
    edits != [] ==>
      && edits[0].newStart == edits[0].oldStart + shift
      && Renumbered(edits[1..], shift + |edits[0].after| - |edits[0].before|)
  }

  function Invert(e: Edit): (r: Edit) { Edit(e.newStart, e.after, e.oldStart, e.before) }

  function InvertAll(edits: seq<Edit>): (r: seq<Edit>)
    ensures |r| == |edits|
    ensures forall i :: 0 <= i < |r| ==> r[i] == Invert(edits[i])
  {
    seq(|edits|, i requires 0 <= i < |edits| => Invert(edits[i]))
  }

  lemma {:induction false} InvertedMatchIsNewMatch(lines: Lines, edits: seq<Edit>)
    ensures AllOldMatch(lines, InvertAll(edits)) <==> AllNewMatch(lines, edits)
  {
    if AllOldMatch(lines, InvertAll(edits)) {
      forall i | 0 <= i < |edits| ensures Matches(lines, edits[i].newStart, edits[i].after) {
        assert Matches(lines, InvertAll(edits)[i].oldStart, InvertAll(edits)[i].before);
      }
    }
  }

  /** The lines `r` from index `at` on are the patched form of `source` from index `from` on. */
  predicate PatchedFrom(r: Lines, at: nat, source: Lines, from: nat, edits: seq<Edit>)
  {
    && from <= |source| && Ascending(edits, from) && Within(edits, source)
    && at <= |r| && r[at..] == Replaced(source, edits, from)
    && Renumbered(edits, at - from)
  }

  lemma {:induction false} CutThree(r: Lines, at: nat, a: Lines, b: Lines, c: Lines)
    requires at <= |r| && r[at..] == a + b + c
    ensures at + |a| + |b| <= |r|
    ensures r[at..at + |a|] == a
    ensures r[at + |a|..at + |a| + |b|] == b
    ensures r[at + |a| + |b|..] == c
  {
    assert r[at..][..|a|] == a;
    assert r[at..][|a|..|a| + |b|] == b;
    assert r[at..][|a| + |b|..] == c;
  }

  /** The patched lines, cut at the first edit. */
  lemma {:induction false} PatchedAtFirst(r: Lines, at: nat, source: Lines, from: nat, edits: seq<Edit>)
    requires edits != [] && PatchedFrom(r, at, source, from, edits)
    ensures var e := edits[0];
            && at < e.newStart
            && Matches(r, e.newStart, e.after)
            && r[at..e.newStart - 1] == source[from..e.oldStart - 1]
            && PatchedFrom(r, NewNext(e), source, OldNext(e), edits[1..])
  {
    var e := edits[0];
    CutThree(r, at, source[from..e.oldStart - 1], e.after, Replaced(source, edits[1..], OldNext(e)));
  }

  /** In the patched lines every edit's new lines stand at its new start. */
  lemma {:induction false} NewLinesStand(r: Lines, at: nat, source: Lines, from: nat, edits: seq<Edit>)
    requires PatchedFrom(r, at, source, from, edits)
    ensures AllNewMatch(r, edits)
    decreases |edits|
  {
    if edits != [] {
      PatchedAtFirst(r, at, source, from, edits);
      NewLinesStand(r, NewNext(edits[0]), source, OldNext(edits[0]), edits[1..]);
      forall i | 0 <= i < |edits| ensures Matches(r, edits[i].newStart, edits[i].after) {
        if i > 0 { assert edits[i] == edits[1..][i - 1]; }
      }
    }
  }

  /** Reversing one more edit in front. */
  lemma {:induction false} InvertFirst(r: Lines, at: nat, edits: seq<Edit>)
    requires edits != [] && at < edits[0].newStart <= ISIZE_MAX && NewNext(edits[0]) <= |r|
    requires Ascending(InvertAll(edits[1..]), NewNext(edits[0])) && Within(InvertAll(edits[1..]), r)
    ensures Ascending(InvertAll(edits), at) && Within(InvertAll(edits), r)
    ensures Replaced(r, InvertAll(edits), at)
            == r[at..edits[0].newStart - 1] + edits[0].before + Replaced(r, InvertAll(edits[1..]), NewNext(edits[0]))
  {
    assert InvertAll(edits)[0] == Invert(edits[0]) && InvertAll(edits)[1..] == InvertAll(edits[1..]);
  }

  lemma {:induction false} CutAtMatch(source: Lines, from: nat, e: Edit)
    requires from + 1 <= e.oldStart && Matches(source, e.oldStart, e.before)
    ensures source[from..] == source[from..e.oldStart - 1] + e.before + source[OldNext(e)..]
  {
  }

  lemma {:induction false} InvertedStep(r: Lines, at: nat, source: Lines, from: nat, edits: seq<Edit>)
    requires edits != [] && from + 1 <= edits[0].oldStart && Matches(source, edits[0].oldStart, edits[0].before)
    requires at < edits[0].newStart <= ISIZE_MAX && NewNext(edits[0]) <= |r|
    requires r[at..edits[0].newStart - 1] == source[from..edits[0].oldStart - 1]
    requires Ascending(InvertAll(edits[1..]), NewNext(edits[0])) && Within(InvertAll(edits[1..]), r)
    requires Replaced(r, InvertAll(edits[1..]), NewNext(edits[0])) == source[OldNext(edits[0])..]
    ensures Ascending(InvertAll(edits), at) && Within(InvertAll(edits), r)
    ensures Replaced(r, InvertAll(edits), at) == source[from..]
  {
    InvertFirst(r, at, edits);
    CutAtMatch(source, from, edits[0]);
  }

  /** The reversed edits are ascending over the patched lines and put the old lines back. */
  lemma {:induction false} InvertedReplacement(r: Lines, at: nat, source: Lines, from: nat, edits: seq<Edit>)
    requires PatchedFrom(r, at, source, from, edits) && |r| < ISIZE_MAX
    requires AllOldMatch(source, edits)
    ensures Ascending(InvertAll(edits), at) && Within(InvertAll(edits), r)
    ensures Replaced(r, InvertAll(edits), at) == source[from..]
    decreases |edits|
  {
    if edits != [] {
      FirstAndRest(source, edits);
      PatchedAtFirst(r, at, source, from, edits);
      InvertedReplacement(r, NewNext(edits[0]), source, OldNext(edits[0]), edits[1..]);
      InvertedStep(r, at, source, from, edits);
    }
  }

  /** Applying edits and then their reverse restores the source, and the patch is recognised as
      applied in between. */
  lemma {:induction false} ReversedPatchRestores(source: Lines, edits: seq<Edit>)
    requires Ascending(edits, 0) && |source| + TotalNew(edits) <= ISIZE_MAX
    requires Renumbered(edits, 0)
    requires AllOldMatch(source, edits)
    ensures var patched := ApplyFrom(source, 0, edits);
            && patched.Some?
            && |patched.value| == |source| + Growth(edits)
            && AllNewMatch(patched.value, edits)
            && (|patched.value| + TotalNew(InvertAll(edits)) < ISIZE_MAX ==>
                  ApplyFrom(patched.value, 0, InvertAll(edits)) == Some(source))
  {
    ApplyIsReplaced(source, edits);
    var r := Replaced(source, edits, 0);
    ReplacedLength(source, edits, 0);
    assert r[0..] == r && source[0..] == source;
    NewLinesStand(r, 0, source, 0, edits);
    if |r| + TotalNew(InvertAll(edits)) < ISIZE_MAX {
      InvertedReplacement(r, 0, source, 0, edits);
      InvertedMatchIsNewMatch(r, edits);
      ApplyIsReplaced(r, InvertAll(edits));
    }
  }
}
