/**
 Hunks of a unified diff and `apply_file` of build_support/vendor_patches.rs,
 which applies the hunks of one file to its lines and renders the result.
 */
module Hunks {
  import opened Options
  import opened SourceText
  import Edits

  datatype DiffLine = Context(text: string) | Added(text: string) | Removed(text: string)

  datatype Hunk = Hunk(oldStart: nat, oldCount: nat, newStart: nat, newCount: nat, lines: seq<DiffLine>)

  /** The hunks of a patch for one file. */
  datatype FilePatch = FilePatch(path: string, hunks: seq<Hunk>)

  function OldLines(lines: seq<DiffLine>): (r: seq<string>)
  {
    if lines == [] then []
    else if lines[0].Added? then OldLines(lines[1..])
    else [lines[0].text] + OldLines(lines[1..])
  }

  function NewLines(lines: seq<DiffLine>): (r: seq<string>)
  {
    if lines == [] then []
    else if lines[0].Removed? then NewLines(lines[1..])
    else [lines[0].text] + NewLines(lines[1..])
  }

  /** The header counts agree with the body, as `finish_hunk` enforces. */
  predicate Counted(h: Hunk) { h.oldCount == |OldLines(h.lines)| && h.newCount == |NewLines(h.lines)| }

  predicate AllCounted(hunks: seq<Hunk>) { forall i :: 0 <= i < |hunks| ==> Counted(hunks[i]) }

  /** The line replacement a hunk asks for. */
  function EditOf(h: Hunk): (r: Edits.Edit)
  {
    Edits.Edit(h.oldStart, OldLines(h.lines), h.newStart, NewLines(h.lines))
  }

  function EditsOf(hunks: seq<Hunk>): (r: seq<Edits.Edit>)
    ensures |r| == |hunks|
    ensures forall i :: 0 <= i < |r| ==> r[i] == EditOf(hunks[i])
  {
    seq(|hunks|, i requires 0 <= i < |hunks| => EditOf(hunks[i]))
  }

  /** The loop of `apply_file`: the offset moves by the header counts. */
  method PatchLines(source: seq<string>, hunks: seq<Hunk>) returns (r: Option<seq<string>>)
    requires AllCounted(hunks)
    ensures r == Edits.ApplyFrom(source, 0, EditsOf(hunks))
  {
    var lines, offset := source, 0;
    ghost var edits := EditsOf(hunks);
    for i := 0 to |hunks|
      invariant Edits.ApplyFrom(source, 0, edits) == Edits.ApplyFrom(lines, offset, edits[i..])
    {
      var h := hunks[i];
      assert edits[i..][0] == EditOf(h) && edits[i..][1..] == edits[i + 1..];
      assert Counted(h);
      var index := Edits.AdjustedIndex(h.oldStart, offset);
      if index.None? {
        return None;
      }
      var oldLines, newLines := OldLines(h.lines), NewLines(h.lines);
      if !Edits.Matches(lines, index.value + 1, oldLines) {
        return None;
      }
      lines := Edits.Splice(lines, index.value, |oldLines|, newLines);
      offset := offset + h.newCount - h.oldCount;
    }
    return Some(lines);
  }

  /** The text that applying the hunks to `text` renders, if they apply. */
  function Patched(text: SourceText, hunks: seq<Hunk>): (r: Option<string>)
  {
    match Edits.ApplyFrom(text.lines, 0, EditsOf(hunks))
    case None => None
    case Some(lines) => Some(Render(text, lines))
  }

  method ApplyFile(text: SourceText, hunks: seq<Hunk>) returns (r: Option<string>)
    requires AllCounted(hunks)
    ensures r == Patched(text, hunks)
  {
    var lines := PatchLines(text.lines, hunks);
    if lines.None? {
      return None;
    }
    return Some(Render(text, lines.value));
  }

  // ------------------------------------------------------ the reversed patch

  function InvertLines(lines: seq<DiffLine>): (r: seq<DiffLine>)
  {
    if lines == [] then []
    else [match lines[0]
          case Context(t) => Context(t)
          case Added(t) => Removed(t)
          case Removed(t) => Added(t)] + InvertLines(lines[1..])
  }

  /** Swap the added and removed lines and both sides of the header. */
  function InvertHunk(h: Hunk): (r: Hunk)
  {
    Hunk(h.newStart, h.newCount, h.oldStart, h.oldCount, InvertLines(h.lines))
  }

  function InvertHunks(hunks: seq<Hunk>): (r: seq<Hunk>)
    ensures |r| == |hunks|
    ensures forall i :: 0 <= i < |r| ==> r[i] == InvertHunk(hunks[i])
  {
    seq(|hunks|, i requires 0 <= i < |hunks| => InvertHunk(hunks[i]))
  }

  lemma {:induction false} InvertSwapsLines(lines: seq<DiffLine>)
    ensures OldLines(InvertLines(lines)) == NewLines(lines)
    ensures NewLines(InvertLines(lines)) == OldLines(lines)
  {
    if lines != [] {
      InvertSwapsLines(lines[1..]);
      assert InvertLines(lines)[1..] == InvertLines(lines[1..]);
    }
  }

  lemma {:induction false} EditsOfInverted(hunks: seq<Hunk>)
    ensures EditsOf(InvertHunks(hunks)) == Edits.InvertAll(EditsOf(hunks))
    ensures AllCounted(hunks) ==> AllCounted(InvertHunks(hunks))
  {
    var a, b := EditsOf(InvertHunks(hunks)), Edits.InvertAll(EditsOf(hunks));
    forall i | 0 <= i < |hunks|
      ensures a[i] == b[i] && (Counted(hunks[i]) ==> Counted(InvertHunk(hunks[i])))
    {
      InvertSwapsLines(hunks[i].lines);
    }
  }

  /** Hunks as diff tools write them with context on both sides: ascending, disjoint, renumbered by the
      growth of the hunks before, and together within the machine's line numbers.  (A side without
      lines is numbered by the line before it; for such hunks see `Edits.InsertionGoesBefore`.) */
  predicate WellNumbered(hunks: seq<Hunk>, source: seq<string>)
  {
    var edits := EditsOf(hunks);
    && Edits.Ascending(edits, 0) && Edits.Renumbered(edits, 0)
    && |source| + Edits.TotalNew(edits) <= Edits.ISIZE_MAX
    && |source| + Edits.Growth(edits) + Edits.TotalNew(Edits.InvertAll(edits)) < Edits.ISIZE_MAX
  }

  /** A well-numbered patch whose old lines stand in the file applies; its new lines then stand at
      their new starts; and the reversed patch restores the very same file. */
  lemma {:induction false} ReversedPatchRestores(text: SourceText, hunks: seq<Hunk>)
    requires WellNumbered(hunks, text.lines) && Edits.AllOldMatch(text.lines, EditsOf(hunks))
    ensures var lines := Edits.ApplyFrom(text.lines, 0, EditsOf(hunks));
            && lines.Some? && Patched(text, hunks) == Some(Render(text, lines.value))
            && Edits.AllNewMatch(lines.value, EditsOf(hunks))
            && Patched(text.(lines := lines.value), InvertHunks(hunks)) == Some(Render(text, text.lines))
  {
    Edits.ReversedPatchRestores(text.lines, EditsOf(hunks));
    EditsOfInverted(hunks);
  }
}
