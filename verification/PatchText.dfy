/**
 `parse_patch` of build_support/vendor_patches.rs: the text of a unified diff becomes files and
 hunks.  A printer of such patches is the partner of the parser: a list of files survives printing
 and parsing exactly when it is well-formed, and everything the parser accepts has that form, up to
 carriage returns at line ends.
 */
module PatchText {
  import opened Options
  import opened SourceText
  import opened Hunks
  import opened PatchTokens

  /** The three variables of the parser. */
  datatype State = State(files: seq<FilePatch>, current: Option<FilePatch>, hunk: Option<Hunk>)

  type Parsed = Result<State, Fault>

  const START := State([], None, None)
  const NO_NEWLINE := "\\ No newline at end of file"

  // ----------------------------------------------------------- one line

  function FinishHunk(st: State): (r: Parsed)
  {
    if st.hunk.None? then Ok(st)
    else if !Counted(st.hunk.value) then Err(WrongCounts)
    else if st.current.None? then Err(HunkAlone)
    else
      var f := st.current.value;
      Ok(State(st.files, Some(f.(hunks := f.hunks + [st.hunk.value])), None))
  }

  function FinishFile(st: State): (r: Parsed)
  {
    if st.current.None? then Ok(st)
    else if st.current.value.hunks == [] then Err(NoHunks)
    else Ok(State(st.files + [st.current.value], None, st.hunk))
  }

  function Close(st: State): (r: Parsed)
  {
    match FinishHunk(st)
    case Err(e) => Err(e)
    case Ok(finished) => FinishFile(finished)
  }

  function OldHeader(st: State, raw: string): (r: Parsed)
  {
    var closed := Close(st);
    if closed.Err? then closed else
      match ParsePath(raw, "a/")
      case Err(e) => Err(e)
      case Ok(path) => Ok(closed.value.(current := Some(FilePatch(path, []))))
  }

  function NewHeader(st: State, raw: string): (r: Parsed)
  {
    if st.current.None? then Err(NewHeaderAlone) else
      match ParsePath(raw, "b/")
      case Err(e) => Err(e)
      case Ok(path) =>
        if Components(path) != Components(st.current.value.path) then Err(PathsDiffer) else Ok(st)
  }

  function HunkHeader(st: State, line: string): (r: Parsed)
    requires StartsWith(line, "@@")
  {
    var finished := FinishHunk(st);
    if finished.Err? then finished else
      match ParseHeader(line)
      case Err(e) => Err(e)
      case Ok(h) =>
        if st.current.None? then Err(HunkAlone)
        else Ok(finished.value.(hunk := Some(HunkOf(h, []))))
  }

  function HunkOf(h: Header, lines: seq<DiffLine>): (r: Hunk)
  {
    Hunk(h.before.start, h.before.count, h.after.start, h.after.count, lines)
  }

  /** A line inside a hunk.  A first byte above the ASCII range is not a character of its own. */
  function BodyLine(line: string): (r: Result<DiffLine, Fault>)
    requires line != ""
  {
    var value := line[1..];
    if line[0] == ' ' then Ok(Context(value))
    else if line[0] == '+' then Ok(Added(value))
    else if line[0] == '-' then Ok(Removed(value))
    else if line[0] as int >= 128 then Err(EmptyHunkLine)
    else Err(BadMarker)
  }

  function Push(st: State, line: DiffLine): (r: State)
    requires st.hunk.Some?
  {
    st.(hunk := Some(st.hunk.value.(lines := st.hunk.value.lines + [line])))
  }

  function InHunk(st: State, line: string): (r: Parsed)
  {
    if st.hunk.None? || line == NO_NEWLINE || line == "" then Ok(st) else
      match BodyLine(line)
      case Err(e) => Err(e)
      case Ok(diff) => Ok(Push(st, diff))
  }

  function Step(st: State, line: string): (r: Parsed)
  {
    if StartsWith(line, "diff --git ") then Close(st)
    else if StartsWith(line, "--- ") then OldHeader(st, line[4..])
    else if StartsWith(line, "+++ ") then NewHeader(st, line[4..])
    else if StartsWith(line, "@@") then HunkHeader(st, line)
    else InHunk(st, line)
  }

  function Fold(st: State, lines: seq<string>): (r: Parsed)
    decreases |lines|
  {
    if lines == [] then Ok(st) else
      match Step(st, StripCR(lines[0]))
      case Err(e) => Err(e)
      case Ok(next) => Fold(next, lines[1..])
  }

  function Conclude(st: Parsed): (r: Result<seq<FilePatch>, Fault>)
  {
    if st.Err? then Err(st.error) else
      match Close(st.value)
      case Err(e) => Err(e)
      case Ok(closed) => if closed.files == [] then Err(NoFiles) else Ok(closed.files)
  }

  function ReadPatch(text: string): (r: Result<seq<FilePatch>, Fault>)
  {
    Conclude(Fold(START, Split(text)))
  }

  /** `parse_patch`, whose loop keeps the files so far, the open file and the open hunk. */
  method ParsePatch(text: string) returns (r: Result<seq<FilePatch>, Fault>)
    ensures r == ReadPatch(text)
    ensures r.Ok? ==> ParsedShape(r.value)
  {
    ReadShape(text);
    var lines := Split(text);
    var files: seq<FilePatch>, current: Option<FilePatch>, hunk: Option<Hunk> := [], None, None;
    for i := 0 to |lines|
      invariant Fold(START, lines) == Fold(State(files, current, hunk), lines[i..])
    {
      assert lines[i..][0] == lines[i] && lines[i..][1..] == lines[i + 1..];
      var line := StripCR(lines[i]);
      var next := Step(State(files, current, hunk), line);
      if next.Err? {
        return Err(next.error);
      }
      files, current, hunk := next.value.files, next.value.current, next.value.hunk;
    }
    var closed := Close(State(files, current, hunk));
    if closed.Err? {
      return Err(closed.error);
    }
    files := closed.value.files;
    if files == [] {
      return Err(NoFiles);
    }
    return Ok(files);
  }

  // ------------------------------------------------- what the parser accepts

  /** A body line that is not mistaken for a file header. */
  predicate GoodLine(line: DiffLine)
  {
    && LF !in line.text
    && (line.Removed? ==> !StartsWith(line.text, "-- "))
    && (line.Added? ==> !StartsWith(line.text, "++ "))
  }

  predicate GoodLines(lines: seq<DiffLine>) { forall i :: 0 <= i < |lines| ==> GoodLine(lines[i]) }

  function HeaderOf(h: Hunk): (r: Header)
  {
    Header(Range(h.oldStart, h.oldCount), Range(h.newStart, h.newCount))
  }

  predicate OpenHunk(h: Hunk) { Fits(HeaderOf(h)) && GoodLines(h.lines) }

  predicate GoodHunk(h: Hunk) { OpenHunk(h) && Counted(h) }

  predicate GoodHunks(hunks: seq<Hunk>) { forall i :: 0 <= i < |hunks| ==> GoodHunk(hunks[i]) }

  predicate OpenFile(f: FilePatch) { SafePath(f.path) && Solid(f.path) && GoodHunks(f.hunks) }

  predicate GoodFile(f: FilePatch) { OpenFile(f) && f.hunks != [] }

  predicate GoodFiles(files: seq<FilePatch>) { forall i :: 0 <= i < |files| ==> GoodFile(files[i]) }

  /** At least one file, at least one hunk a file, true counts, machine-sized numbers, safe paths
      without whitespace, and no body line that prints as a file header. */
  predicate ParsedShape(files: seq<FilePatch>) { files != [] && GoodFiles(files) }

  predicate GoodState(st: State)
  {
    && GoodFiles(st.files)
    && (st.current.Some? ==> OpenFile(st.current.value))
    && (st.hunk.Some? ==> OpenHunk(st.hunk.value))
  }

  lemma {:induction false} CloseShape(st: State)
    requires GoodState(st)
    ensures FinishHunk(st).Ok? ==> GoodState(FinishHunk(st).value)
    ensures Close(st).Ok? ==> GoodState(Close(st).value)
  {
  }

  lemma {:induction false} PrefixAfter(c: char, prefix: string, text: string)
    ensures StartsWith([c] + text, [c] + prefix) <==> StartsWith(text, prefix)
  {
    if |prefix| <= |text| {
      assert ([c] + text)[..1 + |prefix|] == [c] + text[..|prefix|];
      assert ([c] + prefix)[1..] == prefix && ([c] + text[..|prefix|])[1..] == text[..|prefix|];
    }
  }

  /** When a line of a hunk reads as a file header. */
  lemma {:induction false} HeaderLike(text: string)
    ensures StartsWith("-" + text, "--- ") <==> StartsWith(text, "-- ")
    ensures StartsWith("+" + text, "+++ ") <==> StartsWith(text, "++ ")
  {
    PrefixAfter('-', "-- ", text);
    PrefixAfter('+', "++ ", text);
    assert ['-'] + "-- " == "--- " && ['+'] + "++ " == "+++ ";
  }

  lemma {:induction false} BodyShape(st: State, line: string)
    requires GoodState(st) && LF !in line
    requires !StartsWith(line, "--- ") && !StartsWith(line, "+++ ")
    ensures InHunk(st, line).Ok? ==> GoodState(InHunk(st, line).value)
  {
    if st.hunk.Some? && line != NO_NEWLINE && line != "" && BodyLine(line).Ok? {
      var diff := BodyLine(line).value;
      assert line == [line[0]] + diff.text;
      HeaderLike(diff.text);
      assert GoodLine(diff);
    }
  }

  lemma {:induction false} StepShape(st: State, line: string)
    requires GoodState(st) && LF !in line
    ensures Step(st, line).Ok? ==> GoodState(Step(st, line).value)
  {
    CloseShape(st);
    if !StartsWith(line, "--- ") && !StartsWith(line, "+++ ") {
      BodyShape(st, line);
    }
  }

  lemma {:induction false} FoldShape(st: State, lines: seq<string>)
    requires GoodState(st) && NoLF(lines)
    ensures Fold(st, lines).Ok? ==> GoodState(Fold(st, lines).value)
    decreases |lines|
  {
    if lines != [] {
      var line := StripCR(lines[0]);
      StepShape(st, line);
      if Step(st, line).Ok? {
        FoldShape(Step(st, line).value, lines[1..]);
      }
    }
  }

  /** Whatever the text, what the parser accepts has the parsed shape. */
  lemma {:induction false} ReadShape(text: string)
    ensures ReadPatch(text).Ok? ==> ParsedShape(ReadPatch(text).value)
  {
    SplitJoin(text);
    FoldShape(START, Split(text));
    var end := Fold(START, Split(text));
    if end.Ok? {
      CloseShape(end.value);
    }
  }

  // ---------------------------------------------------------------- printing

  function PrintLine(line: DiffLine): (r: string)
  {
    match line
    case Context(text) => " " + text
    case Added(text) => "+" + text
    case Removed(text) => "-" + text
  }

  /** What diff tools vary: the lines before the headers of a file, the section heading of a hunk,
      the left-out count of one, and the marks of a missing final newline. */
  datatype Style = Style(
    preamble: FilePatch -> seq<string>,
    section: Hunk -> string,
    terse: bool,
    marked: DiffLine -> bool)

  /** A line outside a hunk that says nothing to the parser. */
  predicate Noise(line: string)
  {
    && LF !in line && !StartsWith(StripCR(line), "diff --git ") && !StartsWith(StripCR(line), "--- ")
    && !StartsWith(StripCR(line), "+++ ") && !StartsWith(StripCR(line), "@@")
  }

  /** Nothing, or a Git header followed by lines such as `index` and file modes. */
  predicate Preamble(lines: seq<string>)
  {
    lines != [] ==> LF !in lines[0] && StartsWith(lines[0], "diff --git ") && AllNoise(lines[1..])
  }

  predicate AllNoise(lines: seq<string>) { forall i :: 0 <= i < |lines| ==> Noise(lines[i]) }

  ghost predicate Usual(style: Style)
  {
    && (forall f :: Preamble(style.preamble(f)))
    && (forall h :: LF !in style.section(h))
  }

  function PrintBody(style: Style, lines: seq<DiffLine>): (r: seq<string>)
  {
    if lines == [] then []
    else [PrintLine(lines[0])] + Mark(style.marked(lines[0])) + PrintBody(style, lines[1..])
  }

  function Mark(marked: bool): (r: seq<string>) { if marked then [NO_NEWLINE] else [] }

  function HunkLine(style: Style, h: Hunk): (r: string)
  {
    PrintHeader(HeaderOf(h), style.terse, style.section(h))
  }

  function PrintHunks(style: Style, hunks: seq<Hunk>): (r: seq<string>)
  {
    if hunks == [] then []
    else [HunkLine(style, hunks[0])] + PrintBody(style, hunks[0].lines) + PrintHunks(style, hunks[1..])
  }

  function FileHeader(path: string): (r: seq<string>)
  {
    ["--- " + ("a/" + path), "+++ " + ("b/" + path)]
  }

  function PrintFile(style: Style, f: FilePatch): (r: seq<string>)
  {
    style.preamble(f) + (FileHeader(f.path) + PrintHunks(style, f.hunks))
  }

  function PrintFiles(style: Style, files: seq<FilePatch>): (r: seq<string>)
  {
    if files == [] then [] else PrintFile(style, files[0]) + PrintFiles(style, files[1..])
  }

  /** The text of a patch, every line ended by a newline. */
  function Print(style: Style, files: seq<FilePatch>): (r: string)
  {
    Join(PrintFiles(style, files) + [""], [LF])
  }

  // One carriage return at the end of a line is taken for part of the line break.

  function TrimLine(line: DiffLine): (r: DiffLine)
  {
    match line
    case Context(text) => Context(StripCR(text))
    case Added(text) => Added(StripCR(text))
    case Removed(text) => Removed(StripCR(text))
  }

  function TrimLines(lines: seq<DiffLine>): (r: seq<DiffLine>)
  {
    if lines == [] then [] else [TrimLine(lines[0])] + TrimLines(lines[1..])
  }

  function TrimHunk(h: Hunk): (r: Hunk) { h.(lines := TrimLines(h.lines)) }

  function TrimHunks(hunks: seq<Hunk>): (r: seq<Hunk>)
  {
    if hunks == [] then [] else [TrimHunk(hunks[0])] + TrimHunks(hunks[1..])
  }

  function TrimFile(f: FilePatch): (r: FilePatch) { f.(hunks := TrimHunks(f.hunks)) }

  function TrimFiles(files: seq<FilePatch>): (r: seq<FilePatch>)
  {
    if files == [] then [] else [TrimFile(files[0])] + TrimFiles(files[1..])
  }

  lemma {:induction false} TrimCounts(lines: seq<DiffLine>)
    ensures |OldLines(TrimLines(lines))| == |OldLines(lines)|
    ensures |NewLines(TrimLines(lines))| == |NewLines(lines)|
  {
    if lines != [] {
      TrimCounts(lines[1..]);
      assert TrimLines(lines)[1..] == TrimLines(lines[1..]);
    }
  }

  lemma {:induction false} FoldConcat(st: State, a: seq<string>, b: seq<string>)
    ensures Fold(st, a + b) == (if Fold(st, a).Ok? then Fold(Fold(st, a).value, b) else Fold(st, a))
    decreases |a|
  {
    if a == [] {
      assert a + b == b;
    } else {
      assert (a + b)[0] == a[0] && (a + b)[1..] == a[1..] + b;
      var next := Step(st, StripCR(a[0]));
      if next.Ok? {
        FoldConcat(next.value, a[1..], b);
      }
    }
  }

  // --------------------------------------------------- parsing what was printed

  lemma {:induction false} StripPrinted(line: DiffLine)
    ensures StripCR(PrintLine(line)) == PrintLine(TrimLine(line))
  {
    var s := PrintLine(line);
    assert s[1..] == line.text && s == [s[0]] + line.text;
    assert EndsCR(s) <==> EndsCR(line.text);
    assert s[..|s| - 1] == if line.text == "" then "" else [s[0]] + line.text[..|line.text| - 1];
  }

  lemma {:induction false} TrimKeepsGood(line: DiffLine)
    requires GoodLine(line)
    ensures GoodLine(TrimLine(line))
  {
    var text := StripCR(line.text);
    assert StartsWith(text, "-- ") ==> line.text[..3] == text[..3];
    assert StartsWith(text, "++ ") ==> line.text[..3] == text[..3];
  }

  /** A printed body line is neither a header nor skipped. */
  lemma {:induction false} PrintedIsBody(line: DiffLine)
    requires GoodLine(line)
    ensures var s := PrintLine(line);
            && !StartsWith(s, "diff --git ") && !StartsWith(s, "--- ") && !StartsWith(s, "+++ ")
            && !StartsWith(s, "@@") && s != NO_NEWLINE && s != ""
            && BodyLine(s) == Ok(line)
  {
    var s := PrintLine(line);
    HeaderLike(line.text);
    assert s[1..] == line.text;
    assert s[0] == ' ' || s[0] == '+' || s[0] == '-';
  }

  lemma {:induction false} StepBody(st: State, line: DiffLine)
    requires st.hunk.Some? && GoodLine(line)
    ensures Step(st, StripCR(PrintLine(line))) == Ok(Push(st, TrimLine(line)))
  {
    StripPrinted(line);
    TrimKeepsGood(line);
    PrintedIsBody(TrimLine(line));
  }

  function WithLines(st: State, lines: seq<DiffLine>): (r: State)
    requires st.hunk.Some?
  {
    st.(hunk := Some(st.hunk.value.(lines := st.hunk.value.lines + lines)))
  }

  lemma {:induction false} SkippedLine(st: State, line: string)
    requires line != "" && line[0] == '\\' && line == NO_NEWLINE
    ensures Step(st, line) == Ok(st)
  {
    OtherStart(line, "diff --git ");
    OtherStart(line, "--- ");
    OtherStart(line, "+++ ");
    OtherStart(line, "@@");
  }

  lemma {:induction false} FoldOne(st: State, line: string)
    requires Step(st, StripCR(line)) == Ok(st)
    ensures Fold(st, [line]) == Ok(st)
  {
    assert [line][0] == line && [line][1..] == [];
  }

  lemma {:induction false} FoldMark(st: State, marked: bool)
    ensures Fold(st, Mark(marked)) == Ok(st)
  {
    if marked {
      assert NO_NEWLINE[0] == '\\' && NO_NEWLINE[|NO_NEWLINE| - 1] == 'e';
      SkippedLine(st, NO_NEWLINE);
      FoldOne(st, NO_NEWLINE);
    }
  }

  lemma {:induction false} FoldLine(st: State, line: DiffLine, marked: bool)
    requires st.hunk.Some? && GoodLine(line)
    ensures Fold(st, [PrintLine(line)] + Mark(marked)) == Ok(Push(st, TrimLine(line)))
  {
    StepBody(st, line);
    FoldMark(Push(st, TrimLine(line)), marked);
    var lines := [PrintLine(line)] + Mark(marked);
    assert lines[0] == PrintLine(line) && lines[1..] == Mark(marked);
  }

  lemma {:induction false} WithLinesTwice(st: State, line: DiffLine, lines: seq<DiffLine>)
    requires st.hunk.Some?
    ensures WithLines(Push(st, line), lines) == WithLines(st, [line] + lines)
  {
    var had := st.hunk.value.lines;
    assert had + [line] + lines == had + ([line] + lines);
  }

  lemma {:induction false} FoldBody(style: Style, st: State, lines: seq<DiffLine>)
    requires st.hunk.Some? && GoodLines(lines)
    ensures Fold(st, PrintBody(style, lines)) == Ok(WithLines(st, TrimLines(lines)))
    decreases |lines|
  {
    if lines == [] {
      assert st.hunk.value.lines + [] == st.hunk.value.lines;
    } else {
      var marked := style.marked(lines[0]);
      FoldLine(st, lines[0], marked);
      FoldConcat(st, [PrintLine(lines[0])] + Mark(marked), PrintBody(style, lines[1..]));
      FoldBody(style, Push(st, TrimLine(lines[0])), lines[1..]);
      WithLinesTwice(st, TrimLine(lines[0]), TrimLines(lines[1..]));
    }
  }

  lemma {:induction false} SolidNoCR(s: string)
    requires s != "" && !Space(s[|s| - 1])
    ensures StripCR(s) == s
  {
  }

  lemma {:induction false} StripAppended(front: string, s: string)
    requires front != "" && !EndsCR(front)
    ensures StripCR(front + s) == front + StripCR(s)
  {
    if s == "" {
      assert front + s == front;
    } else {
      assert (front + s)[|front + s| - 1] == s[|s| - 1];
      assert (front + s)[..|front + s| - 1] == front + s[..|s| - 1];
    }
  }

  lemma {:induction false} StripHeader(h: Header, terse: bool, section: string)
    ensures StripCR(PrintHeader(h, terse, section)) == PrintHeader(h, terse, StripCR(section))
  {
    var front := "@@" + Ranges(h, terse) + "@@";
    assert front[|front| - 1] == '@';
    StripAppended(front, section);
  }

  lemma {:induction false} StepHunkHeader(st: State, h: Header, terse: bool, section: string)
    requires Fits(h) && st.current.Some? && FinishHunk(st).Ok?
    ensures Step(st, StripCR(PrintHeader(h, terse, section)))
            == Ok(FinishHunk(st).value.(hunk := Some(HunkOf(h, []))))
  {
    StripHeader(h, terse, section);
    ParsePrintedHeader(h, terse, StripCR(section));
    IsHunkHeader(st, PrintHeader(h, terse, StripCR(section)));
  }

  lemma {:induction false} OtherStart(line: string, prefix: string)
    requires line != "" && prefix != "" && line[0] != prefix[0]
    ensures !StartsWith(line, prefix)
  {
    if |prefix| <= |line| {
      assert line[..|prefix|][0] == line[0];
    }
  }

  lemma {:induction false} IsHunkHeader(st: State, line: string)
    requires StartsWith(line, "@@")
    ensures Step(st, line) == HunkHeader(st, line)
  {
    assert line[0] == line[..2][0] == '@';
    OtherStart(line, "diff --git ");
    OtherStart(line, "--- ");
    OtherStart(line, "+++ ");
  }

  function WithHunks(st: State, hunks: seq<Hunk>): (r: State)
    requires st.current.Some?
  {
    var f := st.current.value;
    st.(current := Some(f.(hunks := f.hunks + hunks)))
  }

  lemma {:induction false} FoldHunk(style: Style, st: State, h: Hunk)
    requires GoodHunk(h) && st.current.Some? && FinishHunk(st).Ok?
    ensures var r := Fold(st, [HunkLine(style, h)] + PrintBody(style, h.lines));
            && r.Ok? && r.value.current.Some?
            && FinishHunk(r.value) == Ok(WithHunks(FinishHunk(st).value, [TrimHunk(h)]))
  {
    var lines := [HunkLine(style, h)] + PrintBody(style, h.lines);
    assert lines[0] == HunkLine(style, h) && lines[1..] == PrintBody(style, h.lines);
    StepHunkHeader(st, HeaderOf(h), style.terse, style.section(h));
    var next := FinishHunk(st).value.(hunk := Some(HunkOf(HeaderOf(h), [])));
    FoldBody(style, next, h.lines);
    assert [] + TrimLines(h.lines) == TrimLines(h.lines);
    TrimCounts(h.lines);
    assert Counted(TrimHunk(h));
  }

  lemma {:induction false} WithHunksTwice(st: State, h: Hunk, hunks: seq<Hunk>)
    requires st.current.Some?
    ensures WithHunks(WithHunks(st, [h]), hunks) == WithHunks(st, [h] + hunks)
  {
    var had := st.current.value.hunks;
    assert had + [h] + hunks == had + ([h] + hunks);
  }

  lemma {:induction false} FoldHunks(style: Style, st: State, hunks: seq<Hunk>)
    requires GoodHunks(hunks) && st.current.Some? && FinishHunk(st).Ok?
    ensures var r := Fold(st, PrintHunks(style, hunks));
            && r.Ok? && FinishHunk(r.value) == Ok(WithHunks(FinishHunk(st).value, TrimHunks(hunks)))
    decreases |hunks|
  {
    if hunks == [] {
      var had := FinishHunk(st).value.current.value.hunks;
      assert had + [] == had;
    } else {
      var first := [HunkLine(style, hunks[0])] + PrintBody(style, hunks[0].lines);
      assert GoodHunk(hunks[0]);
      FoldHunk(style, st, hunks[0]);
      FoldConcat(st, first, PrintHunks(style, hunks[1..]));
      FoldHunks(style, Fold(st, first).value, hunks[1..]);
      WithHunksTwice(FinishHunk(st).value, TrimHunk(hunks[0]), TrimHunks(hunks[1..]));
    }
  }

  lemma {:induction false} HeaderLine(front: string, path: string)
    requires |front| == 4 && path != "" && !Space(path[|path| - 1])
    ensures var line := front + path; StripCR(line) == line && StartsWith(line, front) && line[4..] == path
  {
    var line := front + path;
    assert line[|line| - 1] == path[|path| - 1];
    SolidNoCR(line);
  }

  lemma {:induction false} StepOldHeader(st: State, path: string)
    requires SafePath(path) && Solid(path) && Close(st).Ok?
    ensures Step(st, StripCR("--- " + ("a/" + path))) == Ok(Close(st).value.(current := Some(FilePatch(path, []))))
  {
    var named := "a/" + path;
    assert named[|named| - 1] == path[|path| - 1];
    HeaderLine("--- ", named);
    ParsePrintedPath(path, "a/");
    IsOldHeader(st, "--- " + named);
  }

  lemma {:induction false} IsOldHeader(st: State, line: string)
    requires StartsWith(line, "--- ")
    ensures Step(st, line) == OldHeader(st, line[4..])
  {
    assert line[0] == line[..4][0] == '-';
    OtherStart(line, "diff --git ");
  }

  lemma {:induction false} StepNewHeader(st: State, path: string)
    requires SafePath(path) && Solid(path) && st.current.Some? && st.current.value.path == path
    ensures Step(st, StripCR("+++ " + ("b/" + path))) == Ok(st)
  {
    var named := "b/" + path;
    assert named[|named| - 1] == path[|path| - 1];
    HeaderLine("+++ ", named);
    ParsePrintedPath(path, "b/");
    IsNewHeader(st, "+++ " + named);
  }

  lemma {:induction false} IsNewHeader(st: State, line: string)
    requires StartsWith(line, "+++ ")
    ensures Step(st, line) == NewHeader(st, line[4..])
  {
    assert line[0] == line[..4][0] == '+';
    OtherStart(line, "diff --git ");
    OtherStart(line, "--- ");
  }

  lemma {:induction false} FoldFileHeader(st: State, path: string)
    requires SafePath(path) && Solid(path) && Close(st).Ok?
    ensures Fold(st, FileHeader(path)) == Ok(Close(st).value.(current := Some(FilePatch(path, []))))
  {
    var lines := FileHeader(path);
    StepOldHeader(st, path);
    var next := Close(st).value.(current := Some(FilePatch(path, [])));
    StepNewHeader(next, path);
    assert lines[1..] == [lines[1]] && lines[1..][1..] == [];
    assert Fold(next, lines[1..]) == Ok(next);
  }

  function WithFiles(st: State, files: seq<FilePatch>): (r: State) { st.(files := st.files + files) }

  lemma {:induction false} WithFilesTwice(st: State, f: FilePatch, files: seq<FilePatch>)
    ensures WithFiles(WithFiles(st, [f]), files) == WithFiles(st, [f] + files)
  {
    assert st.files + [f] + files == st.files + ([f] + files);
  }

  lemma {:induction false} FoldNoise(st: State, lines: seq<string>)
    requires st.hunk.None? && AllNoise(lines)
    ensures Fold(st, lines) == Ok(st)
  {
    if lines != [] {
      assert Noise(lines[0]);
      FoldNoise(st, lines[1..]);
    }
  }

  /** The lines before a file header do nothing but close the file before. */
  lemma {:induction false} FoldPreamble(st: State, lines: seq<string>)
    requires Preamble(lines) && Close(st).Ok?
    ensures Fold(st, lines).Ok? && Close(Fold(st, lines).value) == Close(st)
  {
    if lines != [] {
      var line := StripCR(lines[0]);
      assert lines[0][|"diff --git "| - 1] == ' ';
      assert StartsWith(line, "diff --git ");
      FoldNoise(Close(st).value, lines[1..]);
    }
  }

  lemma {:induction false} FoldHeaded(style: Style, st: State, f: FilePatch)
    requires GoodFile(f) && Close(st).Ok?
    ensures var r := Fold(st, FileHeader(f.path) + PrintHunks(style, f.hunks));
            && r.Ok? && Close(r.value) == Ok(WithFiles(Close(st).value, [TrimFile(f)]))
  {
    FoldFileHeader(st, f.path);
    var closed := Close(st).value;
    assert closed.current.None? && closed.hunk.None?;
    var next := closed.(current := Some(FilePatch(f.path, [])));
    FoldConcat(st, FileHeader(f.path), PrintHunks(style, f.hunks));
    FoldHunks(style, next, f.hunks);
    assert [] + TrimHunks(f.hunks) == TrimHunks(f.hunks);
  }

  lemma {:induction false} FoldFile(style: Style, st: State, f: FilePatch)
    requires Usual(style) && GoodFile(f) && Close(st).Ok?
    ensures var r := Fold(st, PrintFile(style, f));
            && r.Ok? && Close(r.value) == Ok(WithFiles(Close(st).value, [TrimFile(f)]))
  {
    FoldPreamble(st, style.preamble(f));
    FoldConcat(st, style.preamble(f), FileHeader(f.path) + PrintHunks(style, f.hunks));
    FoldHeaded(style, Fold(st, style.preamble(f)).value, f);
  }

  lemma {:induction false} FoldFiles(style: Style, st: State, files: seq<FilePatch>)
    requires Usual(style) && GoodFiles(files) && Close(st).Ok?
    ensures var r := Fold(st, PrintFiles(style, files));
            && r.Ok? && Close(r.value) == Ok(WithFiles(Close(st).value, TrimFiles(files)))
    decreases |files|
  {
    if files == [] {
      assert Close(st).value.files + [] == Close(st).value.files;
    } else {
      var first := PrintFile(style, files[0]);
      assert GoodFile(files[0]);
      FoldFile(style, st, files[0]);
      FoldConcat(st, first, PrintFiles(style, files[1..]));
      FoldFiles(style, Fold(st, first).value, files[1..]);
      WithFilesTwice(Close(st).value, TrimFile(files[0]), TrimFiles(files[1..]));
    }
  }

  // -------------------------------------------------------- the lines hold no LF

  lemma {:induction false} BodyNoLF(style: Style, lines: seq<DiffLine>)
    requires GoodLines(lines)
    ensures NoLF(PrintBody(style, lines))
  {
    if lines != [] {
      assert GoodLine(lines[0]);
      BodyNoLF(style, lines[1..]);
    }
  }

  lemma {:induction false} HunksNoLF(style: Style, hunks: seq<Hunk>)
    requires Usual(style) && GoodHunks(hunks)
    ensures NoLF(PrintHunks(style, hunks))
  {
    if hunks != [] {
      assert GoodHunk(hunks[0]);
      PrintedWords(HeaderOf(hunks[0]), style.terse);
      assert LF !in style.section(hunks[0]);
      assert LF !in HunkLine(style, hunks[0]);
      BodyNoLF(style, hunks[0].lines);
      HunksNoLF(style, hunks[1..]);
    }
  }

  lemma {:induction false} FileNoLF(style: Style, f: FilePatch)
    requires Usual(style) && GoodFile(f)
    ensures NoLF(PrintFile(style, f))
  {
    HunksNoLF(style, f.hunks);
    assert LF !in f.path;
    var preamble := style.preamble(f);
    forall i | 0 <= i < |preamble|
      ensures LF !in preamble[i]
    {
      assert i > 0 ==> Noise(preamble[1..][i - 1]);
    }
  }

  lemma {:induction false} FilesNoLF(style: Style, files: seq<FilePatch>)
    requires Usual(style) && GoodFiles(files)
    ensures NoLF(PrintFiles(style, files))
  {
    if files != [] {
      assert GoodFile(files[0]);
      FileNoLF(style, files[0]);
      FilesNoLF(style, files[1..]);
    }
  }

  // ------------------------------------------------------------ the round trip

  /** Printing and parsing a patch of the parsed shape gives it back, with one carriage return
      less at the end of each line that has one. */
  lemma {:induction false} PrintThenParse(style: Style, files: seq<FilePatch>)
    requires Usual(style) && ParsedShape(files)
    ensures ReadPatch(Print(style, files)) == Ok(TrimFiles(files))
  {
    var lines := PrintFiles(style, files);
    FilesNoLF(style, files);
    JoinSplit(lines + [""]);
    FoldFiles(style, START, files);
    FoldConcat(START, lines, [""]);
    var end := Fold(START, lines).value;
    assert Step(end, StripCR("")) == Ok(end);
    assert Fold(end, [""]) == Ok(end) by { assert [""][1..] == []; }
    assert [] + TrimFiles(files) == TrimFiles(files);
  }

  predicate PlainLines(lines: seq<DiffLine>) { forall i :: 0 <= i < |lines| ==> !EndsCR(lines[i].text) }

  predicate PlainHunks(hunks: seq<Hunk>) { forall i :: 0 <= i < |hunks| ==> PlainLines(hunks[i].lines) }

  /** No line ends in a carriage return. */
  predicate Plain(files: seq<FilePatch>) { forall i :: 0 <= i < |files| ==> PlainHunks(files[i].hunks) }

  lemma {:induction false} TrimmedLines(lines: seq<DiffLine>)
    ensures TrimLines(lines) == lines <==> PlainLines(lines)
  {
    if lines != [] {
      var first, rest := lines[0], lines[1..];
      TrimmedLines(rest);
      assert lines == [first] + rest && TrimLines(lines)[1..] == TrimLines(rest);
      assert TrimLine(first) == first <==> !EndsCR(first.text);
    }
  }

  lemma {:induction false} TrimmedHunks(hunks: seq<Hunk>)
    ensures TrimHunks(hunks) == hunks <==> PlainHunks(hunks)
  {
    if hunks != [] {
      var first, rest := hunks[0], hunks[1..];
      TrimmedHunks(rest);
      TrimmedLines(first.lines);
      assert hunks == [first] + rest && TrimHunks(hunks)[1..] == TrimHunks(rest);
      assert TrimHunk(first) == first <==> PlainLines(first.lines);
    }
  }

  lemma {:induction false} TrimmedFiles(files: seq<FilePatch>)
    ensures TrimFiles(files) == files <==> Plain(files)
  {
    if files != [] {
      var first, rest := files[0], files[1..];
      TrimmedFiles(rest);
      TrimmedHunks(first.hunks);
      assert files == [first] + rest && TrimFiles(files)[1..] == TrimFiles(rest);
      assert TrimFile(first) == first <==> PlainHunks(first.hunks);
    }
  }

  /** In every style, exactly the well-formed patches without carriage returns at line ends survive
      printing and parsing. */
  lemma {:induction false} RoundTrip(style: Style, files: seq<FilePatch>)
    requires Usual(style)
    ensures ReadPatch(Print(style, files)) == Ok(files) <==> ParsedShape(files) && Plain(files)
  {
    ReadShape(Print(style, files));
    TrimmedFiles(files);
    if ParsedShape(files) {
      PrintThenParse(style, files);
    }
  }

  /** Reprinting a patch that was read changes nothing of what it says but carriage returns. */
  lemma {:induction false} Reprint(style: Style, text: string)
    requires Usual(style) && ReadPatch(text).Ok?
    ensures ReadPatch(Print(style, ReadPatch(text).value)) == Ok(TrimFiles(ReadPatch(text).value))
  {
    ReadShape(text);
    PrintThenParse(style, ReadPatch(text).value);
  }
}
