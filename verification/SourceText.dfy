/**
 Newline handling of build_support/vendor_patches.rs: the canonical form under
 which a vendor file is digested, and the line view (`SourceText`) that a patch
 is applied to and rendered back from.

 A `char` stands for one byte of the file.  Every cut below is made at an ASCII
 byte, so reading bytes or reading UTF-8 characters makes no difference.
 */
module SourceText {

  const CR := '\r'
  const LF := '\n'

  /** How many bytes the next canonical byte stands for, and that byte. */
  function Step(s: string): (n: nat)
    requires s != ""
    ensures 1 <= n <= |s|
  {
    if s[0] == CR && |s| > 1 && s[1] == LF then 2 else 1
  }

  function Head(s: string): (c: char)
    requires s != ""
  {
    if s[0] == CR then LF else s[0]
  }

  /** Every CRLF and every lone CR becomes one LF. */
  function Canonical(s: string): (r: string)
  {
    if s == "" then "" else [Head(s)] + Canonical(s[Step(s)..])
  }

  /** The index loop of `canonical_digest`. */
  method CanonicalBytes(bytes: string) returns (canonical: string)
    ensures canonical == Canonical(bytes)
  {
    canonical := "";
    var index := 0;
    while index < |bytes|
      invariant 0 <= index <= |bytes|
      invariant canonical + Canonical(bytes[index..]) == Canonical(bytes)
    {
      ghost var before, rest := canonical, bytes[index..];
      if bytes[index] == CR {
        canonical := canonical + [LF];
        index := index + (if index + 1 < |bytes| && bytes[index + 1] == LF then 1 else 0) + 1;
      } else {
        canonical := canonical + [bytes[index]];
        index := index + 1;
      }
      assert rest[Step(rest)..] == bytes[index..];
      assert canonical == before + [Head(rest)];
      Associate(before, [Head(rest)], Canonical(bytes[index..]));
    }
  }

  predicate EndsCR(s: string) { s != "" && s[|s| - 1] == CR }

  predicate HasCrlf(s: string)
  {
    exists i :: 0 <= i < |s| - 1 && s[i] == CR && s[i + 1] == LF
  }

  /** Every CR is the first half of a CRLF. */
  predicate NoLoneCR(s: string)
  {
    forall i :: 0 <= i < |s| && s[i] == CR ==> i + 1 < |s| && s[i + 1] == LF
  }

  function StripCR(s: string): (r: string)
  {
    if EndsCR(s) then s[..|s| - 1] else s
  }

  /** `str::split('\n')`: always at least one segment. */
  function Split(s: string): (r: seq<string>)
    ensures r != []
  {
    if s == "" then [""]
    else if s[0] == LF then [""] + Split(s[1..])
    else var r := Split(s[1..]); [[s[0]] + r[0]] + r[1..]
  }

  function Join(lines: seq<string>, sep: string): (r: string)
  {
    if lines == [] then ""
    else if |lines| == 1 then lines[0]
    else lines[0] + sep + Join(lines[1..], sep)
  }

  function Last(lines: seq<string>): (r: string)
    requires lines != []
  {
    lines[|lines| - 1]
  }

  function StripAll(lines: seq<string>): (r: seq<string>)
    ensures |r| == |lines|
    ensures forall i :: 0 <= i < |r| ==> r[i] == StripCR(lines[i])
  {
    seq(|lines|, i requires 0 <= i < |lines| => StripCR(lines[i]))
  }

  datatype SourceText = SourceText(lines: seq<string>, newline: string, finalNewline: bool)

  function Parse(contents: string): (r: SourceText)
  {
    var finalNewline := contents != "" && contents[|contents| - 1] == LF;
    var lines := if contents == "" then [] else StripAll(Split(contents));
    SourceText(
      if finalNewline then lines[..|lines| - 1] else lines,
      if HasCrlf(contents) then [CR, LF] else [LF],
      finalNewline)
  }

  /** `SourceText::render`: the newline style and the final newline of `text`, the given lines. */
  function Render(text: SourceText, lines: seq<string>): (r: string)
  {
    Join(lines, text.newline) + (if text.finalNewline then text.newline else "")
  }

  // ---------------------------------------------------------------- splitting

  predicate NoLF(lines: seq<string>) { forall i :: 0 <= i < |lines| ==> LF !in lines[i] }

  lemma {:induction false} SplitJoin(s: string)
    ensures Join(Split(s), [LF]) == s
    ensures NoLF(Split(s))
  {
    if s != "" {
      var r := Split(s[1..]);
      SplitJoin(s[1..]);
      if s[0] == LF {
        assert ([""] + r)[1..] == r;
      } else {
        assert ([[s[0]] + r[0]] + r[1..])[1..] == r[1..];
      }
    }
  }

  lemma {:induction false} SplitPrefix(line: string, rest: string)
    requires LF !in line
    ensures Split(line + [LF] + rest) == [line] + Split(rest)
  {
    var s := line + [LF] + rest;
    if line == "" {
      assert s[1..] == rest;
    } else {
      assert s[1..] == line[1..] + [LF] + rest;
      SplitPrefix(line[1..], rest);
      assert line == [s[0]] + line[1..];
    }
  }

  lemma {:induction false} SplitNoLF(line: string)
    requires LF !in line
    ensures Split(line) == [line]
  {
    if line != "" {
      SplitNoLF(line[1..]);
      assert line == [line[0]] + line[1..];
    }
  }

  /** Splitting is the inverse of joining lines that hold no LF. */
  lemma {:induction false} JoinSplit(lines: seq<string>)
    requires lines != [] && NoLF(lines)
    ensures Split(Join(lines, [LF])) == lines
  {
    if |lines| == 1 {
      SplitNoLF(lines[0]);
    } else {
      JoinSplit(lines[1..]);
      SplitPrefix(lines[0], Join(lines[1..], [LF]));
      assert lines == [lines[0]] + lines[1..];
    }
  }

  // ---------------------------------------------------- the canonical form

  /** Canonicalising removes every CR, and doing it twice changes nothing more. */
  lemma {:induction false} CanonicalIdempotent(s: string)
    ensures CR !in Canonical(s)
    ensures Canonical(Canonical(s)) == Canonical(s)
  {
    if s != "" {
      CanonicalIdempotent(s[Step(s)..]);
      assert Canonical(s)[1..] == Canonical(s[Step(s)..]);
    }
  }

  lemma {:induction false} CanonicalNoCR(s: string)
    requires CR !in s
    ensures Canonical(s) == s
  {
    if s != "" {
      CanonicalNoCR(s[1..]);
      assert s == [s[0]] + s[1..];
    }
  }

  lemma {:induction false} StepOfConcat(a: string, b: string)
    requires a != "" && (EndsCR(a) ==> b == "" || b[0] != LF)
    ensures Head(a + b) == Head(a) && (a + b)[Step(a + b)..] == a[Step(a)..] + b
    ensures EndsCR(a[Step(a)..]) ==> EndsCR(a)
  {
    assert (a + b)[0] == a[0];
    assert |a| > 1 ==> (a + b)[1] == a[1];
  }

  /** Canonicalising goes piece by piece unless the cut falls inside a CRLF. */
  lemma {:induction false} CanonicalConcat(a: string, b: string)
    requires EndsCR(a) ==> b == "" || b[0] != LF
    ensures Canonical(a + b) == Canonical(a) + Canonical(b)
  {
    if a == "" {
      assert a + b == b;
    } else {
      StepOfConcat(a, b);
      var rest := a[Step(a)..];
      CanonicalConcat(rest, b);
      Associate([Head(a)], Canonical(rest), Canonical(b));
    }
  }

  lemma {:induction false} Associate(a: string, b: string, c: string)
    ensures a + (b + c) == (a + b) + c
  {
  }

  lemma {:induction false} CanonicalNewline(line: string, newline: string, rest: string)
    requires newline == [CR, LF] || (newline == [LF] && !EndsCR(line))
    ensures Canonical(line + newline + rest) == Canonical(line) + [LF] + Canonical(rest)
  {
    assert line + newline + rest == line + (newline + rest);
    CanonicalConcat(line, newline + rest);
    CanonicalConcat(newline, rest);
    assert newline[|newline|..] == "";
    assert newline == [LF] ==> newline[1..] == "";
    assert Canonical(newline) == [LF];
  }

  lemma {:induction false} CanonicalLine(line: string, rest: string)
    ensures Canonical(line + [LF] + rest) == Canonical(StripCR(line)) + [LF] + Canonical(rest)
  {
    if EndsCR(line) {
      assert line + [LF] + rest == StripCR(line) + [CR, LF] + rest;
      CanonicalNewline(StripCR(line), [CR, LF], rest);
    } else {
      CanonicalNewline(line, [LF], rest);
    }
  }

  lemma {:induction false} CanonicalLast(line: string)
    ensures Canonical(line) == if EndsCR(line) then Canonical(StripCR(line)) + [LF] else Canonical(StripCR(line))
  {
    if EndsCR(line) {
      assert line == StripCR(line) + [CR];
      CanonicalConcat(StripCR(line), [CR]);
      assert [CR][1..] == "";
    }
  }

  /** `s`, with one LF for the final CR that stripping dropped, if it dropped one. */
  function PlusLF(s: string, dropped: bool): (r: string)
  {
    if dropped then s + [LF] else s
  }

  lemma {:induction false} RejoinStep(line: string, newline: string, a: string, dropped: bool, b: string)
    requires newline == [CR, LF] || (newline == [LF] && !EndsCR(line))
    requires PlusLF(Canonical(a), dropped) == Canonical(b)
    ensures PlusLF(Canonical(StripCR(line) + newline + a), dropped) == Canonical(line + [LF] + b)
  {
    var prefix := Canonical(StripCR(line)) + [LF];
    CanonicalNewline(StripCR(line), newline, a);
    CanonicalLine(line, b);
    assert PlusLF(prefix + Canonical(a), dropped) == prefix + PlusLF(Canonical(a), dropped);
  }

  /** What stripping and re-joining does to the canonical content, for every list of segments:
      only a CR at the very end of the text is lost. */
  lemma {:induction false} RejoinCanonical(segments: seq<string>, newline: string)
    requires segments != []
    requires newline == [CR, LF] || newline == [LF]
    requires newline == [LF] ==> forall i :: 0 <= i < |segments| - 1 ==> !EndsCR(segments[i])
    ensures PlusLF(Canonical(Join(StripAll(segments), newline)), EndsCR(Last(segments)))
            == Canonical(Join(segments, [LF]))
  {
    if |segments| == 1 {
      CanonicalLast(segments[0]);
    } else {
      var rest := segments[1..];
      RejoinCanonical(rest, newline);
      assert StripAll(segments)[1..] == StripAll(rest);
      assert Last(rest) == Last(segments);
      RejoinStep(segments[0], newline, Join(StripAll(rest), newline), EndsCR(Last(rest)), Join(rest, [LF]));
    }
  }

  // ------------------------------------------- parsing, then rendering back

  lemma {:induction false} JoinSnoc(lines: seq<string>, sep: string)
    requires lines != []
    ensures Join(lines + [""], sep) == Join(lines, sep) + sep
  {
    if |lines| > 1 {
      JoinSnoc(lines[1..], sep);
      assert (lines + [""])[1..] == lines[1..] + [""];
    }
  }

  lemma {:induction false} CrlfOfLine(line: string, rest: string)
    requires LF !in line
    ensures HasCrlf(line + [LF] + rest) <==> EndsCR(line) || HasCrlf(rest)
  {
    var s := line + [LF] + rest;
    if EndsCR(line) {
      assert s[|line| - 1] == CR && s[|line| - 1 + 1] == LF;
    }
    if HasCrlf(rest) {
      var i :| 0 <= i < |rest| - 1 && rest[i] == CR && rest[i + 1] == LF;
      var k := |line| + 1 + i;
      assert s[k] == CR && s[k + 1] == LF;
    }
    if HasCrlf(s) {
      var i :| 0 <= i < |s| - 1 && s[i] == CR && s[i + 1] == LF;
      if i >= |line| {
        var k := i - |line| - 1;
        assert rest[k] == CR && rest[k + 1] == LF;
      }
    }
  }

  /** The newline style and the end of a text, read off its segments. */
  lemma {:induction false} SegmentFacts(segments: seq<string>)
    requires segments != [] && NoLF(segments)
    ensures var t := Join(segments, [LF]);
            && (HasCrlf(t) <==> exists i :: 0 <= i < |segments| - 1 && EndsCR(segments[i]))
            && (EndsCR(t) <==> EndsCR(Last(segments)))
            && ((t != "" && t[|t| - 1] == LF) <==> |segments| > 1 && Last(segments) == "")
            && (t == "" <==> segments == [""])
  {
    var t := Join(segments, [LF]);
    if |segments| > 1 {
      var first, rest := segments[0], segments[1..];
      SegmentFacts(rest);
      CrlfOfLine(first, Join(rest, [LF]));
      if exists i :: 0 <= i < |segments| - 1 && EndsCR(segments[i]) {
        var i :| 0 <= i < |segments| - 1 && EndsCR(segments[i]);
        assert i > 0 ==> EndsCR(rest[i - 1]);
      }
      if EndsCR(first) { assert EndsCR(segments[0]); }
      if HasCrlf(Join(rest, [LF])) {
        var i :| 0 <= i < |rest| - 1 && EndsCR(rest[i]);
        assert EndsCR(segments[i + 1]);
      }
    } else {
      assert LF !in t;
      assert !HasCrlf(t);
    }
  }

  lemma {:induction false} EndOfLastSegment(t: string)
    ensures EndsCR(Last(Split(t))) == EndsCR(t)
  {
    SplitJoin(t);
    SegmentFacts(Split(t));
  }

  lemma {:induction false} LineEnds(t: string)
    ensures !HasCrlf(t) ==> forall i :: 0 <= i < |Split(t)| - 1 ==> !EndsCR(Split(t)[i])
  {
    SplitJoin(t);
    SegmentFacts(Split(t));
  }

  /** Rendering the parsed lines unchanged re-joins the stripped segments. */
  lemma {:induction false} RenderIsRejoin(t: string)
    ensures Render(Parse(t), Parse(t).lines) == Join(StripAll(Split(t)), Parse(t).newline)
  {
    FinalSegment(t);
    var stripped := StripAll(Split(t));
    if t == "" {
      assert stripped == [""];
    } else if Parse(t).finalNewline {
      var lines := stripped[..|stripped| - 1];
      assert stripped == lines + [""];
      JoinSnoc(lines, Parse(t).newline);
    } else {
      assert Join(stripped, Parse(t).newline) + "" == Join(stripped, Parse(t).newline);
    }
  }

  lemma {:induction false} FinalSegment(t: string)
    ensures (t != "" && t[|t| - 1] == LF) ==> |Split(t)| > 1 && Last(Split(t)) == ""
  {
    SplitJoin(t);
    SegmentFacts(Split(t));
  }

  lemma {:induction false} RejoinOfText(t: string, newline: string)
    requires newline == if HasCrlf(t) then [CR, LF] else [LF]
    ensures PlusLF(Canonical(Join(StripAll(Split(t)), newline)), EndsCR(t)) == Canonical(t)
  {
    EndOfLastSegment(t);
    LineEnds(t);
    RejoinCanonical(Split(t), newline);
    SplitJoin(t);
  }

  /** Parsing a file into lines and rendering it back keeps its canonical content, whatever mix of
      LF, CRLF and inner lone CR it uses, exactly when the file does not end in a lone CR. */
  lemma {:induction false} RenderKeepsCanonical(t: string)
    ensures Canonical(Render(Parse(t), Parse(t).lines)) == Canonical(t) <==> !EndsCR(t)
  {
    RenderIsRejoin(t);
    RejoinOfText(t, Parse(t).newline);
  }

  /** Either every line but the last ends in CR or none does. */
  predicate UniformNewlines(t: string)
  {
    var segments := Split(t);
    forall i :: 0 <= i < |segments| - 1 ==> EndsCR(segments[i]) == HasCrlf(t)
  }

  function WithCR(segments: seq<string>): (r: seq<string>)
    ensures |r| == |segments|
    ensures forall i :: 0 <= i < |r| ==> r[i] == if i < |r| - 1 then segments[i] + [CR] else segments[i]
  {
    seq(|segments|, i requires 0 <= i < |segments| =>
      if i < |segments| - 1 then segments[i] + [CR] else segments[i])
  }

  lemma {:induction false} JoinCrlf(lines: seq<string>)
    ensures Join(lines, [CR, LF]) == Join(WithCR(lines), [LF])
  {
    if |lines| > 1 {
      JoinCrlf(lines[1..]);
      assert WithCR(lines)[1..] == WithCR(lines[1..]);
      assert lines[0] + [CR, LF] == lines[0] + [CR] + [LF];
    } else if |lines| == 1 {
      assert WithCR(lines) == lines;
    }
  }

  /** The segments that rendering writes, given the chosen newline style. */
  function Restyled(segments: seq<string>, crlf: bool): (r: seq<string>)
    ensures |r| == |segments|
  {
    if crlf then WithCR(StripAll(segments)) else StripAll(segments)
  }

  lemma {:induction false} RestyledNoLF(segments: seq<string>, crlf: bool)
    requires NoLF(segments)
    ensures NoLF(Restyled(segments, crlf))
  {
    forall i | 0 <= i < |segments| ensures LF !in Restyled(segments, crlf)[i] {
      assert LF !in segments[i];
    }
  }

  predicate Styled(segments: seq<string>, crlf: bool)
    requires segments != []
  {
    !EndsCR(Last(segments)) && forall i :: 0 <= i < |segments| - 1 ==> EndsCR(segments[i]) == crlf
  }

  lemma {:induction false} RestyledIsSame(segments: seq<string>, crlf: bool)
    requires segments != []
    ensures Restyled(segments, crlf) == segments <==> Styled(segments, crlf)
  {
    var r, n := Restyled(segments, crlf), |segments|;
    forall i | 0 <= i < n
      ensures r[i] == segments[i] <==> EndsCR(segments[i]) == (i < n - 1 && crlf)
    {
      RestyledLine(segments[i], i < n - 1 && crlf);
    }
    assert r == segments <==> forall i :: 0 <= i < n ==> r[i] == segments[i];
  }

  lemma {:induction false} RestyledLine(line: string, crlf: bool)
    ensures StripCR(line) + (if crlf then [CR] else "") == line <==> EndsCR(line) == crlf
  {
  }

  lemma {:induction false} RenderIsRestyled(t: string)
    ensures Render(Parse(t), Parse(t).lines) == Join(Restyled(Split(t), HasCrlf(t)), [LF])
  {
    RenderIsRejoin(t);
    JoinCrlf(StripAll(Split(t)));
  }

  /** A file is reproduced byte for byte exactly when its newlines are uniform and it does not end
      in a lone CR. */
  lemma {:induction false} RenderIsExact(t: string)
    ensures Render(Parse(t), Parse(t).lines) == t <==> UniformNewlines(t) && !EndsCR(t)
  {
    var segments := Split(t);
    var back := Restyled(segments, HasCrlf(t));
    RenderIsRestyled(t);
    SplitJoin(t);
    SegmentFacts(segments);
    RestyledNoLF(segments, HasCrlf(t));
    JoinSplit(back);
    RestyledIsSame(segments, HasCrlf(t));
  }

  // -------------------------------------- LF and CRLF checkouts of one file

  predicate CleanLine(line: string) { CR !in line && LF !in line }

  predicate CleanLines(lines: seq<string>) { forall i :: 0 <= i < |lines| ==> CleanLine(lines[i]) }

  lemma {:induction false} CanonicalOfCleanLines(lines: seq<string>, newline: string)
    requires CleanLines(lines)
    requires newline == [LF] || newline == [CR, LF]
    ensures Canonical(Join(lines, newline)) == Join(lines, [LF])
  {
    if |lines| == 1 {
      CanonicalNoCR(lines[0]);
    } else if |lines| > 1 {
      CanonicalOfCleanLines(lines[1..], newline);
      CanonicalNoCR(lines[0]);
      CanonicalNewline(lines[0], newline, Join(lines[1..], newline));
    }
  }

  /** Rendering in either newline style has the same canonical content. */
  lemma {:induction false} CanonicalOfRender(text: SourceText, lines: seq<string>)
    requires CleanLines(lines) && lines != []
    requires text.newline == [LF] || text.newline == [CR, LF]
    ensures Canonical(Render(text, lines)) == Render(text.(newline := [LF]), lines)
  {
    RenderAsJoin(text, lines);
    RenderAsJoin(text.(newline := [LF]), lines);
    CanonicalOfCleanLines(if text.finalNewline then lines + [""] else lines, text.newline);
  }

  lemma {:induction false} RenderAsJoin(text: SourceText, lines: seq<string>)
    requires lines != []
    ensures Render(text, lines) == Join(if text.finalNewline then lines + [""] else lines, text.newline)
  {
    if text.finalNewline {
      JoinSnoc(lines, text.newline);
    } else {
      assert Join(lines, text.newline) + "" == Join(lines, text.newline);
    }
  }

  /** Rendered clean lines parse back to themselves, in either newline style. */
  lemma {:induction false} ParseOfRender(text: SourceText, lines: seq<string>)
    requires CleanLines(lines) && lines != [] && (text.finalNewline || Last(lines) != "")
    requires text.newline == [LF] || text.newline == [CR, LF]
    ensures Parse(Render(text, lines)).lines == lines
    ensures Parse(Render(text, lines)).finalNewline == text.finalNewline
  {
    var segments := if text.finalNewline then lines + [""] else lines;
    var rendered := Render(text, lines);
    RenderAsJoin(text, lines);
    assert CleanLines(segments);
    StripCleanLines(segments);
    if text.newline == [LF] {
      CleanIsNoLF(segments);
      JoinSplit(segments);
    } else {
      JoinCrlf(segments);
      CrlfSegments(segments);
      JoinSplit(WithCR(segments));
    }
    assert StripAll(Split(rendered)) == segments;
    EndOfLastSegment(rendered);
    assert Last(Split(rendered)) == Last(segments);
    assert CleanLine(Last(segments));
    ParseBySegments(rendered);
  }

  lemma {:induction false} CleanIsNoLF(lines: seq<string>)
    requires CleanLines(lines)
    ensures NoLF(lines)
  {
    forall i | 0 <= i < |lines| ensures LF !in lines[i] { assert CleanLine(lines[i]); }
  }

  lemma {:induction false} CrlfSegments(lines: seq<string>)
    requires CleanLines(lines)
    ensures NoLF(WithCR(lines)) && StripAll(WithCR(lines)) == lines
  {
    var r := WithCR(lines);
    forall i | 0 <= i < |lines| ensures LF !in r[i] && StripAll(r)[i] == lines[i] { assert CleanLine(lines[i]); }
  }

  lemma {:induction false} SplitOfCanonical(t: string)
    requires NoLoneCR(t)
    ensures Split(Canonical(t)) == StripAll(Split(t))
  {
    var segments := Split(t);
    EndOfLastSegment(t);
    RejoinCanonical(segments, [CR, LF]);
    SplitJoin(t);
    SegmentsClean(t);
    CanonicalOfCleanLines(StripAll(segments), [CR, LF]);
    JoinSplit(StripAll(segments));
  }

  /** The final newline and the lines of a text, read off its stripped segments. */
  predicate FinalOf(stripped: seq<string>) { |stripped| > 1 && Last(stripped) == "" }

  function LinesOf(stripped: seq<string>): (r: seq<string>)
  {
    if stripped == [""] then [] else if FinalOf(stripped) then stripped[..|stripped| - 1] else stripped
  }

  lemma {:induction false} ParseBySegments(t: string)
    requires !EndsCR(t)
    ensures Parse(t).lines == LinesOf(StripAll(Split(t)))
    ensures Parse(t).finalNewline == FinalOf(StripAll(Split(t)))
  {
    SplitJoin(t);
    SegmentFacts(Split(t));
    var stripped := StripAll(Split(t));
    assert Last(stripped) == Last(Split(t));
    assert t == "" <==> stripped == [""];
  }

  lemma {:induction false} StripCleanLines(lines: seq<string>)
    requires CleanLines(lines)
    ensures StripAll(lines) == lines
  {
    forall i | 0 <= i < |lines| ensures StripAll(lines)[i] == lines[i] {
      assert CleanLine(lines[i]);
    }
  }

  /** Without a lone CR, the lines and the final newline of a file depend on its canonical
      content alone: an LF and a CRLF checkout of one file are patched alike. */
  lemma {:induction false} ParseOfCanonical(t: string)
    requires NoLoneCR(t)
    ensures Parse(t).lines == Parse(Canonical(t)).lines
    ensures Parse(t).finalNewline == Parse(Canonical(t)).finalNewline
    ensures CleanLines(Parse(t).lines)
  {
    SplitOfCanonical(t);
    SegmentsClean(t);
    StripCleanLines(StripAll(Split(t)));
    assert !EndsCR(t);
    CanonicalIdempotent(t);
    ParseBySegments(t);
    ParseBySegments(Canonical(t));
  }

  lemma {:induction false} SegmentsClean(t: string)
    requires NoLoneCR(t)
    ensures CleanLines(StripAll(Split(t)))
  {
    SplitJoin(t);
    SegmentsCleanJoin(Split(t));
  }

  lemma {:induction false} SegmentsCleanJoin(segments: seq<string>)
    requires segments != [] && NoLF(segments) && NoLoneCR(Join(segments, [LF]))
    ensures CleanLines(StripAll(segments))
  {
    var t, first := Join(segments, [LF]), segments[0];
    forall i | 0 <= i < |first| && first[i] == CR ensures i == |first| - 1 && |segments| > 1 {
      assert t[i] == CR && t[i + 1] == LF;
    }
    assert CleanLine(StripCR(first));
    if |segments| > 1 {
      var rest := segments[1..];
      var u := Join(rest, [LF]);
      forall i | 0 <= i < |u| && u[i] == CR ensures i + 1 < |u| && u[i + 1] == LF {
        assert t[|first| + 1 + i] == CR;
        assert t[|first| + 1 + (i + 1)] == u[i + 1];
      }
      SegmentsCleanJoin(rest);
      assert StripAll(segments) == [StripCR(first)] + StripAll(rest);
    }
  }
}
