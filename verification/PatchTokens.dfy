/**
 The tokens of a unified diff, as build_support/vendor_patches.rs reads them: the path of a file
 header and the four numbers of a hunk header.  A char stands for one byte; paths are Unix paths.
 */
module PatchTokens {
  import opened Options

  datatype Fault =
    | NewHeaderAlone | PathsDiffer | HunkAlone | EmptyHunkLine | BadMarker | WrongCounts | NoHunks | NoFiles
    | UnsupportedPath | UnsafePath | BadHeader | IncompleteHeader | BadRange | BadStart | BadCount

  predicate StartsWith(s: string, prefix: string) { |prefix| <= |s| && s[..|prefix|] == prefix }

  // ------------------------------------------------------------------ words

  /** The five ASCII whitespace characters. */
  predicate Space(c: char) { c == ' ' || c == '\t' || c == '\n' || c == '\U{c}' || c == '\r' }

  predicate Solid(s: string) { forall i :: 0 <= i < |s| ==> !Space(s[i]) }

  function SkipSpaces(s: string): (r: string)
    ensures r == "" || !Space(r[0])
  {
    if s != "" && Space(s[0]) then SkipSpaces(s[1..]) else s
  }

  /** The length of the leading word. */
  function WordLength(s: string): (n: nat)
    ensures n <= |s| && Solid(s[..n])
    ensures n < |s| ==> Space(s[n])
  {
    if s == "" || Space(s[0]) then 0 else 1 + WordLength(s[1..])
  }

  /** The next item of `split_ascii_whitespace`; empty when there is none. */
  function FirstWord(s: string): (r: string)
    ensures Solid(r)
  {
    var t := SkipSpaces(s);
    t[..WordLength(t)]
  }

  function AfterWord(s: string): (r: string)
  {
    var t := SkipSpaces(s);
    t[WordLength(t)..]
  }

  lemma {:induction false} WordThenSpace(word: string, rest: string)
    requires Solid(word) && (rest == "" || Space(rest[0]))
    ensures WordLength(word + rest) == |word|
  {
    var s := word + rest;
    if word == "" {
      assert s == rest;
    } else {
      WordThenSpace(word[1..], rest);
      assert s[0] == word[0] && s[1..] == word[1..] + rest;
    }
  }

  lemma {:induction false} WordIsFirst(word: string, rest: string)
    requires Solid(word) && word != "" && (rest == "" || Space(rest[0]))
    ensures FirstWord(word + rest) == word && AfterWord(word + rest) == rest
    ensures FirstWord(" " + word + rest) == word && AfterWord(" " + word + rest) == rest
  {
    WordThenSpace(word, rest);
    var s := word + rest;
    assert s[0] == word[0];
    assert SkipSpaces(s) == s;
    var t := " " + word + rest;
    assert t[0] == ' ' && t[1..] == s;
    assert SkipSpaces(t) == s;
  }

  // ------------------------------------------------------------------ paths

  function SplitAt(s: string, sep: char): (r: seq<string>)
    ensures r != []
  {
    if s == "" then [""]
    else if s[0] == sep then [""] + SplitAt(s[1..], sep)
    else var r := SplitAt(s[1..], sep); [[s[0]] + r[0]] + r[1..]
  }

  function DropDots(names: seq<string>): (r: seq<string>)
  {
    if names == [] then []
    else if names[0] == "" || names[0] == "." then DropDots(names[1..])
    else [names[0]] + DropDots(names[1..])
  }

  /** `Path::components` of a relative path: empty and inner `.` components vanish, a leading `.`
      stays.  Two `PathBuf`s are equal when these are. */
  function Components(path: string): (r: seq<string>)
  {
    var names := SplitAt(path, '/');
    if names[0] == "." then ["."] + DropDots(names[1..]) else DropDots(names)
  }

  predicate SafePath(path: string)
  {
    path != "" && path[0] != '/' && ".." !in Components(path)
  }

  /** `parse_diff_path`. */
  function ParsePath(raw: string, prefix: string): (r: Result<string, Fault>)
    ensures r.Ok? ==> SafePath(r.value) && Solid(r.value)
  {
    var token := FirstWord(raw);
    if !StartsWith(token, prefix) then Err(UnsupportedPath)
    else if !SafePath(token[|prefix|..]) then Err(UnsafePath)
    else Ok(token[|prefix|..])
  }

  lemma {:induction false} ParsePrintedPath(path: string, prefix: string)
    requires SafePath(path) && Solid(path) && Solid(prefix)
    ensures ParsePath(prefix + path, prefix) == Ok(path)
  {
    var token := prefix + path;
    WordThenSpace(token, "");
    assert token + "" == token;
    assert !Space(token[0]);
    assert SkipSpaces(token) == token;
    assert token[|prefix|..] == path;
  }

  // ---------------------------------------------------------------- numbers

  const USIZE_LIMIT: nat := 0x1_0000_0000_0000_0000

  predicate Digit(c: char) { '0' <= c <= '9' }

  predicate Digits(s: string) { forall i :: 0 <= i < |s| ==> Digit(s[i]) }

  function DigitValue(c: char): (n: nat)
    requires Digit(c)
    ensures n < 10
  {
    (c - '0') as nat
  }

  function Value(s: string): (n: nat)
    requires Digits(s)
  {
    if s == "" then 0 else 10 * Value(s[..|s| - 1]) + DigitValue(s[|s| - 1])
  }

  /** `str::parse::<usize>`: one leading `+` is allowed, then at least one digit. */
  function ParseNumber(s: string): (r: Option<nat>)
    ensures r.Some? ==> r.value < USIZE_LIMIT
  {
    var digits := if s != "" && s[0] == '+' then s[1..] else s;
    if digits == "" || !Digits(digits) || Value(digits) >= USIZE_LIMIT then None else Some(Value(digits))
  }

  function Decimal(n: nat): (r: string)
    ensures r != "" && Digits(r)
  {
    if n < 10 then ['0' + n as char] else Decimal(n / 10) + ['0' + (n % 10) as char]
  }

  lemma {:induction false} ValueOfDecimal(n: nat)
    ensures Value(Decimal(n)) == n
  {
    var s := Decimal(n);
    if n < 10 {
      assert s[..|s| - 1] == "";
    } else {
      ValueOfDecimal(n / 10);
      assert s[..|s| - 1] == Decimal(n / 10);
    }
  }

  lemma {:induction false} ParseDecimal(n: nat)
    requires n < USIZE_LIMIT
    ensures ParseNumber(Decimal(n)) == Some(n)
  {
    ValueOfDecimal(n);
    assert Digit(Decimal(n)[0]);
  }

  // ----------------------------------------------------------------- ranges

  /** The index of the first `c`, or the length. */
  function Find(s: string, c: char): (n: nat)
    ensures n <= |s| && c !in s[..n]
    ensures n < |s| ==> s[n] == c
  {
    if s == "" || s[0] == c then 0 else
      var n := 1 + Find(s[1..], c);
      assert s[..n] == [s[0]] + s[1..][..n - 1];
      n
  }

  datatype Range = Range(start: nat, count: nat)

  /** `parse_range`: a missing count is one. */
  function ParseRange(token: string, marker: char): (r: Result<Range, Fault>)
    ensures r.Ok? ==> r.value.start < USIZE_LIMIT && r.value.count < USIZE_LIMIT
  {
    if token == "" || token[0] != marker then Err(BadRange) else
      var range := token[1..];
      var comma := Find(range, ',');
      var start := ParseNumber(range[..comma]);
      var count := ParseNumber(if comma < |range| then range[comma + 1..] else "1");
      if start.None? then Err(BadStart)
      else if count.None? then Err(BadCount)
      else Ok(Range(start.value, count.value))
  }

  /** A range as diff tools write it; the terse form leaves out a count of one. */
  function PrintRange(r: Range, marker: char, terse: bool): (s: string)
  {
    [marker] + Decimal(r.start) + PrintCount(r.count, terse)
  }

  function PrintCount(count: nat, terse: bool): (s: string)
  {
    if terse && count == 1 then "" else "," + Decimal(count)
  }

  lemma {:induction false} FindAfter(s: string, c: char, rest: string)
    requires c !in s
    ensures Find(s + [c] + rest, c) == |s|
  {
    var t := s + [c] + rest;
    if s == "" {
      assert t[0] == c;
    } else {
      FindAfter(s[1..], c, rest);
      assert t[0] == s[0] && t[1..] == s[1..] + [c] + rest;
    }
  }

  lemma {:induction false} FindNone(s: string, c: char)
    requires c !in s
    ensures Find(s, c) == |s|
  {
  }

  lemma {:induction false} ParseCounted(start: string, count: string, r: Range, marker: char)
    requires ',' !in start && ParseNumber(start) == Some(r.start) && ParseNumber(count) == Some(r.count)
    ensures ParseRange([marker] + (start + [','] + count), marker) == Ok(r)
  {
    var range := start + [','] + count;
    assert ([marker] + range)[1..] == range;
    FindAfter(start, ',', count);
    assert range[..|start|] == start && range[|start| + 1..] == count;
  }

  lemma {:induction false} ParseUncounted(start: string, r: Range, marker: char)
    requires ',' !in start && ParseNumber(start) == Some(r.start) && r.count == 1
    ensures ParseRange([marker] + start, marker) == Ok(r)
  {
    assert ([marker] + start)[1..] == start;
    FindNone(start, ',');
    assert start[..|start|] == start;
    assert Value("1") == 1;
  }

  lemma {:induction false} ParsePrintedRange(r: Range, marker: char, terse: bool)
    requires r.start < USIZE_LIMIT && r.count < USIZE_LIMIT
    ensures ParseRange(PrintRange(r, marker, terse), marker) == Ok(r)
  {
    var start, count := Decimal(r.start), Decimal(r.count);
    ParseDecimal(r.start);
    NoComma(start);
    if terse && r.count == 1 {
      ParseUncounted(start, r, marker);
      NoCount([marker] + start);
    } else {
      ParseDecimal(r.count);
      ParseCounted(start, count, r, marker);
      AfterComma(marker, start, count);
    }
  }

  lemma {:induction false} NoComma(s: string)
    requires Digits(s)
    ensures ',' !in s
  {
  }

  lemma {:induction false} NoCount(s: string)
    ensures s + "" == s
  {
  }

  lemma {:induction false} AfterComma(marker: char, start: string, count: string)
    ensures [marker] + start + ("," + count) == [marker] + (start + [','] + count)
  {
  }

  /** What the characters of a printed range are not. */
  lemma {:induction false} PrintedRangeIsSolid(r: Range, marker: char, terse: bool)
    requires marker == '-' || marker == '+'
    ensures Solid(PrintRange(r, marker, terse)) && '@' !in PrintRange(r, marker, terse)
    ensures PrintRange(r, marker, terse) != "" && '\n' !in PrintRange(r, marker, terse)
  {
    var start, count := Decimal(r.start), Decimal(r.count);
    var s := PrintRange(r, marker, terse);
    forall i | 0 <= i < |s|
      ensures !Space(s[i]) && s[i] != '@'
    {
      assert s[i] == marker || s[i] == ',' || s[i] in start || s[i] in count;
    }
  }

  // ----------------------------------------------------------- hunk headers

  datatype Header = Header(before: Range, after: Range)

  predicate Fits(h: Header)
  {
    && h.before.start < USIZE_LIMIT && h.before.count < USIZE_LIMIT
    && h.after.start < USIZE_LIMIT && h.after.count < USIZE_LIMIT
  }

  /** The index of the first `@@`, or the length. */
  function FindMarker(s: string): (n: nat)
    ensures n <= |s|
  {
    if s == "" || StartsWith(s, "@@") then 0 else 1 + FindMarker(s[1..])
  }

  /** The text between the two `@@`. */
  function ParseRanges(ranges: string): (r: Result<Header, Fault>)
    ensures r.Ok? ==> Fits(r.value)
  {
    var before := FirstWord(ranges);
    var after := FirstWord(AfterWord(ranges));
    if before == "" || after == "" then Err(IncompleteHeader) else
      var b := ParseRange(before, '-');
      var a := ParseRange(after, '+');
      if b.Err? then Err(b.error) else if a.Err? then Err(a.error) else Ok(Header(b.value, a.value))
  }

  /** `parse_hunk_header`, for a line that starts with `@@`. */
  function ParseHeader(line: string): (r: Result<Header, Fault>)
    requires StartsWith(line, "@@")
    ensures r.Ok? ==> Fits(r.value)
  {
    var tail := line[2..];
    var n := FindMarker(tail);
    if n == |tail| then Err(BadHeader) else ParseRanges(tail[..n])
  }

  /** A hunk header, with whatever section heading follows it. */
  function PrintHeader(h: Header, terse: bool, section: string): (r: string)
    ensures StartsWith(r, "@@")
  {
    "@@" + Ranges(h, terse) + "@@" + section
  }

  function Ranges(h: Header, terse: bool): (r: string)
  {
    " " + PrintRange(h.before, '-', terse) + (" " + PrintRange(h.after, '+', terse) + " ")
  }

  lemma {:induction false} MarkerAfter(s: string, rest: string)
    requires '@' !in s
    ensures FindMarker(s + "@@" + rest) == |s|
  {
    var t := s + "@@" + rest;
    if s == "" {
      assert t[..2] == "@@";
    } else {
      assert t[0] == s[0];
      assert t[1..] == s[1..] + "@@" + rest;
      MarkerAfter(s[1..], rest);
    }
  }

  lemma {:induction false} PrintedWords(h: Header, terse: bool)
    ensures '@' !in Ranges(h, terse) && '\n' !in Ranges(h, terse)
    ensures FirstWord(Ranges(h, terse)) == PrintRange(h.before, '-', terse)
    ensures FirstWord(AfterWord(Ranges(h, terse))) == PrintRange(h.after, '+', terse)
  {
    PrintedRangeIsSolid(h.before, '-', terse);
    PrintedRangeIsSolid(h.after, '+', terse);
    TwoWords(PrintRange(h.before, '-', terse), PrintRange(h.after, '+', terse));
  }

  lemma {:induction false} TwoWords(before: string, after: string)
    requires Solid(before) && Solid(after) && before != "" && after != ""
    requires '@' !in before && '@' !in after && '\n' !in before && '\n' !in after
    ensures var s := " " + before + (" " + after + " ");
            && '@' !in s && '\n' !in s && FirstWord(s) == before && FirstWord(AfterWord(s)) == after
  {
    WordIsFirst(after, " ");
    WordIsFirst(before, " " + after + " ");
  }

  lemma {:induction false} ParsePrintedRanges(h: Header, terse: bool)
    requires Fits(h)
    ensures ParseRanges(Ranges(h, terse)) == Ok(h)
  {
    PrintedWords(h, terse);
    ParsePrintedRange(h.before, '-', terse);
    ParsePrintedRange(h.after, '+', terse);
  }

  lemma {:induction false} RangesOfHeader(ranges: string, section: string)
    requires '@' !in ranges
    ensures StartsWith("@@" + ranges + "@@" + section, "@@")
    ensures ParseHeader("@@" + ranges + "@@" + section) == ParseRanges(ranges)
  {
    var line := "@@" + ranges + "@@" + section;
    MarkerAfter(ranges, section);
    assert line[2..] == ranges + "@@" + section;
    assert line[2..][..|ranges|] == ranges;
  }

  lemma {:induction false} ParsePrintedHeader(h: Header, terse: bool, section: string)
    requires Fits(h)
    ensures ParseHeader(PrintHeader(h, terse, section)) == Ok(h)
  {
    PrintedWords(h, terse);
    ParsePrintedRanges(h, terse);
    RangesOfHeader(Ranges(h, terse), section);
  }
}
