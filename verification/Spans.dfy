/**
 `profile_spans` of scripts/ci_build_timings.py: begin and end events become spans with a duration
 and a self time, by a stack that collects the durations of direct children.

 The reference is the forest of spans that a trace describes, whatever the trace: ends without a
 begin are dropped and begins without an end stay open.
 */
module Spans {

  /** Category, name and location of a span. */
  type Tag = (string, string, string)

  datatype Event = Begin(tag: Tag, ts: int) | End(ts: int) | Other

  datatype Span = Span(tag: Tag, duration: int, own: int)

  datatype Frame = Frame(tag: Tag, begin: int, children: int)

  function Clamp(n: int): (r: int) { if n < 0 then 0 else n }

  // ------------------------------------------------------------ the program

  datatype Profile = Profile(spans: seq<Span>, stack: seq<Frame>)

  function Credit(stack: seq<Frame>, duration: int): (r: seq<Frame>)
  {
    if stack == [] then [] else
      var top := stack[|stack| - 1];
      stack[..|stack| - 1] + [top.(children := top.children + duration)]
  }

  function Step(p: Profile, e: Event): (r: Profile)
  {
    match e
    case Other => p
    case Begin(tag, ts) => p.(stack := p.stack + [Frame(tag, ts, 0)])
    case End(ts) =>
      if p.stack == [] then p else
        var top := p.stack[|p.stack| - 1];
        var duration := Clamp(ts - top.begin);
        Profile(p.spans + [Span(top.tag, duration, Clamp(duration - top.children))],
                Credit(p.stack[..|p.stack| - 1], duration))
  }

  /** The variables after the first `n` events. */
  function Run(events: seq<Event>, n: nat): (r: Profile)
    requires n <= |events|
  {
    if n == 0 then Profile([], []) else Step(Run(events, n - 1), events[n - 1])
  }

  /** An end event on a stack that is not empty. */
  method CloseSpan(spans: seq<Span>, stack: seq<Frame>, ts: int) returns (closed: seq<Span>, left: seq<Frame>)
    requires stack != []
    ensures Profile(closed, left) == Step(Profile(spans, stack), End(ts))
  {
    var top := stack[|stack| - 1];
    left := stack[..|stack| - 1];
    var duration := Clamp(ts - top.begin);
    closed := spans + [Span(top.tag, duration, Clamp(duration - top.children))];
    if left != [] {
      var parent := left[|left| - 1];
      left := left[..|left| - 1] + [parent.(children := parent.children + duration)];
    }
  }

  method ProfileSpans(events: seq<Event>) returns (spans: seq<Span>)
    ensures spans == ClosedSpans(Grow(events, |events|))
    ensures spans == Run(events, |events|).spans
  {
    spans := [];
    var stack: seq<Frame> := [];
    for n := 0 to |events|
      invariant Profile(spans, stack) == Run(events, n)
    {
      match events[n] {
        case Other =>
        case Begin(tag, ts) =>
          stack := stack + [Frame(tag, ts, 0)];
        case End(ts) =>
          if stack != [] {
            spans, stack := CloseSpan(spans, stack, ts);
          }
      }
    }
    SpansAreForest(events);
  }

  // -------------------------------------------------------------- the forest

  /** Closed spans side by side, each with the spans inside it. */
  datatype Forest = Nil | Snoc(before: Forest, tag: Tag, begin: int, end: int, kids: Forest)

  datatype OpenSpan = OpenSpan(tag: Tag, begin: int, kids: Forest)

  datatype Growth = Growth(done: Forest, open: seq<OpenSpan>)

  /** A span closes into the span around it, or beside the outermost ones. */
  function Hang(g: Growth, tag: Tag, begin: int, end: int, kids: Forest): (r: Growth)
  {
    if g.open == [] then Growth(Snoc(g.done, tag, begin, end, kids), []) else
      var top := g.open[|g.open| - 1];
      g.(open := g.open[..|g.open| - 1] + [top.(kids := Snoc(top.kids, tag, begin, end, kids))])
  }

  function Rest(g: Growth): (r: Growth)
    requires g.open != []
  {
    g.(open := g.open[..|g.open| - 1])
  }

  function Top(g: Growth): (r: OpenSpan)
    requires g.open != []
  {
    g.open[|g.open| - 1]
  }

  function Sprout(g: Growth, e: Event): (r: Growth)
  {
    match e
    case Other => g
    case Begin(tag, ts) => g.(open := g.open + [OpenSpan(tag, ts, Nil)])
    case End(ts) => if g.open == [] then g else Hang(Rest(g), Top(g).tag, Top(g).begin, ts, Top(g).kids)
  }

  /** The forest that the first `n` events describe. */
  function Grow(events: seq<Event>, n: nat): (r: Growth)
    requires n <= |events|
  {
    if n == 0 then Growth(Nil, []) else Sprout(Grow(events, n - 1), events[n - 1])
  }

  /** The durations of the spans side by side in a forest. */
  function Durations(f: Forest): (r: int)
    ensures r >= 0
  {
    if f.Nil? then 0 else Durations(f.before) + Clamp(f.end - f.begin)
  }

  /** The spans of a forest, inner ones first, as the program reports them. */
  function SpansOf(f: Forest): (r: seq<Span>)
  {
    if f.Nil? then [] else
      var duration := Clamp(f.end - f.begin);
      SpansOf(f.before) + SpansOf(f.kids) + [Span(f.tag, duration, Clamp(duration - Durations(f.kids)))]
  }

  function ClosedSpans(g: Growth): (r: seq<Span>)
    decreases |g.open|
  {
    if g.open == [] then SpansOf(g.done) else ClosedSpans(Rest(g)) + SpansOf(Top(g).kids)
  }

  // ------------------------------------------- the forest is what the trace says

  function Flat(f: Forest): (r: seq<Event>)
  {
    if f.Nil? then [] else Flat(f.before) + [Begin(f.tag, f.begin)] + Flat(f.kids) + [End(f.end)]
  }

  function FlatAll(g: Growth): (r: seq<Event>)
    decreases |g.open|
  {
    if g.open == [] then Flat(g.done)
    else FlatAll(Rest(g)) + [Begin(Top(g).tag, Top(g).begin)] + Flat(Top(g).kids)
  }

  /** How many spans are open after the first `n` events. */
  function Depth(events: seq<Event>, n: nat): (d: nat)
    requires n <= |events|
  {
    if n == 0 then 0 else NextDepth(Depth(events, n - 1), events[n - 1])
  }

  function NextDepth(d: nat, e: Event): (r: nat)
  {
    match e
    case Other => d
    case Begin(_, _) => d + 1
    case End(_) => if d == 0 then 0 else d - 1
  }

  /** The events that count: no others, and no end without a begin. */
  function Kept(events: seq<Event>, n: nat): (r: seq<Event>)
    requires n <= |events|
  {
    if n == 0 then [] else Kept(events, n - 1) + Counts(Depth(events, n - 1), events[n - 1])
  }

  /** The event, if it counts with `depth` spans open. */
  function Counts(depth: nat, e: Event): (r: seq<Event>)
  {
    if e.Other? || (e.End? && depth == 0) then [] else [e]
  }

  lemma {:induction false} HangsOnTop(g: Growth, tag: Tag, begin: int, end: int, kids: Forest)
    requires g.open != []
    ensures var h := Hang(g, tag, begin, end, kids);
            h.open != [] && Rest(h) == Rest(g) && Top(h) == Top(g).(kids := Snoc(Top(g).kids, tag, begin, end, kids))
  {
  }

  lemma {:induction false} FlatHang(g: Growth, tag: Tag, begin: int, end: int, kids: Forest)
    ensures FlatAll(Hang(g, tag, begin, end, kids)) == FlatAll(g) + [Begin(tag, begin)] + Flat(kids) + [End(end)]
    ensures |Hang(g, tag, begin, end, kids).open| == |g.open|
  {
    if g.open != [] {
      HangsOnTop(g, tag, begin, end, kids);
    }
  }

  lemma {:induction false} SproutIsFaithful(g: Growth, e: Event)
    ensures FlatAll(Sprout(g, e)) == FlatAll(g) + Counts(|g.open|, e)
    ensures |Sprout(g, e).open| == NextDepth(|g.open|, e)
  {
    if e.Begin? {
      BeginIsFaithful(g, e);
    } else if e.End? && g.open != [] {
      EndIsFaithful(g, e);
    } else {
      assert FlatAll(g) + [] == FlatAll(g);
    }
  }

  lemma {:induction false} BeginIsFaithful(g: Growth, e: Event)
    requires e.Begin?
    ensures FlatAll(Sprout(g, e)) == FlatAll(g) + [e]
  {
    var h := Sprout(g, e);
    assert Rest(h) == g;
    assert Flat(Nil) == [];
    assert FlatAll(h) == FlatAll(g) + [e] + [];
  }

  lemma {:induction false} EndIsFaithful(g: Growth, e: Event)
    requires e.End? && g.open != []
    ensures FlatAll(Sprout(g, e)) == FlatAll(g) + [e] && |Sprout(g, e).open| == |g.open| - 1
  {
    var top := Top(g);
    FlatHang(Rest(g), top.tag, top.begin, e.ts, top.kids);
  }

  /** Writing the forest out again gives the events that count, and nothing is open exactly when
      every begin has met its end. */
  lemma {:induction false} ForestIsFaithful(events: seq<Event>, n: nat)
    requires n <= |events|
    ensures FlatAll(Grow(events, n)) == Kept(events, n)
    ensures |Grow(events, n).open| == Depth(events, n)
  {
    if n == 0 {
      NothingIsFaithful(events);
    } else {
      ForestIsFaithful(events, n - 1);
      OneMoreIsFaithful(events, n - 1);
    }
  }

  lemma {:induction false} NothingIsFaithful(events: seq<Event>)
    ensures FlatAll(Grow(events, 0)) == Kept(events, 0) && |Grow(events, 0).open| == Depth(events, 0)
  {
  }

  lemma {:induction false} OneMoreIsFaithful(events: seq<Event>, i: nat)
    requires i < |events| && FlatAll(Grow(events, i)) == Kept(events, i) && |Grow(events, i).open| == Depth(events, i)
    ensures FlatAll(Grow(events, i + 1)) == Kept(events, i + 1) && |Grow(events, i + 1).open| == Depth(events, i + 1)
  {
    var g, e := Grow(events, i), events[i];
    SproutIsFaithful(g, e);
    assert Grow(events, i + 1) == Sprout(g, e);
    assert Kept(events, i + 1) == Kept(events, i) + Counts(Depth(events, i), e);
    assert Depth(events, i + 1) == NextDepth(Depth(events, i), e);
  }

  // ---------------------------------------------------- the program computes it

  predicate FrameOf(frame: Frame, open: OpenSpan)
  {
    frame == Frame(open.tag, open.begin, Durations(open.kids))
  }

  predicate Frames(stack: seq<Frame>, open: seq<OpenSpan>)
  {
    |stack| == |open| && forall i :: 0 <= i < |stack| ==> FrameOf(stack[i], open[i])
  }

  predicate Mirrors(p: Profile, g: Growth) { p.spans == ClosedSpans(g) && Frames(p.stack, g.open) }

  lemma {:induction false} CreditFrames(stack: seq<Frame>, g: Growth, tag: Tag, begin: int, end: int, kids: Forest)
    requires Frames(stack, g.open)
    ensures Frames(Credit(stack, Clamp(end - begin)), Hang(g, tag, begin, end, kids).open)
  {
    if stack != [] {
      assert FrameOf(stack[|stack| - 1], Top(g));
    }
  }

  lemma {:induction false} SpansHang(g: Growth, tag: Tag, begin: int, end: int, kids: Forest)
    ensures var duration := Clamp(end - begin);
            ClosedSpans(Hang(g, tag, begin, end, kids))
            == ClosedSpans(g) + SpansOf(kids) + [Span(tag, duration, Clamp(duration - Durations(kids)))]
  {
    if g.open != [] {
      HangsOnTop(g, tag, begin, end, kids);
    }
  }

  function SpanOf(top: OpenSpan, ts: int): (s: Span)
  {
    var duration := Clamp(ts - top.begin);
    Span(top.tag, duration, Clamp(duration - Durations(top.kids)))
  }

  lemma {:induction false} StepSpans(p: Profile, top: OpenSpan, ts: int)
    requires p.stack != [] && FrameOf(p.stack[|p.stack| - 1], top)
    ensures Step(p, End(ts)).spans == p.spans + [SpanOf(top, ts)]
  {
  }

  lemma {:induction false} SproutSpans(g: Growth, ts: int)
    requires g.open != []
    ensures ClosedSpans(Sprout(g, End(ts))) == ClosedSpans(g) + [SpanOf(Top(g), ts)]
  {
    SpansHung(Rest(g), Top(g), ts);
  }

  lemma {:induction false} SpansHung(rest: Growth, top: OpenSpan, ts: int)
    ensures ClosedSpans(Hang(rest, top.tag, top.begin, ts, top.kids))
            == ClosedSpans(rest) + SpansOf(top.kids) + [SpanOf(top, ts)]
  {
    SpansHang(rest, top.tag, top.begin, ts, top.kids);
  }

  lemma {:induction false} EndSpans(p: Profile, g: Growth, ts: int)
    requires Mirrors(p, g) && g.open != []
    ensures Step(p, End(ts)).spans == ClosedSpans(Sprout(g, End(ts)))
  {
    assert FrameOf(p.stack[|p.stack| - 1], Top(g));
    StepSpans(p, Top(g), ts);
    SproutSpans(g, ts);
  }

  lemma {:induction false} EndFrames(p: Profile, g: Growth, ts: int)
    requires Mirrors(p, g) && g.open != []
    ensures Frames(Step(p, End(ts)).stack, Sprout(g, End(ts)).open)
  {
    var top, rest := Top(g), p.stack[..|p.stack| - 1];
    assert FrameOf(p.stack[|p.stack| - 1], top);
    CreditFrames(rest, Rest(g), top.tag, top.begin, ts, top.kids);
  }

  lemma {:induction false} StepMirrors(p: Profile, g: Growth, e: Event)
    requires Mirrors(p, g)
    ensures Mirrors(Step(p, e), Sprout(g, e))
  {
    match e {
      case Other =>
      case Begin(tag, ts) =>
        assert Rest(Sprout(g, e)) == g;
      case End(ts) =>
        if g.open != [] {
          EndSpans(p, g, ts);
          EndFrames(p, g, ts);
        }
    }
  }

  /** On every trace, the spans reported are those of the forest, in order, and the stack holds the
      durations of the children closed so far. */
  lemma {:induction false} RunIsForest(events: seq<Event>, n: nat)
    requires n <= |events|
    ensures Mirrors(Run(events, n), Grow(events, n))
  {
    if n > 0 {
      RunIsForest(events, n - 1);
      StepMirrors(Run(events, n - 1), Grow(events, n - 1), events[n - 1]);
    }
  }

  lemma {:induction false} SpansAreForest(events: seq<Event>)
    ensures Run(events, |events|).spans == ClosedSpans(Grow(events, |events|))
  {
    RunIsForest(events, |events|);
  }

  // -------------------------------------------------------- increasing times

  predicate Timed(e: Event) { !e.Other? }

  /** The times of the trace never go back. */
  predicate Ordered(events: seq<Event>)
  {
    forall i, j :: 0 <= i < j < |events| && Timed(events[i]) && Timed(events[j]) ==> events[i].ts <= events[j].ts
  }

  /** The spans of a forest lie one after the other between two times, each around its children. */
  predicate Nested(f: Forest, from: int, to: int)
  {
    if f.Nil? then from <= to
    else Nested(f.before, from, f.begin) && Nested(f.kids, f.begin, f.end) && f.end <= to
  }

  predicate NestedAll(g: Growth, from: int, to: int)
    decreases |g.open|
  {
    if g.open == [] then Nested(g.done, from, to)
    else NestedAll(Rest(g), from, Top(g).begin) && Nested(Top(g).kids, Top(g).begin, to)
  }

  lemma {:induction false} NestedLater(f: Forest, from: int, to: int, later: int)
    requires Nested(f, from, to) && to <= later
    ensures Nested(f, from, later)
  {
  }

  lemma {:induction false} NestedAllLater(g: Growth, from: int, to: int, later: int)
    requires NestedAll(g, from, to) && to <= later
    ensures NestedAll(g, from, later)
  {
    NestedLater(if g.open == [] then g.done else Top(g).kids, if g.open == [] then from else Top(g).begin, to, later);
  }

  lemma {:induction false} SproutNested(g: Growth, e: Event, from: int, to: int)
    requires NestedAll(g, from, to) && Timed(e) && to <= e.ts
    ensures NestedAll(Sprout(g, e), from, e.ts)
  {
    NestedAllLater(g, from, to, e.ts);
    match e {
      case Begin(tag, ts) =>
        assert Rest(Sprout(g, e)) == g;
      case End(ts) =>
        if g.open != [] && Rest(g).open != [] {
          assert Rest(Sprout(g, e)) == Rest(Rest(g));
        }
    }
  }

  /** The latest time among the first `n` events. */
  function Latest(events: seq<Event>, n: nat, from: int): (t: int)
    requires n <= |events|
  {
    if n == 0 then from else if Timed(events[n - 1]) then events[n - 1].ts else Latest(events, n - 1, from)
  }

  lemma {:induction false} LatestIsEarlier(events: seq<Event>, n: nat, from: int, k: nat)
    requires Ordered(events) && n <= k < |events| && Timed(events[k])
    requires forall i :: 0 <= i < |events| && Timed(events[i]) ==> from <= events[i].ts
    ensures Latest(events, n, from) <= events[k].ts
  {
    if n > 0 && !Timed(events[n - 1]) {
      LatestIsEarlier(events, n - 1, from, k);
    }
  }

  lemma {:induction false} Earliest(events: seq<Event>, n: nat) returns (from: int)
    requires n <= |events|
    ensures forall i :: 0 <= i < n && Timed(events[i]) ==> from <= events[i].ts
  {
    if n == 0 {
      from := 0;
    } else {
      from := Earliest(events, n - 1);
      if Timed(events[n - 1]) && events[n - 1].ts < from {
        from := events[n - 1].ts;
      }
    }
  }

  lemma {:induction false} GrowNested(events: seq<Event>, n: nat, from: int)
    requires Ordered(events) && n <= |events|
    requires forall i :: 0 <= i < |events| && Timed(events[i]) ==> from <= events[i].ts
    ensures NestedAll(Grow(events, n), from, Latest(events, n, from))
  {
    if n > 0 {
      GrowNested(events, n - 1, from);
      var e := events[n - 1];
      if Timed(e) {
        LatestIsEarlier(events, n - 1, from, n - 1);
        SproutNested(Grow(events, n - 1), e, from, Latest(events, n - 1, from));
      }
    }
  }

  // -------------------------------------------------------------- conservation

  function TotalOwn(spans: seq<Span>): (r: int)
  {
    if spans == [] then 0 else TotalOwn(spans[..|spans| - 1]) + spans[|spans| - 1].own
  }

  lemma {:induction false} TotalOwnConcat(a: seq<Span>, b: seq<Span>)
    ensures TotalOwn(a + b) == TotalOwn(a) + TotalOwn(b)
  {
    if b == [] {
      assert a + b == a;
    } else {
      TotalOwnConcat(a, b[..|b| - 1]);
      assert (a + b)[..|a + b| - 1] == a + b[..|b| - 1];
    }
  }

  /** The spans of a forest without any clamp: end minus begin, and that minus the direct children. */
  function ExactSpans(f: Forest): (r: seq<Span>)
  {
    if f.Nil? then [] else
      ExactSpans(f.before) + ExactSpans(f.kids)
      + [Span(f.tag, f.end - f.begin, f.end - f.begin - Lengths(f.kids))]
  }

  function Lengths(f: Forest): (r: int)
  {
    if f.Nil? then 0 else Lengths(f.before) + (f.end - f.begin)
  }

  lemma {:induction false} NestedIsExact(f: Forest, from: int, to: int)
    requires Nested(f, from, to)
    ensures from <= to && Durations(f) == Lengths(f) <= to - from
    ensures SpansOf(f) == ExactSpans(f)
  {
    if f.Snoc? {
      NestedIsExact(f.before, from, f.begin);
      NestedIsExact(f.kids, f.begin, f.end);
    }
  }

  lemma {:induction false} OwnTimesAddUp(f: Forest)
    ensures TotalOwn(ExactSpans(f)) == Lengths(f)
  {
    if f.Snoc? {
      OwnTimesAddUp(f.before);
      OwnTimesAddUp(f.kids);
      var before, kids := ExactSpans(f.before), ExactSpans(f.kids);
      var last := ExactSpans(f)[|before| + |kids|..];
      TotalOwnConcat(before, kids);
      TotalOwnConcat(before + kids, last);
      assert last[..0] == [];
    }
  }

  function ExactClosed(g: Growth): (r: seq<Span>)
    decreases |g.open|
  {
    if g.open == [] then ExactSpans(g.done) else ExactClosed(Rest(g)) + ExactSpans(Top(g).kids)
  }

  /** The durations of the closed spans that no closed span surrounds. */
  function OutermostLengths(g: Growth): (r: int)
    decreases |g.open|
  {
    if g.open == [] then Lengths(g.done) else OutermostLengths(Rest(g)) + Lengths(Top(g).kids)
  }

  lemma {:induction false} GrowthIsExact(g: Growth, from: int, to: int)
    requires NestedAll(g, from, to)
    ensures ClosedSpans(g) == ExactClosed(g) && TotalOwn(ExactClosed(g)) == OutermostLengths(g)
    decreases |g.open|
  {
    if g.open == [] {
      NestedIsExact(g.done, from, to);
      OwnTimesAddUp(g.done);
    } else {
      GrowthIsExact(Rest(g), from, Top(g).begin);
      NestedIsExact(Top(g).kids, Top(g).begin, to);
      OwnTimesAddUp(Top(g).kids);
      TotalOwnConcat(ExactClosed(Rest(g)), ExactSpans(Top(g).kids));
    }
  }

  /** On every trace whose times never go back, no clamp fires: each span reports its true duration
      and that less its direct children's; and the self times add up to the durations of the
      outermost closed spans. */
  lemma {:induction false} SelfTimeConservation(events: seq<Event>)
    requires Ordered(events)
    ensures var spans := Run(events, |events|).spans;
            var g := Grow(events, |events|);
            spans == ExactClosed(g) && TotalOwn(spans) == OutermostLengths(g)
  {
    RunIsForest(events, |events|);
    var from := Earliest(events, |events|);
    GrowNested(events, |events|, from);
    GrowthIsExact(Grow(events, |events|), from, Latest(events, |events|, from));
  }
}
