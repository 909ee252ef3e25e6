/**
 The constraint search of scripts/check_syn038_pairwise_manifest.py:
 `find_support` completes a partial factor vector, axis by axis in search order,
 checking every active rule on each partial vector on the way; and
 `impossible_rules` explains by deletion why no completion exists.  Factor table,
 search order and rules are arbitrary.
 */
module Support {
  import opened Options

  type Vector<!A(==), V> = map<A, V>

  datatype Rule<!A(==), !V> = Rule(name: string, check: Vector<A, V> -> bool)

  /** The factor levels, the search order, and the levels outside the profile (`core`). */
  datatype Problem<!A(==), !V> = Problem(table: map<A, seq<V>>, order: seq<A>, banned: (A, V) -> bool)

  predicate Holds<A, V>(rules: seq<Rule<A, V>>, v: Vector<A, V>)
  {
    forall i :: 0 <= i < |rules| ==> rules[i].check(v)
  }

  // --------------------------------------------------------------- the search

  /** `search(index)`: complete `a` from axis `n` of the search order on. */
  function SearchFrom<A, V>(p: Problem<A, V>, rules: seq<Rule<A, V>>, a: Vector<A, V>, n: nat): (r: Option<Vector<A, V>>)
    requires n <= |p.order|
    decreases |p.order| - n, 1, 0
  {
    if n == |p.order| then Some(a)
    else if p.order[n] in a then SearchFrom(p, rules, a, n + 1)
    else if p.order[n] !in p.table then None
    else TryFrom(p, rules, a, n, 0)
  }

  /** The loop over the levels of axis `n`, from level `k` on. */
  function TryFrom<A, V>(p: Problem<A, V>, rules: seq<Rule<A, V>>, a: Vector<A, V>, n: nat, k: nat): (r: Option<Vector<A, V>>)
    requires n < |p.order| && p.order[n] in p.table && k <= |p.table[p.order[n]]|
    decreases |p.order| - n, 0, |p.table[p.order[n]]| - k
  {
    var key := p.order[n];
    if k == |p.table[key]| then None
    else
      var value := p.table[key][k];
      if p.banned(key, value) || !Holds(rules, a[key := value]) then TryFrom(p, rules, a, n, k + 1)
      else
        match SearchFrom(p, rules, a[key := value], n + 1)
        case Some(v) => Some(v)
        case None => TryFrom(p, rules, a, n, k + 1)
  }

  predicate Clean<A, V>(p: Problem<A, V>, a: Vector<A, V>) { forall k :: k in a ==> !p.banned(k, a[k]) }

  /** `find_support`. */
  function FindSupport<A, V>(p: Problem<A, V>, rules: seq<Rule<A, V>>, fixed: Vector<A, V>): (r: Option<Vector<A, V>>)
  {
    if Clean(p, fixed) && Holds(rules, fixed) then SearchFrom(p, rules, fixed, 0) else None
  }

  /** The source deletes the key of an axis after its loop, so every axis must have set it. */
  predicate Populated<A, V>(p: Problem<A, V>) { forall n :: 0 <= n < |p.order| ==> PopulatedAt(p, p.order[n]) }

  predicate PopulatedAt<A, V>(p: Problem<A, V>, key: A)
  {
    key in p.table && exists k :: 0 <= k < |p.table[key]| && !p.banned(key, p.table[key][k])
  }

  /** The search as the source runs it: one assignment, changed in place and put back. */
  class Searcher<A(==), V> {
    const p: Problem<A, V>
    const rules: seq<Rule<A, V>>
    var assignment: Vector<A, V>

    constructor (p: Problem<A, V>, rules: seq<Rule<A, V>>, fixed: Vector<A, V>)
      ensures this.p == p && this.rules == rules && assignment == fixed
    {
      this.p, this.rules, this.assignment := p, rules, fixed;
    }

    method Search(n: nat) returns (r: Option<Vector<A, V>>)
      requires n <= |p.order| && Populated(p)
      modifies this
      ensures r == SearchFrom(p, rules, old(assignment), n)
      ensures assignment == old(assignment)
      decreases |p.order| - n
    {
      if n == |p.order| {
        return Some(assignment);
      }
      var key := p.order[n];
      if key in assignment {
        r := Search(n + 1);
        return;
      }
      ghost var before := assignment;
      var values := p.table[key];
      for k := 0 to |values|
        invariant key in assignment ==> assignment == before[key := assignment[key]]
        invariant key !in assignment ==> assignment == before
        invariant (exists j :: 0 <= j < k && !p.banned(key, values[j])) ==> key in assignment
        invariant SearchFrom(p, rules, before, n) == TryFrom(p, rules, before, n, k)
      {
        if p.banned(key, values[k]) {
          continue;
        }
        assignment := assignment[key := values[k]];
        assert assignment == before[key := values[k]];
        if Holds(rules, assignment) {
          r := Search(n + 1);
          if r.Some? {
            assignment := assignment - {key};
            assert assignment == before;
            return;
          }
        }
      }
      assert key in assignment;
      assignment := assignment - {key};
      assert assignment == before;
      return None;
    }
  }

  method RunSearch<A, V>(p: Problem<A, V>, rules: seq<Rule<A, V>>, fixed: Vector<A, V>) returns (r: Option<Vector<A, V>>)
    requires Populated(p)
    ensures r == FindSupport(p, rules, fixed)
  {
    if exists k :: k in fixed && p.banned(k, fixed[k]) {
      return None;
    }
    if !Holds(rules, fixed) {
      return None;
    }
    var searcher := new Searcher(p, rules, fixed);
    r := searcher.Search(0);
  }

  // ------------------------------------------------- what a support is

  /** The axes at positions `n` to `i - 1` of the search order. */
  function Axes<A>(order: seq<A>, n: nat, i: nat): (r: set<A>)
    requires i <= |order|
  {
    set j | n <= j < i :: order[j]
  }

  function Restrict<A, V>(v: Vector<A, V>, axes: set<A>): (r: Vector<A, V>) { map k | k in v && k in axes :: v[k] }

  predicate Extends<A, V(==)>(v: Vector<A, V>, a: Vector<A, V>) { forall k :: k in a ==> k in v && v[k] == a[k] }

  /** `v` completes `a` on the axes from position `n` on, with levels of the table inside the profile. */
  predicate Completes<A, V(==)>(p: Problem<A, V>, a: Vector<A, V>, n: nat, v: Vector<A, V>)
    requires n <= |p.order|
  {
    && v.Keys == a.Keys + Axes(p.order, n, |p.order|)
    && Extends(v, a)
    && forall k :: k in v && k !in a ==> k in p.table && v[k] in p.table[k] && !p.banned(k, v[k])
  }

  /** The partial vector of the search once the axes before position `i` are set. */
  function StepOf<A, V>(p: Problem<A, V>, a: Vector<A, V>, n: nat, v: Vector<A, V>, i: nat): (r: Vector<A, V>)
    requires i <= |p.order|
  {
    Restrict(v, a.Keys + Axes(p.order, n, i))
  }

  /** The rules hold on every partial vector on the way from `a` to `v` in search order. */
  predicate Trail<A, V>(p: Problem<A, V>, rules: seq<Rule<A, V>>, a: Vector<A, V>, n: nat, v: Vector<A, V>)
    requires n <= |p.order|
  {
    forall i :: n < i <= |p.order| ==> Holds(rules, StepOf(p, a, n, v, i))
  }

  predicate SupportFrom<A, V(==)>(p: Problem<A, V>, rules: seq<Rule<A, V>>, a: Vector<A, V>, n: nat, v: Vector<A, V>)
    requires n <= |p.order|
  {
    Completes(p, a, n, v) && Trail(p, rules, a, n, v)
  }

  /** A support of `fixed`: a complete vector that the rules admit at every step, starting with
      `fixed` itself. */
  predicate Supports<A, V(==)>(p: Problem<A, V>, rules: seq<Rule<A, V>>, fixed: Vector<A, V>, v: Vector<A, V>)
  {
    Clean(p, fixed) && Holds(rules, fixed) && SupportFrom(p, rules, fixed, 0, v)
  }

  lemma {:induction false} AxesStep<A>(order: seq<A>, n: nat, i: nat)
    requires n < i <= |order|
    ensures Axes(order, n, i) == {order[n]} + Axes(order, n + 1, i)
  {
  }

  lemma {:induction false} RestrictToSelf<A, V>(v: Vector<A, V>, a: Vector<A, V>)
    requires forall k :: k in a ==> k in v && v[k] == a[k]
    ensures Restrict(v, a.Keys) == a
  {
  }

  /** Skipping an axis that is already set. */
  lemma {:induction false} SkipAxis<A, V>(p: Problem<A, V>, rules: seq<Rule<A, V>>, a: Vector<A, V>, n: nat, v: Vector<A, V>)
    requires n < |p.order| && p.order[n] in a && Holds(rules, a)
    ensures SupportFrom(p, rules, a, n, v) <==> SupportFrom(p, rules, a, n + 1, v)
  {
    AxesStep(p.order, n, |p.order|);
    assert a.Keys + Axes(p.order, n, |p.order|) == a.Keys + Axes(p.order, n + 1, |p.order|);
    if Extends(v, a) {
      forall i | n < i <= |p.order| ensures StepOf(p, a, n, v, i) == StepOf(p, a, n + 1, v, i) {
        AxesStep(p.order, n, i);
        assert a.Keys + Axes(p.order, n, i) == a.Keys + Axes(p.order, n + 1, i);
      }
      FirstStep(p, a, n + 1, v);
      TrailFrom(p, rules, a, n, v, a);
    }
  }

  lemma {:induction false} FirstStep<A, V>(p: Problem<A, V>, a: Vector<A, V>, n: nat, v: Vector<A, V>)
    requires n <= |p.order| && forall k :: k in a ==> k in v && v[k] == a[k]
    ensures StepOf(p, a, n, v, n) == a
  {
    assert a.Keys + Axes(p.order, n, n) == a.Keys;
    RestrictToSelf(v, a);
  }

  /** The fixed part and the trail, from what the rules say of each step. */
  lemma {:induction false} TrailIs<A, V>(
      p: Problem<A, V>, rules: seq<Rule<A, V>>, fixed: Vector<A, V>, v: Vector<A, V>, calm: int -> bool)
    requires Extends(v, fixed)
    requires forall i :: 0 <= i <= |p.order| ==> (Holds(rules, StepOf(p, fixed, 0, v, i)) <==> calm(i))
    ensures Holds(rules, fixed) && Trail(p, rules, fixed, 0, v) <==> forall i :: 0 <= i <= |p.order| ==> calm(i)
  {
    FirstStep(p, fixed, 0, v);
  }

  /** The trail from `n` is its first step and the trail from `n + 1`. */
  lemma {:induction false} TrailFrom<A, V>(
      p: Problem<A, V>, rules: seq<Rule<A, V>>, a: Vector<A, V>, n: nat, v: Vector<A, V>, a': Vector<A, V>)
    requires n < |p.order|
    requires forall i :: n < i <= |p.order| ==> StepOf(p, a, n, v, i) == StepOf(p, a', n + 1, v, i)
    requires StepOf(p, a', n + 1, v, n + 1) == a'
    ensures Trail(p, rules, a, n, v) <==> Holds(rules, a') && Trail(p, rules, a', n + 1, v)
  {
    assert StepOf(p, a, n, v, n + 1) == a';
    if Holds(rules, a') && Trail(p, rules, a', n + 1, v) {
      forall i | n < i <= |p.order| ensures Holds(rules, StepOf(p, a, n, v, i)) {
        if i > n + 1 { assert Holds(rules, StepOf(p, a', n + 1, v, i)); }
      }
    }
    if Trail(p, rules, a, n, v) {
      var m := n + 1;
      forall i | m < i <= |p.order| ensures Holds(rules, StepOf(p, a', m, v, i)) {
        assert Holds(rules, StepOf(p, a, n, v, i));
      }
    }
  }

  lemma {:induction false} SameSteps<A, V>(p: Problem<A, V>, a: Vector<A, V>, n: nat, v: Vector<A, V>, a': Vector<A, V>)
    requires n < |p.order| && a'.Keys == a.Keys + {p.order[n]}
    ensures forall i :: n < i <= |p.order| ==> StepOf(p, a, n, v, i) == StepOf(p, a', n + 1, v, i)
  {
    forall i | n < i <= |p.order| ensures StepOf(p, a, n, v, i) == StepOf(p, a', n + 1, v, i) {
      AxesStep(p.order, n, i);
      assert a.Keys + Axes(p.order, n, i) == a'.Keys + Axes(p.order, n + 1, i);
    }
  }

  lemma {:induction false} CompletesAxis<A, V>(p: Problem<A, V>, a: Vector<A, V>, n: nat, v: Vector<A, V>)
    requires n < |p.order| && p.order[n] !in a
    ensures Completes(p, a, n, v)
            <==> && p.order[n] in v && p.order[n] in p.table && v[p.order[n]] in p.table[p.order[n]]
                 && !p.banned(p.order[n], v[p.order[n]])
                 && Completes(p, a[p.order[n] := v[p.order[n]]], n + 1, v)
  {
    AxesStep(p.order, n, |p.order|);
    if p.order[n] in v {
      assert a[p.order[n] := v[p.order[n]]].Keys == a.Keys + {p.order[n]};
    }
  }

  /** Setting the next axis to the level that `v` has there. */
  lemma {:induction false} SetAxis<A, V>(p: Problem<A, V>, rules: seq<Rule<A, V>>, a: Vector<A, V>, n: nat, v: Vector<A, V>)
    requires n < |p.order| && p.order[n] !in a
    ensures SupportFrom(p, rules, a, n, v)
            <==> && p.order[n] in v && p.order[n] in p.table && v[p.order[n]] in p.table[p.order[n]]
                 && !p.banned(p.order[n], v[p.order[n]])
                 && Holds(rules, a[p.order[n] := v[p.order[n]]])
                 && SupportFrom(p, rules, a[p.order[n] := v[p.order[n]]], n + 1, v)
  {
    var key := p.order[n];
    CompletesAxis(p, a, n, v);
    if Completes(p, a, n, v) {
      var a' := a[key := v[key]];
      SameSteps(p, a, n, v, a');
      FirstStep(p, a', n + 1, v);
      TrailFrom(p, rules, a, n, v, a');
    }
  }

  // ------------------------------------------- the search finds the first support

  /** Where a level first stands in the table. */
  function Rank<V(==)>(levels: seq<V>, x: V): (k: nat)
    requires x in levels
    ensures k < |levels| && levels[k] == x && forall j :: 0 <= j < k ==> levels[j] != x
  {
    if levels[0] == x then 0 else 1 + Rank(levels[1..], x)
  }

  /** `v` is `w`, or has the earlier level at the first axis, in search order from `n`, where they differ. */
  predicate NotAfter<A, V(==)>(p: Problem<A, V>, n: nat, v: Vector<A, V>, w: Vector<A, V>)
    requires n <= |p.order|
    decreases |p.order| - n
  {
    if n == |p.order| then v == w
    else
      var key := p.order[n];
      if key in v && key in w && v[key] == w[key] then NotAfter(p, n + 1, v, w)
      else key in v && key in w && key in p.table && v[key] in p.table[key] && w[key] in p.table[key]
           && Rank(p.table[key], v[key]) < Rank(p.table[key], w[key])
  }

  ghost predicate IsFirst<A(!new), V(!new)>(
      p: Problem<A, V>, rules: seq<Rule<A, V>>, a: Vector<A, V>, n: nat, r: Option<Vector<A, V>>)
    requires n <= |p.order|
  {
    match r
    case None => forall w :: !SupportFrom(p, rules, a, n, w)
    case Some(v) => SupportFrom(p, rules, a, n, v) && forall w :: SupportFrom(p, rules, a, n, w) ==> NotAfter(p, n, v, w)
  }

  /** Among the supports whose level on axis `n` is not among the first `k`. */
  ghost predicate IsFirstBeyond<A(!new), V(!new)>(
      p: Problem<A, V>, rules: seq<Rule<A, V>>, a: Vector<A, V>, n: nat, k: nat, r: Option<Vector<A, V>>)
    requires n < |p.order| && p.order[n] in p.table && k <= |p.table[p.order[n]]|
  {
    match r
    case None => forall w :: SupportFrom(p, rules, a, n, w) && p.order[n] in w ==> w[p.order[n]] in p.table[p.order[n]][..k]
    case Some(v) =>
      && SupportFrom(p, rules, a, n, v)
      && forall w :: SupportFrom(p, rules, a, n, w) && p.order[n] in w && w[p.order[n]] !in p.table[p.order[n]][..k] ==>
           NotAfter(p, n, v, w)
  }

  lemma {:induction false} SearchIsFirst<A(!new), V(!new)>(p: Problem<A, V>, rules: seq<Rule<A, V>>, a: Vector<A, V>, n: nat)
    requires n <= |p.order| && Holds(rules, a)
    ensures IsFirst(p, rules, a, n, SearchFrom(p, rules, a, n))
    decreases |p.order| - n, 1, 0
  {
    if n == |p.order| {
      forall w | SupportFrom(p, rules, a, n, w) ensures w == a { FirstStep(p, a, n, w); assert w.Keys == a.Keys; }
      assert SupportFrom(p, rules, a, n, a);
    } else if p.order[n] in a {
      SearchIsFirst(p, rules, a, n + 1);
      forall w ensures SupportFrom(p, rules, a, n, w) <==> SupportFrom(p, rules, a, n + 1, w) { SkipAxis(p, rules, a, n, w); }
    } else {
      forall w ensures SupportFrom(p, rules, a, n, w) ==> p.order[n] in w && p.order[n] in p.table {
        SetAxis(p, rules, a, n, w);
      }
      if p.order[n] in p.table {
        TryIsFirst(p, rules, a, n, 0);
      }
    }
  }

  lemma {:induction false} TryIsFirst<A(!new), V(!new)>(p: Problem<A, V>, rules: seq<Rule<A, V>>, a: Vector<A, V>, n: nat, k: nat)
    requires n < |p.order| && p.order[n] !in a && p.order[n] in p.table && k <= |p.table[p.order[n]]| && Holds(rules, a)
    ensures IsFirstBeyond(p, rules, a, n, k, TryFrom(p, rules, a, n, k))
    decreases |p.order| - n, 0, |p.table[p.order[n]]| - k
  {
    var key := p.order[n];
    var levels := p.table[key];
    if k == |levels| {
      assert levels[..k] == levels;
      forall w | SupportFrom(p, rules, a, n, w) ensures key in w && w[key] in levels { SetAxis(p, rules, a, n, w); }
    } else {
      var value := levels[k];
      var a' := a[key := value];
      TryIsFirst(p, rules, a, n, k + 1);
      if !p.banned(key, value) && Holds(rules, a') {
        SearchIsFirst(p, rules, a', n + 1);
      }
      TryStep(p, rules, a, n, k);
    }
  }

  lemma {:induction false} OneMoreLevel<V>(levels: seq<V>, k: nat, x: V)
    requires k < |levels|
    ensures x in levels[..k + 1] <==> x in levels[..k] || x == levels[k]
  {
    assert levels[..k + 1] == levels[..k] + [levels[k]];
  }

  /** One level of the loop. */
  lemma {:induction false} TryStep<A(!new), V(!new)>(p: Problem<A, V>, rules: seq<Rule<A, V>>, a: Vector<A, V>, n: nat, k: nat)
    requires n < |p.order| && p.order[n] !in a && p.order[n] in p.table && k < |p.table[p.order[n]]|
    requires IsFirstBeyond(p, rules, a, n, k + 1, TryFrom(p, rules, a, n, k + 1))
    requires var a' := a[p.order[n] := p.table[p.order[n]][k]];
             !p.banned(p.order[n], p.table[p.order[n]][k]) && Holds(rules, a') ==>
               IsFirst(p, rules, a', n + 1, SearchFrom(p, rules, a', n + 1))
    ensures IsFirstBeyond(p, rules, a, n, k, TryFrom(p, rules, a, n, k))
  {
    var key := p.order[n];
    var levels := p.table[key];
    var a' := a[key := levels[k]];
    var tried := !p.banned(key, levels[k]) && Holds(rules, a') && SearchFrom(p, rules, a', n + 1).Some?;
    if tried {
      var v := SearchFrom(p, rules, a', n + 1).value;
      assert v[key] == levels[k] by { assert key in a'; }
      SetAxis(p, rules, a, n, v);
      forall w | SupportFrom(p, rules, a, n, w) && key in w && w[key] !in levels[..k] ensures NotAfter(p, n, v, w) {
        SetAxis(p, rules, a, n, w);
        if w[key] != levels[k] { LaterRank(levels, k, w[key]); }
      }
    } else {
      forall w | SupportFrom(p, rules, a, n, w) && key in w ensures w[key] in levels[..k + 1] <==> w[key] in levels[..k] {
        SetAxis(p, rules, a, n, w);
        OneMoreLevel(levels, k, w[key]);
      }
    }
  }

  lemma {:induction false} LaterRank<V>(levels: seq<V>, k: nat, x: V)
    requires k < |levels| && x in levels && x !in levels[..k] && x != levels[k]
    ensures Rank(levels, levels[k]) < Rank(levels, x)
  {
    forall j | 0 <= j < k ensures levels[j] != x { assert levels[..k][j] == levels[j]; }
  }

  /** `find_support` returns a vector exactly when a support exists, and it is the first one in search
      order and level order. */
  lemma {:induction false} FindSupportIsFirst<A(!new), V(!new)>(p: Problem<A, V>, rules: seq<Rule<A, V>>, fixed: Vector<A, V>)
    ensures match FindSupport(p, rules, fixed)
            case None => forall w :: !Supports(p, rules, fixed, w)
            case Some(v) => Supports(p, rules, fixed, v) && forall w :: Supports(p, rules, fixed, w) ==> NotAfter(p, 0, v, w)
  {
    if Clean(p, fixed) && Holds(rules, fixed) {
      SearchIsFirst(p, rules, fixed, 0);
    }
  }

  // ------------------------------------------------- irreducible explanations

  /** The rules whose names are enabled. */
  function Enabled<A, V>(rules: seq<Rule<A, V>>, names: seq<string>): (r: seq<Rule<A, V>>)
  {
    if rules == [] then []
    else if rules[0].name in names then [rules[0]] + Enabled(rules[1..], names)
    else Enabled(rules[1..], names)
  }

  lemma {:induction false} EnabledHolds<A, V>(rules: seq<Rule<A, V>>, names: seq<string>, v: Vector<A, V>)
    ensures Holds(Enabled(rules, names), v)
            <==> forall i :: 0 <= i < |rules| && rules[i].name in names ==> rules[i].check(v)
  {
    if rules != [] {
      var rest := rules[1..];
      EnabledHolds(rest, names, v);
      assert forall i :: 1 <= i < |rules| ==> rules[i] == rest[i - 1];
      if rules[0].name in names {
        HoldsBoth([rules[0]], Enabled(rest, names), v);
        assert Holds([rules[0]], v) <==> rules[0].check(v) by { assert [rules[0]][0] == rules[0]; }
      }
      if forall i :: 0 <= i < |rules| && rules[i].name in names ==> rules[i].check(v) {
        forall i | 0 <= i < |rest| && rest[i].name in names ensures rest[i].check(v) { assert rest[i] == rules[i + 1]; }
      }
    }
  }

  ghost predicate Supported<A(!new), V(!new)>(p: Problem<A, V>, rules: seq<Rule<A, V>>, fixed: Vector<A, V>)
  {
    exists v :: Supports(p, rules, fixed, v)
  }

  lemma {:induction false} SupportedIsFound<A(!new), V(!new)>(p: Problem<A, V>, rules: seq<Rule<A, V>>, fixed: Vector<A, V>)
    ensures Supported(p, rules, fixed) <==> FindSupport(p, rules, fixed).Some?
  {
    FindSupportIsFirst(p, rules, fixed);
  }

  /** Enabling fewer rules loses no support. */
  lemma {:induction false} FewerRules<A(!new), V(!new)>(
      p: Problem<A, V>, rules: seq<Rule<A, V>>, fixed: Vector<A, V>, more: seq<string>, fewer: seq<string>)
    requires forall x :: x in fewer ==> x in more
    requires Supported(p, Enabled(rules, more), fixed)
    ensures Supported(p, Enabled(rules, fewer), fixed)
  {
    var v :| Supports(p, Enabled(rules, more), fixed, v);
    forall a | Holds(Enabled(rules, more), a) ensures Holds(Enabled(rules, fewer), a) {
      EnabledHolds(rules, more, a);
      EnabledHolds(rules, fewer, a);
    }
    assert Supports(p, Enabled(rules, fewer), fixed, v);
  }

  /** `active` without `name`. */
  function Without(active: seq<string>, name: string): (r: seq<string>)
    ensures forall x :: x in r <==> x in active && x != name
  {
    if active == [] then []
    else if active[0] == name then Without(active[1..], name)
    else [active[0]] + Without(active[1..], name)
  }

  /** Dropping `name` from the explanation restores a support. */
  ghost predicate Needed<A(!new), V(!new)>(
      p: Problem<A, V>, rules: seq<Rule<A, V>>, fixed: Vector<A, V>, active: seq<string>, name: string)
  {
    Supported(p, Enabled(rules, Without(active, name)), fixed)
  }

  /** `impossible_rules`: drop every rule that is not needed.  The remaining rules still admit no
      support, and each of them is needed. */
  method ImpossibleRules<A(!new), V(!new)>(p: Problem<A, V>, rules: seq<Rule<A, V>>, names: seq<string>, fixed: Vector<A, V>)
    returns (r: Option<seq<string>>)
    requires Populated(p)
    requires !Supported(p, Enabled(rules, names), fixed)
    ensures r.Some? ==>
      && (forall x :: x in r.value ==> x in names)
      && !Supported(p, Enabled(rules, r.value), fixed)
      && forall x :: x in r.value ==> Needed(p, rules, fixed, r.value, x)
    ensures r.None? <==> !Supported(p, [], fixed)
    ensures Clean(p, fixed) ==> r.Some?
  {
    if Clean(p, fixed) {
      NoRulesSupport(p, fixed);
    }
    var active := names;
    for n := 0 to |names|
      invariant forall x :: x in active ==> x in names
      invariant !Supported(p, Enabled(rules, active), fixed)
      invariant forall i :: 0 <= i < n && names[i] in active ==> Needed(p, rules, fixed, active, names[i])
    {
      var smaller := Without(active, names[n]);
      var found := RunSearch(p, Enabled(rules, smaller), fixed);
      SupportedIsFound(p, Enabled(rules, smaller), fixed);
      if found.None? {
        forall i | 0 <= i < n && names[i] in smaller ensures Needed(p, rules, fixed, smaller, names[i]) {
          FewerRules(p, rules, fixed, Without(active, names[i]), Without(smaller, names[i]));
        }
        active := smaller;
      }
    }
    NoneEnabled(rules);
    if active == [] {
      return None;
    }
    assert active[0] in active;
    assert Needed(p, rules, fixed, active, active[0]);
    FewerRules(p, rules, fixed, Without(active, active[0]), []);
    return Some(active);
  }

  lemma {:induction false} NoneEnabled<A, V>(rules: seq<Rule<A, V>>)
    ensures Enabled(rules, []) == []
  {
    if rules != [] {
      NoneEnabled(rules[1..]);
    }
  }

  /** Without rules every clean vector has a support, so the explanation is never empty. */
  lemma {:induction false} NoRulesSupport<A(!new), V(!new)>(p: Problem<A, V>, fixed: Vector<A, V>)
    requires Populated(p) && Clean(p, fixed)
    ensures Supported(p, [], fixed)
  {
    NoRulesSearch(p, fixed, 0);
    SupportedIsFound(p, [], fixed);
  }

  lemma {:induction false} NoRulesSearch<A, V>(p: Problem<A, V>, a: Vector<A, V>, n: nat)
    requires n <= |p.order| && Populated(p)
    ensures SearchFrom(p, [], a, n).Some?
    decreases |p.order| - n, 1, 0
  {
    if n < |p.order| {
      if p.order[n] in a {
        NoRulesSearch(p, a, n + 1);
      } else {
        var levels := p.table[p.order[n]];
        var k :| 0 <= k < |levels| && !p.banned(p.order[n], levels[k]);
        NoRulesTry(p, a, n, 0, k);
      }
    }
  }

  lemma {:induction false} NoRulesTry<A, V>(p: Problem<A, V>, a: Vector<A, V>, n: nat, k: nat, ok: nat)
    requires n < |p.order| && Populated(p) && k <= ok < |p.table[p.order[n]]|
    requires !p.banned(p.order[n], p.table[p.order[n]][ok])
    ensures TryFrom(p, [], a, n, k).Some?
    decreases |p.order| - n, 0, ok - k
  {
    var value := p.table[p.order[n]][k];
    if p.banned(p.order[n], value) {
      NoRulesTry(p, a, n, k + 1, ok);
    } else {
      NoRulesSearch(p, a[p.order[n] := value], n + 1);
    }
  }

  // ------------------------------------------------- rules on partial vectors

  /** Once false on a partial vector that extends `base`, the rule stays false however that vector is
      completed. */
  ghost predicate Persistent<A(!new), V(!new)>(rule: Rule<A, V>, base: Vector<A, V>)
  {
    forall a, b :: Extends(a, base) && Extends(b, a) && !rule.check(a) ==> !rule.check(b)
  }

  ghost predicate AllPersistent<A(!new), V(!new)>(rules: seq<Rule<A, V>>, base: Vector<A, V>)
  {
    forall i :: 0 <= i < |rules| ==> Persistent(rules[i], base)
  }

  lemma {:induction false} StepIsPart<A, V>(p: Problem<A, V>, a: Vector<A, V>, n: nat, v: Vector<A, V>, i: nat)
    requires i <= |p.order| && Extends(v, a)
    ensures Extends(v, StepOf(p, a, n, v, i)) && Extends(StepOf(p, a, n, v, i), a)
  {
  }

  lemma {:induction false} PersistentBack<A(!new), V(!new)>(
      rules: seq<Rule<A, V>>, base: Vector<A, V>, a: Vector<A, V>, b: Vector<A, V>)
    requires AllPersistent(rules, base) && Extends(a, base) && Extends(b, a) && Holds(rules, b)
    ensures Holds(rules, a)
  {
    forall i | 0 <= i < |rules| ensures rules[i].check(a) {
      assert Persistent(rules[i], base);
    }
  }

  /** The last partial vector is the whole vector. */
  lemma {:induction false} LastStep<A, V>(p: Problem<A, V>, fixed: Vector<A, V>, v: Vector<A, V>)
    requires v.Keys == fixed.Keys + Axes(p.order, 0, |p.order|)
    ensures StepOf(p, fixed, 0, v, |p.order|) == v
  {
  }

  /** Of persistent rules only the complete vector matters; every other rule is also asked on the
      fixed part and on each partial vector in search order. */
  lemma {:induction false} OnlyOthersSeeTheTrail<A(!new), V(!new)>(
      p: Problem<A, V>, persistent: seq<Rule<A, V>>, others: seq<Rule<A, V>>, fixed: Vector<A, V>, v: Vector<A, V>)
    requires AllPersistent(persistent, fixed)
    ensures Supports(p, persistent + others, fixed, v)
            <==> && Clean(p, fixed) && Completes(p, fixed, 0, v) && Holds(persistent, v)
                 && Holds(others, v) && Holds(others, fixed) && Trail(p, others, fixed, 0, v)
  {
    if Completes(p, fixed, 0, v) {
      LastStep(p, fixed, v);
      FirstStep(p, fixed, 0, v);
      forall a ensures Holds(persistent + others, a) <==> Holds(persistent, a) && Holds(others, a) {
        HoldsBoth(persistent, others, a);
      }
      if Holds(persistent, v) {
        PersistentBack(persistent, fixed, fixed, v);
        forall i | 0 < i <= |p.order| ensures Holds(persistent, StepOf(p, fixed, 0, v, i)) {
          StepIsPart(p, fixed, 0, v, i);
          PersistentBack(persistent, fixed, StepOf(p, fixed, 0, v, i), v);
        }
      }
      if |p.order| == 0 { assert v == fixed; }
    }
  }

  lemma {:induction false} HoldsBoth<A, V>(a: seq<Rule<A, V>>, b: seq<Rule<A, V>>, v: Vector<A, V>)
    ensures Holds(a + b, v) <==> Holds(a, v) && Holds(b, v)
  {
    var c := a + b;
    assert forall i :: 0 <= i < |a| ==> c[i] == a[i];
    assert forall i :: 0 <= i < |b| ==> c[|a| + i] == b[i];
    assert forall i :: |a| <= i < |c| ==> c[i] == b[i - |a|];
  }

  /** So where the rules are persistent, "no support" means that no complete vector satisfies the rules. */
  lemma {:induction false} PersistentSupport<A(!new), V(!new)>(p: Problem<A, V>, rules: seq<Rule<A, V>>, fixed: Vector<A, V>)
    requires AllPersistent(rules, fixed)
    ensures FindSupport(p, rules, fixed).None?
            <==> !Clean(p, fixed) || forall v :: Completes(p, fixed, 0, v) ==> !Holds(rules, v)
  {
    SupportedIsFound(p, rules, fixed);
    assert rules + [] == rules;
    forall v ensures Supports(p, rules, fixed, v) <==> Clean(p, fixed) && Completes(p, fixed, 0, v) && Holds(rules, v) {
      OnlyOthersSeeTheTrail(p, rules, [], fixed, v);
    }
    if Clean(p, fixed) && exists v :: Completes(p, fixed, 0, v) && Holds(rules, v) {
      var v :| Completes(p, fixed, 0, v) && Holds(rules, v);
      assert Supports(p, rules, fixed, v);
    }
  }

  /** And the vector check on an observation implies the check of every part of it. */
  lemma {:induction false} PartsAreSupported<A(!new), V(!new)>(
      p: Problem<A, V>, rules: seq<Rule<A, V>>, levels: Vector<A, V>, part: Vector<A, V>)
    requires AllPersistent(rules, part) && Extends(levels, part)
    requires forall k :: k in levels ==> k in Axes(p.order, 0, |p.order|) && k in p.table && levels[k] in p.table[k]
    requires FindSupport(p, rules, levels).Some?
    ensures FindSupport(p, rules, part).Some?
  {
    assert AllPersistent(rules, levels) by {
      forall i | 0 <= i < |rules| ensures Persistent(rules[i], levels) { assert Persistent(rules[i], part); }
    }
    PersistentSupport(p, rules, levels);
    var v :| Completes(p, levels, 0, v) && Holds(rules, v);
    CompletesPart(p, levels, part, v);
    PersistentSupport(p, rules, part);
  }

  lemma {:induction false} CompletesPart<A, V>(p: Problem<A, V>, levels: Vector<A, V>, part: Vector<A, V>, v: Vector<A, V>)
    requires Clean(p, levels) && Extends(levels, part) && Completes(p, levels, 0, v)
    requires forall k :: k in levels ==> k in Axes(p.order, 0, |p.order|) && k in p.table && levels[k] in p.table[k]
    ensures Clean(p, part) && Completes(p, part, 0, v)
  {
    assert v.Keys == Axes(p.order, 0, |p.order|) == part.Keys + Axes(p.order, 0, |p.order|);
  }
}
