/**
 The loop of scripts/generate_syn038_annex_assignments.py that settles the pending productions, and
 why its aliases satisfy the check of scripts/check_syn038_annex_assignments.py.
 */
module AliasChoice {
  import opened Aliases
  import opened AliasPaths

  /** What the loop starts from: the entries so far, the aliases chosen by hand and the productions
      that some PDF defines. */
  datatype Draft = Draft(entries: Entries, parents: Name -> seq<Name>, forced: map<Name, Name>, pdf: set<Name>)

  /** Aliases and open entries only come from the loop. */
  predicate Untouched(entries: Entries)
  {
    forall a :: a in entries ==> !entries[a].Alias? && !entries[a].Open?
  }

  function Anchors(entries: Entries): (r: set<Name>) { set a | a in entries && entries[a].Core? }

  function ExcludedIn(entries: Entries): (r: set<Name>) { set a | a in entries && entries[a].Excluded? }

  function GrammarOf(draft: Draft): (r: Grammar)
  {
    Grammar(draft.parents, draft.entries.Keys, Anchors(draft.entries), ExcludedIn(draft.entries))
  }

  /** A name without its trailing parenthesised group, which holds no closing parenthesis; names hold
      no newline. */
  function RootOf(name: Name): (r: Name)
    ensures r != name ==> |r| < |name|
  {
    if name != "" && name[|name| - 1] == ')' then RootFrom(name, 0) else name
  }

  function RootFrom(name: Name, i: nat): (r: Name)
    requires i < |name|
    ensures r != name ==> |r| < |name|
    decreases |name| - i
  {
    if i == |name| - 1 then name
    else if name[i] == '(' && ')' !in name[i + 1..|name| - 1] then name[..i]
    else RootFrom(name, i + 1)
  }

  predicate HasRoot(draft: Draft, name: Name)
  {
    name !in draft.pdf && RootOf(name) in draft.entries && RootOf(name) != name
  }

  ghost predicate AliasByRoute(draft: Draft, name: Name, e: Entry)
  {
    exists p :: Shortest(GrammarOf(draft), name, p) && e == Alias([p[0]])
  }

  /** The entry that the loop must leave for a name. */
  ghost predicate Settles(draft: Draft, name: Name, e: Entry)
    requires name in draft.entries
  {
    if !draft.entries[name].Pending? then e == draft.entries[name]
    else if name in draft.forced then e == Alias([draft.forced[name]])
    else if Reachable(GrammarOf(draft), name) then AliasByRoute(draft, name, e)
    else if HasRoot(draft, name) then e == Alias([RootOf(name)])
    else e == Open
  }

  ghost predicate Generated(draft: Draft, out: Entries)
  {
    out.Keys == draft.entries.Keys && forall a :: a in out ==> Settles(draft, a, out[a])
  }

  method Settle(draft: Draft, out: Entries, name: Name) returns (e: Entry)
    requires name in draft.entries && draft.entries[name].Pending?
    requires out.Keys == draft.entries.Keys && ExcludedIn(out) == ExcludedIn(draft.entries)
    ensures Settles(draft, name, e) && (e.Alias? || e.Open?)
  {
    if name in draft.forced {
      return Alias([draft.forced[name]]);
    }
    var g := Grammar(draft.parents, out.Keys, Anchors(draft.entries), ExcludedIn(out));
    assert g == GrammarOf(draft);
    var path := PathToCore(g, name);
    if path.Some? {
      assert Route(g, name, path.value);
      return Alias([path.value[0]]);
    }
    if name !in draft.pdf {
      var root := RootOf(name);
      if root in out && root != name {
        return Alias([root]);
      }
    }
    return Open;
  }

  ghost predicate SettledTo(draft: Draft, order: seq<Name>, n: nat, out: Entries)
    requires n <= |order| && forall i :: 0 <= i < |order| ==> order[i] in draft.entries && order[i] in out
  {
    && (forall i :: 0 <= i < n ==> Settles(draft, order[i], out[order[i]]))
    && (forall i :: n <= i < |order| ==> out[order[i]] == draft.entries[order[i]])
  }

  predicate Distinct(order: seq<Name>) { forall i, j :: 0 <= i < j < |order| ==> order[i] != order[j] }

  /** The alias loop over all productions in their listed order. */
  method AssignAliases(draft: Draft, order: seq<Name>) returns (out: Entries)
    requires Untouched(draft.entries) && Distinct(order)
    requires forall a :: a in draft.entries <==> a in order
    ensures Generated(draft, out)
  {
    out := draft.entries;
    for n := 0 to |order|
      invariant out.Keys == draft.entries.Keys && ExcludedIn(out) == ExcludedIn(draft.entries)
      invariant SettledTo(draft, order, n, out)
    {
      var name := order[n];
      if !out[name].Pending? {
        continue;
      }
      var e := Settle(draft, out, name);
      KeepsExcluded(out, name, e);
      out := out[name := e];
    }
    forall a | a in out
      ensures Settles(draft, a, out[a])
    {
      var i :| 0 <= i < |order| && order[i] == a;
    }
  }

  lemma {:induction false} KeepsExcluded(out: Entries, name: Name, e: Entry)
    requires name in out && out[name].Pending? && !e.Excluded?
    ensures ExcludedIn(out[name := e]) == ExcludedIn(out)
  {
    var next := out[name := e];
    forall a
      ensures a in ExcludedIn(next) <==> a in ExcludedIn(out)
    {
    }
  }

  // ---------------------------------------------------- aliases come closer

  /** The rest of a shortest route is a shortest route of the alias parent, which is thus one step
      closer to Core. */
  lemma {:induction false} AliasIsCloser(g: Grammar, name: Name, p: seq<Name>)
    requires Shortest(g, name, p) && p[0] !in g.anchors
    ensures |p| > 1 && Shortest(g, p[0], p[1..])
  {
    var rest := p[1..];
    assert Passes(g, p, 0);
    forall i | 0 <= i < |rest| - 1
      ensures Passes(g, rest, i)
    {
      assert Passes(g, p, i + 1);
    }
    assert Route(g, p[0], rest);
    forall r | Route(g, p[0], r)
      ensures |rest| <= |r|
    {
      RouteThrough(g, name, p, r);
      assert |p| <= |[p[0]] + r|;
    }
  }

  lemma {:induction false} RouteThrough(g: Grammar, name: Name, p: seq<Name>, r: seq<Name>)
    requires Trail(g, name, p) && |p| > 1 && Route(g, p[0], r)
    ensures Route(g, name, [p[0]] + r)
  {
    var longer := [p[0]] + r;
    assert Passes(g, p, 0);
    forall i | 0 <= i < |longer| - 1
      ensures Passes(g, longer, i)
    {
      assert i > 0 ==> Passes(g, r, i - 1);
    }
  }

  /** A name that the loop itself made an alias. */
  ghost predicate Chosen(draft: Draft, out: Entries, a: Name)
  {
    a in out && out[a].Alias? && a !in draft.forced
  }

  lemma {:induction false} ChosenWasPending(draft: Draft, out: Entries, a: Name)
    requires Untouched(draft.entries) && Generated(draft, out) && Chosen(draft, out, a)
    ensures draft.entries[a].Pending? && a !in GrammarOf(draft).anchors
  {
    assert Settles(draft, a, out[a]);
  }

  /** The length of the shortest routes. */
  ghost function Distance(g: Grammar, a: Name): (d: nat)
  {
    if exists p :: Shortest(g, a, p) then var p :| Shortest(g, a, p); |p| else 0
  }

  lemma {:induction false} DistanceIs(g: Grammar, a: Name, p: seq<Name>)
    requires Shortest(g, a, p)
    ensures Distance(g, a) == |p| && Reachable(g, a)
  {
    assert Route(g, a, p);
    forall q | Shortest(g, a, q)
      ensures |q| == |p|
    {
      assert Route(g, a, q);
    }
  }

  type Rank = (nat, nat)

  predicate Less(x: Rank, y: Rank) { x.0 < y.0 || (x.0 == y.0 && x.1 < y.1) }

  /** First the productions that reach Core, by their distance; then the others, by their length. */
  ghost function RankOf(g: Grammar, a: Name): (r: Rank)
  {
    if Reachable(g, a) then (0, Distance(g, a)) else (1, |a|)
  }

  /** Every alias that the loop chose ranks above its parent: it is further from Core, or it reaches
      none and its name is longer. */
  lemma {:induction false} EdgeDescends(draft: Draft, out: Entries, a: Name, b: Name)
    requires Untouched(draft.entries) && Generated(draft, out) && Edge(out, a, b)
    requires Chosen(draft, out, a) && Chosen(draft, out, b)
    ensures Less(RankOf(GrammarOf(draft), b), RankOf(GrammarOf(draft), a))
  {
    var g := GrammarOf(draft);
    ChosenWasPending(draft, out, a);
    ChosenWasPending(draft, out, b);
    assert Settles(draft, a, out[a]);
    if Reachable(g, a) {
      var p :| Shortest(g, a, p) && out[a] == Alias([p[0]]);
      AliasIsCloser(g, a, p);
      DistanceIs(g, a, p);
      DistanceIs(g, b, p[1..]);
    }
  }

  // --------------------------------------------------------------- no cycles

  predicate Descends(rank: Name -> Rank, w: seq<Name>)
  {
    forall i :: 0 < i < |w| ==> Below(rank, w, i)
  }

  predicate Below(rank: Name -> Rank, w: seq<Name>, i: nat)
    requires 0 < i < |w|
  {
    Less(rank(w[i]), rank(w[i - 1]))
  }

  lemma {:induction false} EndIsBelow(rank: Name -> Rank, w: seq<Name>, i: nat)
    requires Descends(rank, w) && 0 < i < |w|
    ensures Less(rank(w[i]), rank(w[0]))
  {
    assert Below(rank, w, i);
    if i > 1 {
      EndIsBelow(rank, w, i - 1);
    }
  }

  ghost predicate ChosenWalk(draft: Draft, out: Entries, w: seq<Name>)
  {
    Walk(out, w) && forall i :: 0 <= i < |w| ==> Chosen(draft, out, w[i])
  }

  lemma {:induction false} ChosenDescends(draft: Draft, out: Entries, w: seq<Name>)
    requires Untouched(draft.entries) && Generated(draft, out) && ChosenWalk(draft, out, w)
    ensures Descends(a => RankOf(GrammarOf(draft), a), w)
  {
    var rank := a => RankOf(GrammarOf(draft), a);
    forall i | 0 < i < |w|
      ensures Below(rank, w, i)
    {
      assert Link(out, w, i);
      EdgeDescends(draft, out, w[i - 1], w[i]);
    }
  }

  /** Every cycle of the generated aliases passes through an alias chosen by hand. */
  lemma {:induction false} CyclesAreForced(draft: Draft, out: Entries, w: seq<Name>)
    requires Untouched(draft.entries) && Generated(draft, out) && Cycle(out, w)
    ensures exists i :: 0 <= i < |w| && w[i] in draft.forced
  {
    if forall i :: 0 <= i < |w| ==> w[i] !in draft.forced {
      AllChosen(draft, out, w);
      ChosenDescends(draft, out, w);
      EndIsBelow(a => RankOf(GrammarOf(draft), a), w, |w| - 1);
    }
  }

  lemma {:induction false} AllChosen(draft: Draft, out: Entries, w: seq<Name>)
    requires Cycle(out, w) && forall i :: 0 <= i < |w| ==> w[i] !in draft.forced
    ensures ChosenWalk(draft, out, w)
  {
    OnCycle(out, w);
  }

  // ------------------------------------------------------------ acceptance

  /** An alias chosen by hand. */
  predicate ByHand(draft: Draft, a: Name) { a in draft.entries && draft.entries[a].Pending? && a in draft.forced }

  /** The aliases lead from `b` to `a`. */
  ghost predicate LeadsTo(out: Entries, b: Name, a: Name)
  {
    exists w :: w != [] && Walk(out, w) && w[0] == b && w[|w| - 1] == a
  }

  lemma {:induction false} OnCycle(out: Entries, w: seq<Name>)
    requires Cycle(out, w)
    ensures forall i :: 0 <= i < |w| ==> w[i] in out && out[w[i]].Alias?
  {
    forall i | 0 <= i < |w|
      ensures w[i] in out && out[w[i]].Alias?
    {
      assert Link(out, w, if i < |w| - 1 then i + 1 else 1);
    }
  }

  lemma {:induction false} WalkPart(out: Entries, w: seq<Name>, a: nat, b: nat)
    requires Walk(out, w) && a <= b <= |w|
    ensures Walk(out, w[a..b])
  {
    forall j | 0 < j < b - a
      ensures Link(out, w[a..b], j)
    {
      assert Link(out, w, a + j);
    }
  }

  lemma {:induction false} WalkJoined(out: Entries, v: seq<Name>, w: seq<Name>)
    requires Walk(out, v) && Walk(out, w) && (v != [] && w != [] ==> Edge(out, v[|v| - 1], w[0]))
    ensures Walk(out, v + w)
  {
    forall j | 0 < j < |v + w|
      ensures Link(out, v + w, j)
    {
      if j < |v| {
        assert Link(out, v, j);
      } else if j > |v| {
        assert Link(out, w, j - |v|);
      }
    }
  }

  /** A cycle, read from one of its names on, leads from a parent of that name back to it. */
  lemma {:induction false} CycleReturns(out: Entries, w: seq<Name>, i: nat) returns (b: Name)
    requires Cycle(out, w) && i < |w| - 1
    ensures Edge(out, w[i], b) && LeadsTo(out, b, w[i])
  {
    assert Link(out, w, i + 1) && Link(out, w, 1);
    b := w[i + 1];
    var first, second := w[i + 1..|w|], w[1..i + 1];
    WalkPart(out, w, i + 1, |w|);
    WalkPart(out, w, 1, i + 1);
    WalkJoined(out, first, second);
    var turned := first + second;
    assert turned[0] == b && turned[|turned| - 1] == w[i];
  }

  lemma {:induction false} ReturnIsCycle(out: Entries, a: Name, b: Name) returns (w: seq<Name>)
    requires Edge(out, a, b) && LeadsTo(out, b, a)
    ensures Cycle(out, w)
  {
    var back :| back != [] && Walk(out, back) && back[0] == b && back[|back| - 1] == a;
    w := [a] + back;
    forall j | 0 < j < |w|
      ensures Link(out, w, j)
    {
      assert j > 1 ==> Link(out, back, j - 1);
    }
  }

  /** No alias chosen by hand leads back to itself. */
  ghost predicate HandsDoNotReturn(draft: Draft, out: Entries)
  {
    forall a :: ByHand(draft, a) ==> !LeadsTo(out, draft.forced[a], a)
  }

  lemma {:induction false} ByHandEdge(draft: Draft, out: Entries, a: Name)
    requires Generated(draft, out) && ByHand(draft, a)
    ensures a in out && out[a] == Alias([draft.forced[a]]) && Edge(out, a, draft.forced[a])
  {
    assert a in out;
    assert Settles(draft, a, out[a]);
  }

  lemma {:induction false} AcyclicExactly(draft: Draft, out: Entries)
    requires Untouched(draft.entries) && Generated(draft, out)
    ensures Acyclic(out) <==> HandsDoNotReturn(draft, out)
  {
    if HandsDoNotReturn(draft, out) {
      forall w
        ensures !Cycle(out, w)
      {
        if Cycle(out, w) {
          ReturningHand(draft, out, w);
        }
      }
    } else {
      var a :| ByHand(draft, a) && LeadsTo(out, draft.forced[a], a);
      ByHandEdge(draft, out, a);
      var w := ReturnIsCycle(out, a, draft.forced[a]);
    }
  }

  lemma {:induction false} ReturningHand(draft: Draft, out: Entries, w: seq<Name>)
    requires Untouched(draft.entries) && Generated(draft, out) && Cycle(out, w)
    ensures !HandsDoNotReturn(draft, out)
  {
    CyclesAreForced(draft, out, w);
    OnCycle(out, w);
    var i :| 0 <= i < |w| && w[i] in draft.forced;
    var k := if i == |w| - 1 then 0 else i;
    var a := w[k];
    assert Settles(draft, a, out[a]);
    assert ByHand(draft, a);
    ByHandEdge(draft, out, a);
    var b := CycleReturns(out, w, k);
    assert b == draft.forced[a];
  }

  lemma {:induction false} ParentsExactly(draft: Draft, out: Entries)
    requires Untouched(draft.entries) && Generated(draft, out)
    ensures ParentsAssigned(out) <==> forall a :: ByHand(draft, a) ==> draft.forced[a] in draft.entries
  {
    if ParentsAssigned(out) {
      forall a | ByHand(draft, a)
        ensures draft.forced[a] in draft.entries
      {
        ByHandEdge(draft, out, a);
      }
    }
    forall a, b | Edge(out, a, b) && !ByHand(draft, a)
      ensures b in out
    {
      ChosenParent(draft, out, a, b);
    }
    forall a, b | Edge(out, a, b) && ByHand(draft, a)
      ensures b == draft.forced[a]
    {
      ByHandEdge(draft, out, a);
    }
  }

  lemma {:induction false} ChosenParent(draft: Draft, out: Entries, a: Name, b: Name)
    requires Untouched(draft.entries) && Generated(draft, out) && Edge(out, a, b) && !ByHand(draft, a)
    ensures b in out
  {
    assert Settles(draft, a, out[a]);
    var g := GrammarOf(draft);
    if Reachable(g, a) {
      var p :| Shortest(g, a, p) && out[a] == Alias([p[0]]);
      assert |p| > 1 ==> Passes(g, p, 0);
      assert b == p[0];
    }
  }

  /** The pending names that nothing settles by hand reach Core or have a root production. */
  ghost predicate Explained(draft: Draft)
  {
    forall a :: a in draft.entries && draft.entries[a].Pending? && a !in draft.forced
      ==> Reachable(GrammarOf(draft), a) || HasRoot(draft, a)
  }

  lemma {:induction false} OpenExactly(draft: Draft, out: Entries)
    requires Untouched(draft.entries) && Generated(draft, out)
    ensures NoneOpen(out) <==> Explained(draft)
  {
    forall a | a in out
      ensures out[a].Open? <==>
        draft.entries[a].Pending? && a !in draft.forced && !Reachable(GrammarOf(draft), a) && !HasRoot(draft, a)
    {
      assert Settles(draft, a, out[a]);
    }
  }

  /** The check accepts what the loop generates if and only if every pending name reaches Core, has a
      root production or is settled by hand, every alias by hand names an assigned production, and
      none leads back to itself. */
  lemma {:induction false} GeneratedIsAccepted(draft: Draft, out: Entries)
    requires Untouched(draft.entries) && Generated(draft, out)
    ensures Sound(out)
            <==> && Explained(draft) && (forall a :: ByHand(draft, a) ==> draft.forced[a] in draft.entries)
                 && HandsDoNotReturn(draft, out)
  {
    OpenExactly(draft, out);
    ParentsExactly(draft, out);
    AcyclicExactly(draft, out);
  }
}
