/**
 The alias generator of scripts/generate_syn038_annex_assignments.py: `path_to_core`, a breadth-first
 search for a Core production, and the loop that turns every pending production into an alias or
 leaves it open.
 */
module AliasPaths {
  import opened Options
  import opened Aliases

  /** The grammar around the search.  `parents` gives the sorted productions that mention a name. */
  datatype Grammar = Grammar(parents: Name -> seq<Name>, names: set<Name>, anchors: set<Name>, excluded: set<Name>)

  // ------------------------------------------------------------------ routes

  predicate Hop(g: Grammar, a: Name, b: Name) { b in g.parents(a) }

  /** Consecutive names are parents, and every name but the last may be passed through. */
  predicate Trail(g: Grammar, name: Name, p: seq<Name>)
  {
    && p != [] && Hop(g, name, p[0])
    && (forall i :: 0 <= i < |p| - 1 ==> Passes(g, p, i))
  }

  predicate Passes(g: Grammar, p: seq<Name>, i: nat)
    requires i + 1 < |p|
  {
    p[i] in g.names && p[i] !in g.excluded && Hop(g, p[i], p[i + 1])
  }

  function End(p: seq<Name>): (r: Name)
    requires p != []
  {
    p[|p| - 1]
  }

  /** A way from a production up to a Core anchor. */
  predicate Route(g: Grammar, name: Name, p: seq<Name>)
  {
    Trail(g, name, p) && End(p) in g.names && End(p) in g.anchors
  }

  ghost predicate Shortest(g: Grammar, name: Name, p: seq<Name>)
  {
    Route(g, name, p) && forall r :: Route(g, name, r) ==> |p| <= |r|
  }

  ghost predicate Reachable(g: Grammar, name: Name) { exists p :: Route(g, name, p) }

  // -------------------------------------------------- the state of the search

  /** The queue holds paths, shortest first, no two differing by more than one. */
  predicate Layered(queue: seq<seq<Name>>)
  {
    forall i, j :: 0 <= i <= j < |queue| ==> |queue[i]| <= |queue[j]| <= |queue[0]| + 1
  }

  /** A path to `y` of length at most `d` is done or waiting. */
  ghost predicate Reached(g: Grammar, queue: seq<seq<Name>>, depth: map<Name, nat>, y: Name, d: nat)
  {
    || y !in g.names
    || (y in depth && depth[y] <= d)
    || Waiting(queue, y, d)
  }

  predicate Waiting(queue: seq<seq<Name>>, y: Name, d: nat)
  {
    exists i :: 0 <= i < |queue| && Ends(queue[i], y, d)
  }

  predicate Ends(p: seq<Name>, y: Name, d: nat) { p != [] && End(p) == y && |p| <= d }

  /** The parents of the names seen are at most one step further. */
  ghost predicate Expanded(g: Grammar, name: Name, queue: seq<seq<Name>>, depth: map<Name, nat>)
  {
    forall s, y :: s in depth && (s == name || s !in g.excluded) && Hop(g, s, y)
      ==> Reached(g, queue, depth, y, depth[s] + 1)
  }

  predicate Trails(g: Grammar, name: Name, queue: seq<seq<Name>>)
  {
    forall i :: 0 <= i < |queue| ==> Trail(g, name, queue[i])
  }

  /** The names seen are no anchors and no deeper than what waits. */
  ghost predicate Seen(g: Grammar, name: Name, queue: seq<seq<Name>>, depth: map<Name, nat>)
  {
    && name in depth && depth[name] == 0
    && (forall s :: s in depth ==> s !in g.anchors)
    && (forall s :: s in depth && queue != [] ==> depth[s] <= |queue[0]|)
  }

  ghost predicate Searching(g: Grammar, name: Name, queue: seq<seq<Name>>, depth: map<Name, nat>)
  {
    && Trails(g, name, queue) && Layered(queue)
    && Expanded(g, name, queue, depth) && Seen(g, name, queue, depth)
  }

  /** Along any trail, the names seen are no deeper than their place, until a path waits that is at
      least as short. */
  lemma {:induction false} TrailIsCovered(
      g: Grammar, name: Name, queue: seq<seq<Name>>, depth: map<Name, nat>, p: seq<Name>, k: nat)
    requires Searching(g, name, queue, depth) && Trail(g, name, p) && End(p) in g.names && k < |p|
    ensures (p[k] in depth && depth[p[k]] <= k + 1) || (queue != [] && |queue[0]| <= k + 1)
  {
    assert k < |p| - 1 ==> Passes(g, p, k);
    if k == 0 {
      assert Reached(g, queue, depth, p[0], 1);
    } else {
      TrailIsCovered(g, name, queue, depth, p, k - 1);
      var before := p[k - 1];
      assert Passes(g, p, k - 1);
      if before in depth && depth[before] <= k {
        assert Reached(g, queue, depth, p[k], depth[before] + 1);
      }
    }
  }

  /** No route is shorter than the path at the head of the queue, and without a queue there is none. */
  lemma {:induction false} HeadIsShortest(
      g: Grammar, name: Name, queue: seq<seq<Name>>, depth: map<Name, nat>, r: seq<Name>)
    requires Searching(g, name, queue, depth) && Route(g, name, r)
    ensures queue != [] && |queue[0]| <= |r|
  {
    TrailIsCovered(g, name, queue, depth, r, |r| - 1);
  }

  // -------------------------------------------------------- steps of the search

  function Extended(path: seq<Name>, parents: seq<Name>): (r: seq<seq<Name>>)
    ensures |r| == |parents|
    ensures forall i :: 0 <= i < |r| ==> r[i] == path + [parents[i]]
  {
    seq(|parents|, i requires 0 <= i < |parents| => path + [parents[i]])
  }

  /** What waited behind the head still waits. */
  lemma {:induction false} StillWaiting(queue: seq<seq<Name>>, more: seq<seq<Name>>, y: Name, d: nat)
    requires queue != [] && Waiting(queue, y, d)
    ensures Ends(queue[0], y, d) || Waiting(queue[1..] + more, y, d)
  {
    var i :| 0 <= i < |queue| && Ends(queue[i], y, d);
    if i > 0 {
      assert (queue[1..] + more)[i - 1] == queue[i];
    }
  }

  lemma {:induction false} NewlyWaiting(queue: seq<seq<Name>>, path: seq<Name>, parents: seq<Name>, y: Name)
    requires y in parents
    ensures Waiting(queue + Extended(path, parents), y, |path| + 1)
  {
    var i :| 0 <= i < |parents| && parents[i] == y;
    var all := queue + Extended(path, parents);
    assert all[|queue| + i] == path + [y];
    assert Ends(all[|queue| + i], y, |path| + 1);
  }

  /** Skipping a head that was seen, or that is no production. */
  lemma {:induction false} Skip(g: Grammar, name: Name, queue: seq<seq<Name>>, depth: map<Name, nat>)
    requires Searching(g, name, queue, depth) && queue != []
    requires End(queue[0]) in depth || End(queue[0]) !in g.names
    ensures Searching(g, name, queue[1..], depth)
  {
    forall s, y | s in depth && (s == name || s !in g.excluded) && Hop(g, s, y)
      ensures Reached(g, queue[1..], depth, y, depth[s] + 1)
    {
      assert Reached(g, queue, depth, y, depth[s] + 1);
      if Waiting(queue, y, depth[s] + 1) {
        StillWaiting(queue, [], y, depth[s] + 1);
        assert queue[1..] + [] == queue[1..];
      }
    }
  }

  /** Marking the head as seen; `more` are the paths through it, if it may be passed. */
  lemma {:induction false} Mark(
      g: Grammar, name: Name, queue: seq<seq<Name>>, depth: map<Name, nat>, more: seq<seq<Name>>)
    requires Searching(g, name, queue, depth) && queue != []
    requires var x := End(queue[0]);
             && x !in depth && x in g.names && x !in g.anchors
             && more == if x in g.excluded then [] else Extended(queue[0], g.parents(x))
    ensures Searching(g, name, queue[1..] + more, depth[End(queue[0]) := |queue[0]|])
  {
    var path, next := queue[0], queue[1..] + more;
    var x := End(path);
    var deeper := depth[x := |path|];
    forall s, y | s in deeper && (s == name || s !in g.excluded) && Hop(g, s, y)
      ensures Reached(g, next, deeper, y, deeper[s] + 1)
    {
      if s == x {
        NewlyWaiting(queue[1..], path, g.parents(x), y);
      } else {
        var d := depth[s] + 1;
        assert Reached(g, queue, depth, y, d);
        if Waiting(queue, y, d) {
          StillWaiting(queue, more, y, d);
        }
      }
    }
    MarkTrails(g, name, queue, more);
    MarkLayers(queue, more);
  }

  lemma {:induction false} MarkTrails(g: Grammar, name: Name, queue: seq<seq<Name>>, more: seq<seq<Name>>)
    requires Trails(g, name, queue) && queue != []
    requires var x := End(queue[0]);
             x in g.names && more == if x in g.excluded then [] else Extended(queue[0], g.parents(x))
    ensures Trails(g, name, queue[1..] + more)
  {
    var path := queue[0];
    var x := End(path);
    assert Trail(g, name, path);
    forall i | 0 <= i < |more|
      ensures Trail(g, name, more[i])
    {
      var longer := more[i];
      assert longer[..|path|] == path && Hop(g, x, End(longer));
      forall j | 0 <= j < |longer| - 1
        ensures Passes(g, longer, j)
      {
        assert j < |path| - 1 ==> Passes(g, path, j);
      }
    }
  }

  lemma {:induction false} MarkLayers(queue: seq<seq<Name>>, more: seq<seq<Name>>)
    requires Layered(queue) && queue != [] && forall i :: 0 <= i < |more| ==> |more[i]| == |queue[0]| + 1
    ensures Layered(queue[1..] + more)
  {
  }

  /** `path_to_core`, called for a production that is no anchor itself. */
  method PathToCore(g: Grammar, name: Name) returns (r: Option<seq<Name>>)
    requires name !in g.anchors
    ensures r.Some? ==> Shortest(g, name, r.value)
    ensures r.None? ==> !Reachable(g, name)
  {
    var queue := Extended([], g.parents(name));
    var seen := {name};
    ghost var depth: map<Name, nat> := map[name := 0];
    StartSearch(g, name);
    while queue != []
      invariant Searching(g, name, queue, depth) && seen == depth.Keys
      decreases g.names - seen, |queue|
    {
      var path := queue[0];
      assert Trail(g, name, path);
      var parent := End(path);
      if parent in seen || parent !in g.names {
        Skip(g, name, queue, depth);
        queue := queue[1..];
        continue;
      }
      if parent in g.anchors {
        forall other | Route(g, name, other)
          ensures |path| <= |other|
        {
          HeadIsShortest(g, name, queue, depth, other);
        }
        return Some(path);
      }
      var more := if parent in g.excluded then [] else Extended(path, g.parents(parent));
      Mark(g, name, queue, depth, more);
      seen := seen + {parent};
      depth := depth[parent := |path|];
      queue := queue[1..] + more;
    }
    forall p
      ensures !Route(g, name, p)
    {
      if Route(g, name, p) {
        HeadIsShortest(g, name, queue, depth, p);
      }
    }
    return None;
  }

  lemma {:induction false} StartSearch(g: Grammar, name: Name)
    requires name !in g.anchors
    ensures Searching(g, name, Extended([], g.parents(name)), map[name := 0])
  {
    var queue := Extended([], g.parents(name));
    forall s, y | s in map[name := 0] && Hop(g, s, y)
      ensures Reached(g, queue, map[name := 0], y, 1)
    {
      NewlyWaiting([], [], g.parents(name), y);
      assert [] + queue == queue;
    }
  }
}
