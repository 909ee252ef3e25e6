/**
 The alias check of scripts/check_syn038_annex_assignments.py: a depth-first walk over the parents
 of ALIAS/HELPER entries that shares one set of visited names and fails by an exception.
 */
module Aliases {

  type Name = string

  /** The dispositions of a production; `Kept` stands for the three that neither the check nor the
      generator tells apart (EXTENDED, OUTSIDE_CORE_IMPLEMENTED, BOUNDARY). */
  datatype Entry = Core | Kept | Excluded | Pending | Alias(parents: seq<Name>) | Open

  type Entries = map<Name, Entry>

  predicate Edge(entries: Entries, a: Name, b: Name)
  {
    a in entries && entries[a].Alias? && b in entries[a].parents
  }

  predicate Link(entries: Entries, w: seq<Name>, i: nat)
    requires 0 < i < |w|
  {
    Edge(entries, w[i - 1], w[i])
  }

  predicate Walk(entries: Entries, w: seq<Name>)
  {
    forall i :: 0 < i < |w| ==> Link(entries, w, i)
  }

  predicate Cycle(entries: Entries, w: seq<Name>)
  {
    |w| >= 2 && w[0] == w[|w| - 1] && Walk(entries, w)
  }

  ghost predicate ParentsAssigned(entries: Entries)
  {
    forall a, b :: Edge(entries, a, b) ==> b in entries
  }

  predicate NoneOpen(entries: Entries) { forall a :: a in entries ==> !entries[a].Open? }

  ghost predicate Acyclic(entries: Entries) { forall w :: !Cycle(entries, w) }

  /** What an accepted manifest promises. */
  ghost predicate Sound(entries: Entries)
  {
    ParentsAssigned(entries) && NoneOpen(entries) && Acyclic(entries)
  }

  // ---------------------------------------------------------------- ranks

  /** The names of `rank` are closed under parents, none is open, and parents rank lower. */
  ghost predicate Ranked(entries: Entries, rank: map<Name, nat>)
  {
    && (forall a :: a in rank ==> a in entries && !entries[a].Open? && rank[a] < |rank|)
    && (forall a, b :: a in rank && Edge(entries, a, b) ==> b in rank && rank[b] < rank[a])
  }

  lemma {:induction false} WalkDescends(entries: Entries, rank: map<Name, nat>, w: seq<Name>, i: nat)
    requires Ranked(entries, rank) && Walk(entries, w) && 0 < i < |w| && w[0] in rank
    ensures w[i] in rank && rank[w[i]] < rank[w[0]]
  {
    if i > 1 {
      WalkDescends(entries, rank, w, i - 1);
    }
    assert Link(entries, w, i);
  }

  lemma {:induction false} RankedIsSound(entries: Entries, rank: map<Name, nat>)
    requires Ranked(entries, rank) && forall a :: a in entries ==> a in rank
    ensures Sound(entries)
  {
    forall w
      ensures !Cycle(entries, w)
    {
      if Cycle(entries, w) {
        assert Link(entries, w, 1);
        WalkDescends(entries, rank, w, |w| - 1);
      }
    }
  }

  ghost function RankedNext(rank: map<Name, nat>, name: Name): (r: map<Name, nat>) { rank[name := |rank|] }

  /** A name that is not ranked yet may follow once all its parents are. */
  lemma {:induction false} RankNext(entries: Entries, rank: map<Name, nat>, name: Name)
    requires Ranked(entries, rank) && name !in rank && name in entries && !entries[name].Open?
    requires forall b :: Edge(entries, name, b) ==> b in rank
    ensures Ranked(entries, RankedNext(rank, name)) && RankedNext(rank, name).Keys == rank.Keys + {name}
  {
    var next := RankedNext(rank, name);
    assert next.Keys == rank.Keys + {name};
    assert |next| == |rank| + 1;
    forall a, b | a in next && Edge(entries, a, b)
      ensures b in next && next[b] < next[a]
    {
      assert a in rank ==> b in rank && rank[b] < rank[a];
      assert b in rank && rank[b] < |rank|;
    }
  }

  // ----------------------------------------------------------------- trails

  /** How the walk came to `name`: `trail` leads to it and names just the current path. */
  ghost predicate Leads(entries: Entries, trail: seq<Name>, path: set<Name>, name: Name)
  {
    && Walk(entries, trail + [name])
    && (forall a :: a in path <==> a in trail)
    && (trail == [] ==> name in entries)
  }

  lemma {:induction false} TrailCloses(entries: Entries, trail: seq<Name>, path: set<Name>, name: Name)
    requires Leads(entries, trail, path, name) && name in path
    ensures !Sound(entries)
  {
    var k :| 0 <= k < |trail| && trail[k] == name;
    var walk := trail + [name];
    var w := walk[k..];
    forall i | 0 < i < |w|
      ensures Link(entries, w, i)
    {
      assert Link(entries, walk, k + i);
    }
    assert Cycle(entries, w);
  }

  lemma {:induction false} TrailEnds(entries: Entries, trail: seq<Name>, path: set<Name>, name: Name)
    requires Leads(entries, trail, path, name) && name !in entries
    ensures !Sound(entries)
  {
    var walk := trail + [name];
    assert trail != [] && Link(entries, walk, |trail|);
  }

  lemma {:induction false} TrailGrows(entries: Entries, trail: seq<Name>, path: set<Name>, name: Name, parent: Name)
    requires Leads(entries, trail, path, name) && Edge(entries, name, parent)
    ensures Leads(entries, trail + [name], path + {name}, parent)
  {
    var walk := trail + [name] + [parent];
    forall i | 0 < i < |walk|
      ensures Link(entries, walk, i)
    {
      assert i < |walk| - 1 ==> Link(entries, trail + [name], i);
    }
  }

  // ------------------------------------------------------------------ the walk

  predicate AllIn(names: seq<Name>, n: nat, s: set<Name>)
    requires n <= |names|
  {
    forall i :: 0 <= i < n ==> names[i] in s
  }

  lemma {:induction false} OneMoreIn(names: seq<Name>, n: nat, before: set<Name>, after: set<Name>)
    requires n < |names| && AllIn(names, n, before) && before <= after && names[n] in after
    ensures AllIn(names, n + 1, after)
  {
  }

  class Visitor {
    const entries: Entries
    var visited: set<Name>
    ghost var rank: map<Name, nat>

    ghost predicate Valid()
      reads this
    {
      visited == rank.Keys && Ranked(entries, rank)
    }

    constructor (entries: Entries)
      ensures Valid() && this.entries == entries && visited == {}
    {
      this.entries, visited, rank := entries, {}, map[];
    }

    /** `visit`; the result is false where the source raises.  It terminates because the entries
        names outside the current path become fewer. */
    method Visit(name: Name, path: set<Name>, ghost trail: seq<Name>) returns (ok: bool)
      requires Valid() && path <= entries.Keys && visited !! path && Leads(entries, trail, path, name)
      modifies this`visited, this`rank
      ensures Valid() && old(visited) <= visited && visited !! path
      ensures ok ==> name in visited
      ensures !ok ==> !Sound(entries)
      decreases entries.Keys - path, 1
    {
      if name in path {
        TrailCloses(entries, trail, path, name);
        return false;
      }
      if name in visited {
        return true;
      }
      if name !in entries {
        TrailEnds(entries, trail, path, name);
        return false;
      }
      if entries[name].Alias? {
        ok := VisitAll(name, entries[name].parents, path, trail);
        if !ok {
          return false;
        }
      } else if entries[name].Open? {
        return false;
      }
      RankNext(entries, rank, name);
      rank, visited := RankedNext(rank, name), visited + {name};
      return true;
    }

    /** The loop of `visit` over the parents of an alias. */
    method VisitAll(name: Name, parents: seq<Name>, path: set<Name>, ghost trail: seq<Name>) returns (ok: bool)
      requires Valid() && path <= entries.Keys && visited !! path + {name} && Leads(entries, trail, path, name)
      requires name in entries && name !in path && entries[name] == Alias(parents)
      modifies this`visited, this`rank
      ensures Valid() && old(visited) <= visited && visited !! path + {name}
      ensures ok ==> AllIn(parents, |parents|, visited)
      ensures !ok ==> !Sound(entries)
      decreases entries.Keys - path, 0
    {
      for i := 0 to |parents|
        invariant Valid() && old(visited) <= visited && visited !! path + {name}
        invariant AllIn(parents, i, visited)
      {
        TrailGrows(entries, trail, path, name, parents[i]);
        assert name in entries.Keys - path && name !in entries.Keys - (path + {name});
        ghost var before := visited;
        ok := Visit(parents[i], path + {name}, trail + [name]);
        if !ok {
          return false;
        }
        OneMoreIn(parents, i, before, visited);
      }
      return true;
    }
  }

  /** The check over all assigned names, in whatever order they are listed. */
  method CheckAliases(entries: Entries, names: seq<Name>) returns (ok: bool)
    requires forall a :: a in entries <==> a in names
    ensures ok <==> Sound(entries)
  {
    var visitor := new Visitor(entries);
    for i := 0 to |names|
      invariant visitor.Valid() && visitor.entries == entries
      invariant AllIn(names, i, visitor.visited)
    {
      ghost var before := visitor.visited;
      ok := visitor.Visit(names[i], {}, []);
      if !ok {
        return false;
      }
      OneMoreIn(names, i, before, visitor.visited);
    }
    RankedIsSound(entries, visitor.rank);
    return true;
  }
}
