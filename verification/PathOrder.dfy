/**
 The order in which a `BTreeMap` keyed by paths lists its keys: component by
 component, and within a component character by character.
 */
module PathOrder {

  /** Lexicographic order over an order of the elements. */
  predicate Less<T(==)>(a: seq<T>, b: seq<T>, lt: (T, T) -> bool)
  {
    if b == [] then false
    else if a == [] then true
    else if a[0] == b[0] then Less(a[1..], b[1..], lt)
    else lt(a[0], b[0])
  }

  ghost predicate StrictOrder<T(!new)>(lt: (T, T) -> bool)
  {
    && (forall x :: !lt(x, x))
    && (forall x, y, z :: lt(x, y) && lt(y, z) ==> lt(x, z))
    && (forall x, y :: x != y ==> lt(x, y) || lt(y, x))
  }

  lemma {:induction false} LessIsStrict<T(!new)>(a: seq<T>, b: seq<T>, c: seq<T>, lt: (T, T) -> bool)
    requires StrictOrder(lt)
    ensures !Less(a, a, lt)
    ensures Less(a, b, lt) && Less(b, c, lt) ==> Less(a, c, lt)
    ensures a != b ==> Less(a, b, lt) || Less(b, a, lt)
  {
    if a != [] && b != [] && c != [] {
      LessIsStrict(a[1..], b[1..], c[1..], lt);
    } else if a != [] && b != [] {
      LessIsStrict(a[1..], b[1..], [], lt);
    } else if a != [] {
      LessIsStrict(a[1..], [], [], lt);
    }
    if a != [] && b != [] && a[0] == b[0] && a[1..] == b[1..] {
      assert a == [a[0]] + a[1..] && b == [b[0]] + b[1..];
    }
  }

  function CharLess(): (lt: (char, char) -> bool) { (x, y) => x < y }

  function NameLess(): (lt: (string, string) -> bool) { (x, y) => Less(x, y, CharLess()) }

  predicate PathLess(a: seq<string>, b: seq<string>) { Less(a, b, NameLess()) }

  lemma {:induction false} NameOrder()
    ensures StrictOrder(NameLess())
  {
    var lt := NameLess();
    assert StrictOrder(CharLess());
    forall x: string ensures !lt(x, x) { LessIsStrict(x, x, x, CharLess()); }
    forall x: string, y: string, z: string | lt(x, y) && lt(y, z) ensures lt(x, z) { LessIsStrict(x, y, z, CharLess()); }
    forall x: string, y: string | x != y ensures lt(x, y) || lt(y, x) { LessIsStrict(x, y, x, CharLess()); }
  }

  lemma {:induction false} PathOrder(a: seq<string>, b: seq<string>, c: seq<string>)
    ensures !PathLess(a, a)
    ensures PathLess(a, b) && PathLess(b, c) ==> PathLess(a, c)
    ensures a != b ==> PathLess(a, b) || PathLess(b, a)
  {
    NameOrder();
    LessIsStrict(a, b, c, NameLess());
  }

  predicate Ascending(paths: seq<seq<string>>)
  {
    forall i, j :: 0 <= i < j < |paths| ==> PathLess(paths[i], paths[j])
  }

  /** Insert a key into the listing, once. */
  method Insert(paths: seq<seq<string>>, path: seq<string>) returns (r: seq<seq<string>>)
    requires Ascending(paths)
    ensures Ascending(r)
    ensures forall x :: x in r <==> x in paths || x == path
  {
    var n := 0;
    while n < |paths| && PathLess(paths[n], path)
      invariant 0 <= n <= |paths|
      invariant forall i :: 0 <= i < n ==> PathLess(paths[i], path)
    {
      n := n + 1;
    }
    if n < |paths| && paths[n] == path {
      return paths;
    }
    r := paths[..n] + [path] + paths[n..];
    forall i, j | 0 <= i < j < |r| ensures PathLess(r[i], r[j]) {
      if n < |paths| {
        PathOrder(paths[n], path, path);
        if j > n { PathOrder(path, paths[n], paths[j - 1]); }
      }
      if i < n < j {
        assert PathLess(paths[i], paths[j - 1]);
      }
    }
    forall x ensures x in r <==> x in paths || x == path {
      assert paths == paths[..n] + paths[n..];
    }
  }

  /** The listing is determined by the keys it lists. */
  lemma {:induction false} ListingIsUnique(a: seq<seq<string>>, b: seq<seq<string>>)
    requires Ascending(a) && Ascending(b) && forall x :: x in a <==> x in b
    ensures a == b
  {
    assert a != [] ==> a[0] in a;
    assert b != [] ==> b[0] in b;
    if a != [] {
      FirstIsLeast(a, b[0]);
      FirstIsLeast(b, a[0]);
      PathOrder(a[0], b[0], a[0]);
      assert a[0] == b[0];
      var a', b' := a[1..], b[1..];
      forall x ensures x in a' <==> x in b' {
        RestMembers(a, x);
        RestMembers(b, x);
      }
      assert Ascending(a') && Ascending(b');
      ListingIsUnique(a', b');
    }
  }

  lemma {:induction false} FirstIsLeast(a: seq<seq<string>>, x: seq<string>)
    requires Ascending(a) && x in a
    ensures x == a[0] || PathLess(a[0], x)
  {
  }

  lemma {:induction false} RestMembers(a: seq<seq<string>>, x: seq<string>)
    requires a != [] && Ascending(a)
    ensures x in a[1..] <==> x in a && x != a[0]
  {
    assert a == [a[0]] + a[1..];
    PathOrder(a[0], a[0], a[0]);
  }
}
