/**
 The order of the backends in benchmark rounds (perf/scripts/value_backends.py): the list is rotated
 by the round number and reversed in odd rounds.  perf/README.md promises that each backend sees each
 position; that is so exactly for an odd number of backends.
 */
module Rounds {

  function Reversed<T>(s: seq<T>): (r: seq<T>)
  {
    seq(|s|, i requires 0 <= i < |s| => s[|s| - 1 - i])
  }

  function RoundOrder<T>(backends: seq<T>, index: nat): (r: seq<T>)
    requires backends != []
    ensures |r| == |backends|
  {
    var order := Rotated(backends, index % |backends|);
    if index % 2 == 0 then order else Reversed(order)
  }

  function Rotated<T>(backends: seq<T>, rotation: nat): (r: seq<T>)
    requires rotation < |backends|
    ensures |r| == |backends|
  {
    backends[rotation..] + backends[..rotation]
  }

  /** The rounds of one workload: `warmups` unmeasured ones, then `runs` measured ones. */
  method Orders<T>(backends: seq<T>, warmups: nat, runs: nat) returns (measured: seq<seq<T>>)
    requires backends != []
    ensures |measured| == runs && Measured(backends, warmups, measured)
  {
    measured := [];
    var first: int := 0 - warmups;
    for roundIndex := first to runs
      invariant |measured| == if roundIndex < 0 then 0 else roundIndex
      invariant forall i :: 0 <= i < |measured| ==> measured[i] == RoundOrder(backends, warmups + i)
    {
      var order := RoundOrder(backends, roundIndex + warmups);
      if roundIndex >= 0 {
        measured := measured + [order];
      }
    }
  }

  // ------------------------------------------------------------ one round

  /** The number of the backend that stands at distance `q` in a list rotated by `r`. */
  function Pick(n: nat, r: nat, q: nat): (k: nat)
    requires r < n && q < n
    ensures k < n
  {
    if r + q < n then r + q else r + q - n
  }

  /** The rotation that brings backend `k` to distance `q`. */
  function Back(n: nat, k: nat, q: nat): (r: nat)
    requires k < n && q < n
    ensures r < n && Pick(n, r, q) == k
    ensures forall other :: 0 <= other < n && Pick(n, other, q) == k ==> other == r
  {
    if q <= k then k - q else k + n - q
  }

  function Distance(n: nat, index: nat, pos: nat): (q: nat)
    requires pos < n
    ensures q < n
  {
    if index % 2 == 0 then pos else n - 1 - pos
  }

  /** The number of the backend at a position of a round. */
  function At(n: nat, index: nat, pos: nat): (k: nat)
    requires pos < n
    ensures k < n
  {
    Pick(n, index % n, Distance(n, index, pos))
  }

  lemma {:induction false} RotatedAt<T>(backends: seq<T>, rotation: nat, q: nat)
    requires rotation < |backends| && q < |backends|
    ensures Rotated(backends, rotation)[q] == backends[Pick(|backends|, rotation, q)]
  {
  }

  lemma {:induction false} RoundOrderAt<T>(backends: seq<T>, index: nat, pos: nat)
    requires pos < |backends|
    ensures RoundOrder(backends, index)[pos] == backends[At(|backends|, index, pos)]
  {
    OrderAt(backends, index % |backends|, index, pos);
  }

  lemma {:induction false} OrderAt<T>(backends: seq<T>, rotation: nat, index: nat, pos: nat)
    requires pos < |backends| && rotation < |backends|
    ensures var order := Rotated(backends, rotation);
            (if index % 2 == 0 then order else Reversed(order))[pos]
            == backends[Pick(|backends|, rotation, Distance(|backends|, index, pos))]
  {
    RotatedAt(backends, rotation, Distance(|backends|, index, pos));
  }

  lemma {:induction false} ReversedIsPermutation<T>(s: seq<T>)
    ensures multiset(Reversed(s)) == multiset(s)
  {
    if s != [] {
      var rest := s[1..];
      ReversedIsPermutation(rest);
      assert Reversed(s) == Reversed(rest) + [s[0]];
      assert s == [s[0]] + rest;
    }
  }

  /** Every round runs every backend once. */
  lemma {:induction false} RoundIsPermutation<T>(backends: seq<T>, index: nat)
    requires backends != []
    ensures multiset(RoundOrder(backends, index)) == multiset(backends)
  {
    var r := index % |backends|;
    assert backends == backends[..r] + backends[r..];
    assert multiset(Rotated(backends, r)) == multiset(backends);
    ReversedIsPermutation(Rotated(backends, r));
  }

  // ----------------------------------------------------------- counting rounds

  type Test = nat -> bool

  /** How many of the `len` numbers from `from` on pass. */
  function Count(p: Test, from: nat, len: nat): (c: nat)
  {
    if len == 0 then 0 else Count(p, from, len - 1) + (if p(from + len - 1) then 1 else 0)
  }

  lemma {:induction false} CountFirst(p: Test, from: nat, len: nat)
    requires len > 0
    ensures Count(p, from, len) == (if p(from) then 1 else 0) + Count(p, from + 1, len - 1)
  {
    if len > 1 {
      CountFirst(p, from, len - 1);
    }
  }

  ghost predicate Periodic(p: Test, period: nat) { forall i: nat :: p(i + period) == p(i) }

  /** All windows of one period are alike. */
  lemma {:induction false} CountWindow(p: Test, period: nat, from: nat)
    requires period > 0 && Periodic(p, period)
    ensures Count(p, from, period) == Count(p, 0, period)
  {
    if from > 0 {
      CountWindow(p, period, from - 1);
      CountFirst(p, from - 1, period);
      assert p(from - 1 + period) == p(from - 1);
      assert Count(p, from, period) == Count(p, from, period - 1) + (if p(from + period - 1) then 1 else 0);
    }
  }

  lemma {:induction false} CountConcat(p: Test, from: nat, a: nat, b: nat)
    ensures Count(p, from, a + b) == Count(p, from, a) + Count(p, from + a, b)
  {
    if b > 0 {
      CountConcat(p, from, a, b - 1);
      assert a + b - 1 == a + (b - 1);
    }
  }

  lemma {:induction false} OneMore(times: nat, m: nat)
    requires times > 0
    ensures times * m == (times - 1) * m + m
  {
  }

  lemma {:induction false} CountWindows(p: Test, period: nat, from: nat, times: nat)
    requires period > 0 && Periodic(p, period)
    ensures Count(p, from, times * period) == times * Count(p, 0, period)
  {
    if times > 0 {
      var rest := (times - 1) * period;
      OneMore(times, period);
      OneMore(times, Count(p, 0, period));
      CountWindows(p, period, from, times - 1);
      CountConcat(p, from, rest, period);
      CountWindow(p, period, from + rest);
    }
  }

  lemma {:induction false} CountMembers(p: Test, len: nat, s: set<nat>)
    requires forall i: nat :: i in s <==> i < len && p(i)
    ensures Count(p, 0, len) == |s|
  {
    if len == 0 {
      assert s == {};
    } else {
      var last := len - 1;
      var rest := s - {last};
      CountMembers(p, last, rest);
      if p(last) {
        assert s == rest + {last};
      } else {
        assert s == rest;
      }
    }
  }

  // ------------------------------------------------------------- the schedule

  /** The rounds that put backend `k` at a position. */
  function Meets(n: nat, k: nat, pos: nat): (p: Test)
    requires pos < n
  {
    (index: nat) => At(n, index, pos) == k
  }

  lemma {:induction false} ModIs(i: nat, n: nat, q: nat, r: nat)
    requires n > 0 && r < n && i == q * n + r
    ensures i % n == r
  {
    var d := i / n - q;
    assert d * n == r - i % n;
    assert d >= 1 ==> d * n >= n;
    assert d <= -1 ==> d * n <= -1 * n;
  }

  lemma {:induction false} ModPeriod(i: nat, n: nat)
    requires n > 0
    ensures (i + 2 * n) % n == i % n && (i + 2 * n) % 2 == i % 2
  {
    var q := i / n;
    assert (q + 2) * n == q * n + 2 * n;
    ModIs(i + 2 * n, n, q + 2, i % n);
  }

  lemma {:induction false} MeetsIsPeriodic(n: nat, k: nat, pos: nat)
    requires pos < n
    ensures Periodic(Meets(n, k, pos), 2 * n)
  {
    var p := Meets(n, k, pos);
    forall i: nat
      ensures p(i + 2 * n) == p(i)
    {
      ModPeriod(i, n);
    }
  }

  /** The even rounds with the rotation `e` and the odd ones with the rotation `o`. */
  predicate Solves(n: nat, e: nat, o: nat, i: nat)
  {
    if i % 2 == 0 then i == e || i == e + n else i == o || i == o + n
  }

  lemma {:induction false} MeetsExactly(n: nat, k: nat, pos: nat, i: nat)
    requires pos < n && k < n && i < 2 * n
    ensures At(n, i, pos) == k <==> Solves(n, Back(n, k, pos), Back(n, k, n - 1 - pos), i)
  {
    if i < n {
      ModIs(i, n, 0, i);
    } else {
      ModIs(i, n, 1, i - n);
    }
  }

  /** How often backend `k` takes a position in as many rounds as twice the backends. */
  function Share(n: nat, k: nat, pos: nat): (c: nat)
  {
    if n % 2 == 1 then 2 else if k % 2 == pos % 2 then 4 else 0
  }

  ghost predicate AreSolutions(n: nat, e: nat, o: nat, s: set<nat>)
  {
    forall i: nat :: i in s <==> i < 2 * n && Solves(n, e, o, i)
  }

  lemma {:induction false} OddSolutions(n: nat, e: nat, o: nat) returns (s: set<nat>)
    requires n % 2 == 1 && e < n && o < n
    ensures AreSolutions(n, e, o, s) && |s| == 2
  {
    var even, odd := if e % 2 == 0 then e else e + n, if o % 2 == 1 then o else o + n;
    OtherParityAfter(n, e);
    OtherParityAfter(n, o);
    s := {even, odd};
    forall i: nat
      ensures i in s <==> i < 2 * n && Solves(n, e, o, i)
    {
      OneSolution(n, e, o, even, odd, i);
    }
    TwoNumbers(even, odd);
  }

  lemma {:induction false} OtherParityAfter(n: nat, x: nat)
    requires n % 2 == 1
    ensures (x + n) % 2 == 1 - x % 2
  {
    var half, h := n / 2, x / 2;
    assert x + n == 2 * (h + half) + x % 2 + 1;
  }

  lemma {:induction false} OneSolution(n: nat, e: nat, o: nat, even: nat, odd: nat, i: nat)
    requires e < n && o < n && (e + n) % 2 == 1 - e % 2 && (o + n) % 2 == 1 - o % 2
    requires even == (if e % 2 == 0 then e else e + n) && odd == (if o % 2 == 1 then o else o + n)
    ensures (i == even || i == odd) <==> i < 2 * n && Solves(n, e, o, i)
  {
  }

  lemma {:induction false} TwoNumbers(a: nat, b: nat)
    requires a % 2 == 0 && b % 2 == 1
    ensures |{a, b}| == 2
  {
    assert {a, b} - {b} == {a};
  }

  lemma {:induction false} EvenSolutions(n: nat, e: nat, o: nat) returns (s: set<nat>)
    requires n % 2 == 0 && e < n && o < n && e % 2 != o % 2
    ensures AreSolutions(n, e, o, s) && |s| == if e % 2 == 0 then 4 else 0
  {
    if e % 2 == 0 {
      FourSolutions(n, e, o);
      FourNumbers(e, e + n, o, o + n);
      s := {e, e + n, o, o + n};
    } else {
      NoSolutions(n, e, o);
      s := {};
    }
  }

  lemma {:induction false} SameParityAfter(n: nat, x: nat)
    requires n % 2 == 0
    ensures (x + n) % 2 == x % 2
  {
    var half := n / 2;
    assert x + n == x + 2 * half;
  }

  lemma {:induction false} FourSolutions(n: nat, e: nat, o: nat)
    requires n % 2 == 0 && e < n && o < n && e % 2 == 0 && o % 2 == 1
    ensures AreSolutions(n, e, o, {e, e + n, o, o + n})
  {
    SameParityAfter(n, e);
    SameParityAfter(n, o);
    forall i: nat
      ensures i in {e, e + n, o, o + n} <==> i < 2 * n && Solves(n, e, o, i)
    {
    }
  }

  lemma {:induction false} NoSolutions(n: nat, e: nat, o: nat)
    requires n % 2 == 0 && e % 2 == 1 && o % 2 == 0
    ensures AreSolutions(n, e, o, {})
  {
    SameParityAfter(n, e);
    SameParityAfter(n, o);
    forall i: nat
      ensures !Solves(n, e, o, i)
    {
    }
  }

  lemma {:induction false} FourNumbers(a: nat, b: nat, c: nat, d: nat)
    requires a < b && c < d && a != c && a != d && b != c && b != d
    ensures |{a, b, c, d}| == 4
  {
    assert {a, b, c, d} - {d} == {a, b, c};
  }

  lemma {:induction false} BackParity(n: nat, k: nat, q: nat)
    requires k < n && q < n && n % 2 == 0
    ensures Back(n, k, q) % 2 == 0 <==> k % 2 == q % 2
  {
  }

  lemma {:induction false} Solutions(n: nat, k: nat, pos: nat) returns (s: set<nat>)
    requires pos < n && k < n
    ensures AreSolutions(n, Back(n, k, pos), Back(n, k, n - 1 - pos), s) && |s| == Share(n, k, pos)
  {
    if n % 2 == 1 {
      s := OddSolutions(n, Back(n, k, pos), Back(n, k, n - 1 - pos));
    } else {
      BackParity(n, k, pos);
      BackParity(n, k, n - 1 - pos);
      s := EvenSolutions(n, Back(n, k, pos), Back(n, k, n - 1 - pos));
    }
  }

  lemma {:induction false} FirstRounds(n: nat, k: nat, pos: nat)
    requires pos < n && k < n
    ensures Count(Meets(n, k, pos), 0, 2 * n) == Share(n, k, pos)
  {
    var s := Solutions(n, k, pos);
    var p := Meets(n, k, pos);
    forall i: nat
      ensures i in s <==> i < 2 * n && p(i)
    {
      if i < 2 * n {
        MeetsExactly(n, k, pos, i);
      }
    }
    CountMembers(p, 2 * n, s);
  }

  /** In any `2 * n` rounds in a row, and any multiple of that, every backend takes every position
      equally often when their number is odd.  When it is even, a backend only ever takes the
      positions of its own parity. */
  lemma {:induction false} RoundsBalance(n: nat, k: nat, pos: nat, from: nat, times: nat)
    requires pos < n && k < n
    ensures Count(Meets(n, k, pos), from, times * (2 * n)) == times * Share(n, k, pos)
  {
    MeetsIsPeriodic(n, k, pos);
    CountWindows(Meets(n, k, pos), 2 * n, from, times);
    FirstRounds(n, k, pos);
  }

  predicate Distinct<T(==)>(backends: seq<T>)
  {
    forall i, j :: 0 <= i < j < |backends| ==> backends[i] != backends[j]
  }

  /** How many of the first `m` measured rounds have `x` at a position. */
  function Standings<T(==)>(measured: seq<seq<T>>, pos: nat, x: T, m: nat): (c: nat)
    requires m <= |measured| && forall i :: 0 <= i < |measured| ==> pos < |measured[i]|
  {
    if m == 0 then 0 else Standings(measured, pos, x, m - 1) + (if measured[m - 1][pos] == x then 1 else 0)
  }

  ghost predicate Measured<T>(backends: seq<T>, warmups: nat, measured: seq<seq<T>>)
  {
    backends != [] && forall i :: 0 <= i < |measured| ==> measured[i] == RoundOrder(backends, warmups + i)
  }

  lemma {:induction false} StandsAt<T>(backends: seq<T>, index: nat, pos: nat, k: nat)
    requires Distinct(backends) && pos < |backends| && k < |backends|
    ensures RoundOrder(backends, index)[pos] == backends[k] <==> Meets(|backends|, k, pos)(index)
  {
    RoundOrderAt(backends, index, pos);
  }

  lemma {:induction false} StandingsAreCounted<T>(measured: seq<seq<T>>, pos: nat, x: T, p: Test, from: nat, m: nat)
    requires m <= |measured| && forall i :: 0 <= i < |measured| ==> pos < |measured[i]|
    requires forall i :: 0 <= i < |measured| ==> (measured[i][pos] == x <==> p(from + i))
    ensures Standings(measured, pos, x, m) == Count(p, from, m)
  {
    if m > 0 {
      StandingsAreCounted(measured, pos, x, p, from, m - 1);
      assert measured[m - 1][pos] == x <==> p(from + (m - 1));
      assert from + (m - 1) == from + m - 1;
    }
  }

  /** Of the measured rounds, when their number is a multiple of twice the number of distinct
      backends: how often each backend stands at each position. */
  lemma {:induction false} MeasuredBalance<T>(
      backends: seq<T>, warmups: nat, measured: seq<seq<T>>, times: nat, k: nat, pos: nat)
    requires Distinct(backends) && pos < |backends| && k < |backends|
    requires Measured(backends, warmups, measured) && |measured| == times * (2 * |backends|)
    ensures Standings(measured, pos, backends[k], |measured|) == times * Share(|backends|, k, pos)
  {
    MeasuredCounts(backends, warmups, measured, k, pos);
    RoundsBalance(|backends|, k, pos, warmups, times);
  }

  lemma {:induction false} MeasuredCounts<T>(backends: seq<T>, warmups: nat, measured: seq<seq<T>>, k: nat, pos: nat)
    requires Distinct(backends) && pos < |backends| && k < |backends| && Measured(backends, warmups, measured)
    ensures Standings(measured, pos, backends[k], |measured|) == Count(Meets(|backends|, k, pos), warmups, |measured|)
  {
    var p := Meets(|backends|, k, pos);
    forall i | 0 <= i < |measured| ensures measured[i][pos] == backends[k] <==> p(warmups + i) {
      StandsAt(backends, warmups + i, pos, k);
    }
    StandingsAreCounted(measured, pos, backends[k], p, warmups, |measured|);
  }

  /** Backend `k` is at the position in some round. */
  ghost predicate Sees(n: nat, k: nat, pos: nat)
    requires pos < n
  {
    exists index: nat :: Meets(n, k, pos)(index)
  }

  lemma {:induction false} CountIsSome(p: Test, from: nat, len: nat)
    requires Count(p, from, len) > 0
    ensures exists i: nat :: p(i)
  {
    if !p(from + len - 1) {
      CountIsSome(p, from, len - 1);
    }
  }

  lemma {:induction false} OddSees(n: nat, k: nat, pos: nat)
    requires pos < n && k < n && n % 2 == 1
    ensures Sees(n, k, pos)
  {
    FirstRounds(n, k, pos);
    CountIsSome(Meets(n, k, pos), 0, 2 * n);
  }

  lemma {:induction false} ParityOfSum(a: nat, b: nat)
    ensures (a + b) % 2 == if a % 2 == b % 2 then 0 else 1
  {
    var x, y := a / 2, b / 2;
    assert a + b == 2 * (x + y) + a % 2 + b % 2;
  }

  lemma {:induction false} DistanceParity(n: nat, index: nat, pos: nat)
    requires pos < n && n % 2 == 0
    ensures Distance(n, index, pos) % 2 == if index % 2 == 0 then pos % 2 else 1 - pos % 2
  {
    if index % 2 == 1 {
      ParityOfSum(n - 1 - pos, pos + 1);
      ParityOfSum(pos, 1);
    }
  }

  lemma {:induction false} PickParity(n: nat, r: nat, index: nat, pos: nat)
    requires pos < n && n % 2 == 0 && r < n && r % 2 == index % 2
    ensures Pick(n, r, Distance(n, index, pos)) % 2 == pos % 2
  {
    var q := Distance(n, index, pos);
    DistanceParity(n, index, pos);
    ParityOfSum(r, q);
    if r + q >= n {
      SameParityAfter(n, r + q - n);
    }
  }

  lemma {:induction false} SameParity(n: nat, index: nat, pos: nat)
    requires pos < n && n % 2 == 0
    ensures At(n, index, pos) % 2 == pos % 2
  {
    var q, r := QuotientAndRest(index, n);
    EvenRemainder(index, n, q, r);
    PickParity(n, r, index, pos);
  }

  lemma {:induction false} QuotientAndRest(i: nat, n: nat) returns (q: nat, r: nat)
    requires n > 0
    ensures i == q * n + r && r == i % n
  {
    q, r := i / n, i % n;
  }

  lemma {:induction false} EvenRemainder(i: nat, n: nat, q: nat, r: nat)
    requires n % 2 == 0 && i == q * n + r
    ensures r % 2 == i % 2
  {
    var half := n / 2;
    TwiceProduct(q, half, n);
    EvenSum(i, q * half, r);
  }

  lemma {:induction false} TwiceProduct(q: nat, half: nat, n: nat)
    requires n == 2 * half
    ensures q * n == 2 * (q * half)
  {
  }

  lemma {:induction false} EvenSum(i: nat, m: nat, r: nat)
    requires i == 2 * m + r
    ensures i % 2 == r % 2
  {
  }

  /** Each backend sees each position if and only if the number of backends is odd. */
  lemma {:induction false} EachSeesEachIffOdd(n: nat)
    requires n > 0
    ensures (forall k, pos :: 0 <= k < n && 0 <= pos < n ==> Sees(n, k, pos)) <==> n % 2 == 1
  {
    if n % 2 == 1 {
      forall k, pos | 0 <= k < n && 0 <= pos < n
        ensures Sees(n, k, pos)
      {
        OddSees(n, k, pos);
      }
    } else {
      forall index: nat
        ensures !Meets(n, 0, 1)(index)
      {
        SameParity(n, index, 1);
      }
      assert !Sees(n, 0, 1);
    }
  }
}
