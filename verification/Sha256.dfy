/**
 The compression and the digest of `sha256` in build_support/vendor_patches.rs, against section
 6.2.2 of FIPS 180-4.  The code shifts eight words of an array in place; here that is shown to be
 the simultaneous update of the standard, and also a pair of recurrences with one new word each per
 round.

 None of this depends on what the word operations are, so they are a parameter (`Ops`); the 32-bit
 ones are given at the end.
 */
module Sha256 {
  import opened Padding

  datatype Ops<!W(!new)> = Ops(
    add: (W, W) -> W,
    small0: W -> W,
    small1: W -> W,
    big0: W -> W,
    big1: W -> W,
    choose: (W, W, W) -> W,
    majority: (W, W, W) -> W,
    load: (Byte, Byte, Byte, Byte) -> W,
    store: W -> seq<Byte>,
    zero: W)
  {
    function Sum4(a: W, b: W, c: W, d: W): (r: W) { add(add(add(a, b), c), d) }

    /** A sum of four words does not depend on the direction it is taken in. */
    ghost predicate Commutes() { forall a, b, c, d :: Sum4(a, b, c, d) == Sum4(d, c, b, a) }
  }

  // ------------------------------------------------------------- the schedule

  function WordAt<W(!new)>(ops: Ops<W>, bytes: seq<Byte>, i: nat): (r: W)
    requires i + 4 <= |bytes|
  {
    ops.load(bytes[i], bytes[i + 1], bytes[i + 2], bytes[i + 3])
  }

  /** Word `t` of the message schedule of the block that starts at `base`. */
  function Schedule<W(!new)>(ops: Ops<W>, bytes: seq<Byte>, base: nat, t: nat): (r: W)
    requires base + 64 <= |bytes| && t < 64
  {
    if t < 16 then WordAt(ops, bytes, base + 4 * t)
    else ops.Sum4(
           ops.small1(Schedule(ops, bytes, base, t - 2)),
           Schedule(ops, bytes, base, t - 7),
           ops.small0(Schedule(ops, bytes, base, t - 15)),
           Schedule(ops, bytes, base, t - 16))
  }

  ghost predicate Scheduled<W(!new)>(ops: Ops<W>, bytes: seq<Byte>, base: nat, schedule: seq<W>, n: nat)
    requires base + 64 <= |bytes| && n <= 64 == |schedule|
  {
    forall t :: 0 <= t < n ==> schedule[t] == Schedule(ops, bytes, base, t)
  }

  method Expand<W(!new)>(ops: Ops<W>, bytes: seq<Byte>, base: nat) returns (schedule: array<W>)
    requires base + 64 <= |bytes| && ops.Commutes()
    ensures fresh(schedule) && schedule.Length == 64
    ensures Scheduled(ops, bytes, base, schedule[..], 64)
  {
    schedule := new W[64](_ => ops.zero);
    for index := 0 to 16
      invariant Scheduled(ops, bytes, base, schedule[..], index)
    {
      schedule[index] := WordAt(ops, bytes, base + 4 * index);
    }
    for index := 16 to 64
      invariant Scheduled(ops, bytes, base, schedule[..], index)
    {
      var s0 := ops.small0(schedule[index - 15]);
      var s1 := ops.small1(schedule[index - 2]);
      schedule[index] := ops.Sum4(schedule[index - 16], s0, schedule[index - 7], s1);
    }
  }

  // --------------------------------------------------------------- the rounds

  /** The constants and the schedule that the rounds consume. */
  datatype Feed<!W> = Feed(k: seq<W>, w: seq<W>)

  predicate Fed<W(!new)>(feed: Feed<W>, n: nat) { n <= |feed.k| && n <= |feed.w| }

  function Temp1<W(!new)>(ops: Ops<W>, e: W, f: W, g: W, h: W, k: W, w: W): (r: W)
  {
    ops.add(ops.Sum4(h, ops.big1(e), ops.choose(e, f, g), k), w)
  }

  function Temp2<W(!new)>(ops: Ops<W>, a: W, b: W, c: W): (r: W)
  {
    ops.add(ops.big0(a), ops.majority(a, b, c))
  }

  /** One round on the eight working variables, all replaced at once. */
  function Round<W(!new)>(ops: Ops<W>, v: seq<W>, k: W, w: W): (r: seq<W>)
    requires |v| == 8
    ensures |r| == 8
  {
    var t1 := Temp1(ops, v[4], v[5], v[6], v[7], k, w);
    [ops.add(t1, Temp2(ops, v[0], v[1], v[2])), v[0], v[1], v[2], ops.add(v[3], t1), v[4], v[5], v[6]]
  }

  /** The working variables after `n` rounds. */
  function Rounds<W(!new)>(ops: Ops<W>, v: seq<W>, feed: Feed<W>, n: nat): (r: seq<W>)
    requires |v| == 8 && Fed(feed, n)
    ensures |r| == 8
  {
    if n == 0 then v else Round(ops, Rounds(ops, v, feed, n - 1), feed.k[n - 1], feed.w[n - 1])
  }

  /** The round loop, which moves the words of the array down one by one. */
  method Shift<W(!new)>(ops: Ops<W>, working: array<W>, feed: Feed<W>)
    requires working.Length == 8 && |feed.k| == 64 && |feed.w| == 64
    modifies working
    ensures working[..] == Rounds(ops, old(working[..]), feed, 64)
  {
    for index := 0 to 64
      invariant working[..] == Rounds(ops, old(working[..]), feed, index)
    {
      ShiftOnce(ops, working, feed.k[index], feed.w[index]);
    }
  }

  lemma {:induction false} EightWords<W>(s: seq<W>, t: seq<W>)
    requires |s| == 8 && |t| == 8
    requires s[0] == t[0] && s[1] == t[1] && s[2] == t[2] && s[3] == t[3]
    requires s[4] == t[4] && s[5] == t[5] && s[6] == t[6] && s[7] == t[7]
    ensures s == t
  {
  }

  method ShiftOnce<W(!new)>(ops: Ops<W>, working: array<W>, k: W, w: W)
    requires working.Length == 8
    modifies working
    ensures working[..] == Round(ops, old(working[..]), k, w)
  {
    ghost var v := working[..];
    var s1 := ops.big1(working[4]);
    var choose := ops.choose(working[4], working[5], working[6]);
    var temp1 := ops.add(ops.Sum4(working[7], s1, choose, k), w);
    var s0 := ops.big0(working[0]);
    var majority := ops.majority(working[0], working[1], working[2]);
    var temp2 := ops.add(s0, majority);
    working[7] := working[6];
    working[6] := working[5];
    working[5] := working[4];
    working[4] := ops.add(working[3], temp1);
    working[3] := working[2];
    working[2] := working[1];
    working[1] := working[0];
    working[0] := ops.add(temp1, temp2);
    assert temp1 == Temp1(ops, v[4], v[5], v[6], v[7], k, w) && temp2 == Temp2(ops, v[0], v[1], v[2]);
    EightWords(working[..], Round(ops, v, k, w));
  }

  // The rounds as two recurrences.  Index 3 of each is the youngest initial word; the words 4, 5, ...
  // are the new ones of each round.

  function NewTemp<W(!new)>(ops: Ops<W>, v: seq<W>, feed: Feed<W>, n: nat): (r: W)
    requires |v| == 8 && n >= 4 && Fed(feed, n - 3)
    decreases n, 0
  {
    Temp1(ops, NewE(ops, v, feed, n - 1), NewE(ops, v, feed, n - 2), NewE(ops, v, feed, n - 3),
          NewE(ops, v, feed, n - 4), feed.k[n - 4], feed.w[n - 4])
  }

  function NewA<W(!new)>(ops: Ops<W>, v: seq<W>, feed: Feed<W>, n: nat): (r: W)
    requires |v| == 8 && (n >= 4 ==> Fed(feed, n - 3))
    decreases n, 1
  {
    if n < 4 then v[3 - n]
    else ops.add(NewTemp(ops, v, feed, n),
                 Temp2(ops, NewA(ops, v, feed, n - 1), NewA(ops, v, feed, n - 2), NewA(ops, v, feed, n - 3)))
  }

  function NewE<W(!new)>(ops: Ops<W>, v: seq<W>, feed: Feed<W>, n: nat): (r: W)
    requires |v| == 8 && (n >= 4 ==> Fed(feed, n - 3))
    decreases n, 1
  {
    if n < 4 then v[7 - n] else ops.add(NewA(ops, v, feed, n - 4), NewTemp(ops, v, feed, n))
  }

  /** After every round the eight words are the last four of each recurrence. */
  lemma {:induction false} ShiftRegister<W(!new)>(ops: Ops<W>, v: seq<W>, feed: Feed<W>, n: nat)
    requires |v| == 8 && Fed(feed, n)
    ensures Rounds(ops, v, feed, n) == [
      NewA(ops, v, feed, n + 3), NewA(ops, v, feed, n + 2), NewA(ops, v, feed, n + 1), NewA(ops, v, feed, n),
      NewE(ops, v, feed, n + 3), NewE(ops, v, feed, n + 2), NewE(ops, v, feed, n + 1), NewE(ops, v, feed, n)]
  {
    if n > 0 {
      ShiftRegister(ops, v, feed, n - 1);
    }
  }

  // ------------------------------------------------------------------ blocks

  function AddWords<W(!new)>(ops: Ops<W>, a: seq<W>, b: seq<W>): (r: seq<W>)
    requires |a| == 8 && |b| == 8
    ensures |r| == 8
  {
    seq(8, i requires 0 <= i < 8 => ops.add(a[i], b[i]))
  }

  function FeedOf<W(!new)>(ops: Ops<W>, k: seq<W>, bytes: seq<Byte>, base: nat): (r: Feed<W>)
    requires base + 64 <= |bytes|
    ensures |r.w| == 64
  {
    Feed(k, seq(64, t requires 0 <= t < 64 => Schedule(ops, bytes, base, t)))
  }

  /** The hash value after the first `n` blocks. */
  function Blocks<W(!new)>(ops: Ops<W>, k: seq<W>, initial: seq<W>, bytes: seq<Byte>, n: nat): (r: seq<W>)
    requires |k| == 64 && |initial| == 8 && 64 * n <= |bytes|
    ensures |r| == 8
  {
    if n == 0 then initial else
      var before := Blocks(ops, k, initial, bytes, n - 1);
      AddWords(ops, before, Rounds(ops, before, FeedOf(ops, k, bytes, 64 * (n - 1)), 64))
  }

  function StoreAll<W(!new)>(ops: Ops<W>, words: seq<W>): (r: seq<Byte>)
  {
    if words == [] then [] else StoreAll(ops, words[..|words| - 1]) + ops.store(words[|words| - 1])
  }

  method Block<W(!new)>(ops: Ops<W>, k: seq<W>, bytes: seq<Byte>, base: nat, state: array<W>)
    requires |k| == 64 && base + 64 <= |bytes| && state.Length == 8 && ops.Commutes()
    modifies state
    ensures var before := old(state[..]);
            state[..] == AddWords(ops, before, Rounds(ops, before, FeedOf(ops, k, bytes, base), 64))
  {
    var schedule := Expand(ops, bytes, base);
    var feed := Feed(k, schedule[..]);
    assert feed == FeedOf(ops, k, bytes, base);
    var working := new W[8](i requires 0 <= i < 8 reads state => state[i]);
    ghost var before := state[..];
    assert working[..] == before;
    Shift(ops, working, feed);
    var after := working[..];
    for slot := 0 to 8
      invariant forall i :: 0 <= i < slot ==> state[i] == ops.add(before[i], after[i])
      invariant forall i :: slot <= i < 8 ==> state[i] == before[i]
    {
      state[slot] := ops.add(state[slot], after[slot]);
    }
  }

  /** The digest of the padded message. */
  function Hash<W(!new)>(ops: Ops<W>, k: seq<W>, initial: seq<W>, bytes: seq<Byte>): (r: seq<Byte>)
    requires |k| == 64 && |initial| == 8
  {
    var padded := Pad(bytes);
    StoreAll(ops, Blocks(ops, k, initial, padded, |padded| / 64))
  }

  method Digest<W(!new)>(ops: Ops<W>, k: seq<W>, initial: seq<W>, bytes: seq<Byte>) returns (digest: seq<Byte>)
    requires |k| == 64 && |initial| == 8 && ops.Commutes()
    ensures digest == Hash(ops, k, initial, bytes)
  {
    var padded := PadMessage(bytes);
    var state := new W[8](i requires 0 <= i < 8 => initial[i]);
    assert state[..] == initial;
    for n := 0 to |padded| / 64
      invariant state[..] == Blocks(ops, k, initial, padded, n)
    {
      Block(ops, k, padded, 64 * n, state);
    }
    digest := [];
    for index := 0 to 8
      invariant digest == StoreAll(ops, state[..index])
    {
      assert state[..index + 1][..index] == state[..index];
      digest := digest + ops.store(state[index]);
    }
    assert state[..8] == state[..];
  }

  // ------------------------------------------------------------ 32-bit words

  const WORD32: nat := 0x1_0000_0000

  type Word = x: int | 0 <= x < WORD32

  /** Addition that wraps. */
  function Plus(x: Word, y: Word): (r: Word) { (x + y) % WORD32 }

  function Bits(x: Word): (r: bv32) { x as bv32 }

  function Value(b: bv32): (r: Word) { b as int }

  function Xor3(a: bv32, b: bv32, c: bv32): (r: bv32) { a ^ b ^ c }

  function Rotate(x: Word, n: nat): (r: bv32)
    requires n <= 32
  {
    Bits(x).RotateRight(n)
  }

  function BigSigma0(x: Word): (r: Word) { Value(Xor3(Rotate(x, 2), Rotate(x, 13), Rotate(x, 22))) }

  function BigSigma1(x: Word): (r: Word) { Value(Xor3(Rotate(x, 6), Rotate(x, 11), Rotate(x, 25))) }

  function SmallSigma0(x: Word): (r: Word) { Value(Xor3(Rotate(x, 7), Rotate(x, 18), Bits(x) >> 3)) }

  function SmallSigma1(x: Word): (r: Word) { Value(Xor3(Rotate(x, 17), Rotate(x, 19), Bits(x) >> 10)) }

  function Choose(x: Word, y: Word, z: Word): (r: Word)
  {
    Value((Bits(x) & Bits(y)) ^ (!Bits(x) & Bits(z)))
  }

  function Majority(x: Word, y: Word, z: Word): (r: Word)
  {
    Value(Xor3(Bits(x) & Bits(y), Bits(x) & Bits(z), Bits(y) & Bits(z)))
  }

  function Load(b0: Byte, b1: Byte, b2: Byte, b3: Byte): (r: Word)
  {
    var n0: int, n1: int, n2: int, n3: int := b0, b1, b2, b3;
    0x100_0000 * n0 + 0x1_0000 * n1 + 0x100 * n2 + n3
  }

  function Store(w: Word): (r: seq<Byte>)
    ensures |r| == 4
  {
    BigEndian(w, 4)
  }

  const K: seq<Word> := [
    0x428a_2f98, 0x7137_4491, 0xb5c0_fbcf, 0xe9b5_dba5, 0x3956_c25b, 0x59f1_11f1, 0x923f_82a4, 0xab1c_5ed5,
    0xd807_aa98, 0x1283_5b01, 0x2431_85be, 0x550c_7dc3, 0x72be_5d74, 0x80de_b1fe, 0x9bdc_06a7, 0xc19b_f174,
    0xe49b_69c1, 0xefbe_4786, 0x0fc1_9dc6, 0x240c_a1cc, 0x2de9_2c6f, 0x4a74_84aa, 0x5cb0_a9dc, 0x76f9_88da,
    0x983e_5152, 0xa831_c66d, 0xb003_27c8, 0xbf59_7fc7, 0xc6e0_0bf3, 0xd5a7_9147, 0x06ca_6351, 0x1429_2967,
    0x27b7_0a85, 0x2e1b_2138, 0x4d2c_6dfc, 0x5338_0d13, 0x650a_7354, 0x766a_0abb, 0x81c2_c92e, 0x9272_2c85,
    0xa2bf_e8a1, 0xa81a_664b, 0xc24b_8b70, 0xc76c_51a3, 0xd192_e819, 0xd699_0624, 0xf40e_3585, 0x106a_a070,
    0x19a4_c116, 0x1e37_6c08, 0x2748_774c, 0x34b0_bcb5, 0x391c_0cb3, 0x4ed8_aa4a, 0x5b9c_ca4f, 0x682e_6ff3,
    0x748f_82ee, 0x78a5_636f, 0x84c8_7814, 0x8cc7_0208, 0x90be_fffa, 0xa450_6ceb, 0xbef9_a3f7, 0xc671_78f2
  ]

  const INITIAL: seq<Word> := [
    0x6a09_e667, 0xbb67_ae85, 0x3c6e_f372, 0xa54f_f53a, 0x510e_527f, 0x9b05_688c, 0x1f83_d9ab, 0x5be0_cd19
  ]

  const OPS: Ops<Word> := Ops(
    Plus, SmallSigma0, SmallSigma1, BigSigma0, BigSigma1, Choose, Majority, Load, Store, 0)

  lemma {:induction false} WrapOnce(x: int, y: int)
    ensures (x % WORD32 + y) % WORD32 == (x + y) % WORD32
  {
    var q := x / WORD32;
    Rewrap(x % WORD32 + y, q);
    assert x % WORD32 + y + q * WORD32 == x + y;
  }

  lemma {:induction false} Rewrap(x: int, q: int)
    ensures (x + q * WORD32) % WORD32 == x % WORD32
  {
    var r := (x + q * WORD32) % WORD32 - x % WORD32;
    var t := (x + q * WORD32) / WORD32 - x / WORD32 - q;
    assert r == -t * WORD32;
  }

  lemma {:induction false} SumIs(a: Word, b: Word, c: Word, d: Word)
    ensures Plus(Plus(Plus(a, b), c), d) as int == (a as int + b as int + c as int + d as int) % WORD32
  {
    var x: int, y: int, z: int, w: int := a, b, c, d;
    WrapOnce(x + y, z);
    WrapOnce(x + y + z, w);
  }

  lemma {:induction false} SumOrder(a: Word, b: Word, c: Word, d: Word)
    ensures Plus(Plus(Plus(a, b), c), d) == Plus(Plus(Plus(d, c), b), a)
  {
    SumIs(a, b, c, d);
    SumIs(d, c, b, a);
    var x: int, y: int, z: int, w: int := a, b, c, d;
    assert x + y + z + w == w + z + y + x;
  }

  lemma {:induction false} WordsCommute()
    ensures OPS.Commutes()
  {
    forall a, b, c, d
      ensures OPS.Sum4(a, b, c, d) == OPS.Sum4(d, c, b, a)
    {
      SumOrder(a, b, c, d);
    }
  }

  /** A word is read back from the bytes that store it. */
  lemma {:induction false} LoadStore(w: Word)
    ensures var b := Store(w); Load(b[0], b[1], b[2], b[3]) == w
  {
    assert BigEndian(w, 4) == BigEndian(w / 256, 3) + [w % 256];
    assert BigEndian(w / 256, 3) == BigEndian(w / 256 / 256, 2) + [w / 256 % 256];
    assert BigEndian(w / 256 / 256, 2) == BigEndian(w / 256 / 256 / 256, 1) + [w / 256 / 256 % 256];
  }

  lemma {:induction false} StoredLength(words: seq<Word>)
    ensures |StoreAll(OPS, words)| == 4 * |words|
  {
    if words != [] {
      StoredLength(words[..|words| - 1]);
    }
  }

  method Sha256(bytes: seq<Byte>) returns (digest: seq<Byte>)
    ensures digest == Hash(OPS, K, INITIAL, bytes) && |digest| == 32
  {
    WordsCommute();
    StoredLength(Blocks(OPS, K, INITIAL, Pad(bytes), |Pad(bytes)| / 64));
    digest := Digest(OPS, K, INITIAL, bytes);
  }
}
