/** The anti-replay window of the datagram channel: a 64-bit sliding bitmap that must agree
    with a plain set of every number accepted so far. */
module ReplayWindow {
  import opened Prelude

  const REPLAY_WINDOW := 64

  /** The reference definition: a number is accepted iff it was never accepted before and no
      accepted number is 64 or more ahead of it. So the first number is always accepted. */
  ghost predicate Admits(accepted: set<u64>, n: u64) {
    && n !in accepted
    && forall t :: t in accepted ==> t - n < REPLAY_WINDOW
  }

  function Num(i: bv6): (r: int)
    ensures 0 <= r < REPLAY_WINDOW
  {
    i as int
  }

  function LowAt(m: bv64, i: bv6): bv64 {
    (m >> i) & 1
  }

  predicate Bit(m: bv64, i: bv6) {
    LowAt(m, i) == 1
  }

  /** Bit `i` of the bitmap is set iff `highest - i` was accepted. */
  ghost predicate MirrorsAt(m: bv64, i: bv6, highest: u64, accepted: set<u64>) {
    Bit(m, i) <==> highest - Num(i) in accepted
  }

  ghost predicate Mirrors(m: bv64, highest: u64, accepted: set<u64>) {
    forall i :: MirrorsAt(m, i, highest, accepted)
  }

  // ---- The word operations, by bit index and by distance ----

  function SlidBy(m: bv64, k: bv6): bv64 {
    (m << k) | 1
  }

  predicate HasBit(m: bv64, k: bv6) {
    m & (1 << k) != 0
  }

  function WithBit(m: bv64, k: bv6): bv64 {
    m | (1 << k)
  }

  /** A distance inside the window as a bit index. */
  function Index(n: int): (k: bv6)
    requires 0 <= n < REPLAY_WINDOW
    ensures Num(k) == n
  {
    n as bv6
  }

  /** The bitmap after the window moved up: everything 64 or more behind falls out. */
  function Slid(m: bv64, shift: nat): bv64 {
    if shift >= REPLAY_WINDOW then 0 | 1 else SlidBy(m, Index(shift))
  }

  predicate Has(m: bv64, diff: nat)
    requires diff < REPLAY_WINDOW
  {
    HasBit(m, Index(diff))
  }

  function With(m: bv64, diff: nat): bv64
    requires diff < REPLAY_WINDOW
  {
    WithBit(m, Index(diff))
  }

  // ---- Single bits ----

  lemma OneBits(i: bv6)
    ensures Bit(1, i) == (i == 0)
  {
  }

  lemma IndexOrder(i: bv6, k: bv6)
    ensures i == k <==> Num(i) == Num(k)
    ensures i >= k <==> Num(i) >= Num(k)
    ensures i >= k ==> Num(i - k) == Num(i) - Num(k)
  {
  }

  lemma OneBit(i: bv6)
    ensures Bit(1, i) == (Num(i) == 0)
    ensures 0 <= Num(i) < REPLAY_WINDOW
  {
    hide Bit;
    OneBits(i);
    IndexOrder(i, 0);
    IndexOrder(63, i);
  }

  lemma ShiftedOut(m: bv64, k: bv6, i: bv6)
    requires i < k
    ensures !Bit(m << k, i)
  {
  }

  predicate SameLow(x: bv64, j: bv6, m: bv64, d: bv6) {
    (x >> j) & 1 == (m >> d) & 1
  }

  lemma SameLowIs(x: bv64, j: bv6, m: bv64, d: bv6)
    requires SameLow(x, j, m, d)
    ensures LowAt(x, j) == LowAt(m, d)
  {
  }

  lemma RawShift(m: bv64, k: bv6, d: bv6)
    requires k + d >= k
    ensures SameLow(m << k, k + d, m, d)
  {
  }

  lemma ShiftedUpBit(m: bv64, k: bv6, d: bv6)
    requires k + d >= k
    ensures LowAt(m << k, k + d) == LowAt(m, d)
  {
    hide LowAt, SameLow;
    RawShift(m, k, d);
    SameLowIs(m << k, k + d, m, d);
  }

  lemma ShiftedUp(m: bv64, k: bv6, d: bv6)
    requires k + d >= k
    ensures Bit(m << k, k + d) == Bit(m, d)
  {
    hide LowAt;
    ShiftedUpBit(m, k, d);
  }

  lemma LowBit(m: bv64, i: bv6)
    ensures Bit(m | 1, i) == (i == 0 || Bit(m, i))
  {
  }

  lemma SlidUp(m: bv64, k: bv6, d: bv6)
    requires k + d >= k
    ensures Bit(SlidBy(m, k), k + d) == (k + d == 0 || Bit(m, d))
  {
    hide Bit;
    ShiftedUp(m, k, d);
    LowBit(m << k, k + d);
  }

  lemma SlidOut(m: bv64, k: bv6, i: bv6)
    requires i < k
    ensures Bit(SlidBy(m, k), i) == (i == 0)
  {
    hide Bit;
    ShiftedOut(m, k, i);
    LowBit(m << k, i);
  }

  lemma SlidBits(m: bv64, k: bv6, i: bv6)
    ensures Bit(SlidBy(m, k), i) == (i == 0 || (i >= k && Bit(m, i - k)))
  {
    hide Bit, SlidBy;
    if i >= k {
      assert k + (i - k) == i;
      SlidUp(m, k, i - k);
    } else {
      SlidOut(m, k, i);
    }
  }

  lemma SlidBit(m: bv64, k: bv6, i: bv6)
    ensures Bit(SlidBy(m, k), i) == (Num(i) == 0 || (Num(i) >= Num(k) && Bit(m, i - k)))
    ensures Num(i) >= Num(k) ==> Num(i - k) == Num(i) - Num(k)
  {
    hide Bit, SlidBy;
    SlidBits(m, k, i);
    IndexOrder(i, k);
    IndexOrder(i, 0);
  }

  lemma MarkedBits(m: bv64, k: bv6, i: bv6)
    ensures Bit(m | (1 << k), i) == (i == k || Bit(m, i))
  {
  }

  lemma TestedBit(m: bv64, k: bv6)
    ensures (m & (1 << k) != 0) == Bit(m, k)
  {
  }

  lemma MarkedBit(m: bv64, k: bv6, i: bv6)
    ensures Bit(WithBit(m, k), i) == (Num(i) == Num(k) || Bit(m, i))
    ensures HasBit(m, k) == Bit(m, k)
  {
    hide Bit;
    MarkedBits(m, k, i);
    TestedBit(m, k);
    IndexOrder(i, k);
  }

  // ---- The bitmap keeps mirroring the set ----

  /** A jump of 64 or more (or the first number) leaves only the new highest in reach. */
  lemma FarMirrors(n: u64, accepted: set<u64>)
    requires forall t :: t in accepted ==> n - t >= REPLAY_WINDOW
    ensures Mirrors(1, n, accepted + {n})
  {
    hide Bit;
    forall i
      ensures MirrorsAt(1, i, n, accepted + {n})
    {
      OneBit(i);
    }
  }

  lemma BitMirrors(m: bv64, i: bv6, highest: u64, accepted: set<u64>)
    requires Mirrors(m, highest, accepted)
    ensures Bit(m, i) <==> highest - Num(i) in accepted
  {
    hide Bit, Num;
    assert MirrorsAt(m, i, highest, accepted);
  }

  lemma NearMirrorsAt(m: bv64, k: bv6, i: bv6, highest: u64, n: u64, accepted: set<u64>)
    requires n == highest + Num(k) && n > highest
    requires forall t :: t in accepted ==> t <= highest
    requires Mirrors(m, highest, accepted)
    ensures MirrorsAt(SlidBy(m, k), i, n, accepted + {n})
  {
    hide Bit, SlidBy, Num;
    SlidBit(m, k, i);
    if Num(i) >= Num(k) {
      BitMirrors(m, i - k, highest, accepted);
    }
  }

  /** Sliding the window up by any distance. */
  lemma SlidMirrors(m: bv64, shift: nat, highest: u64, n: u64, accepted: set<u64>)
    requires n == highest + shift && shift > 0
    requires forall t :: t in accepted ==> t <= highest
    requires Mirrors(m, highest, accepted)
    ensures Mirrors(Slid(m, shift), n, accepted + {n})
  {
    hide MirrorsAt, Index, SlidBy;
    if shift >= REPLAY_WINDOW {
      FarMirrors(n, accepted);
    } else {
      forall i
        ensures MirrorsAt(SlidBy(m, Index(shift)), i, n, accepted + {n})
      {
        NearMirrorsAt(m, Index(shift), i, highest, n, accepted);
      }
    }
  }

  lemma MarkedMirrorsAt(m: bv64, k: bv6, i: bv6, highest: u64, n: u64, accepted: set<u64>)
    requires n == highest - Num(k)
    requires Mirrors(m, highest, accepted)
    ensures HasBit(m, k) <==> n in accepted
    ensures MirrorsAt(WithBit(m, k), i, highest, accepted + {n})
  {
    hide Bit, HasBit, WithBit, Num;
    MarkedBit(m, k, i);
    assert MirrorsAt(m, k, highest, accepted);
    assert MirrorsAt(m, i, highest, accepted);
  }

  /** Inside the window the tested bit answers for `n`, and setting it marks `n` alone. */
  lemma MarkedMirrors(m: bv64, diff: nat, highest: u64, n: u64, accepted: set<u64>)
    requires n == highest - diff && diff < REPLAY_WINDOW
    requires Mirrors(m, highest, accepted)
    ensures Has(m, diff) <==> n in accepted
    ensures Mirrors(With(m, diff), highest, accepted + {n})
  {
    hide MirrorsAt, Index, HasBit, WithBit;
    forall i
      ensures MirrorsAt(WithBit(m, Index(diff)), i, highest, accepted + {n})
    {
      MarkedMirrorsAt(m, Index(diff), i, highest, n, accepted);
    }
    MarkedMirrorsAt(m, Index(diff), 0, highest, n, accepted);
  }

  // ---- The window ----

  class ReplayWindow {
    var seenAny: bool
    var highest: u64
    var bitmap: bv64
    /** Every number accepted so far. */
    ghost var accepted: set<u64>

    ghost predicate Valid()
      reads this
    {
      && (seenAny <==> accepted != {})
      && (seenAny ==> highest in accepted && Mirrors(bitmap, highest, accepted))
      && (forall t :: t in accepted ==> t <= highest)
    }

    constructor ()
      ensures Valid() && accepted == {}
    {
      seenAny, highest, bitmap := false, 0, 0;
      accepted := {};
    }

    method CheckAndSet(n: u64) returns (ok: bool)
      requires Valid()
      modifies this
      ensures Valid()
      ensures ok <==> Admits(old(accepted), n)
      ensures accepted == if ok then old(accepted) + {n} else old(accepted)
    {
      hide Bit, Mirrors, Slid, Has, With;
      if !seenAny {
        seenAny, highest, bitmap := true, n, 1;
        accepted := {n};
        FarMirrors(n, {});
        assert {} + {n} == {n};
        return true;
      }
      if n > highest {
        var shift := n - highest;
        SlidMirrors(bitmap, shift, highest, n, accepted);
        bitmap := Slid(bitmap, shift);
        highest := n;
        accepted := accepted + {n};
        return true;
      }
      var diff := highest - n;
      if diff >= REPLAY_WINDOW {
        return false;
      }
      MarkedMirrors(bitmap, diff, highest, n, accepted);
      if Has(bitmap, diff) {
        return false;
      }
      bitmap := With(bitmap, diff);
      accepted := accepted + {n};
      return true;
    }
  }
}
