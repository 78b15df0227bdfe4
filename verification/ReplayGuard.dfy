/** The server's anti-replay cache of nonces, grouped by epoch and bounded to the newest
    three epochs, against a guard that never forgets.

    A request is verified at a reading of the clock and observed later. Other readings may lie in
    between, and the clock is a wall clock that can be set back, so a reading may be behind the
    highest one so far: by at most `lag` epochs, in the runs below. */
module ReplayGuard {
  import opened Prelude
  import opened Auth

  const KEEP_EPOCHS := 3

  type Window = map<u64, set<Nonce>>

  predicate Seen(w: Window, epoch: u64, nonce: Nonce) {
    epoch in w && nonce in w[epoch]
  }

  function Inserted(w: Window, epoch: u64, nonce: Nonce): Window {
    w[epoch := (if epoch in w then w[epoch] else {}) + {nonce}]
  }

  /** `r` keeps the newest `keep` epochs of `w` with everything seen in them. */
  ghost predicate KeepsNewest(w: Window, r: Window, keep: nat) {
    && r.Keys <= w.Keys
    && (forall e :: e in r ==> r[e] == w[e])
    && |r.Keys| == Min(|w.Keys|, keep)
    && (forall kept, dropped :: kept in r && dropped in w && dropped !in r ==> dropped < kept)
  }

  lemma {:induction false} Oldest(s: set<u64>) returns (k: u64)
    requires s != {}
    ensures k in s && forall j :: j in s ==> k <= j
    decreases |s|
  {
    var x :| x in s;
    var rest := s - {x};
    if rest == {} {
      k := x;
    } else {
      var m := Oldest(rest);
      k := if m < x then m else x;
    }
    forall j | j in s
      ensures k <= j
    {
      assert j == x || j in rest;
    }
  }

  class ReplayGuard {
    var window: Window

    constructor ()
      ensures window == map[]
    {
      window := map[];
    }

    method Prune()
      modifies this
      ensures KeepsNewest(old(window), window, KEEP_EPOCHS)
    {
      while |window.Keys| > KEEP_EPOCHS
        invariant window.Keys <= old(window.Keys)
        invariant forall e :: e in window ==> window[e] == old(window)[e]
        invariant |window.Keys| >= Min(|old(window.Keys)|, KEEP_EPOCHS)
        invariant forall kept, dropped ::
          kept in window && dropped in old(window) && dropped !in window ==> dropped < kept
        decreases |window.Keys|
      {
        ghost var before := window;
        ghost var first := Oldest(window.Keys);
        var oldest :| oldest in window && forall j :: j in window ==> oldest <= j;
        window := map e | e in window && e != oldest :: window[e];
        assert window.Keys == before.Keys - {oldest};
      }
    }

    method Observe(epoch: u64, nonce: Nonce) returns (isFresh: bool)
      modifies this
      ensures isFresh <==> !Seen(old(window), epoch, nonce)
      ensures KeepsNewest(Inserted(old(window), epoch, nonce), window, KEEP_EPOCHS)
    {
      isFresh := !Seen(window, epoch, nonce);
      window := Inserted(window, epoch, nonce);
      Prune();
    }
  }

  // ---- The bounded guard against one that never forgets ----

  /** One request that passed verification at the clock reading `now`. */
  datatype Request = Request(now: Epoch, epoch: u64, nonce: Nonce)

  /** Readings are `first` or later and at most `lag` behind an earlier one, and every request
      carries an epoch that verification accepts at its reading. */
  ghost predicate Timely(first: Epoch, lag: nat, reqs: seq<Request>) {
    && (forall i :: 0 <= i < |reqs| ==> first <= reqs[i].now && InWindow(reqs[i].now, reqs[i].epoch))
    && (forall i, j :: 0 <= i < j < |reqs| ==> reqs[i].now <= reqs[j].now + lag)
  }

  /** `ws` are the windows a guard of `keep` epochs goes through while it serves `reqs`. */
  ghost predicate Serves(reqs: seq<Request>, ws: seq<Window>, keep: nat) {
    && |ws| == |reqs| + 1
    && ws[0] == map[]
    && (forall i :: 0 <= i < |reqs| ==> KeepsNewest(Inserted(ws[i], reqs[i].epoch, reqs[i].nonce), ws[i + 1], keep))
  }

  ghost predicate Requested(reqs: seq<Request>, k: nat, epoch: u64, nonce: Nonce)
    requires k <= |reqs|
  {
    exists j :: 0 <= j < k && reqs[j].epoch == epoch && reqs[j].nonce == nonce
  }

  /** Every request is answered as by a guard that never forgets. */
  ghost predicate Agrees(reqs: seq<Request>, ws: seq<Window>)
    requires |ws| == |reqs| + 1
  {
    forall i :: 0 <= i < |reqs| ==>
      (Seen(ws[i], reqs[i].epoch, reqs[i].nonce) <==> Requested(reqs, i, reqs[i].epoch, reqs[i].nonce))
  }

  /** How many epochs can be acceptable at once, counting the one an epoch-0 clock adds for good. */
  function Needed(first: Epoch, lag: nat): nat {
    if first >= 1 then 3 + Min(lag, LAST_EPOCH - first) else 4 + Min(lag, LAST_EPOCH - 1)
  }

  /** An epoch some reading still to come may accept, when `high` is the highest so far. */
  predicate Alive(first: Epoch, lag: nat, high: Epoch, e: u64) {
    e == U64_MAX || e + 1 >= Max(first, high - lag)
  }

  predicate Bounded(first: Epoch, high: Epoch, e: u64) {
    e <= high + 1 || (first == 0 && e == U64_MAX)
  }

  /** After `k` requests: nothing is in the window that was not requested, and every pair that
      can still be presented is. */
  ghost predicate Remembers(reqs: seq<Request>, k: nat, w: Window, first: Epoch, lag: nat, high: Epoch)
    requires k <= |reqs|
  {
    && first <= high
    && (forall e: u64, n :: Seen(w, e, n) ==> Requested(reqs, k, e, n))
    && (forall e: u64, n :: Requested(reqs, k, e, n) && Alive(first, lag, high, e) ==> Seen(w, e, n))
    && (forall e :: e in w ==> Bounded(first, high, e))
  }

  lemma {:induction false} IntervalBounds(s: set<u64>, lo: int, hi: int)
    requires forall e :: e in s ==> lo < e <= hi
    ensures |s| <= Max(hi - lo, 0)
    decreases hi - lo
  {
    if hi <= lo {
      assert s == {};
    } else {
      assert s - {hi} <= s;
      IntervalBounds(s - {hi}, lo, hi - 1);
    }
  }

  lemma NeedsSome(first: Epoch, lag: nat)
    ensures Needed(first, lag) >= 3
  {
  }

  lemma {:induction false} SubsetSize(a: set<u64>, b: set<u64>)
    requires a <= b
    ensures |a| <= |b|
  {
    if a != {} {
      var x :| x in a;
      SubsetSize(a - {x}, b - {x});
    }
  }

  /** Between a dropped epoch and the bound there is room for so many. */
  lemma Squeezed(kept: set<u64>, first: Epoch, high: Epoch, dropped: u64)
    requires forall e :: e in kept ==> dropped < e && Bounded(first, high, e)
    ensures |kept| <= if dropped == U64_MAX then 0 else Max(high + 1 - dropped, 0) + if first == 0 then 1 else 0
  {
    var ordinary := kept - {U64_MAX};
    IntervalBounds(ordinary, dropped, high + 1);
    if first >= 1 {
      assert ordinary == kept;
    } else {
      SubsetSize(kept, ordinary + {U64_MAX});
    }
    if kept != {} {
      var e :| e in kept;
    }
  }

  lemma TooMany(first: Epoch, lag: nat, high: Epoch, dropped: u64)
    requires first <= high && Alive(first, lag, high, dropped) && dropped != U64_MAX
    ensures Max(high + 1 - dropped, 0) + (if first == 0 then 1 else 0) < Needed(first, lag)
  {
  }

  lemma {:induction false} SubsetOfSameSize(a: set<u64>, b: set<u64>)
    requires a <= b && |a| == |b|
    ensures a == b
  {
    if b - a != {} {
      var x :| x in b - a;
      SubsetSize(a, b - {x});
    }
  }

  /** Whatever pruning drops no reading still to come accepts. */
  lemma DropsOnlyExpired(w: Window, r: Window, keep: nat, first: Epoch, lag: nat, high: Epoch, dropped: u64)
    requires KeepsNewest(w, r, keep) && keep >= Needed(first, lag) && first <= high
    requires forall e :: e in w ==> Bounded(first, high, e)
    requires dropped in w && dropped !in r
    ensures !Alive(first, lag, high, dropped)
  {
    if |r.Keys| < keep {
      SubsetOfSameSize(r.Keys, w.Keys);
    }
    hide Needed, Alive;
    Squeezed(r.Keys, first, high, dropped);
    NeedsSome(first, lag);
    if dropped != U64_MAX && Alive(first, lag, high, dropped) {
      TooMany(first, lag, high, dropped);
    }
  }

  lemma KeepsAlive(w: Window, r: Window, keep: nat, first: Epoch, lag: nat, high: Epoch, epoch: u64, nonce: Nonce)
    requires KeepsNewest(w, r, keep) && keep >= Needed(first, lag) && first <= high
    requires forall e :: e in w ==> Bounded(first, high, e)
    requires Seen(w, epoch, nonce) && Alive(first, lag, high, epoch)
    ensures Seen(r, epoch, nonce)
  {
    if epoch !in r {
      DropsOnlyExpired(w, r, keep, first, lag, high, epoch);
    }
  }

  lemma RequestedNext(reqs: seq<Request>, k: nat, e: u64, n: Nonce)
    requires k < |reqs|
    ensures Requested(reqs, k + 1, e, n) <==> Requested(reqs, k, e, n) || (e == reqs[k].epoch && n == reqs[k].nonce)
  {
  }

  lemma SeenNext(w: Window, req: Request, r: Window, keep: nat, first: Epoch, lag: nat, high: Epoch, e: u64, n: Nonce)
    requires KeepsNewest(Inserted(w, req.epoch, req.nonce), r, keep) && keep >= Needed(first, lag) && first <= high
    requires Bounded(first, high, req.epoch) && forall d :: d in w ==> Bounded(first, high, d)
    ensures var inserted := Seen(w, e, n) || (e == req.epoch && n == req.nonce);
      && (Seen(r, e, n) ==> inserted)
      && (inserted && Alive(first, lag, high, e) ==> Seen(r, e, n))
  {
    var mid := Inserted(w, req.epoch, req.nonce);
    if Seen(mid, e, n) && Alive(first, lag, high, e) {
      KeepsAlive(mid, r, keep, first, lag, high, e, n);
    }
  }

  /** What verification accepts is bounded by its reading and alive if the reading is. */
  lemma AcceptedIsAlive(first: Epoch, lag: nat, high: Epoch, now: Epoch, epoch: u64)
    requires first <= now && high <= now + lag && InWindow(now, epoch)
    ensures Bounded(first, Max(high, now), epoch)
    ensures Alive(first, lag, Max(high, now), epoch) && Alive(first, lag, high, epoch)
  {
    WindowIsThreeHours(now, epoch);
  }

  /** A higher reading leaves less to remember. */
  lemma RemembersLater(reqs: seq<Request>, k: nat, w: Window, first: Epoch, lag: nat, high: Epoch, later: Epoch)
    requires k <= |reqs| && Remembers(reqs, k, w, first, lag, high) && high <= later
    ensures Remembers(reqs, k, w, first, lag, later)
  {
    hide Requested, Seen;
    forall e: u64 | Alive(first, lag, later, e)
      ensures Alive(first, lag, high, e)
    {
    }
  }

  lemma RemembersNext(reqs: seq<Request>, k: nat, w: Window, r: Window, keep: nat, first: Epoch, lag: nat, high: Epoch)
    requires k < |reqs| && keep >= Needed(first, lag)
    requires first <= reqs[k].now <= high <= reqs[k].now + lag && InWindow(reqs[k].now, reqs[k].epoch)
    requires Remembers(reqs, k, w, first, lag, high)
    requires KeepsNewest(Inserted(w, reqs[k].epoch, reqs[k].nonce), r, keep)
    ensures Remembers(reqs, k + 1, r, first, lag, high)
  {
    hide Requested, Alive, InWindow, Needed;
    AcceptedIsAlive(first, lag, high, reqs[k].now, reqs[k].epoch);
    forall e: u64, n
      ensures Seen(r, e, n) ==> Requested(reqs, k + 1, e, n)
      ensures Requested(reqs, k + 1, e, n) && Alive(first, lag, high, e) ==> Seen(r, e, n)
    {
      RequestedNext(reqs, k, e, n);
      SeenNext(w, reqs[k], r, keep, first, lag, high, e, n);
    }
    hide Seen, Bounded;
    assert forall e :: e in r ==> e == reqs[k].epoch || e in w;
  }

  lemma RemembersNothing(reqs: seq<Request>, first: Epoch, lag: nat)
    ensures Remembers(reqs, 0, map[], first, lag, first)
  {
  }

  /** The highest of the first `k` readings. */
  ghost function High(first: Epoch, reqs: seq<Request>, k: nat): Epoch
    requires k <= |reqs|
  {
    if k == 0 then first else Max(High(first, reqs, k - 1), reqs[k - 1].now)
  }

  lemma {:induction false} HighWithin(first: Epoch, reqs: seq<Request>, k: nat, bound: nat)
    requires k <= |reqs| && first <= bound && forall i :: 0 <= i < k ==> reqs[i].now <= bound
    ensures first <= High(first, reqs, k) <= bound
  {
    if k > 0 {
      HighWithin(first, reqs, k - 1, bound);
    }
  }

  /** A timely request's reading against the highest one up to and with it. */
  lemma NextInTime(first: Epoch, lag: nat, reqs: seq<Request>, k: nat)
    requires Timely(first, lag, reqs) && k < |reqs|
    ensures High(first, reqs, k) <= High(first, reqs, k + 1)
    ensures first <= reqs[k].now <= High(first, reqs, k + 1) <= reqs[k].now + lag
    ensures InWindow(reqs[k].now, reqs[k].epoch)
  {
    hide InWindow;
    HighWithin(first, reqs, k + 1, reqs[k].now + lag);
  }

  lemma NextServed(reqs: seq<Request>, ws: seq<Window>, keep: nat, k: nat)
    requires Serves(reqs, ws, keep) && k < |reqs|
    ensures |ws| == |reqs| + 1 && KeepsNewest(Inserted(ws[k], reqs[k].epoch, reqs[k].nonce), ws[k + 1], keep)
  {
    hide KeepsNewest, Inserted;
  }

  lemma StartsEmpty(reqs: seq<Request>, ws: seq<Window>, keep: nat)
    requires Serves(reqs, ws, keep)
    ensures |ws| == |reqs| + 1 && ws[0] == map[]
  {
    hide KeepsNewest, Inserted;
  }

  lemma RemembersStep(reqs: seq<Request>, k: nat, w: Window, r: Window, keep: nat, first: Epoch, lag: nat,
      before: Epoch, high: Epoch)
    requires k < |reqs| && keep >= Needed(first, lag) && before <= high
    requires first <= reqs[k].now <= high <= reqs[k].now + lag && InWindow(reqs[k].now, reqs[k].epoch)
    requires Remembers(reqs, k, w, first, lag, before)
    requires KeepsNewest(Inserted(w, reqs[k].epoch, reqs[k].nonce), r, keep)
    ensures Remembers(reqs, k + 1, r, first, lag, high)
  {
    hide Remembers, KeepsNewest, Inserted, InWindow, Needed;
    RemembersLater(reqs, k, w, first, lag, before, high);
    RemembersNext(reqs, k, w, r, keep, first, lag, high);
  }

  lemma {:induction false} RemembersThroughout(first: Epoch, lag: nat, keep: nat, reqs: seq<Request>,
      ws: seq<Window>, k: nat)
    requires keep >= Needed(first, lag) && Timely(first, lag, reqs) && Serves(reqs, ws, keep) && k <= |reqs|
    ensures Remembers(reqs, k, ws[k], first, lag, High(first, reqs, k))
  {
    hide Remembers, KeepsNewest, Inserted, InWindow, Needed, Timely, Serves;
    if k == 0 {
      StartsEmpty(reqs, ws, keep);
      RemembersNothing(reqs, first, lag);
    } else {
      RemembersThroughout(first, lag, keep, reqs, ws, k - 1);
      hide High;
      NextInTime(first, lag, reqs, k - 1);
      NextServed(reqs, ws, keep, k - 1);
      RemembersStep(reqs, k - 1, ws[k - 1], ws[k], keep, first, lag, High(first, reqs, k - 1), High(first, reqs, k));
    }
  }

  /** Keeping as many epochs as can be acceptable at once answers every request exactly as a guard
      that never forgets. */
  lemma BoundedEqualsUnbounded(first: Epoch, lag: nat, keep: nat, reqs: seq<Request>, ws: seq<Window>)
    requires keep >= Needed(first, lag) && Timely(first, lag, reqs) && Serves(reqs, ws, keep)
    ensures Agrees(reqs, ws)
  {
    forall i | 0 <= i < |reqs|
      ensures Seen(ws[i], reqs[i].epoch, reqs[i].nonce) <==> Requested(reqs, i, reqs[i].epoch, reqs[i].nonce)
    {
      RemembersThroughout(first, lag, keep, reqs, ws, i);
      NextInTime(first, lag, reqs, i);
      AcceptedIsAlive(first, lag, High(first, reqs, i), reqs[i].now, reqs[i].epoch);
    }
  }

  /** Accepted pairs are pairwise distinct over the whole run. */
  lemma AcceptedOnce(first: Epoch, lag: nat, keep: nat, reqs: seq<Request>, ws: seq<Window>, i: nat, j: nat)
    requires keep >= Needed(first, lag) && Timely(first, lag, reqs) && Serves(reqs, ws, keep)
    requires i < j < |reqs|
    requires !Seen(ws[i], reqs[i].epoch, reqs[i].nonce) && !Seen(ws[j], reqs[j].epoch, reqs[j].nonce)
    ensures reqs[i].epoch != reqs[j].epoch || reqs[i].nonce != reqs[j].nonce
  {
    BoundedEqualsUnbounded(first, lag, keep, reqs, ws);
  }

  // ---- Fewer epochs do not suffice ----

  /** The lowest ordinary reading of a run from `first`. */
  function Base(first: Epoch): Epoch {
    Max(first, 1)
  }

  function TopReading(first: Epoch, lag: nat): (h: Epoch)
    ensures Base(first) <= h <= Base(first) + lag
  {
    Base(first) + Min(lag, LAST_EPOCH - Base(first))
  }

  /** A flood presents every epoch acceptable from the base to the top reading, oldest first; from
      epoch 0 also the one that only that reading accepts. */
  function FloodEpoch(first: Epoch, i: nat): int {
    if first >= 1 then first - 1 + i else if i == 1 then U64_MAX else if i == 0 then 0 else i - 1
  }

  function FloodRequest(first: Epoch, lag: nat, n: Nonce, i: nat): Request
    requires i < Needed(first, lag)
  {
    var e := FloodEpoch(first, i);
    Request(if e == U64_MAX then 0 else Max(first, e - 1), e, n)
  }

  /** Then the oldest ordinary one again, at the base reading. */
  function Flood(first: Epoch, lag: nat, n: Nonce): seq<Request> {
    seq(Needed(first, lag), i requires 0 <= i < Needed(first, lag) => FloodRequest(first, lag, n, i)) +
    [Request(Base(first), Base(first) - 1, n)]
  }

  lemma FloodIsTimely(first: Epoch, lag: nat, n: Nonce)
    ensures Timely(first, lag, Flood(first, lag, n))
  {
    var reqs := Flood(first, lag, n);
    forall i | 0 <= i < |reqs|
      ensures first <= reqs[i].now <= TopReading(first, lag) && InWindow(reqs[i].now, reqs[i].epoch)
    {
      WindowIsThreeHours(reqs[i].now, reqs[i].epoch);
    }
  }

  /** The first ordinary epoch of the flood. */
  function OldestEpoch(first: Epoch): u64 {
    Base(first) - 1
  }

  /** After `k` requests of the flood nothing else is in the window, and if the oldest epoch is,
      everything is. */
  ghost predicate Flooded(first: Epoch, k: nat, w: Window) {
    && (forall e :: e in w ==> exists i :: 0 <= i < k && e == FloodEpoch(first, i))
    && (OldestEpoch(first) in w ==> forall i :: 0 <= i < k ==> FloodEpoch(first, i) in w)
  }

  /** The flood's epochs are distinct and none is below the oldest. */
  lemma InOrder(first: Epoch, lag: nat, k: nat)
    requires k < Needed(first, lag)
    ensures 0 <= FloodEpoch(first, k) <= U64_MAX
    ensures forall i :: 0 <= i < k ==> FloodEpoch(first, i) != FloodEpoch(first, k)
    ensures forall i :: 0 <= i <= k ==> OldestEpoch(first) <= FloodEpoch(first, i)
    ensures k > 0 ==> OldestEpoch(first) != FloodEpoch(first, k)
  {
  }

  lemma KeptSome(w: Window, r: Window, keep: nat)
    requires KeepsNewest(w, r, keep)
    ensures r.Keys <= w.Keys
  {
  }

  lemma KeptAbove(w: Window, r: Window, keep: nat, kept: u64, e: u64)
    requires KeepsNewest(w, r, keep) && kept in r && e in w && kept <= e
    ensures e in r
  {
  }

  lemma FloodStep(first: Epoch, lag: nat, keep: nat, n: Nonce, k: nat, w: Window, r: Window)
    requires Flooded(first, k, w) && k < Needed(first, lag)
    requires KeepsNewest(Inserted(w, FloodRequest(first, lag, n, k).epoch, n), r, keep)
    ensures FloodRequest(first, lag, n, k).epoch !in w
    ensures Flooded(first, k + 1, r)
  {
    hide KeepsNewest, Needed, FloodEpoch;
    var e: u64 := FloodRequest(first, lag, n, k).epoch;
    var mid := Inserted(w, e, n);
    assert mid.Keys == w.Keys + {e};
    InOrder(first, lag, k);
    KeptSome(mid, r, keep);
    if OldestEpoch(first) in r {
      forall i | 0 <= i < k + 1
        ensures FloodEpoch(first, i) in r
      {
        assert i == k || FloodEpoch(first, i) in w;
        KeptAbove(mid, r, keep, OldestEpoch(first), FloodEpoch(first, i));
      }
    }
  }

  lemma {:induction false} ManyEpochs(first: Epoch, k: nat, s: set<u64>)
    requires forall i :: 0 <= i < k ==> FloodEpoch(first, i) in s
    requires k <= LAST_EPOCH + 4
    ensures |s| >= k
  {
    if k > 0 {
      var e := FloodEpoch(first, k - 1);
      ManyEpochs(first, k - 1, s - {e});
      assert s == (s - {e}) + {e};
    }
  }

  /** With fewer epochs kept than the flood presents, the oldest is out again. */
  lemma FloodForgets(first: Epoch, lag: nat, w: Window)
    requires Flooded(first, Needed(first, lag), w) && |w.Keys| < Needed(first, lag)
    ensures OldestEpoch(first) !in w
  {
    var m := Needed(first, lag);
    if OldestEpoch(first) in w {
      ManyEpochs(first, m, w.Keys);
    }
  }

  lemma {:induction false} Pruned(w: Window, keep: nat) returns (r: Window)
    ensures KeepsNewest(w, r, keep)
    decreases |w.Keys|
  {
    if |w.Keys| <= keep {
      r := w;
    } else {
      var oldest := Oldest(w.Keys);
      var rest := w - {oldest};
      assert rest.Keys == w.Keys - {oldest};
      r := Pruned(rest, keep);
    }
  }

  lemma FloodAt(first: Epoch, lag: nat, n: Nonce, i: nat)
    requires i <= Needed(first, lag)
    ensures |Flood(first, lag, n)| == Needed(first, lag) + 1
    ensures Flood(first, lag, n)[i] ==
      if i < Needed(first, lag) then FloodRequest(first, lag, n, i) else Request(Base(first), Base(first) - 1, n)
  {
  }

  lemma NonceOfFlood(first: Epoch, lag: nat, n: Nonce, i: nat)
    requires i < Needed(first, lag)
    ensures FloodRequest(first, lag, n, i).nonce == n
  {
  }

  lemma NoneFlooded(first: Epoch)
    ensures Flooded(first, 0, map[])
  {
  }

  lemma KeptAtMost(w: Window, r: Window, keep: nat)
    requires KeepsNewest(w, r, keep)
    ensures |r.Keys| <= keep
  {
  }

  /** The windows of a guard serving the first `k` requests of a flood. */
  lemma {:induction false} FloodServed(first: Epoch, lag: nat, keep: nat, n: Nonce, k: nat) returns (ws: seq<Window>)
    requires k <= Needed(first, lag)
    ensures Serves(Flood(first, lag, n)[..k], ws, keep) && Flooded(first, k, ws[k])
    ensures |ws[k].Keys| <= keep
  {
    hide KeepsNewest, Needed, Inserted, Flooded, FloodRequest, Flood;
    var reqs := Flood(first, lag, n);
    FloodAt(first, lag, n, k);
    if k == 0 {
      NoneFlooded(first);
      ws := [map[]];
    } else {
      ws := FloodServed(first, lag, keep, n, k - 1);
      var req := FloodRequest(first, lag, n, k - 1);
      FloodAt(first, lag, n, k - 1);
      var r := Pruned(Inserted(ws[k - 1], req.epoch, n), keep);
      FloodStep(first, lag, keep, n, k - 1, ws[k - 1], r);
      KeptAtMost(Inserted(ws[k - 1], req.epoch, n), r, keep);
      NonceOfFlood(first, lag, n, k - 1);
      assert reqs[..k] == reqs[..k - 1] + [req];
      ws := ws + [r];
    }
  }

  /** A flood makes a guard that keeps fewer epochs forget what is still acceptable. */
  lemma FewerForget(first: Epoch, lag: nat, keep: nat, n: Nonce) returns (ws: seq<Window>)
    requires keep < Needed(first, lag)
    ensures Serves(Flood(first, lag, n), ws, keep) && !Agrees(Flood(first, lag, n), ws)
  {
    hide KeepsNewest, Inserted;
    var reqs, m := Flood(first, lag, n), Needed(first, lag);
    ws := FloodServed(first, lag, keep, n, m);
    FloodForgets(first, lag, ws[m]);
    var last := reqs[m];
    var r := Pruned(Inserted(ws[m], last.epoch, n), keep);
    assert reqs == reqs[..m] + [last];
    ws := ws + [r];
    assert reqs[0].epoch == last.epoch && reqs[0].nonce == last.nonce;
    assert Requested(reqs, m, last.epoch, last.nonce) && !Seen(ws[m], last.epoch, last.nonce);
  }

  /** A guard of `keep` epochs answers every run as one that never forgets exactly when it keeps as
      many as can be acceptable at once. */
  lemma BoundedEqualsUnboundedIff(first: Epoch, lag: nat, keep: nat)
    ensures keep >= Needed(first, lag) <==>
      forall reqs, ws :: Timely(first, lag, reqs) && Serves(reqs, ws, keep) ==> Agrees(reqs, ws)
  {
    hide Agrees, Timely, KeepsNewest;
    if keep >= Needed(first, lag) {
      forall reqs, ws | Timely(first, lag, reqs) && Serves(reqs, ws, keep)
        ensures Agrees(reqs, ws)
      {
        BoundedEqualsUnbounded(first, lag, keep, reqs, ws);
      }
    } else {
      FloodIsTimely(first, lag, []);
      var ws := FewerForget(first, lag, keep, []);
      assert Timely(first, lag, Flood(first, lag, [])) && Serves(Flood(first, lag, []), ws, keep);
    }
  }

  /** The three epochs of the code are enough exactly for a clock that starts at epoch 1 or later
      and whose readings reach the guard in order, or that cannot advance. */
  lemma ThreeEpochsIff(first: Epoch, lag: nat)
    ensures KEEP_EPOCHS >= Needed(first, lag) <==> first >= 1 && (lag == 0 || first == LAST_EPOCH)
  {
  }

  /** One late reading: five requests, the last at the first hour again, and three kept epochs have
      forgotten the first. */
  lemma LateReadingForgets(n: Nonce) returns (ws: seq<Window>)
    ensures var reqs := [Request(2, 1, n), Request(2, 2, n), Request(2, 3, n), Request(3, 4, n), Request(2, 1, n)];
      Timely(2, 1, reqs) && Serves(reqs, ws, KEEP_EPOCHS) && !Agrees(reqs, ws)
  {
    assert Needed(2, 1) == 4;
    assert Flood(2, 1, n) == [Request(2, 1, n), Request(2, 2, n), Request(2, 3, n), Request(3, 4, n), Request(2, 1, n)];
    FloodIsTimely(2, 1, n);
    ws := FewerForget(2, 1, KEEP_EPOCHS, n);
  }
}
