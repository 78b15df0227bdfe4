/** The carrier pool: cheapest first, with an escalating cooldown for carriers that failed.

    A profile comes with the errors its coherence checks find; the checks are not part of this
    model. */
module Pool {
  import opened Prelude

  const MAX_COOLDOWN := 3_600_000

  const MAX_SHIFT := 16

  datatype CarrierType = CdnCotenant | LocalCloud | Direct | Refraction | ServiceChannel

  datatype CoherenceError = CoherenceError(code: string, message: string)

  datatype Profile = Profile(id: string, kind: CarrierType, errors: seq<CoherenceError>, hasEndpoint: bool)

  datatype Entry = Entry(profile: Profile, blockedUntil: u64, strikes: nat)

  datatype PoolError = Empty | Incoherent(id: string, errors: seq<CoherenceError>) | NoEndpoint(id: string)

  datatype PoolState = PoolState(entries: seq<Entry>, current: Option<nat>, cooldown: u64)

  function Cost(k: CarrierType): nat {
    match k
    case CdnCotenant => 0
    case LocalCloud => 1
    case Direct => 2
    case Refraction => 3
    case ServiceChannel => 4
  }

  // ---- The stable sort ----

  function OfCost(ps: seq<Profile>, c: nat): seq<Profile> {
    if ps == [] then [] else (if Cost(ps[0].kind) == c then [ps[0]] else []) + OfCost(ps[1..], c)
  }

  ghost predicate SortedByCost(ps: seq<Profile>) {
    forall i, j :: 0 <= i < j < |ps| ==> Cost(ps[i].kind) <= Cost(ps[j].kind)
  }

  /** Sorted by cost, with the profiles of each cost in the order they came in. */
  ghost predicate IsStableSort(ps: seq<Profile>, sorted: seq<Profile>) {
    SortedByCost(sorted) && forall c: nat :: OfCost(sorted, c) == OfCost(ps, c)
  }

  function Insert(p: Profile, sorted: seq<Profile>): seq<Profile> {
    if sorted == [] || Cost(p.kind) <= Cost(sorted[0].kind) then [p] + sorted
    else [sorted[0]] + Insert(p, sorted[1..])
  }

  /** What a stable sort by cost gives. */
  function Sorted(ps: seq<Profile>): (r: seq<Profile>)
  {
    if ps == [] then [] else Insert(ps[0], Sorted(ps[1..]))
  }

  lemma {:induction false} InsertKeepsCosts(p: Profile, sorted: seq<Profile>)
    ensures forall c: nat :: OfCost(Insert(p, sorted), c) == OfCost([p] + sorted, c)
  {
    if sorted != [] && Cost(p.kind) > Cost(sorted[0].kind) {
      var tail := sorted[1..];
      InsertKeepsCosts(p, tail);
      forall c: nat
        ensures OfCost([sorted[0]] + Insert(p, tail), c) == OfCost([p] + sorted, c)
      {
        assert ([sorted[0]] + Insert(p, tail))[1..] == Insert(p, tail);
        assert ([p] + sorted)[1..] == sorted && ([p] + tail)[1..] == tail;
      }
    }
  }

  lemma {:induction false} InsertSorts(p: Profile, sorted: seq<Profile>)
    requires SortedByCost(sorted)
    ensures SortedByCost(Insert(p, sorted))
    ensures forall c: nat :: OfCost(Insert(p, sorted), c) == OfCost([p] + sorted, c)
    ensures |Insert(p, sorted)| == |sorted| + 1
    ensures forall q :: q in Insert(p, sorted) <==> q == p || q in sorted
  {
    if sorted == [] || Cost(p.kind) <= Cost(sorted[0].kind) {
    } else {
      var tail := sorted[1..];
      InsertSorts(p, tail);
      var r := [sorted[0]] + Insert(p, tail);
      InsertKeepsCosts(p, sorted);
      hide OfCost;
      forall i, j | 0 <= i < j < |r|
        ensures Cost(r[i].kind) <= Cost(r[j].kind)
      {
        assert r[j] in Insert(p, tail);
        assert r[j] == p || (exists k :: 0 <= k < |tail| && tail[k] == r[j] == sorted[k + 1]);
      }
    }
  }

  lemma {:induction false} SortedIsStable(ps: seq<Profile>)
    ensures IsStableSort(ps, Sorted(ps)) && |Sorted(ps)| == |ps|
  {
    if ps != [] {
      SortedIsStable(ps[1..]);
      InsertSorts(ps[0], Sorted(ps[1..]));
      forall c: nat
        ensures OfCost(Sorted(ps), c) == OfCost(ps, c)
      {
        assert ([ps[0]] + Sorted(ps[1..]))[1..] == Sorted(ps[1..]);
      }
    }
  }

  lemma {:induction false} OfCostMember(ps: seq<Profile>, i: nat)
    requires i < |ps|
    ensures OfCost(ps, Cost(ps[i].kind)) != []
  {
    if i > 0 {
      OfCostMember(ps[1..], i - 1);
    }
  }

  lemma {:induction false} OfCostAtLeast(ps: seq<Profile>, c: nat)
    requires SortedByCost(ps) && OfCost(ps, c) != []
    ensures ps != [] && Cost(ps[0].kind) <= c
  {
    if Cost(ps[0].kind) != c {
      OfCostAtLeast(ps[1..], c);
      assert Cost(ps[0].kind) <= Cost(ps[1].kind);
    }
  }

  lemma TailOfCost(a: seq<Profile>, b: seq<Profile>)
    requires a != [] && b != [] && a[0] == b[0] && forall c: nat :: OfCost(a, c) == OfCost(b, c)
    ensures forall c: nat :: OfCost(b[1..], c) == OfCost(a[1..], c)
  {
    forall c: nat
      ensures OfCost(b[1..], c) == OfCost(a[1..], c)
    {
      var head := if Cost(a[0].kind) == c then [a[0]] else [];
      assert OfCost(a, c) == OfCost(b, c);
      assert OfCost(a[1..], c) == OfCost(a, c)[|head|..] && OfCost(b[1..], c) == OfCost(b, c)[|head|..];
    }
  }

  lemma TailsStable(a: seq<Profile>, b: seq<Profile>)
    requires a != [] && b != [] && a[0] == b[0] && SortedByCost(a) && IsStableSort(a, b)
    ensures IsStableSort(a[1..], a[1..]) && IsStableSort(a[1..], b[1..])
  {
    hide OfCost;
    TailOfCost(a, b);
  }

  /** There is only one stable sort. */
  lemma {:induction false} StableSortIsUnique(ps: seq<Profile>, a: seq<Profile>, b: seq<Profile>)
    requires IsStableSort(ps, a) && IsStableSort(ps, b)
    ensures a == b
    decreases |a|
  {
    if a == [] {
      assert forall c: nat :: OfCost(b, c) == OfCost(a, c) == [];
      if b != [] {
        OfCostMember(b, 0);
      }
    } else {
      OfCostMember(a, 0);
      var c := Cost(a[0].kind);
      OfCostAtLeast(b, c);
      OfCostMember(b, 0);
      OfCostAtLeast(a, Cost(b[0].kind));
      assert OfCost(a, c)[0] == a[0] && OfCost(b, c)[0] == b[0];
      hide OfCost;
      TailsStable(a, b);
      StableSortIsUnique(a[1..], a[1..], b[1..]);
    }
  }

  // ---- Operations ----

  /** The first profile that may not be in a pool. */
  function FirstProblem(ps: seq<Profile>): Option<PoolError> {
    if ps == [] then None
    else if ps[0].errors != [] then Some(Incoherent(ps[0].id, ps[0].errors))
    else if !ps[0].hasEndpoint then Some(NoEndpoint(ps[0].id))
    else FirstProblem(ps[1..])
  }

  predicate Fit(p: Profile) {
    p.errors == [] && p.hasEndpoint
  }

  /** The error is the first unfit profile's; its incoherence is reported before a missing endpoint. */
  ghost predicate ProblemAt(ps: seq<Profile>, i: nat, e: PoolError) {
    && i < |ps| && (forall j :: 0 <= j < i ==> Fit(ps[j]))
    && match e
       case Incoherent(id, errors) => errors != [] && ps[i].errors == errors && ps[i].id == id
       case NoEndpoint(id) => ps[i].errors == [] && !ps[i].hasEndpoint && ps[i].id == id
       case Empty => false
  }

  lemma {:induction false} FirstProblemIs(ps: seq<Profile>)
    ensures FirstProblem(ps).None? <==> forall i :: 0 <= i < |ps| ==> Fit(ps[i])
    ensures FirstProblem(ps).Some? ==> exists i: nat :: ProblemAt(ps, i, FirstProblem(ps).value)
  {
    if ps != [] {
      FirstProblemIs(ps[1..]);
      if Fit(ps[0]) {
        if FirstProblem(ps).Some? {
          var i: nat :| ProblemAt(ps[1..], i, FirstProblem(ps).value);
          forall j | 0 <= j < i + 1
            ensures Fit(ps[j])
          {
            assert j > 0 ==> ps[j] == ps[1..][j - 1];
          }
          assert ProblemAt(ps, i + 1, FirstProblem(ps).value);
        } else {
          assert forall i :: 0 < i < |ps| ==> ps[i] == ps[1..][i - 1];
        }
      } else if FirstProblem(ps).Some? {
        assert ProblemAt(ps, 0, FirstProblem(ps).value);
      }
    }
  }

  function Entries(ps: seq<Profile>): (r: seq<Entry>)
    ensures |r| == |ps| && forall i :: 0 <= i < |r| ==> r[i] == Entry(ps[i], 0, 0)
  {
    seq(|ps|, i requires 0 <= i < |ps| => Entry(ps[i], 0, 0))
  }

  function Profiles(es: seq<Entry>): (r: seq<Profile>)
    ensures |r| == |es| && forall i :: 0 <= i < |r| ==> r[i] == es[i].profile
  {
    seq(|es|, i requires 0 <= i < |es| => es[i].profile)
  }

  predicate Unblocked(e: Entry, t: u64) {
    e.blockedUntil <= t
  }

  /** The answer of `select`: the first entry that is not cooling down. */
  ghost predicate Selects(es: seq<Entry>, t: u64, r: Option<nat>) {
    match r
    case Some(i) => i < |es| && Unblocked(es[i], t) && forall j :: 0 <= j < i ==> !Unblocked(es[j], t)
    case None => forall j :: 0 <= j < |es| ==> !Unblocked(es[j], t)
  }

  function CooldownFor(cooldown: u64, strikes: nat): nat
    requires strikes >= 1
  {
    Min(cooldown * Pow2(Min(strikes - 1, MAX_SHIFT)), MAX_COOLDOWN)
  }

  function Failed(e: Entry, cooldown: u64, now: u64): Entry {
    var strikes := Min(e.strikes + 1, U32_MAX);
    e.(strikes := strikes, blockedUntil := Min(now + CooldownFor(cooldown, strikes), U64_MAX))
  }

  function Healed(e: Entry): Entry {
    e.(strikes := 0, blockedUntil := 0)
  }

  function AfterFailed(p: PoolState, now: u64): PoolState {
    if p.current.Some? && p.current.value < |p.entries| then
      var i := p.current.value;
      p.(entries := p.entries[i := Failed(p.entries[i], p.cooldown, now)], current := None)
    else p.(current := None)
  }

  function AfterHealthy(p: PoolState): PoolState {
    if p.current.Some? && p.current.value < |p.entries| then
      var i := p.current.value;
      p.(entries := p.entries[i := Healed(p.entries[i])])
    else p
  }

  function Count(es: seq<Entry>, t: u64): nat {
    if es == [] then 0 else Count(es[..|es| - 1], t) + if Unblocked(es[|es| - 1], t) then 1 else 0
  }

  /** `m` is the least of the entries' blocking times. */
  ghost predicate Soonest(es: seq<Entry>, m: u64) {
    && (forall i :: 0 <= i < |es| ==> m <= es[i].blockedUntil)
    && (exists i :: 0 <= i < |es| && es[i].blockedUntil == m)
  }

  lemma {:induction false} CountZero(es: seq<Entry>, t: u64)
    ensures Count(es, t) == 0 <==> Selects(es, t, None)
  {
    if es != [] {
      var n := |es| - 1;
      CountZero(es[..n], t);
      assert Selects(es, t, None) <==> Selects(es[..n], t, None) && !Unblocked(es[n], t);
    }
  }

  lemma {:induction false} CountIs(es: seq<Entry>, t: u64)
    ensures Count(es, t) == |set i | 0 <= i < |es| && Unblocked(es[i], t)|
  {
    if es != [] {
      var n := |es| - 1;
      CountIs(es[..n], t);
      var front := set i | 0 <= i < |es[..n]| && Unblocked(es[..n][i], t);
      var all := set i | 0 <= i < |es| && Unblocked(es[i], t);
      assert forall i :: 0 <= i < n ==> es[..n][i] == es[i];
      assert all == front + if Unblocked(es[n], t) then {n} else {};
    }
  }

  lemma SoonestDecides(es: seq<Entry>, m: u64)
    requires Soonest(es, m)
    ensures forall t: u64 :: Selects(es, t, None) <==> t < m
  {
    var i :| 0 <= i < |es| && es[i].blockedUntil == m;
    forall t: u64
      ensures Selects(es, t, None) <==> t < m
    {
      assert Unblocked(es[i], t) <==> m <= t;
    }
  }

  class CarrierPool {
    var entries: seq<Entry>
    var current: Option<nat>
    const cooldown: u64

    ghost predicate Valid()
      reads this
    {
      entries != [] && (current.Some? ==> current.value < |entries|)
    }

    function State(): PoolState
      reads this
    {
      PoolState(entries, current, cooldown)
    }

    constructor (sorted: seq<Profile>, cooldown: u64)
      ensures State() == PoolState(Entries(sorted), None, cooldown)
    {
      this.cooldown := cooldown;
      entries, current := Entries(sorted), None;
    }

    static method Build(profiles: seq<Profile>, cooldown: u64) returns (r: Result<CarrierPool, PoolError>)
      ensures r.Err? <==> profiles == [] || FirstProblem(profiles).Some?
      ensures r.Err? <==> profiles == [] || exists i :: 0 <= i < |profiles| && !Fit(profiles[i])
      ensures r.Err? ==> r.error == if profiles == [] then Empty else FirstProblem(profiles).value
      ensures r.Err? && profiles != [] ==> exists i: nat :: ProblemAt(profiles, i, r.error)
      ensures r.Ok? ==> fresh(r.value) && r.value.Valid()
      ensures r.Ok? ==> r.value.State() == PoolState(Entries(Sorted(profiles)), None, cooldown)
    {
      if profiles == [] {
        return Err(Empty);
      }
      FirstProblemIs(profiles);
      var i := 0;
      while i < |profiles|
        invariant 0 <= i <= |profiles| && FirstProblem(profiles) == FirstProblem(profiles[i..])
      {
        if profiles[i].errors != [] {
          return Err(Incoherent(profiles[i].id, profiles[i].errors));
        }
        if !profiles[i].hasEndpoint {
          return Err(NoEndpoint(profiles[i].id));
        }
        assert profiles[i..][1..] == profiles[i + 1..];
        i := i + 1;
      }
      SortedIsStable(profiles);
      var pool := new CarrierPool(Sorted(profiles), cooldown);
      r := Ok(pool);
    }

    method Select(now: u64) returns (r: Option<Profile>)
      requires Valid()
      modifies this`current
      ensures Valid() && (r.None? ==> current == old(current) && Selects(entries, now, None))
      ensures r.Some? ==> current.Some? && Selects(entries, now, current) && r.value == entries[current.value].profile
    {
      var i := 0;
      while i < |entries| && entries[i].blockedUntil > now
        invariant 0 <= i <= |entries| && forall j :: 0 <= j < i ==> !Unblocked(entries[j], now)
      {
        i := i + 1;
      }
      if i == |entries| {
        return None;
      }
      current := Some(i);
      r := Some(entries[i].profile);
    }

    method MarkFailed(now: u64)
      requires Valid()
      modifies this
      ensures Valid() && State() == AfterFailed(old(State()), now)
    {
      if current.None? {
        return;
      }
      var i := current.value;
      current := None;
      var strikes := Min(entries[i].strikes + 1, U32_MAX);
      var length := Min(cooldown * Pow2(Min(strikes - 1, MAX_SHIFT)), MAX_COOLDOWN);
      entries := entries[i := Entry(entries[i].profile, Min(now + length, U64_MAX), strikes)];
    }

    method MarkHealthy()
      requires Valid()
      modifies this`entries
      ensures Valid() && State() == AfterHealthy(old(State()))
    {
      if current.Some? {
        entries := entries[current.value := entries[current.value].(strikes := 0, blockedUntil := 0)];
      }
    }

    method Available(now: u64) returns (n: nat)
      ensures n == |set i | 0 <= i < |entries| && Unblocked(entries[i], now)|
      ensures n == Count(entries, now)
    {
      CountIs(entries, now);
      n := 0;
      var i := 0;
      while i < |entries|
        invariant 0 <= i <= |entries| && n == Count(entries[..i], now)
      {
        assert entries[..i + 1][..i] == entries[..i];
        if entries[i].blockedUntil <= now {
          n := n + 1;
        }
        i := i + 1;
      }
      assert entries[..i] == entries;
    }

    /** None while something is available; otherwise the moment something first is: no selection
        succeeds before it and one does at it. */
    method NextAvailable(now: u64) returns (r: Option<u64>)
      requires Valid()
      ensures r.None? <==> !Selects(entries, now, None)
      ensures r.Some? ==> r.value > now && Soonest(entries, r.value)
      ensures r.Some? ==> forall t: u64 :: Selects(entries, t, None) <==> t < r.value
    {
      var n := Available(now);
      CountZero(entries, now);
      if n > 0 {
        return None;
      }
      var m := entries[0].blockedUntil;
      ghost var at := 0;
      var i := 1;
      while i < |entries|
        invariant 1 <= i <= |entries| && 0 <= at < i && entries[at].blockedUntil == m
        invariant forall j :: 0 <= j < i ==> m <= entries[j].blockedUntil
      {
        if entries[i].blockedUntil < m {
          m, at := entries[i].blockedUntil, i;
        }
        i := i + 1;
      }
      assert !Unblocked(entries[at], now);
      SoonestDecides(entries, m);
      r := Some(m);
    }
  }

  /** At most one answer is right, and there always is one. */
  lemma {:induction false} SelectsOne(es: seq<Entry>, t: u64) returns (r: Option<nat>)
    ensures Selects(es, t, r)
    ensures forall q :: Selects(es, t, q) ==> q == r
  {
    if es == [] {
      r := None;
    } else {
      var n := |es| - 1;
      r := SelectsOne(es[..n], t);
      if r.None? && Unblocked(es[n], t) {
        r := Some(n);
      }
    }
  }

  /** The cooldown is min(1 h, base * 2^(strikes - 1)). */
  ghost predicate ExactCooldown(cooldown: u64, strikes: nat)
    requires strikes >= 1
  {
    CooldownFor(cooldown, strikes) == Min(MAX_COOLDOWN, cooldown * Pow2(strikes - 1))
  }

  lemma Pow16()
    ensures Pow2(16) == 0x1_0000 && Pow2(17) == 0x2_0000
  {
    assert Pow2(0) == 1 && Pow2(17) == 2 * Pow2(16);
    hide Pow2;
    EightDoublings(0);
    EightDoublings(8);
  }

  lemma CooldownExact(cooldown: u64, strikes: nat)
    requires strikes >= 1 && (cooldown == 0 || cooldown >= 55)
    ensures ExactCooldown(cooldown, strikes)
  {
    hide Pow2;
    if strikes - 1 > MAX_SHIFT {
      Pow16();
      ScaledGrows(cooldown, MAX_SHIFT, strikes - 1);
    }
  }

  /** The clamped shift is exact for every number of strikes just when sixteen doublings of the
      base reach an hour, or there is nothing to double. */
  lemma CooldownExactIff(cooldown: u64)
    ensures (forall strikes: nat :: strikes >= 1 ==> ExactCooldown(cooldown, strikes)) <==>
      cooldown == 0 || cooldown >= 55
  {
    hide Pow2;
    Pow16();
    if cooldown == 0 || cooldown >= 55 {
      forall strikes: nat | strikes >= 1
        ensures ExactCooldown(cooldown, strikes)
      {
        CooldownExact(cooldown, strikes);
      }
    } else {
      assert !ExactCooldown(cooldown, 18);
    }
  }

  // ---- Runs ----

  datatype Event = Select | Fail | Heal

  /** A carrier was chosen, failed or was found healthy. */
  datatype LogEntry = Chose(index: nat, at: u64) | Fell(index: nat, at: u64) | Rose(index: nat)

  datatype Run = Run(pool: PoolState, now: u64, log: seq<LogEntry>)

  ghost predicate Chosen(s: Run, at: u64, r: Option<nat>, t: Run) {
    if r.Some? then t.pool == s.pool.(current := r) && t.log == s.log + [Chose(r.value, at)]
    else t.pool == s.pool && t.log == s.log
  }

  predicate InUse(p: PoolState) {
    p.current.Some? && p.current.value < |p.entries|
  }

  ghost predicate Next(s: Run, at: u64, e: Event, t: Run) {
    && s.now <= at && t.now == at
    && match e
       case Select =>
         exists r :: Selects(s.pool.entries, at, r) && Chosen(s, at, r, t)
       case Fail =>
         && t.pool == AfterFailed(s.pool, at)
         && t.log == s.log + if InUse(s.pool) then [Fell(s.pool.current.value, at)] else []
       case Heal =>
         && t.pool == AfterHealthy(s.pool)
         && t.log == s.log + if InUse(s.pool) then [Rose(s.pool.current.value)] else []
  }

  ghost predicate Reachable(profiles: seq<Profile>, cooldown: u64, events: seq<(u64, Event)>, s: Run)
    decreases |events|, 1
  {
    if events == [] then s == Run(PoolState(Entries(Sorted(profiles)), None, cooldown), 0, [])
    else exists before :: ReachableBy(profiles, cooldown, events, before, s)
  }

  ghost predicate ReachableBy(profiles: seq<Profile>, cooldown: u64, events: seq<(u64, Event)>, before: Run, s: Run)
    requires events != []
    decreases |events|, 0
  {
    var n := |events| - 1;
    Reachable(profiles, cooldown, events[..n], before) && Next(before, events[n].0, events[n].1, s)
  }

  // ---- The cooldowns, read off the log ----

  /** Failures of a carrier since it was last found healthy. */
  function Falls(log: seq<LogEntry>, index: nat): nat {
    if log == [] then 0
    else
      var n := |log| - 1;
      if log[n] == Rose(index) then 0
      else Falls(log[..n], index) + if log[n].Fell? && log[n].index == index then 1 else 0
  }

  /** Entry `p` is a failure of the carrier that nothing has healed. */
  ghost predicate Unhealed(log: seq<LogEntry>, p: nat, index: nat) {
    && p < |log| && log[p].Fell? && log[p].index == index
    && forall q :: p < q < |log| ==> log[q] != Rose(index)
  }

  /** When the cooldown of the k-th failure in a row at time t ends: min(1 h, cooldown * 2^(k - 1))
      later, with at most sixteen doublings, within 64 bits. */
  function CoolEnd(t: u64, cooldown: u64, k: nat): int
    requires k >= 1
  {
    Min(t + Min(MAX_COOLDOWN, cooldown * Pow2(Min(k - 1, 16))), U64_MAX)
  }

  function EndOf(log: seq<LogEntry>, p: nat, cooldown: u64): int
    requires p < |log| && log[p].Fell?
  {
    CoolEnd(log[p].at, cooldown, Max(Falls(log[..p + 1], log[p].index), 1))
  }

  /** The carrier in use: the last one chosen, until it fails. */
  function Using(log: seq<LogEntry>): Option<nat> {
    if log == [] then None
    else
      match log[|log| - 1]
      case Chose(index, _) => Some(index)
      case Fell(_, _) => None
      case Rose(_) => Using(log[..|log| - 1])
  }

  /** Every cooldown the log leaves a carrier with is over. */
  ghost predicate CooledDown(log: seq<LogEntry>, cooldown: u64, index: nat, t: u64) {
    forall p: nat :: Unhealed(log, p, index) ==> EndOf(log, p, cooldown) <= t
  }

  /** Of every carrier: its strikes are its failures in a row and it is blocked until the last of
      their cooldowns ends. */
  ghost predicate EntryTracked(log: seq<LogEntry>, cooldown: u64, index: nat, e: Entry) {
    && e.strikes == Min(Falls(log, index), U32_MAX)
    && CooledDown(log, cooldown, index, e.blockedUntil)
    && (e.blockedUntil > 0 ==> exists p: nat :: Unhealed(log, p, index) && EndOf(log, p, cooldown) == e.blockedUntil)
  }

  ghost predicate EntriesTracked(log: seq<LogEntry>, cooldown: u64, es: seq<Entry>) {
    forall i: nat :: i < |es| ==> EntryTracked(log, cooldown, i, es[i])
  }

  ghost predicate Tracked(s: Run) {
    && EntriesTracked(s.log, s.pool.cooldown, s.pool.entries)
    && s.pool.current == Using(s.log)
    && (s.pool.current.Some? ==>
        s.pool.current.value < |s.pool.entries| && s.pool.entries[s.pool.current.value].blockedUntil <= s.now)
  }

  lemma UnhealedNext(log: seq<LogEntry>, e: LogEntry, p: nat, index: nat)
    ensures Unhealed(log + [e], p, index) <==>
      if p == |log| then e.Fell? && e.index == index else Unhealed(log, p, index) && e != Rose(index)
    ensures p < |log| && log[p].Fell? ==> forall c :: EndOf(log + [e], p, c) == EndOf(log, p, c)
  {
    var all := log + [e];
    assert all[|log|] == e;
    if p < |log| {
      assert all[..p + 1] == log[..p + 1];
      if Unhealed(all, p, index) {
        forall q | p < q < |log|
          ensures log[q] != Rose(index)
        {
          assert all[q] != Rose(index);
        }
      }
    }
  }

  lemma FallsNext(log: seq<LogEntry>, e: LogEntry, index: nat)
    ensures Falls(log + [e], index) ==
      if e == Rose(index) then 0 else Falls(log, index) + if e.Fell? && e.index == index then 1 else 0
    ensures Using(log + [e]) == match e
      case Chose(i, _) => Some(i)
      case Fell(_, _) => None
      case Rose(_) => Using(log)
  {
    assert (log + [e])[..|log|] == log;
  }

  lemma UnhealedIsFall(log: seq<LogEntry>, index: nat)
    ensures forall p: nat :: Unhealed(log, p, index) ==> p < |log| && log[p].Fell?
  {
  }

  /** What is logged of one carrier says nothing of the others. */
  lemma OthersTracked(log: seq<LogEntry>, e: LogEntry, cooldown: u64, index: nat, entry: Entry)
    requires EntryTracked(log, cooldown, index, entry) && (e.Chose? || e.index != index)
    ensures EntryTracked(log + [e], cooldown, index, entry)
  {
    hide Unhealed, EndOf, Falls;
    FallsNext(log, e, index);
    var all := log + [e];
    UnhealedIsFall(log, index);
    forall p: nat
      ensures Unhealed(all, p, index) <==> p != |log| && Unhealed(log, p, index)
      ensures Unhealed(log, p, index) ==> EndOf(all, p, cooldown) == EndOf(log, p, cooldown)
    {
      UnhealedNext(log, e, p, index);
    }
    UnhealedIsFall(all, index);
    if entry.blockedUntil > 0 {
      var p: nat :| Unhealed(log, p, index) && EndOf(log, p, cooldown) == entry.blockedUntil;
      assert Unhealed(all, p, index) && EndOf(all, p, cooldown) == entry.blockedUntil;
    }
  }

  /** Counting saturates long after the doublings have stopped. */
  lemma SaturatedAlike(cooldown: u64, k: nat)
    ensures CooldownFor(cooldown, Min(Min(k, U32_MAX) + 1, U32_MAX)) ==
      Min(MAX_COOLDOWN, cooldown * Pow2(Min(k + 1 - 1, 16)))
  {
    hide Pow2;
  }

  lemma FallsOnce(entry: Entry, cooldown: u64, at: u64)
    ensures var after := Failed(entry, cooldown, at);
      after.strikes == Min(entry.strikes + 1, U32_MAX) && after.blockedUntil >= at
  {
    hide Pow2;
    assert cooldown * Pow2(Min(entry.strikes, MAX_SHIFT)) >= 0;
  }

  /** A failure's entry ends when the carrier's block does. */
  lemma EndOfFall(log: seq<LogEntry>, cooldown: u64, index: nat, entry: Entry, at: u64)
    requires entry.strikes == Min(Falls(log, index), U32_MAX)
    ensures EndOf(log + [Fell(index, at)], |log|, cooldown) == Failed(entry, cooldown, at).blockedUntil
    ensures Failed(entry, cooldown, at).strikes == Min(Falls(log + [Fell(index, at)], index), U32_MAX)
  {
    hide Pow2, Falls;
    var e := Fell(index, at);
    var all := log + [e];
    FallsNext(log, e, index);
    assert all[..|log| + 1] == all && all[|log|] == e;
    SaturatedAlike(cooldown, Falls(log, index));
    FallsOnce(entry, cooldown, at);
  }

  lemma FellTracked(log: seq<LogEntry>, cooldown: u64, index: nat, entry: Entry, at: u64)
    requires EntryTracked(log, cooldown, index, entry) && entry.blockedUntil <= at
    ensures EntryTracked(log + [Fell(index, at)], cooldown, index, Failed(entry, cooldown, at))
  {
    hide EndOf, Falls, Failed, Unhealed;
    var e := Fell(index, at);
    var all := log + [e];
    EndOfFall(log, cooldown, index, entry, at);
    FallsOnce(entry, cooldown, at);
    UnhealedIsFall(log, index);
    UnhealedIsFall(all, index);
    forall p: nat
      ensures Unhealed(all, p, index) <==> p == |log| || Unhealed(log, p, index)
      ensures p != |log| && Unhealed(log, p, index) ==> EndOf(all, p, cooldown) == EndOf(log, p, cooldown)
    {
      UnhealedNext(log, e, p, index);
    }
    assert Unhealed(all, |log|, index);
  }

  lemma RoseTracked(log: seq<LogEntry>, cooldown: u64, index: nat, entry: Entry)
    ensures EntryTracked(log + [Rose(index)], cooldown, index, Healed(entry))
  {
    FallsNext(log, Rose(index), index);
    hide Unhealed, EndOf;
    forall p: nat
      ensures !Unhealed(log + [Rose(index)], p, index)
    {
      UnhealedNext(log, Rose(index), p, index);
    }
  }

  lemma SelectTracked(s: Run, at: u64, t: Run)
    requires Tracked(s) && Next(s, at, Select, t)
    ensures Tracked(t)
  {
    hide EntryTracked, Using;
    var r :| Selects(s.pool.entries, at, r) && Chosen(s, at, r, t);
    if r.Some? {
      var e := Chose(r.value, at);
      FallsNext(s.log, e, 0);
      forall i: nat | i < |t.pool.entries|
        ensures EntryTracked(t.log, t.pool.cooldown, i, t.pool.entries[i])
      {
        OthersTracked(s.log, e, s.pool.cooldown, i, s.pool.entries[i]);
      }
    }
  }

  lemma FailTracked(s: Run, at: u64, t: Run)
    requires Tracked(s) && Next(s, at, Fail, t)
    ensures Tracked(t)
  {
    hide EntryTracked, Using, Failed;
    if InUse(s.pool) {
      var c := s.pool.current.value;
      var e := Fell(c, at);
      FallsNext(s.log, e, 0);
      FellTracked(s.log, s.pool.cooldown, c, s.pool.entries[c], at);
      forall i: nat | i < |t.pool.entries|
        ensures EntryTracked(t.log, t.pool.cooldown, i, t.pool.entries[i])
      {
        if i != c {
          OthersTracked(s.log, e, s.pool.cooldown, i, s.pool.entries[i]);
        }
      }
    } else {
      assert t.log == s.log;
    }
  }

  lemma HealTracked(s: Run, at: u64, t: Run)
    requires Tracked(s) && Next(s, at, Heal, t)
    ensures Tracked(t)
  {
    hide EntryTracked, Using;
    if InUse(s.pool) {
      var c := s.pool.current.value;
      var e := Rose(c);
      FallsNext(s.log, e, 0);
      RoseTracked(s.log, s.pool.cooldown, c, s.pool.entries[c]);
      forall i: nat | i < |t.pool.entries|
        ensures EntryTracked(t.log, t.pool.cooldown, i, t.pool.entries[i])
      {
        if i != c {
          OthersTracked(s.log, e, s.pool.cooldown, i, s.pool.entries[i]);
        }
      }
    } else {
      assert t.log == s.log;
    }
  }

  lemma TrackedStep(s: Run, at: u64, e: Event, t: Run)
    requires Tracked(s) && Next(s, at, e, t)
    ensures Tracked(t)
  {
    hide Tracked, Next;
    match e
    case Select => SelectTracked(s, at, t);
    case Fail => FailTracked(s, at, t);
    case Heal => HealTracked(s, at, t);
  }

  lemma ProfilesStep(s: Run, at: u64, e: Event, t: Run)
    requires Next(s, at, e, t)
    ensures Profiles(t.pool.entries) == Profiles(s.pool.entries) && t.pool.cooldown == s.pool.cooldown
  {
    hide Selects, CooldownFor;
  }

  lemma NothingLogged(profiles: seq<Profile>, cooldown: u64)
    ensures Tracked(Run(PoolState(Entries(Sorted(profiles)), None, cooldown), 0, []))
  {
  }

  lemma {:induction false} EveryRunIsTracked(profiles: seq<Profile>, cooldown: u64, events: seq<(u64, Event)>, s: Run)
    requires Reachable(profiles, cooldown, events, s)
    ensures Tracked(s) && s.pool.cooldown == cooldown && Profiles(s.pool.entries) == Sorted(profiles)
  {
    hide Next, Tracked, Sorted;
    if events == [] {
      NothingLogged(profiles, cooldown);
    } else {
      var n := |events| - 1;
      var before :| ReachableBy(profiles, cooldown, events, before, s);
      EveryRunIsTracked(profiles, cooldown, events[..n], before);
      TrackedStep(before, events[n].0, events[n].1, s);
      ProfilesStep(before, events[n].0, events[n].1, s);
    }
  }

  lemma TrackedDecides(s: Run, index: nat, t: u64)
    requires Tracked(s) && index < |s.pool.entries|
    ensures Unblocked(s.pool.entries[index], t) <==> CooledDown(s.log, s.pool.cooldown, index, t)
  {
    hide Unhealed, EndOf, Falls;
    assert EntryTracked(s.log, s.pool.cooldown, index, s.pool.entries[index]);
    UnhealedIsFall(s.log, index);
  }

  /** In every run at non-decreasing times: the entries stay the one stable sort of the profiles the
      pool was built from; the carrier in use is the last one chosen until it fails; and a carrier
      is available at a time exactly when every failure since it was last found healthy, the k-th of
      them at time t, has t + min(1 h, cooldown * 2^(k - 1)) behind it. */
  lemma EveryRunKeepsPolicy(profiles: seq<Profile>, cooldown: u64, events: seq<(u64, Event)>, s: Run)
    requires Reachable(profiles, cooldown, events, s)
    ensures IsStableSort(profiles, Profiles(s.pool.entries))
    ensures s.pool.current == Using(s.log)
    ensures forall index: nat, t: u64 :: index < |s.pool.entries| ==>
      (Unblocked(s.pool.entries[index], t) <==> CooledDown(s.log, cooldown, index, t))
  {
    hide Reachable, IsStableSort, CooledDown, Unblocked, Using, EntriesTracked;
    EveryRunIsTracked(profiles, cooldown, events, s);
    SortedIsStable(profiles);
    forall index: nat, t: u64 | index < |s.pool.entries|
      ensures Unblocked(s.pool.entries[index], t) <==> CooledDown(s.log, cooldown, index, t)
    {
      TrackedDecides(s, index, t);
    }
  }

  /** A choice is the cheapest carrier whose cooldowns are over, and there is none only when no
      carrier's are. */
  lemma ChoosesByHistory(profiles: seq<Profile>, cooldown: u64, events: seq<(u64, Event)>, s: Run, at: u64, t: Run)
    requires Reachable(profiles, cooldown, events, s) && Next(s, at, Select, t)
    ensures t.log == s.log ==> forall i: nat :: i < |s.pool.entries| ==> !CooledDown(s.log, cooldown, i, at)
    ensures t.log != s.log ==>
      && |t.log| == |s.log| + 1 && t.log[|s.log|].Chose?
      && var i := t.log[|s.log|].index;
      && t.log == s.log + [Chose(i, at)] && i < |s.pool.entries| && CooledDown(s.log, cooldown, i, at)
      && forall j: nat :: j < i ==> !CooledDown(s.log, cooldown, j, at)
  {
    hide Reachable, IsStableSort, CooledDown, Unblocked, Using;
    EveryRunKeepsPolicy(profiles, cooldown, events, s);
    var r :| Selects(s.pool.entries, at, r) && Chosen(s, at, r, t);
  }

  // ---- No carrier is chosen while it cools down ----

  /** Entry `p` is a failure of the carrier that nothing healed before entry `j`. */
  ghost predicate UnhealedUntil(log: seq<LogEntry>, p: nat, j: nat, index: nat) {
    && p < j <= |log| && log[p].Fell? && log[p].index == index
    && forall q :: p < q < j ==> log[q] != Rose(index)
  }

  /** Every choice came after the end of every cooldown its carrier had then. */
  ghost predicate CooldownKept(log: seq<LogEntry>, cooldown: u64) {
    forall p: nat, j: nat, index: nat ::
      UnhealedUntil(log, p, j, index) && j < |log| && log[j].Chose? && log[j].index == index ==>
        log[j].at >= EndOf(log, p, cooldown)
  }

  lemma ChosenIsCool(s: Run, at: u64, t: Run, index: nat)
    requires Tracked(s) && Next(s, at, Select, t) && t.log == s.log + [Chose(index, at)]
    ensures CooledDown(s.log, s.pool.cooldown, index, at)
  {
    hide Tracked, CooledDown;
    var r :| Selects(s.pool.entries, at, r) && Chosen(s, at, r, t);
    assert t.log[|s.log|] == Chose(index, at);
    if r.Some? {
      assert t.log[|s.log|] == Chose(r.value, at);
      TrackedDecides(s, index, at);
    }
  }

  lemma KeptStep(s: Run, at: u64, e: Event, t: Run)
    requires Tracked(s) && CooldownKept(s.log, s.pool.cooldown) && Next(s, at, e, t)
    ensures CooldownKept(t.log, s.pool.cooldown)
  {
    hide CoolEnd, Falls, Selects, AfterFailed, AfterHealthy, Tracked;
    forall p: nat, j: nat, index: nat |
      UnhealedUntil(t.log, p, j, index) && j < |t.log| && t.log[j].Chose? && t.log[j].index == index
      ensures t.log[j].at >= EndOf(t.log, p, s.pool.cooldown)
    {
      assert t.log[..p + 1] == s.log[..p + 1];
      forall q | p < q < j
        ensures s.log[q] != Rose(index)
      {
        assert t.log[q] != Rose(index);
      }
      assert UnhealedUntil(s.log, p, j, index);
      if j == |s.log| {
        assert Unhealed(s.log, p, index);
        ChosenIsCool(s, at, t, index);
      }
    }
  }

  /** In every run no carrier is chosen from a failure until its cooldown is over, unless it was found
      healthy in between. */
  lemma {:induction false} NeverChosenWhileCooling(profiles: seq<Profile>, cooldown: u64, events: seq<(u64, Event)>,
      s: Run)
    requires Reachable(profiles, cooldown, events, s)
    ensures CooldownKept(s.log, cooldown)
  {
    if events != [] {
      hide Next, CooldownKept;
      var n := |events| - 1;
      var before :| ReachableBy(profiles, cooldown, events, before, s);
      NeverChosenWhileCooling(profiles, cooldown, events[..n], before);
      EveryRunIsTracked(profiles, cooldown, events[..n], before);
      KeptStep(before, events[n].0, events[n].1, s);
    }
  }
}
