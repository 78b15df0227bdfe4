/** Connection discipline: backoff with full jitter, the connection budget, the blackhole detector,
    the freeze controller and the manager that polls them in order.

    Times are readings of a monotone millisecond clock; each operation is given its reading.
    Every class is tied to a value of its state and a function on such values. */
module Discipline {
  import opened Prelude

  function SaturatingSub(a: nat, b: nat): nat {
    Max(a - b, 0)
  }

  // ---- Backoff ----

  datatype BackoffState = BackoffState(base: u64, cap: u64, attempt: nat)

  /** The shift is done in 128 bits and stops at 63. */
  function Ceiling(b: BackoffState): u64 {
    var shifted := (b.base * Pow2(Min(b.attempt, 63))) % Pow2(128);
    Min(shifted, b.cap)
  }

  function Advanced(b: BackoffState): BackoffState {
    b.(attempt := Min(b.attempt + 1, U32_MAX))
  }

  /** An arbitrary supply of random numbers; `Below` may give any number of
      its range. */
  class Jitter {
    const source: nat -> nat
    var drawn: nat

    constructor (source: nat -> nat)
      ensures this.source == source && drawn == 0
    {
      this.source := source;
      drawn := 0;
    }

    method Below(bound: nat) returns (r: nat)
      requires bound > 0
      modifies this
      ensures r < bound && r == source(old(drawn)) % bound && drawn == old(drawn) + 1
    {
      r := source(drawn) % bound;
      drawn := drawn + 1;
    }
  }

  class Backoff {
    const base: u64
    const cap: u64
    var attempt: nat

    function State(): BackoffState
      reads this
    {
      BackoffState(base, cap, attempt)
    }

    constructor (base: u64, cap: u64)
      ensures State() == BackoffState(base, cap, 0)
    {
      this.base, this.cap, attempt := base, cap, 0;
    }

    method NextDelay(jitter: Jitter) returns (delay: nat)
      modifies this, jitter
      ensures delay <= Ceiling(old(State())) && State() == Advanced(old(State()))
      ensures delay == jitter.source(old(jitter.drawn)) % Min(Ceiling(old(State())) + 1, U64_MAX)
    {
      hide Ceiling;
      var ceil: nat := Ceiling(State());
      delay := jitter.Below(Min(ceil + 1, U64_MAX));
      attempt := Min(attempt + 1, U32_MAX);
    }

    method Reset()
      modifies this
      ensures State() == old(State()).(attempt := 0)
    {
      attempt := 0;
    }
  }

  lemma Pow2Sum(a: nat, b: nat)
    ensures Pow2(a + b) == Pow2(a) * Pow2(b)
  {
    if b > 0 {
      Pow2Sum(a, b - 1);
      assert Pow2(a + b) == 2 * (Pow2(a) * Pow2(b - 1));
      assert 2 * (Pow2(a) * Pow2(b - 1)) == Pow2(a) * (2 * Pow2(b - 1));
    }
  }

  lemma Pow32()
    ensures Pow2(32) == 0x1_0000_0000
  {
    assert Pow2(0) == 1;
    hide Pow2;
    EightDoublings(0);
    EightDoublings(8);
    EightDoublings(16);
    EightDoublings(24);
  }

  lemma Pow64()
    ensures Pow2(63) == 0x8000_0000_0000_0000 && Pow2(64) == 2 * Pow2(63) && Pow2(64) == U64_MAX + 1
  {
    assert Pow2(64) == 2 * Pow2(63);
    hide Pow2;
    Pow32();
    EightDoublings(32);
    EightDoublings(40);
    EightDoublings(48);
    EightDoublings(56);
  }

  lemma SmallModulo(a: nat, m: nat)
    requires a < m
    ensures a % m == a
  {
  }

  lemma ProductBelow(a: nat, b: nat, m: nat, n: nat)
    requires a < m && b < n
    ensures a * b < m * n
  {
    assert a * b <= a * n;
    assert a * n < m * n;
  }

  /** The 128-bit shift loses nothing. */
  lemma ShiftIsExact(b: BackoffState)
    ensures Ceiling(b) == Min(b.base * Pow2(Min(b.attempt, 63)), b.cap)
  {
    hide Pow2;
    var k := Min(b.attempt, 63);
    Pow2Grows(k, 63);
    Pow64();
    Pow2Sum(64, 64);
    ProductBelow(b.base, Pow2(k), Pow2(64), Pow2(64));
    SmallModulo(b.base * Pow2(k), Pow2(128));
  }

  /** The ceiling is min(cap, base * 2^attempt). */
  ghost predicate ExactAt(base: u64, cap: u64, attempt: nat) {
    Ceiling(BackoffState(base, cap, attempt)) == Min(cap, base * Pow2(attempt))
  }

  lemma AtLeastTwice(n: nat, m: nat)
    requires n >= 2
    ensures n * m >= 2 * m
  {
  }

  lemma CeilingExact(base: u64, cap: u64, attempt: nat)
    requires base != 1 || cap <= 0x8000_0000_0000_0000
    ensures ExactAt(base, cap, attempt)
  {
    hide Pow2, Ceiling;
    ShiftIsExact(BackoffState(base, cap, attempt));
    if attempt > 63 {
      Pow64();
      ScaledGrows(base, 63, attempt);
      if base >= 2 {
        AtLeastTwice(base, Pow2(63));
      }
    }
  }

  /** The ceiling is exact for every number of attempts unless the base is a single millisecond
      and the cap is past 2^63, where the clamped shift stops short. */
  lemma CeilingExactIff(base: u64, cap: u64)
    ensures (forall attempt: nat :: ExactAt(base, cap, attempt)) <==> base != 1 || cap <= 0x8000_0000_0000_0000
  {
    hide Pow2, Ceiling;
    Pow64();
    if base != 1 || cap <= 0x8000_0000_0000_0000 {
      forall attempt: nat
        ensures ExactAt(base, cap, attempt)
      {
        CeilingExact(base, cap, attempt);
      }
    } else {
      ShiftIsExact(BackoffState(1, cap, 64));
      assert !ExactAt(1, cap, 64);
    }
  }

  /** More attempts never shorten the ceiling. */
  lemma CeilingMonotone(b: BackoffState, attempt: nat)
    requires b.attempt <= attempt
    ensures Ceiling(b) <= Ceiling(b.(attempt := attempt)) <= b.cap
  {
    ShiftIsExact(b);
    ShiftIsExact(b.(attempt := attempt));
    ScaledGrows(b.base, Min(b.attempt, 63), Min(attempt, 63));
  }

  // ---- Budget ----

  datatype Budget = Budget(maxConns: nat, minInterval: nat, active: nat, nextAllowed: nat, backoff: BackoffState)

  datatype GateDecision = Allow | GateWait(ms: nat) | GateFull

  function Gate(b: Budget, now: nat): GateDecision {
    if b.active >= b.maxConns then GateFull
    else if now < b.nextAllowed then GateWait(b.nextAllowed - now)
    else Allow
  }

  /** Pauses grow and never shrink. */
  function Bumped(b: Budget, when_: nat): Budget {
    b.(nextAllowed := Max(b.nextAllowed, when_))
  }

  datatype Note =
    | Attempt
    | Success
    | Failure(delay: nat)
    | Drop(delay: nat)
    | Close
    | Sent
    | Recv
    | Reference(reachable: bool)

  function BudgetNoted(b: Budget, n: Note, now: nat): Budget {
    match n
    case Attempt => Bumped(b, now + b.minInterval)
    case Success => b.(active := b.active + 1, backoff := b.backoff.(attempt := 0))
    case Failure(delay) => Bumped(b.(backoff := Advanced(b.backoff)), now + delay)
    case Drop(delay) =>
      Bumped(b.(active := SaturatingSub(b.active, 1), backoff := Advanced(b.backoff)), now + Max(delay, b.minInterval))
    case Close => Bumped(b.(active := SaturatingSub(b.active, 1)), now + b.minInterval)
    case _ => b
  }

  class ConnectionBudget {
    const maxConns: nat
    const minInterval: nat
    const backoff: Backoff
    var active: nat
    var nextAllowed: nat

    function State(): Budget
      reads this, backoff
    {
      Budget(maxConns, minInterval, active, nextAllowed, backoff.State())
    }

    constructor (maxConns: nat, minInterval: nat, backoff: Backoff)
      requires maxConns >= 1
      ensures State() == Budget(maxConns, minInterval, 0, 0, backoff.State()) && this.backoff == backoff
    {
      this.maxConns, this.minInterval, this.backoff := maxConns, minInterval, backoff;
      active, nextAllowed := 0, 0;
    }

    method Poll(now: nat) returns (d: GateDecision)
      ensures d == Gate(State(), now)
    {
      if active >= maxConns {
        return GateFull;
      }
      if now < nextAllowed {
        return GateWait(nextAllowed - now);
      }
      d := Allow;
    }

    method BumpNextAllowed(when_: nat)
      modifies this`nextAllowed
      ensures State() == Bumped(old(State()), when_)
    {
      if when_ > nextAllowed {
        nextAllowed := when_;
      }
    }

    method OnAttempt(now: nat)
      modifies this`nextAllowed
      ensures State() == BudgetNoted(old(State()), Attempt, now)
    {
      BumpNextAllowed(now + minInterval);
    }

    method OnSuccess(now: nat)
      modifies this`active, backoff
      ensures State() == BudgetNoted(old(State()), Success, now)
    {
      active := active + 1;
      backoff.Reset();
    }

    method OnFailure(now: nat, jitter: Jitter) returns (ghost delay: nat)
      modifies this`nextAllowed, backoff, jitter
      ensures delay <= Ceiling(old(backoff.State())) && State() == BudgetNoted(old(State()), Failure(delay), now)
    {
      var d := backoff.NextDelay(jitter);
      BumpNextAllowed(now + d);
      delay := d;
    }

    method OnDrop(now: nat, jitter: Jitter) returns (ghost delay: nat)
      modifies this, backoff, jitter
      ensures delay <= Ceiling(old(backoff.State())) && State() == BudgetNoted(old(State()), Drop(delay), now)
    {
      active := SaturatingSub(active, 1);
      var d := backoff.NextDelay(jitter);
      BumpNextAllowed(now + Max(d, minInterval));
      delay := d;
    }

    method OnClose(now: nat)
      modifies this
      ensures State() == BudgetNoted(old(State()), Close, now)
    {
      active := SaturatingSub(active, 1);
      BumpNextAllowed(now + minInterval);
    }

    method ReleaseAll()
      modifies this`active
      ensures State() == old(State()).(active := 0)
    {
      active := 0;
    }
  }

  // ---- Blackhole detector ----

  datatype Detector = Detector(
    threshold: nat, freshFor: nat, lastRecv: Option<nat>, unackedSince: Option<nat>,
    lastOk: Option<nat>, lastBad: Option<nat>)

  datatype Health = Healthy | Suspect | Blackholed | NetworkIsDown

  predicate IsFresh(d: Detector, mark: Option<nat>, now: nat) {
    mark.Some? && SaturatingSub(now, mark.value) <= d.freshFor
  }

  function Assess(d: Detector, now: nat): Health {
    if d.unackedSince.None? || SaturatingSub(now, d.unackedSince.value) < d.threshold then Healthy
    else if IsFresh(d, d.lastOk, now) then Blackholed
    else if IsFresh(d, d.lastBad, now) then NetworkIsDown
    else Suspect
  }

  function DetectorNoted(d: Detector, n: Note, now: nat): Detector {
    match n
    case Sent => if d.unackedSince.None? then d.(unackedSince := Some(now)) else d
    case Recv => d.(lastRecv := Some(now), unackedSince := None)
    case Reference(reachable) => if reachable then d.(lastOk := Some(now)) else d.(lastBad := Some(now))
    case _ => d
  }

  class BlackholeDetector {
    const threshold: nat
    const freshFor: nat
    var lastRecv: Option<nat>
    var unackedSince: Option<nat>
    var lastOk: Option<nat>
    var lastBad: Option<nat>

    function State(): Detector
      reads this
    {
      Detector(threshold, freshFor, lastRecv, unackedSince, lastOk, lastBad)
    }

    constructor (threshold: nat, freshFor: nat)
      ensures State() == Detector(threshold, freshFor, None, None, None, None)
    {
      this.threshold, this.freshFor := threshold, freshFor;
      lastRecv, unackedSince, lastOk, lastBad := None, None, None, None;
    }

    method OnSent(now: nat)
      modifies this
      ensures State() == DetectorNoted(old(State()), Sent, now)
    {
      if unackedSince.None? {
        unackedSince := Some(now);
      }
    }

    method OnRecv(now: nat)
      modifies this
      ensures State() == DetectorNoted(old(State()), Recv, now)
    {
      lastRecv := Some(now);
      unackedSince := None;
    }

    method ClearPending()
      modifies this
      ensures State() == old(State()).(unackedSince := None)
    {
      unackedSince := None;
    }

    method OnReference(now: nat, reachable: bool)
      modifies this
      ensures State() == DetectorNoted(old(State()), Reference(reachable), now)
    {
      if reachable {
        lastOk := Some(now);
      } else {
        lastBad := Some(now);
      }
    }

    method Assessed(now: nat) returns (h: Health)
      ensures h == Assess(State(), now)
    {
      if unackedSince.None? {
        return Healthy;
      }
      var silentFor := SaturatingSub(now, unackedSince.value);
      if silentFor < threshold {
        return Healthy;
      }
      var okFresh := lastOk.Some? && SaturatingSub(now, lastOk.value) <= freshFor;
      var badFresh := lastBad.Some? && SaturatingSub(now, lastBad.value) <= freshFor;
      match (okFresh, badFresh) {
        case (true, _) => h := Blackholed;
        case (false, true) => h := NetworkIsDown;
        case (false, false) => h := Suspect;
      }
    }
  }

  // ---- Freeze controller ----

  datatype AfterFreeze = Probe | SwitchProfile

  datatype Freeze = Freeze(first: nat, repeat: nat, strikes: nat, silentUntil: Option<nat>)

  predicate IsSilent(f: Freeze, now: nat) {
    f.silentUntil.Some? && now < f.silentUntil.value
  }

  function Tripped(f: Freeze, now: nat): Freeze {
    if IsSilent(f, now) then f
    else
      var strikes := Min(f.strikes + 1, U32_MAX);
      f.(strikes := strikes, silentUntil := Some(now + if strikes <= 1 then f.first else f.repeat))
  }

  function Current(f: Freeze): (nat, AfterFreeze) {
    (if f.silentUntil.Some? then f.silentUntil.value else 0, if f.strikes >= 3 then SwitchProfile else Probe)
  }

  class FreezeController {
    const first: nat
    const repeat: nat
    var strikes: nat
    var silentUntil: Option<nat>

    function State(): Freeze
      reads this
    {
      Freeze(first, repeat, strikes, silentUntil)
    }

    constructor (first: nat, repeat: nat)
      ensures State() == Freeze(first, repeat, 0, None)
    {
      this.first, this.repeat, strikes, silentUntil := first, repeat, 0, None;
    }

    method Directive() returns (until: nat, then_: AfterFreeze)
      ensures (until, then_) == Current(State())
    {
      then_ := if strikes >= 3 then SwitchProfile else Probe;
      until := if silentUntil.Some? then silentUntil.value else 0;
    }

    method Trip(now: nat) returns (until: nat, then_: AfterFreeze)
      modifies this
      ensures State() == Tripped(old(State()), now) && (until, then_) == Current(State())
    {
      if !(silentUntil.Some? && now < silentUntil.value) {
        strikes := Min(strikes + 1, U32_MAX);
        var dur := if strikes <= 1 then first else repeat;
        silentUntil := Some(now + dur);
      }
      until, then_ := Directive();
    }

    method OnRecovered()
      modifies this
      ensures State() == old(State()).(strikes := 0, silentUntil := None)
    {
      strikes, silentUntil := 0, None;
    }
  }

  // ---- Manager ----

  datatype ManagerAction =
    | Connect
    | Wait(ms: nat)
    | AtCapacity
    | Frozen(until: nat, then_: AfterFreeze)
    | NetworkDown(ms: nat)

  datatype Manager = Manager(budget: Budget, detector: Detector, freeze: Freeze)

  predicate Trips(m: Manager, now: nat) {
    !IsSilent(m.freeze, now) && Assess(m.detector, now).Blackholed?
  }

  /** The manager after a poll: only a poll that trips changes anything. */
  function AfterPoll(m: Manager, now: nat): Manager {
    if Trips(m, now) then
      var freeze := Tripped(m.freeze, now);
      Manager(Bumped(m.budget, Current(freeze).0).(active := 0), m.detector.(unackedSince := None), freeze)
    else m
  }

  function PollAction(m: Manager, now: nat): ManagerAction {
    if IsSilent(m.freeze, now) || Trips(m, now) then
      var (until, then_) := Current(AfterPoll(m, now).freeze);
      Frozen(until, then_)
    else
      var gate := Gate(m.budget, now);
      if Assess(m.detector, now).NetworkIsDown? then NetworkDown(if gate.GateWait? then gate.ms else 0)
      else match gate
        case Allow => Connect
        case GateWait(ms) => Wait(ms)
        case GateFull => AtCapacity
  }

  function Noted(m: Manager, n: Note, now: nat): Manager {
    Manager(BudgetNoted(m.budget, n, now), DetectorNoted(m.detector, n, now),
            if n.Recv? then m.freeze.(strikes := 0, silentUntil := None) else m.freeze)
  }

  class ConnectionManager {
    const jitter: Jitter
    const budget: ConnectionBudget
    const detector: BlackholeDetector
    const freeze: FreezeController

    function State(): Manager
      reads budget, budget.backoff, detector, freeze
    {
      Manager(budget.State(), detector.State(), freeze.State())
    }

    constructor (jitter: Jitter, budget: ConnectionBudget, detector: BlackholeDetector, freeze: FreezeController)
      ensures State() == Manager(budget.State(), detector.State(), freeze.State())
      ensures this.jitter == jitter && this.budget == budget && this.detector == detector && this.freeze == freeze
    {
      this.jitter, this.budget, this.detector, this.freeze := jitter, budget, detector, freeze;
    }

    method Poll(now: nat) returns (a: ManagerAction)
      modifies budget, detector, freeze
      ensures a == PollAction(old(State()), now) && State() == AfterPoll(old(State()), now)
    {
      if freeze.silentUntil.Some? && now < freeze.silentUntil.value {
        var until, then_ := freeze.Directive();
        return Frozen(until, then_);
      }
      var health := detector.Assessed(now);
      match health {
        case Blackholed =>
          var until, then_ := freeze.Trip(now);
          budget.BumpNextAllowed(until);
          budget.ReleaseAll();
          detector.ClearPending();
          return Frozen(until, then_);
        case NetworkIsDown =>
          var d := budget.Poll(now);
          return NetworkDown(if d.GateWait? then d.ms else 0);
        case _ =>
      }
      var d := budget.Poll(now);
      match d {
        case Allow => a := Connect;
        case GateWait(ms) => a := Wait(ms);
        case GateFull => a := AtCapacity;
      }
    }

    method NoteAttempt(now: nat)
      modifies budget
      ensures State() == Noted(old(State()), Attempt, now)
    {
      budget.OnAttempt(now);
    }

    method NoteSuccess(now: nat)
      modifies budget, budget.backoff
      ensures State() == Noted(old(State()), Success, now)
    {
      budget.OnSuccess(now);
    }

    method NoteFailure(now: nat) returns (ghost delay: nat)
      modifies budget, budget.backoff, jitter
      ensures delay <= Ceiling(old(budget.backoff.State())) && State() == Noted(old(State()), Failure(delay), now)
    {
      delay := budget.OnFailure(now, jitter);
    }

    method NoteDrop(now: nat) returns (ghost delay: nat)
      modifies budget, budget.backoff, jitter
      ensures delay <= Ceiling(old(budget.backoff.State())) && State() == Noted(old(State()), Drop(delay), now)
    {
      delay := budget.OnDrop(now, jitter);
    }

    method NoteClose(now: nat)
      modifies budget
      ensures State() == Noted(old(State()), Close, now)
    {
      budget.OnClose(now);
    }

    method NoteSent(now: nat)
      modifies detector
      ensures State() == Noted(old(State()), Sent, now)
    {
      detector.OnSent(now);
    }

    method NoteRecv(now: nat)
      modifies detector, freeze
      ensures State() == Noted(old(State()), Recv, now)
    {
      detector.OnRecv(now);
      freeze.OnRecovered();
    }

    method NoteReference(now: nat, reachable: bool)
      modifies detector
      ensures State() == Noted(old(State()), Reference(reachable), now)
    {
      detector.OnReference(now, reachable);
    }
  }
}
