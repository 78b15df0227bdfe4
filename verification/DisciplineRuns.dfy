/** Whole runs of one connection manager: polls and notes at readings of a monotone clock. */
module DisciplineRuns {
  import opened Prelude
  import opened Discipline

  datatype Event = Poll | Note(note: Note)

  datatype Entry = Polled(at: nat, action: ManagerAction) | Heard(at: nat, note: Note)

  /** `granted` while the last poll said Connect and no attempt has used it, `dialing` between an
      attempt and its outcome. `attempts`, `sends`, `strikes`, `streak` (the strikes since the last
      reception) and `log` are the history. */
  datatype Run = Run(
    m: Manager, now: nat, granted: bool, dialing: bool,
    attempts: seq<nat>, sends: nat, strikes: nat, streak: nat, log: seq<Entry>)

  /** As built: nothing open, paused, frozen or unanswered. */
  predicate IsNew(m: Manager) {
    m.budget.maxConns >= 1 && m.budget.active == 0 && m.budget.nextAllowed == 0
    && m.freeze.silentUntil.None? && m.freeze.strikes == 0 && m.detector.unackedSince.None?
  }

  function StartOf(m: Manager, now: nat): Run {
    Run(m, now, false, false, [], 0, 0, 0, [])
  }

  /** Time does not go back and a delay is within the backoff's ceiling. */
  predicate Possible(r: Run, now: nat, e: Event) {
    && r.now <= now
    && (e.Note? && (e.note.Failure? || e.note.Drop?) ==> e.note.delay <= Ceiling(r.m.budget.backoff))
  }

  /** Attempts follow Connect, and each gets its one outcome before the next poll. */
  predicate Obedient(r: Run, e: Event) {
    match e
    case Poll => !r.dialing
    case Note(Attempt) => r.granted
    case Note(Success) => r.dialing
    case Note(Failure(_)) => r.dialing
    case Note(_) => true
  }

  function Stepped(r: Run, now: nat, e: Event): Run {
    match e
    case Poll =>
      var action := PollAction(r.m, now);
      r.(m := AfterPoll(r.m, now), now := now, granted := action.Connect?,
         strikes := r.strikes + if Trips(r.m, now) then 1 else 0,
         streak := r.streak + if Trips(r.m, now) then 1 else 0,
         log := r.log + [Polled(now, action)])
    case Note(n) =>
      r.(m := Noted(r.m, n, now), now := now,
         granted := r.granted && !n.Attempt?,
         dialing := n.Attempt? || (r.dialing && !n.Success? && !n.Failure?),
         attempts := r.attempts + if n.Attempt? then [now] else [],
         sends := r.sends + if n.Sent? then 1 else 0,
         streak := if n.Recv? then 0 else r.streak,
         log := r.log + [Heard(now, n)])
  }

  ghost predicate Reachable(start: Run, steps: seq<(nat, Event)>, obedient: bool, r: Run)
    decreases |steps|, 1
  {
    if steps == [] then r == start
    else exists before :: ReachableBy(start, steps, obedient, before, r)
  }

  ghost predicate ReachableBy(start: Run, steps: seq<(nat, Event)>, obedient: bool, before: Run, r: Run)
    requires steps != []
    decreases |steps|, 0
  {
    var n := |steps| - 1;
    var (now, e) := steps[n];
    && Reachable(start, steps[..n], obedient, before)
    && Possible(before, now, e) && (obedient ==> Obedient(before, e))
    && r == Stepped(before, now, e)
  }

  // ---- Silence is never cut short ----

  ghost predicate FreezeAt(log: seq<Entry>, i: nat, until: nat) {
    i < |log| && log[i].Polled? && log[i].action.Frozen? && log[i].action.until == until
  }

  /** Once a poll has answered Frozen until some time, no later poll before it answers Connect. */
  ghost predicate SilenceKept(log: seq<Entry>) {
    forall i: nat, j: nat, until: nat ::
      FreezeAt(log, i, until) && i < j < |log| && log[j].Polled? && log[j].at < until ==> !log[j].action.Connect?
  }

  /** The budget's pause covers every freeze ever announced, also those a reception has lifted. */
  ghost predicate PauseCovers(r: Run) {
    && (r.m.freeze.silentUntil.Some? ==> r.m.freeze.silentUntil.value <= r.m.budget.nextAllowed)
    && (forall i: nat, until: nat :: FreezeAt(r.log, i, until) ==> until <= r.m.budget.nextAllowed)
  }

  lemma PauseOnlyGrows(r: Run, now: nat, e: Event)
    ensures Stepped(r, now, e).m.budget.nextAllowed >= r.m.budget.nextAllowed
  {
  }

  lemma SilenceStep(r: Run, now: nat, e: Event)
    requires PauseCovers(r) && SilenceKept(r.log)
    ensures PauseCovers(Stepped(r, now, e)) && SilenceKept(Stepped(r, now, e).log)
  {
    var t := Stepped(r, now, e);
    PauseOnlyGrows(r, now, e);
    forall i: nat, until: nat | FreezeAt(t.log, i, until)
      ensures until <= t.m.budget.nextAllowed
    {
      if i < |r.log| {
        assert FreezeAt(r.log, i, until);
      }
    }
    forall i: nat, j: nat, until: nat |
      FreezeAt(t.log, i, until) && i < j < |t.log| && t.log[j].Polled? && t.log[j].at < until
      ensures !t.log[j].action.Connect?
    {
      assert FreezeAt(r.log, i, until);
    }
  }

  lemma NothingAnnounced(m: Manager, first: nat)
    requires IsNew(m)
    ensures var r := StartOf(m, first); SilenceKept(r.log) && PauseCovers(r)
  {
  }

  /** Under any notes in any order, receptions that clear the freeze controller included. */
  lemma {:induction false} SilenceIsNeverCutShort(m: Manager, first: nat, steps: seq<(nat, Event)>, r: Run)
    requires IsNew(m) && Reachable(StartOf(m, first), steps, false, r)
    ensures SilenceKept(r.log) && PauseCovers(r)
  {
    hide Stepped, Possible;
    var start := StartOf(m, first);
    NothingAnnounced(m, first);
    if steps != [] {
      var n := |steps| - 1;
      var before :| ReachableBy(start, steps, false, before, r);
      SilenceIsNeverCutShort(m, first, steps[..n], before);
      hide SilenceKept, PauseCovers;
      SilenceStep(before, steps[n].0, steps[n].1);
    }
  }

  // ---- Strikes are paid for by sends ----

  function Unanswered(r: Run): nat {
    if r.m.detector.unackedSince.Some? then 1 else 0
  }

  /** Over any stretch of any run, strikes added are at most sends noted, plus one if a send was
      unanswered when the stretch began; a freeze leaves none, so the next strike needs a send
      made after it. */
  lemma {:induction false} StrikesNeedSends(start: Run, steps: seq<(nat, Event)>, r: Run)
    requires Reachable(start, steps, false, r)
    ensures r.strikes - start.strikes + Unanswered(r) <= r.sends - start.sends + Unanswered(start)
    ensures r.sends >= start.sends
  {
    if steps != [] {
      var n := |steps| - 1;
      var before :| ReachableBy(start, steps, false, before, r);
      StrikesNeedSends(start, steps[..n], before);
      hide PollAction, BudgetNoted, Tripped;
    }
  }

  lemma FreezeLeavesNoneUnanswered(r: Run, now: nat)
    requires Trips(r.m, now)
    ensures Unanswered(Stepped(r, now, Poll)) == 0
    ensures Stepped(r, now, Poll).strikes == r.strikes + 1
  {
    hide PollAction, Tripped;
  }

  /** The controller's own count never exceeds the strikes ever added. */
  lemma {:induction false} StrikesCounted(m: Manager, first: nat, steps: seq<(nat, Event)>, r: Run)
    requires IsNew(m) && Reachable(StartOf(m, first), steps, false, r)
    ensures r.m.freeze.strikes <= r.strikes <= r.sends
  {
    StrikesNeedSends(StartOf(m, first), steps, r);
    if steps != [] {
      var n := |steps| - 1;
      var before :| ReachableBy(StartOf(m, first), steps, false, before, r);
      StrikesCounted(m, first, steps[..n], before);
    }
  }

  // ---- Escalation and evidence ----

  lemma {:induction false} StrikesAreTheStreak(m: Manager, first: nat, steps: seq<(nat, Event)>, r: Run)
    requires IsNew(m) && Reachable(StartOf(m, first), steps, false, r)
    ensures r.m.freeze == m.freeze.(strikes := Min(r.streak, U32_MAX), silentUntil := r.m.freeze.silentUntil)
  {
    if steps != [] {
      hide PollAction, BudgetNoted, Assess;
      var n := |steps| - 1;
      var before :| ReachableBy(StartOf(m, first), steps, false, before, r);
      StrikesAreTheStreak(m, first, steps[..n], before);
    }
  }

  /** A blackhole found in any run is answered with the first window if none was found since the
      last reception and with the repeated one otherwise, and from the third on with the advice to
      switch. */
  lemma FreezesEscalate(m: Manager, first: nat, steps: seq<(nat, Event)>, r: Run, now: nat)
    requires IsNew(m) && Reachable(StartOf(m, first), steps, false, r) && Trips(r.m, now)
    ensures PollAction(r.m, now) == Frozen(
      now + if r.streak == 0 then m.freeze.first else m.freeze.repeat, if r.streak >= 2 then SwitchProfile else Probe)
  {
    hide Reachable, Assess;
    StrikesAreTheStreak(m, first, steps, r);
  }

  ghost predicate HeardAt(log: seq<Entry>, i: nat, at: nat, note: Note) {
    i < |log| && log[i] == Heard(at, note)
  }

  predicate Answers(e: Entry) {
    e.Heard? && e.note.Recv?
  }

  ghost predicate UnansweredAt(log: seq<Entry>, i: nat, at: nat) {
    HeardAt(log, i, at, Sent) && forall j :: i < j < |log| ==> !Answers(log[j])
  }

  /** An unanswered send and the latest good reference are in the log, the send with no reception
      after it. */
  ghost predicate Recorded(r: Run) {
    && (r.m.detector.unackedSince.Some? ==>
        exists i: nat :: UnansweredAt(r.log, i, r.m.detector.unackedSince.value))
    && (r.m.detector.lastOk.Some? ==> exists i: nat :: HeardAt(r.log, i, r.m.detector.lastOk.value, Reference(true)))
  }

  lemma RecordedStep(r: Run, now: nat, e: Event)
    requires Recorded(r)
    ensures Recorded(Stepped(r, now, e))
  {
    hide PollAction, BudgetNoted, Tripped, Trips;
    var t := Stepped(r, now, e);
    var n := |r.log|;
    assert t.log == r.log + [t.log[n]];
    if e.Note? {
      assert HeardAt(t.log, n, now, e.note);
      assert e.note.Sent? ==> UnansweredAt(t.log, n, now);
    }
    if t.m.detector.unackedSince.Some? && t.m.detector.unackedSince == r.m.detector.unackedSince {
      var i: nat :| UnansweredAt(r.log, i, r.m.detector.unackedSince.value);
      assert UnansweredAt(t.log, i, t.m.detector.unackedSince.value);
    }
    if t.m.detector.lastOk.Some? && t.m.detector.lastOk == r.m.detector.lastOk {
      var i: nat :| HeardAt(r.log, i, r.m.detector.lastOk.value, Reference(true));
      assert HeardAt(t.log, i, t.m.detector.lastOk.value, Reference(true));
    }
  }

  lemma {:induction false} EveryRunRecords(m: Manager, first: nat, steps: seq<(nat, Event)>, r: Run)
    requires IsNew(m) && m.detector.lastOk.None? && Reachable(StartOf(m, first), steps, false, r)
    ensures Recorded(r)
    ensures r.m.detector.threshold == m.detector.threshold && r.m.detector.freshFor == m.detector.freshFor
  {
    if steps != [] {
      var n := |steps| - 1;
      var before :| ReachableBy(StartOf(m, first), steps, false, before, r);
      EveryRunRecords(m, first, steps[..n], before);
      RecordedStep(before, steps[n].0, steps[n].1);
      hide Recorded, PollAction, BudgetNoted, Tripped, Assess;
    }
  }

  /** A poll freezes only on evidence: a send at least the silence threshold ago with no reception
      since, and a good reference recent enough to be believed. */
  lemma FreezesOnEvidence(m: Manager, first: nat, steps: seq<(nat, Event)>, r: Run, now: nat)
    requires IsNew(m) && m.detector.lastOk.None? && Reachable(StartOf(m, first), steps, false, r) && Trips(r.m, now)
    ensures exists i: nat, at: nat :: UnansweredAt(r.log, i, at) && SaturatingSub(now, at) >= m.detector.threshold
    ensures exists i: nat, at: nat ::
      HeardAt(r.log, i, at, Reference(true)) && SaturatingSub(now, at) <= m.detector.freshFor
  {
    hide Reachable, HeardAt, UnansweredAt;
    EveryRunRecords(m, first, steps, r);
  }

  // ---- Progress ----

  function After(mark: Option<nat>, span: nat): nat {
    if mark.Some? then mark.value + span else 0
  }

  /** From here on, without further events, nothing holds a poll back. */
  function ProgressBound(m: Manager): nat {
    var d := m.detector;
    Max(Max(After(m.freeze.silentUntil, 0), m.budget.nextAllowed),
        Max(After(d.lastOk, d.freshFor + Max(m.freeze.first, m.freeze.repeat) + 1), After(d.lastBad, d.freshFor + 1)))
  }

  /** The managers met by polling at the given times with no other event in between. */
  function Polling(m: Manager, times: seq<nat>): Manager
    decreases |times|
  {
    if times == [] then m else Polling(AfterPoll(m, times[0]), times[1..])
  }

  function Freezes(m: Manager, times: seq<nat>): nat
    decreases |times|
  {
    if times == [] then 0
    else (if Trips(m, times[0]) then 1 else 0) + Freezes(AfterPoll(m, times[0]), times[1..])
  }

  lemma TripStaysWithinBound(m: Manager, now: nat)
    requires Trips(m, now)
    ensures AfterPoll(m, now).detector.unackedSince.None?
    ensures ProgressBound(AfterPoll(m, now)) <= ProgressBound(m)
  {
  }

  lemma {:induction false} AtMostOneMoreFreeze(m: Manager, times: seq<nat>)
    ensures Freezes(m, times) <= if m.detector.unackedSince.None? then 0 else 1
    ensures ProgressBound(Polling(m, times)) <= ProgressBound(m)
    decreases |times|
  {
    if times != [] {
      hide ProgressBound, PollAction, Tripped;
      var next := AfterPoll(m, times[0]);
      if Trips(m, times[0]) {
        TripStaysWithinBound(m, times[0]);
      }
      AtMostOneMoreFreeze(next, times[1..]);
    }
  }

  lemma {:induction false} PollingKeepsLimit(m: Manager, times: seq<nat>)
    ensures Polling(m, times).budget.maxConns == m.budget.maxConns
    decreases |times|
  {
    if times != [] {
      PollingKeepsLimit(AfterPoll(m, times[0]), times[1..]);
    }
  }

  lemma NothingHoldsBack(m: Manager, now: nat)
    requires now >= ProgressBound(m)
    ensures PollAction(m, now) == if m.budget.active < m.budget.maxConns then Connect else AtCapacity
  {
  }

  /** From any state, with no further events: at most one more freeze occurs, and every poll at or
      after the bound answers Connect or AtCapacity, whatever was polled before it. */
  lemma ProgressByBound(m: Manager, times: seq<nat>, now: nat)
    requires now >= ProgressBound(m)
    ensures Freezes(m, times + [now]) <= 1
    ensures var a := PollAction(Polling(m, times), now); a.Connect? || a.AtCapacity?
    ensures PollAction(Polling(m, times), now).Connect? <==> Polling(m, times).budget.active < m.budget.maxConns
  {
    AtMostOneMoreFreeze(m, times + [now]);
    AtMostOneMoreFreeze(m, times);
    PollingKeepsLimit(m, times);
    NothingHoldsBack(Polling(m, times), now);
  }

  // ---- Attempt rate ----

  /** Successive attempts are at least the interval apart, the budget remembers the last one, and
      room for one more connection stays reserved from a grant to its outcome. */
  ghost predicate PacedOk(r: Run) {
    var b := r.m.budget;
    && (forall i :: 0 < i < |r.attempts| ==> r.attempts[i - 1] + b.minInterval <= r.attempts[i])
    && (r.attempts != [] ==>
        && r.attempts[|r.attempts| - 1] + b.minInterval <= b.nextAllowed
        && (r.granted ==> r.attempts[|r.attempts| - 1] + b.minInterval <= r.now))
    && b.active <= b.maxConns
    && (r.granted || r.dialing ==> b.active < b.maxConns)
    && !(r.granted && r.dialing)
  }

  lemma ConnectMeansAllowed(m: Manager, now: nat)
    ensures PollAction(m, now).Connect? ==>
      m.budget.active < m.budget.maxConns && m.budget.nextAllowed <= now && !Trips(m, now)
  {
  }

  lemma PollOnBudget(m: Manager, now: nat)
    ensures var b, c := m.budget, AfterPoll(m, now).budget;
      && c == b.(active := c.active, nextAllowed := c.nextAllowed)
      && c.active <= b.active && b.nextAllowed <= c.nextAllowed
    ensures !Trips(m, now) ==> AfterPoll(m, now) == m
  {
  }

  lemma NoteOnBudget(m: Manager, n: Note, now: nat)
    ensures Noted(m, n, now).budget == BudgetNoted(m.budget, n, now)
  {
  }

  lemma PacedStep(r: Run, now: nat, e: Event)
    requires PacedOk(r) && Possible(r, now, e) && Obedient(r, e)
    ensures PacedOk(Stepped(r, now, e))
    ensures Stepped(r, now, e).m.budget.minInterval == r.m.budget.minInterval
    ensures Stepped(r, now, e).m.budget.maxConns == r.m.budget.maxConns
  {
    hide Ceiling, PollAction, Tripped, Assess, IsSilent, Noted;
    if e.Poll? {
      ConnectMeansAllowed(r.m, now);
      PollOnBudget(r.m, now);
    } else {
      hide AfterPoll;
      NoteOnBudget(r.m, e.note, now);
    }
  }

  lemma {:induction false} AttemptsArePaced(m: Manager, first: nat, steps: seq<(nat, Event)>, r: Run)
    requires IsNew(m) && Reachable(StartOf(m, first), steps, true, r)
    ensures PacedOk(r) && r.m.budget.minInterval == m.budget.minInterval && r.m.budget.maxConns == m.budget.maxConns
  {
    hide Stepped, Possible, Obedient;
    if steps != [] {
      var n := |steps| - 1;
      var before :| ReachableBy(StartOf(m, first), steps, true, before, r);
      AttemptsArePaced(m, first, steps[..n], before);
      PacedStep(before, steps[n].0, steps[n].1);
    }
  }

  lemma {:induction false} Spread(attempts: seq<nat>, gap: nat, i: nat, j: nat)
    requires i <= j < |attempts|
    requires forall k :: 0 < k < |attempts| ==> attempts[k - 1] + gap <= attempts[k]
    ensures attempts[j] - attempts[i] >= (j - i) * gap
  {
    if i < j {
      Spread(attempts, gap, i, j - 1);
      assert (j - i) * gap == (j - 1 - i) * gap + gap;
    }
  }

  lemma Multiple(n: nat, gap: nat)
    requires n >= 1
    ensures n * gap >= gap
  {
  }

  lemma CountBound(n: nat, gap: nat, span: nat)
    requires gap > 0 && n * gap <= span
    ensures n <= span / gap
  {
    var q := span / gap;
    if n > q {
      Multiple(n - q, gap);
    }
  }

  lemma SpreadCounts(attempts: seq<nat>, gap: nat, i: nat, j: nat, span: nat)
    requires i <= j < |attempts|
    requires forall k :: 0 < k < |attempts| ==> attempts[k - 1] + gap <= attempts[k]
    ensures i < j ==> attempts[j] - attempts[i] >= gap
    ensures gap > 0 && attempts[j] - attempts[i] <= span ==> j - i <= span / gap
  {
    Spread(attempts, gap, i, j);
    if i < j {
      Multiple(j - i, gap);
    }
    if gap > 0 && attempts[j] - attempts[i] <= span {
      CountBound(j - i, gap, span);
    }
  }

  /** In any run of an obedient caller, whatever fails, drops, closes or freezes: the connections
      never exceed the budget, and any span of T milliseconds sees at most T / interval + 1
      attempts. */
  lemma AttemptRate(m: Manager, first: nat, steps: seq<(nat, Event)>, r: Run, i: nat, j: nat, span: nat)
    requires IsNew(m) && Reachable(StartOf(m, first), steps, true, r)
    ensures r.m.budget.active <= m.budget.maxConns
    ensures i < j < |r.attempts| ==> r.attempts[j] - r.attempts[i] >= m.budget.minInterval
    ensures m.budget.minInterval > 0 && i <= j < |r.attempts| && r.attempts[j] - r.attempts[i] <= span ==>
      j - i + 1 <= span / m.budget.minInterval + 1
  {
    hide Reachable;
    AttemptsArePaced(m, first, steps, r);
    if i <= j < |r.attempts| {
      SpreadCounts(r.attempts, m.budget.minInterval, i, j, span);
    }
  }
}
