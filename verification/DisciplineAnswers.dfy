/** What a poll answers, read off the history of a manager alone: the answers it gave and the notes
    it heard, with their times. */
module DisciplineAnswers {
  import opened Prelude
  import opened Discipline
  import opened DisciplineRuns

  // ---- The history ----

  /** Nothing was received after entry `i`. */
  ghost predicate Quiet(log: seq<Entry>, i: nat) {
    i < |log| && forall j :: i < j < |log| ==> !Answers(log[j])
  }

  /** A freeze announced and not lifted by a reception lasts beyond `now`. */
  ghost predicate InSilence(log: seq<Entry>, now: nat) {
    exists i: nat, until: nat :: FreezeAt(log, i, until) && Quiet(log, i) && now < until
  }

  /** A blackhole was found at entry `i`: the answer is Frozen and repeats no silence. */
  ghost predicate FoundAt(log: seq<Entry>, i: nat) {
    i < |log| && log[i].Polled? && log[i].action.Frozen? && !InSilence(log[..i], log[i].at)
  }

  /** Entry `i` is a send with no reception and no blackhole found after it. */
  ghost predicate Unheard(log: seq<Entry>, i: nat) {
    && i < |log| && log[i].Heard? && log[i].note.Sent?
    && Quiet(log, i) && forall j :: i < j < |log| ==> !FoundAt(log, j)
  }

  /** Some such send is at least the threshold ago. */
  ghost predicate Overdue(log: seq<Entry>, now: nat, threshold: nat) {
    exists i: nat :: Unheard(log, i) && SaturatingSub(now, log[i].at) >= threshold
  }

  /** The reference was noted reachable, or not, at most `freshFor` ago. */
  ghost predicate Noticed(log: seq<Entry>, reachable: bool, now: nat, freshFor: nat) {
    exists i: nat, at: nat :: HeardAt(log, i, at, Reference(reachable)) && SaturatingSub(now, at) <= freshFor
  }

  /** Until when an entry holds attempts back. */
  function PauseEnd(e: Entry, minInterval: nat): nat {
    match e
    case Polled(_, Frozen(until, _)) => until
    case Heard(at, Attempt) => at + minInterval
    case Heard(at, Close) => at + minInterval
    case Heard(at, Failure(delay)) => at + delay
    case Heard(at, Drop(delay)) => at + Max(delay, minInterval)
    case _ => 0
  }

  /** Connections up: successes, less drops and closes, all given up when a blackhole is found. */
  ghost function ActiveIn(log: seq<Entry>): nat {
    if log == [] then 0
    else
      var n := |log| - 1;
      var before, e := ActiveIn(log[..n]), log[n];
      if FoundAt(log, n) then 0
      else if e.Heard? && e.note.Success? then before + 1
      else if e.Heard? && (e.note.Drop? || e.note.Close?) then SaturatingSub(before, 1)
      else before
  }

  /** Failures and drops since the last success. */
  function FailuresIn(log: seq<Entry>): nat {
    if log == [] then 0
    else
      var n := |log| - 1;
      var e := log[n];
      if e.Heard? && e.note.Success? then 0
      else FailuresIn(log[..n]) + if e.Heard? && (e.note.Failure? || e.note.Drop?) then 1 else 0
  }

  // ---- One more entry ----

  lemma QuietNext(log: seq<Entry>, e: Entry, i: nat)
    requires i < |log|
    ensures Quiet(log + [e], i) <==> Quiet(log, i) && !Answers(e)
  {
    var all := log + [e];
    assert all[|log|] == e;
    if Quiet(all, i) {
      forall j | i < j < |log|
        ensures !Answers(log[j])
      {
        assert !Answers(all[j]);
      }
    }
  }

  lemma FreezesNext(log: seq<Entry>, e: Entry, i: nat, until: nat)
    ensures FreezeAt(log + [e], i, until) <==>
      if i == |log| then e.Polled? && e.action.Frozen? && e.action.until == until else FreezeAt(log, i, until)
  {
  }

  ghost predicate Finds(log: seq<Entry>, e: Entry) {
    e.Polled? && e.action.Frozen? && !InSilence(log, e.at)
  }

  lemma FoundNext(log: seq<Entry>, e: Entry, i: nat)
    ensures FoundAt(log + [e], i) <==> if i == |log| then Finds(log, e) else FoundAt(log, i)
  {
    hide InSilence;
    if i < |log| {
      assert (log + [e])[..i] == log[..i];
    } else if i == |log| {
      assert (log + [e])[..i] == log;
    }
  }

  lemma UnheardNext(log: seq<Entry>, e: Entry, i: nat)
    requires i < |log|
    ensures Unheard(log + [e], i) <==> Unheard(log, i) && !Answers(e) && !Finds(log, e)
  {
    hide Quiet, FoundAt, Finds;
    var all := log + [e];
    QuietNext(log, e, i);
    forall j
      ensures FoundAt(all, j) <==> if j == |log| then Finds(log, e) else FoundAt(log, j)
    {
      if j >= 0 {
        FoundNext(log, e, j);
      }
    }
    if Unheard(all, i) {
      assert !FoundAt(all, |log|);
      forall j | i < j < |log|
        ensures !FoundAt(log, j)
      {
        assert !FoundAt(all, j);
      }
    }
  }

  lemma SendIsUnheard(log: seq<Entry>, e: Entry)
    ensures Unheard(log + [e], |log|) <==> e.Heard? && e.note.Sent?
  {
    hide FoundAt;
  }

  // ---- The state is the history ----

  ghost predicate SilenceTracked(log: seq<Entry>, silentUntil: Option<nat>) {
    && (silentUntil.Some? ==> exists i: nat :: FreezeAt(log, i, silentUntil.value) && Quiet(log, i))
    && (forall i: nat, until: nat :: FreezeAt(log, i, until) && Quiet(log, i) ==>
         silentUntil.Some? && until <= silentUntil.value)
  }

  lemma SilenceDecides(log: seq<Entry>, f: Freeze, now: nat)
    requires SilenceTracked(log, f.silentUntil)
    ensures IsSilent(f, now) <==> InSilence(log, now)
  {
    hide FreezeAt, Quiet;
  }

  lemma QuietOnlyWithin(log: seq<Entry>)
    ensures forall i: nat :: Quiet(log, i) ==> i < |log|
  {
  }

  lemma EntryNext(log: seq<Entry>, e: Entry, i: nat, until: nat)
    ensures FreezeAt(log + [e], i, until) <==>
      if i == |log| then e.Polled? && e.action.Frozen? && e.action.until == until else FreezeAt(log, i, until)
    ensures i < |log| ==> (Quiet(log + [e], i) <==> Quiet(log, i) && !Answers(e))
    ensures i == |log| ==> Quiet(log + [e], i)
    ensures i > |log| ==> !Quiet(log + [e], i)
  {
    FreezesNext(log, e, i, until);
    if i < |log| {
      QuietNext(log, e, i);
    }
  }

  lemma SilenceNext(log: seq<Entry>, e: Entry, before: Option<nat>, after: Option<nat>)
    requires SilenceTracked(log, before)
    requires if Answers(e) then after.None?
      else if e.Polled? && e.action.Frozen? then
        after == Some(e.action.until) && (before.Some? ==> before.value <= e.action.until)
      else after == before
    ensures SilenceTracked(log + [e], after)
  {
    var all := log + [e];
    hide FreezeAt, Quiet;
    forall i: nat, until: nat
      ensures FreezeAt(all, i, until) <==>
        if i == |log| then e.Polled? && e.action.Frozen? && e.action.until == until else FreezeAt(log, i, until)
      ensures i < |log| ==> (Quiet(all, i) <==> Quiet(log, i) && !Answers(e))
      ensures i == |log| ==> Quiet(all, i)
      ensures i > |log| ==> !Quiet(all, i)
    {
      EntryNext(log, e, i, until);
    }
    QuietOnlyWithin(log);
    if after.Some? && after == before && !(e.Polled? && e.action.Frozen?) {
      var i: nat :| FreezeAt(log, i, before.value) && Quiet(log, i);
      assert FreezeAt(all, i, after.value) && Quiet(all, i);
    } else if after.Some? {
      assert FreezeAt(all, |log|, after.value) && Quiet(all, |log|);
    }
  }

  /** The detector's mark is the earliest send still unheard. */
  ghost predicate PendingTracked(log: seq<Entry>, mark: Option<nat>) {
    && (mark.Some? ==> exists i: nat :: Unheard(log, i) && log[i].at == mark.value)
    && (forall i: nat :: Unheard(log, i) ==> mark.Some? && mark.value <= log[i].at)
  }

  lemma UnheardWithin(log: seq<Entry>)
    ensures forall i: nat :: Unheard(log, i) ==> i < |log|
  {
    hide Quiet, FoundAt;
  }

  lemma SendsDoNotFind(log: seq<Entry>, e: Entry)
    ensures e.Heard? ==> !Finds(log, e)
    ensures e.Heard? && e.note.Sent? ==> !Answers(e)
  {
  }

  lemma PendingNext(log: seq<Entry>, e: Entry, before: Option<nat>, after: Option<nat>)
    requires PendingTracked(log, before) && (before.Some? ==> before.value <= e.at)
    requires if Answers(e) || Finds(log, e) then after.None?
      else if e.Heard? && e.note.Sent? && before.None? then after == Some(e.at)
      else after == before
    ensures PendingTracked(log + [e], after)
  {
    var all := log + [e];
    hide Unheard, Finds;
    UnheardWithin(log);
    UnheardWithin(all);
    SendIsUnheard(log, e);
    forall i: nat | i < |log|
      ensures Unheard(all, i) <==> Unheard(log, i) && !Answers(e) && !Finds(log, e)
      ensures all[i] == log[i]
    {
      UnheardNext(log, e, i);
    }
    if after.Some? && after == before {
      var i: nat :| Unheard(log, i) && log[i].at == before.value;
      assert Unheard(all, i) && all[i].at == after.value;
    } else if after.Some? {
      assert Unheard(all, |log|);
    }
    SendsDoNotFind(log, e);
  }

  lemma PendingDecides(log: seq<Entry>, d: Detector, now: nat)
    requires PendingTracked(log, d.unackedSince)
    ensures d.unackedSince.Some? && SaturatingSub(now, d.unackedSince.value) >= d.threshold <==>
      Overdue(log, now, d.threshold)
  {
    hide Unheard;
    UnheardWithin(log);
  }

  /** The reference's mark is its latest note of that kind. */
  ghost predicate ReferenceTracked(log: seq<Entry>, reachable: bool, mark: Option<nat>) {
    && (mark.Some? ==> exists i: nat :: HeardAt(log, i, mark.value, Reference(reachable)))
    && (forall i: nat, at: nat :: HeardAt(log, i, at, Reference(reachable)) ==> mark.Some? && at <= mark.value)
  }

  lemma ReferenceNext(log: seq<Entry>, e: Entry, reachable: bool, before: Option<nat>, after: Option<nat>)
    requires ReferenceTracked(log, reachable, before) && forall i :: 0 <= i < |log| ==> log[i].at <= e.at
    requires after == if e.Heard? && e.note == Reference(reachable) then Some(e.at) else before
    ensures ReferenceTracked(log + [e], reachable, after)
  {
    var all := log + [e];
    forall i: nat, at: nat
      ensures HeardAt(all, i, at, Reference(reachable)) <==>
        if i == |log| then e == Heard(at, Reference(reachable)) else HeardAt(log, i, at, Reference(reachable))
    {
    }
    if after.Some? && after == before && !(e.Heard? && e.note == Reference(reachable)) {
      var i: nat :| HeardAt(log, i, before.value, Reference(reachable));
      assert HeardAt(all, i, after.value, Reference(reachable));
    } else if after.Some? {
      assert HeardAt(all, |log|, after.value, Reference(reachable));
    }
  }

  lemma ReferenceDecides(log: seq<Entry>, d: Detector, reachable: bool, mark: Option<nat>, now: nat)
    requires ReferenceTracked(log, reachable, mark)
    ensures IsFresh(d, mark, now) <==> Noticed(log, reachable, now, d.freshFor)
  {
    hide HeardAt;
  }

  /** The budget's pause is the latest of all pauses. */
  ghost predicate PauseTracked(log: seq<Entry>, minInterval: nat, nextAllowed: nat) {
    && (forall i :: 0 <= i < |log| ==> PauseEnd(log[i], minInterval) <= nextAllowed)
    && (nextAllowed > 0 ==> exists i :: 0 <= i < |log| && PauseEnd(log[i], minInterval) == nextAllowed)
  }

  lemma PauseNext(log: seq<Entry>, e: Entry, minInterval: nat, before: nat)
    requires PauseTracked(log, minInterval, before)
    ensures PauseTracked(log + [e], minInterval, Max(before, PauseEnd(e, minInterval)))
  {
    hide PauseEnd;
    var all := log + [e];
    var after := Max(before, PauseEnd(e, minInterval));
    assert all[|log|] == e;
    if after > 0 && after == before {
      var i :| 0 <= i < |log| && PauseEnd(log[i], minInterval) == before;
      assert PauseEnd(all[i], minInterval) == after;
    }
  }

  lemma CountsNext(log: seq<Entry>, e: Entry)
    ensures ActiveIn(log + [e]) ==
      if Finds(log, e) then 0
      else if e.Heard? && e.note.Success? then ActiveIn(log) + 1
      else if e.Heard? && (e.note.Drop? || e.note.Close?) then SaturatingSub(ActiveIn(log), 1)
      else ActiveIn(log)
    ensures FailuresIn(log + [e]) ==
      if e.Heard? && e.note.Success? then 0
      else FailuresIn(log) + if e.Heard? && (e.note.Failure? || e.note.Drop?) then 1 else 0
  {
    assert (log + [e])[..|log|] == log;
    FoundNext(log, e, |log|);
  }

  ghost predicate BudgetTracked(log: seq<Entry>, b: Budget) {
    && PauseTracked(log, b.minInterval, b.nextAllowed)
    && b.active == ActiveIn(log)
    && b.backoff.attempt == Min(FailuresIn(log), U32_MAX)
  }

  /** Everything a manager decides on is in the history. */
  ghost predicate Tracked(r: Run) {
    && (forall i :: 0 <= i < |r.log| ==> r.log[i].at <= r.now)
    && SilenceTracked(r.log, r.m.freeze.silentUntil)
    && PendingTracked(r.log, r.m.detector.unackedSince)
    && ReferenceTracked(r.log, true, r.m.detector.lastOk)
    && ReferenceTracked(r.log, false, r.m.detector.lastBad)
    && BudgetTracked(r.log, r.m.budget)
  }

  lemma PendingInThePast(r: Run, now: nat)
    requires Tracked(r) && r.now <= now
    ensures r.m.detector.unackedSince.Some? ==> r.m.detector.unackedSince.value <= now
  {
    hide Unheard, SilenceTracked, ReferenceTracked, BudgetTracked;
    UnheardWithin(r.log);
  }

  /** The entry a step adds. */
  function Added(r: Run, now: nat, e: Event): Entry {
    match e
    case Poll => Polled(now, PollAction(r.m, now))
    case Note(n) => Heard(now, n)
  }

  lemma AddedIs(r: Run, now: nat, e: Event)
    ensures Stepped(r, now, e).log == r.log + [Added(r, now, e)] && Added(r, now, e).at == now
    ensures Stepped(r, now, e).now == now
  {
    hide PollAction, AfterPoll, Noted, Trips;
  }

  /** A poll answers Frozen in a silence or when it finds a blackhole. */
  lemma FrozenWhen(m: Manager, now: nat)
    ensures PollAction(m, now).Frozen? <==> IsSilent(m.freeze, now) || Trips(m, now)
    ensures IsSilent(m.freeze, now) ==> PollAction(m, now).until == m.freeze.silentUntil.value && !Trips(m, now)
    ensures Trips(m, now) ==>
      var u := AfterPoll(m, now).freeze.silentUntil; u == Some(PollAction(m, now).until) && u.value >= now
    ensures !Trips(m, now) ==> AfterPoll(m, now) == m
  {
    hide Assess, Gate;
  }

  lemma SilenceStep(r: Run, now: nat, e: Event)
    requires Tracked(r) && r.now <= now
    ensures SilenceTracked(Stepped(r, now, e).log, Stepped(r, now, e).m.freeze.silentUntil)
  {
    hide SilenceTracked, PendingTracked, ReferenceTracked, BudgetTracked, PollAction, AfterPoll;
    AddedIs(r, now, e);
    FrozenWhen(r.m, now);
    SilenceNext(r.log, Added(r, now, e), r.m.freeze.silentUntil, Stepped(r, now, e).m.freeze.silentUntil);
  }

  lemma FindsWhenTrips(r: Run, now: nat, e: Event)
    requires Tracked(r)
    ensures Finds(r.log, Added(r, now, e)) <==> e.Poll? && Trips(r.m, now)
  {
    hide SilenceTracked, PendingTracked, ReferenceTracked, BudgetTracked, PollAction, AfterPoll, Assess, InSilence;
    FrozenWhen(r.m, now);
    SilenceDecides(r.log, r.m.freeze, now);
  }

  lemma PendingStep(r: Run, now: nat, e: Event)
    requires Tracked(r) && r.now <= now
    ensures PendingTracked(Stepped(r, now, e).log, Stepped(r, now, e).m.detector.unackedSince)
  {
    FindsWhenTrips(r, now, e);
    PendingInThePast(r, now);
    AddedIs(r, now, e);
    hide SilenceTracked, PendingTracked, ReferenceTracked, BudgetTracked;
    hide PollAction, Finds, Tripped, Trips, BudgetNoted;
    PendingNext(r.log, Added(r, now, e), r.m.detector.unackedSince, Stepped(r, now, e).m.detector.unackedSince);
  }

  lemma ReferenceStep(r: Run, now: nat, e: Event, reachable: bool)
    requires Tracked(r) && r.now <= now
    ensures var d := Stepped(r, now, e).m.detector;
      ReferenceTracked(Stepped(r, now, e).log, reachable, if reachable then d.lastOk else d.lastBad)
  {
    hide SilenceTracked, PendingTracked, ReferenceTracked, BudgetTracked, PollAction, Tripped, Trips, BudgetNoted;
    AddedIs(r, now, e);
    var b, d := r.m.detector, Stepped(r, now, e).m.detector;
    ReferenceNext(r.log, Added(r, now, e), reachable,
      if reachable then b.lastOk else b.lastBad, if reachable then d.lastOk else d.lastBad);
  }

  lemma BudgetStep(r: Run, now: nat, e: Event)
    requires Tracked(r) && r.now <= now && PauseCovers(r)
    ensures BudgetTracked(Stepped(r, now, e).log, Stepped(r, now, e).m.budget)
  {
    FindsWhenTrips(r, now, e);
    AddedIs(r, now, e);
    FrozenWhen(r.m, now);
    CountsNext(r.log, Added(r, now, e));
    PauseNext(r.log, Added(r, now, e), r.m.budget.minInterval, r.m.budget.nextAllowed);
    hide SilenceTracked, PendingTracked, ReferenceTracked, PauseTracked, PollAction, Finds, Trips, DetectorNoted;
    hide ActiveIn, FailuresIn, FreezeAt;
  }

  lemma TrackedStep(r: Run, now: nat, e: Event)
    requires Tracked(r) && r.now <= now && PauseCovers(r)
    ensures Tracked(Stepped(r, now, e))
  {
    SilenceStep(r, now, e);
    PendingStep(r, now, e);
    ReferenceStep(r, now, e, true);
    ReferenceStep(r, now, e, false);
    BudgetStep(r, now, e);
    AddedIs(r, now, e);
    hide SilenceTracked, PendingTracked, ReferenceTracked, BudgetTracked, Stepped, Added;
  }

  // ---- Every run ----

  /** As built, with nothing noted. */
  predicate IsUntouched(m: Manager) {
    IsNew(m) && m.detector.lastOk.None? && m.detector.lastBad.None? && m.budget.backoff.attempt == 0
  }

  /** The settings a manager was built with. */
  predicate SameSettings(m: Manager, n: Manager) {
    && n.detector.threshold == m.detector.threshold && n.detector.freshFor == m.detector.freshFor
    && n.budget.maxConns == m.budget.maxConns && n.budget.minInterval == m.budget.minInterval
    && n.budget.backoff == m.budget.backoff.(attempt := n.budget.backoff.attempt)
  }

  lemma SettingsStay(r: Run, now: nat, e: Event)
    ensures SameSettings(r.m, Stepped(r, now, e).m)
  {
    hide PollAction, Assess, Tripped;
  }

  lemma NothingHeard(m: Manager, first: nat)
    requires IsUntouched(m)
    ensures Tracked(StartOf(m, first))
  {
    QuietOnlyWithin([]);
    UnheardWithin([]);
  }

  lemma {:induction false} EveryRunIsTracked(m: Manager, first: nat, steps: seq<(nat, Event)>, r: Run)
    requires IsUntouched(m) && Reachable(StartOf(m, first), steps, false, r)
    ensures Tracked(r) && SameSettings(m, r.m)
  {
    if steps == [] {
      NothingHeard(m, first);
    } else {
      hide Tracked, Stepped;
      var n := |steps| - 1;
      var before :| ReachableBy(StartOf(m, first), steps, false, before, r);
      EveryRunIsTracked(m, first, steps[..n], before);
      SilenceIsNeverCutShort(m, first, steps[..n], before);
      TrackedStep(before, steps[n].0, steps[n].1);
      SettingsStay(before, steps[n].0, steps[n].1);
    }
  }

  /** In any run a poll finds a blackhole exactly when no announced silence is on, some send at least
      the threshold ago has had no reception and no found blackhole since, and the reference was
      noted reachable recently enough to be believed. */
  lemma BlackholeIff(m: Manager, first: nat, steps: seq<(nat, Event)>, r: Run, now: nat)
    requires IsUntouched(m) && Reachable(StartOf(m, first), steps, false, r) && r.now <= now
    ensures Trips(r.m, now) <==>
      && !InSilence(r.log, now)
      && Overdue(r.log, now, m.detector.threshold) && Noticed(r.log, true, now, m.detector.freshFor)
    ensures IsSilent(r.m.freeze, now) <==> InSilence(r.log, now)
  {
    hide Reachable, InSilence, Overdue, Noticed, SilenceTracked, PendingTracked, ReferenceTracked, BudgetTracked;
    EveryRunIsTracked(m, first, steps, r);
    SilenceDecides(r.log, r.m.freeze, now);
    PendingDecides(r.log, r.m.detector, now);
    ReferenceDecides(r.log, r.m.detector, true, r.m.detector.lastOk, now);
  }

  /** A poll that is neither Frozen nor Connect, Wait or AtCapacity. */
  lemma NetworkDownIff(m: Manager, first: nat, steps: seq<(nat, Event)>, r: Run, now: nat)
    requires IsUntouched(m) && Reachable(StartOf(m, first), steps, false, r) && r.now <= now
    ensures PollAction(r.m, now).NetworkDown? <==>
      && !InSilence(r.log, now) && Overdue(r.log, now, m.detector.threshold)
      && !Noticed(r.log, true, now, m.detector.freshFor) && Noticed(r.log, false, now, m.detector.freshFor)
  {
    BlackholeIff(m, first, steps, r, now);
    hide Reachable, InSilence, Overdue, Noticed, SilenceTracked, PendingTracked, ReferenceTracked, BudgetTracked;
    EveryRunIsTracked(m, first, steps, r);
    PendingDecides(r.log, r.m.detector, now);
    ReferenceDecides(r.log, r.m.detector, true, r.m.detector.lastOk, now);
    ReferenceDecides(r.log, r.m.detector, false, r.m.detector.lastBad, now);
  }

  ghost predicate AllPausesOver(log: seq<Entry>, minInterval: nat, now: nat) {
    forall i :: 0 <= i < |log| ==> PauseEnd(log[i], minInterval) <= now
  }

  /** `until` is when the last pause is over. */
  ghost predicate LastPauseEnds(log: seq<Entry>, minInterval: nat, until: nat) {
    AllPausesOver(log, minInterval, until) && exists i :: 0 <= i < |log| && PauseEnd(log[i], minInterval) == until
  }

  lemma PauseDecides(log: seq<Entry>, minInterval: nat, nextAllowed: nat, now: nat)
    requires PauseTracked(log, minInterval, nextAllowed)
    ensures nextAllowed <= now <==> AllPausesOver(log, minInterval, now)
    ensures now < nextAllowed ==> LastPauseEnds(log, minInterval, nextAllowed)
  {
    hide PauseEnd;
  }

  /** Every answer of every run, from the history alone. A poll that is not frozen and does not take
      the network to be down connects exactly when there is room and the pause after every attempt,
      close, failure, drop and freeze is over; otherwise it says that it is full, or how long the
      last pause still is. */
  lemma AnswersByHistory(m: Manager, first: nat, steps: seq<(nat, Event)>, r: Run, now: nat)
    requires IsUntouched(m) && Reachable(StartOf(m, first), steps, false, r) && r.now <= now
    ensures var a, full := PollAction(r.m, now), ActiveIn(r.log) >= m.budget.maxConns;
      var over := AllPausesOver(r.log, m.budget.minInterval, now);
      && (a.Frozen? <==>
           || InSilence(r.log, now)
           || (Overdue(r.log, now, m.detector.threshold) && Noticed(r.log, true, now, m.detector.freshFor)))
      && (a.AtCapacity? <==> !a.Frozen? && !a.NetworkDown? && full)
      && (a.Wait? <==> !a.Frozen? && !a.NetworkDown? && !full && !over)
      && (a.Connect? <==> !a.Frozen? && !a.NetworkDown? && !full && over)
      && (a.Wait? || a.NetworkDown? ==>
           if full || over then a.ms == 0 else LastPauseEnds(r.log, m.budget.minInterval, now + a.ms))
  {
    BlackholeIff(m, first, steps, r, now);
    hide Reachable, InSilence, Overdue, Noticed, SilenceTracked, PendingTracked, ReferenceTracked, PauseTracked;
    hide AllPausesOver, LastPauseEnds, ActiveIn, FailuresIn;
    EveryRunIsTracked(m, first, steps, r);
    FrozenWhen(r.m, now);
    PauseDecides(r.log, m.budget.minInterval, r.m.budget.nextAllowed, now);
  }

  /** In a silence a poll repeats an announced end that no reception has lifted. */
  lemma SilenceIsRepeated(m: Manager, first: nat, steps: seq<(nat, Event)>, r: Run, now: nat)
    requires IsUntouched(m) && Reachable(StartOf(m, first), steps, false, r) && r.now <= now
    requires InSilence(r.log, now)
    ensures PollAction(r.m, now).Frozen? && now < PollAction(r.m, now).until
    ensures exists i: nat :: FreezeAt(r.log, i, PollAction(r.m, now).until) && Quiet(r.log, i)
  {
    BlackholeIff(m, first, steps, r, now);
    hide Reachable, InSilence, FreezeAt, Quiet, PendingTracked, ReferenceTracked, BudgetTracked;
    EveryRunIsTracked(m, first, steps, r);
    FrozenWhen(r.m, now);
  }

  // ---- Backoff ----

  /** The delay of an entry is within the ceiling of the failures and drops since the last success. */
  ghost predicate DelayWithin(log: seq<Entry>, i: nat, backoff: BackoffState)
    requires i < |log|
  {
    log[i].Heard? && (log[i].note.Failure? || log[i].note.Drop?) ==>
      log[i].note.delay <= Ceiling(backoff.(attempt := Min(FailuresIn(log[..i]), U32_MAX)))
  }

  ghost predicate DelaysWithin(log: seq<Entry>, backoff: BackoffState) {
    forall i: nat :: i < |log| ==> DelayWithin(log, i, backoff)
  }

  lemma DelaysNext(r: Run, now: nat, e: Event, backoff: BackoffState)
    requires Tracked(r) && Possible(r, now, e) && DelaysWithin(r.log, backoff)
    requires r.m.budget.backoff == backoff.(attempt := r.m.budget.backoff.attempt)
    ensures DelaysWithin(Stepped(r, now, e).log, backoff)
  {
    hide SilenceTracked, PendingTracked, ReferenceTracked, PauseTracked, Ceiling, FailuresIn, ActiveIn, PollAction;
    AddedIs(r, now, e);
    hide Stepped;
    var all := r.log + [Added(r, now, e)];
    forall i: nat | i < |all|
      ensures DelayWithin(all, i, backoff)
    {
      if i < |r.log| {
        assert all[..i] == r.log[..i];
        assert DelayWithin(r.log, i, backoff);
      } else {
        assert all[..i] == r.log;
      }
    }
  }

  /** In every run the delay drawn after a failure or a drop is at most min(cap, base * 2^k), the
      shift stopping at 63, where k counts the failures and drops since the last success. */
  lemma {:induction false} DelaysEscalate(m: Manager, first: nat, steps: seq<(nat, Event)>, r: Run)
    requires IsUntouched(m) && Reachable(StartOf(m, first), steps, false, r)
    ensures DelaysWithin(r.log, m.budget.backoff)
  {
    hide DelayWithin, Stepped, Possible, Tracked;
    if steps != [] {
      var n := |steps| - 1;
      var before :| ReachableBy(StartOf(m, first), steps, false, before, r);
      DelaysEscalate(m, first, steps[..n], before);
      EveryRunIsTracked(m, first, steps[..n], before);
      DelaysNext(before, steps[n].0, steps[n].1, m.budget.backoff);
    }
  }
}
