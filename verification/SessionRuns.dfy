/** End-to-end session: two endpoints, each with a writer task and a reader task on one shared
    transport. A step is what a task does while it holds the transport's lock once, with the
    stream operation next to it; the four tasks interleave freely. */
module SessionRuns {
  import opened Prelude
  import opened Frame
  import opened Noise
  import opened Session
  import opened SessionWire

  /** `queue` is what the writer still has to seal for the event it is sending, and `begun` how
      much was sealed before it; `mustRekey` that a Rekey record is written but the outgoing key
      not replaced yet; `mustFollow` the same for the reader. `submitted`, `log`, `unsealed` and
      `got` are the history: events given to the writer, packets sealed, records opened, events
      received. Of an event that is refused part-way, `submitted` holds the part that was sealed.
      `broken` means that the stream no longer takes writes; reading goes on. */
  datatype Endpoint = Endpoint(
    outgoing: Chain, incoming: Chain, interval: nat,
    queue: seq<Packet>, begun: nat, sent: nat, mustRekey: bool,
    broken: bool, mustFollow: bool, failed: bool,
    submitted: seq<MuxEvent>, log: seq<Packet>, unsealed: nat, got: seq<MuxEvent>)

  /** `toB` and `toA` are the bytes in flight. */
  datatype Link = Link(a: Endpoint, b: Endpoint, toB: Stream, toA: Stream)

  datatype Side = A | B

  datatype Action =
    | Submit(ev: MuxEvent, plan: seq<Packet>)
    | SealNext(rekeyPad: u16)
    | Refuse
    | Break(sealed: bool)
    | ReplaceOutgoing
    | OpenNext
    | ReplaceIncoming

  datatype Step = Step(side: Side, action: Action)

  function Fresh(out: Dir, in_: Dir, interval: nat): Endpoint {
    Endpoint(Chain(out, 0, 0), Chain(in_, 0, 0), interval, [], 0, 0, false, false, false, false, [], [], 0, [])
  }

  function Start(intervalA: nat, intervalB: nat): Link {
    Link(Fresh(ToResponder, ToInitiator, intervalA), Fresh(ToInitiator, ToResponder, intervalB), [], [])
  }

  /** What each action needs. A packet that cannot be sealed ends its event with an error, and the
      writer takes further events; a stream that breaks ends the writer, perhaps with a record
      sealed that is never written. */
  ghost predicate Enabled(e: Endpoint, arriving: Stream, action: Action) {
    match action
    case Submit(ev, plan) => !e.broken && e.queue == [] && !e.mustRekey && PlanFor(ev, plan)
    case SealNext(pad) =>
      !e.broken && e.queue != [] && !e.mustRekey && Sealable(e.queue[0]) && Sealable(Packet(REKEY, pad))
    case Refuse => !e.broken && e.queue != [] && !e.mustRekey && !Sealable(e.queue[0])
    case Break(_) => !e.broken && !e.mustRekey
    case ReplaceOutgoing => e.mustRekey
    case OpenNext => !e.mustFollow && !e.failed && !OpenFirst(e.incoming, arriving).Incomplete?
    case ReplaceIncoming => e.mustFollow
  }

  function SealedPart(ev: MuxEvent, pieces: seq<MuxEvent>): MuxEvent {
    if ev.Data? then Data(ev.streamId, DataIn(pieces)) else ev
  }

  /** The events given, when of the last one only `pieces` were sealed. */
  function WithoutUnsealed(submitted: seq<MuxEvent>, pieces: seq<MuxEvent>): seq<MuxEvent> {
    if submitted == [] then []
    else
      var n := |submitted| - 1;
      submitted[..n] + if pieces == [] then [] else [SealedPart(submitted[n], pieces)]
  }

  /** The endpoint without what is still queued. */
  function Dropped(e: Endpoint): Endpoint {
    if e.queue == [] then e
    else
      var pieces := EventsOf(if e.begun <= |e.log| then e.log[e.begun..] else []);
      e.(submitted := WithoutUnsealed(e.submitted, pieces), queue := [])
  }

  /** The endpoint after an action, what is left of the bytes arriving, and the bytes it sends. */
  ghost function Act(e: Endpoint, arriving: Stream, action: Action): (Endpoint, Stream, Stream)
    requires Enabled(e, arriving, action)
  {
    match action
    case Submit(ev, plan) => (e.(submitted := e.submitted + [ev], queue := plan, begun := |e.log|), arriving, [])
    case SealNext(pad) =>
      var p := e.queue[0];
      var due := !IsRekey(p) && e.sent + 1 >= e.interval;
      (e.(outgoing := Next(e.outgoing),
          log := e.log + [p],
          sent := if IsRekey(p) then e.sent else e.sent + 1,
          queue := (if due then [Packet(REKEY, pad)] else []) + e.queue[1..],
          mustRekey := IsRekey(p)),
       arriving, SealedRecord(e.outgoing, p))
    case Refuse => (Dropped(e), arriving, [])
    case Break(sealed) =>
      (Dropped(e).(outgoing := if sealed then Next(e.outgoing) else e.outgoing, broken := true), arriving, [])
    case ReplaceOutgoing => (e.(outgoing := Rekeyed(e.outgoing), sent := 0, mustRekey := false), arriving, [])
    case OpenNext =>
      (match OpenFirst(e.incoming, arriving)
       case Opened(frame, rest) =>
         var after := e.(incoming := Next(e.incoming), unsealed := e.unsealed + 1);
         if frame.ftype == Rekey then (after.(mustFollow := true), rest, [])
         else (match FromFrame(frame)
               case Ok(ev) => (after.(got := e.got + [ev]), rest, [])
               case Err(_) => (after.(failed := true), rest, []))
       case _ => (e.(failed := true), arriving, []))
    case ReplaceIncoming => (e.(incoming := Rekeyed(e.incoming), mustFollow := false), arriving, [])
  }

  ghost predicate CanStep(l: Link, s: Step) {
    if s.side.A? then Enabled(l.a, l.toA, s.action) else Enabled(l.b, l.toB, s.action)
  }

  ghost function After(l: Link, s: Step): Link
    requires CanStep(l, s)
  {
    if s.side.A? then
      var (e, rest, out) := Act(l.a, l.toA, s.action);
      Link(e, l.b, l.toB + out, rest)
    else
      var (e, rest, out) := Act(l.b, l.toB, s.action);
      Link(l.a, e, rest, l.toA + out)
  }

  ghost predicate Reachable(start: Link, steps: seq<Step>, l: Link)
    decreases |steps|, 1
  {
    if steps == [] then l == start
    else exists before :: ReachableBy(start, steps, before, l)
  }

  ghost predicate ReachableBy(start: Link, steps: seq<Step>, before: Link, l: Link)
    requires steps != []
    decreases |steps|, 0
  {
    var n := |steps| - 1;
    Reachable(start, steps[..n], before) && CanStep(before, steps[n]) && l == After(before, steps[n])
  }

  // ---- The invariant of one direction ----

  function Owed(b: bool): nat {
    if b then 1 else 0
  }

  /** The received events are the sent ones, each Data in one or more pieces. */
  ghost predicate SplitsOf(evs: seq<MuxEvent>, ps: seq<MuxEvent>)
    decreases |evs|, 1
  {
    if evs == [] then ps == []
    else exists k :: LastSplitAt(evs, ps, k)
  }

  ghost predicate LastSplitAt(evs: seq<MuxEvent>, ps: seq<MuxEvent>, k: nat)
    requires evs != []
    decreases |evs|, 0
  {
    var n := |evs| - 1;
    k <= |ps| && SplitsOf(evs[..n], ps[..k]) && SplitOf(evs[n], ps[k..])
  }

  /** The log before the current event is all earlier ones; the log since and the queue are it. */
  ghost predicate SendingOk(s: Endpoint) {
    && s.submitted != [] && s.begun <= |s.log|
    && var n := |s.submitted| - 1;
    && SplitsOf(s.submitted[..n], EventsOf(s.log[..s.begun]))
    && SplitOf(s.submitted[n], EventsOf(s.log[s.begun..] + s.queue))
  }

  /** The sender's chain is the one at the boundary after its log, but for a key replacement
      still owed for a Rekey record just written; the queue finishes what was submitted. */
  ghost predicate SenderOk(dir: Dir, s: Endpoint) {
    && GoodLog(s.log)
    && (forall i :: 0 <= i < |s.queue| ==> GoodFrame(s.queue[i]))
    && (s.mustRekey ==> Rekeys(s.log) >= 1)
    && (s.broken || s.outgoing == Chain(dir, Rekeys(s.log) - Owed(s.mustRekey), |s.log|))
    && SplitsOf(s.submitted, EventsOf(s.log + s.queue))
    && (s.queue != [] ==> SendingOk(s))
  }

  /** The receiver's chain is the one at the boundary it has reached, likewise; what it got is
      what the log carries up to there, and what is in flight is the rest of the log. */
  ghost predicate ReceiverOk(dir: Dir, log: seq<Packet>, flying: Stream, r: Endpoint)
    requires GoodLog(log)
  {
    && !r.failed
    && r.unsealed <= |log|
    && flying == WireFrom(dir, log, r.unsealed)
    && (r.mustFollow ==> Rekeys(log[..r.unsealed]) >= 1)
    && r.incoming == Chain(dir, Rekeys(log[..r.unsealed]) - Owed(r.mustFollow), r.unsealed)
    && r.got == EventsOf(log[..r.unsealed])
  }

  ghost predicate InStep(l: Link) {
    && SenderOk(ToResponder, l.a) && ReceiverOk(ToResponder, l.a.log, l.toB, l.b)
    && SenderOk(ToInitiator, l.b) && ReceiverOk(ToInitiator, l.b.log, l.toA, l.a)
  }

  lemma SplitsSnoc(evs: seq<MuxEvent>, ps: seq<MuxEvent>, ev: MuxEvent, qs: seq<MuxEvent>)
    requires SplitsOf(evs, ps) && SplitOf(ev, qs)
    ensures SplitsOf(evs + [ev], ps + qs)
  {
    var es := evs + [ev];
    var all := ps + qs;
    assert es[..|evs|] == evs && all[..|ps|] == ps && all[|ps|..] == qs;
    assert LastSplitAt(es, all, |ps|);
  }

  // ---- Every action keeps both directions ----

  lemma SubmitKeeps(dir: Dir, s: Endpoint, ev: MuxEvent, plan: seq<Packet>)
    requires SenderOk(dir, s) && s.queue == [] && PlanFor(ev, plan)
    ensures SenderOk(dir, s.(submitted := s.submitted + [ev], queue := plan, begun := |s.log|))
  {
    hide SplitsOf, SplitOf, EventsOf, GoodLog, GoodFrame, Rekeys;
    assert s.log + s.queue == s.log;
    EventsAppend(s.log, plan);
    SplitsSnoc(s.submitted, EventsOf(s.log), ev, EventsOf(plan));
    var t := s.(submitted := s.submitted + [ev], queue := plan, begun := |s.log|);
    assert t.submitted[..|s.submitted|] == s.submitted;
    assert t.log[..t.begun] == s.log && t.log[t.begun..] + plan == plan;
  }

  lemma PartIsSplit(ev: MuxEvent, pieces: seq<MuxEvent>, rest: seq<MuxEvent>)
    requires SplitOf(ev, pieces + rest) && pieces != []
    ensures SplitOf(SealedPart(ev, pieces), pieces)
  {
    var all := pieces + rest;
    forall i | 0 <= i < |pieces|
      ensures pieces[i] == all[i]
    {
    }
  }

  /** Dropping what is queued leaves a split of what was sealed. */
  lemma DropKeeps(dir: Dir, s: Endpoint)
    requires SenderOk(dir, s)
    ensures SenderOk(dir, Dropped(s))
    ensures Dropped(s) == s.(submitted := Dropped(s).submitted, queue := [])
  {
    hide SplitsOf, SplitOf, EventsOf, GoodLog, GoodFrame, Rekeys;
    if s.queue == [] {
      return;
    }
    var n := |s.submitted| - 1;
    var pieces := EventsOf(s.log[s.begun..]);
    EventsAppend(s.log[s.begun..], s.queue);
    EventsAppend(s.log[..s.begun], s.log[s.begun..]);
    assert s.log == s.log[..s.begun] + s.log[s.begun..];
    assert s.log + [] == s.log;
    if pieces == [] {
      assert s.submitted[..n] + [] == s.submitted[..n];
      assert EventsOf(s.log[..s.begun]) + [] == EventsOf(s.log[..s.begun]);
    } else {
      PartIsSplit(s.submitted[n], pieces, EventsOf(s.queue));
      SplitsSnoc(s.submitted[..n], EventsOf(s.log[..s.begun]), SealedPart(s.submitted[n], pieces), pieces);
    }
  }

  lemma SealableIsGood(p: Packet)
    requires Sealable(p) && GoodFrame(p)
    ensures GoodPacket(p)
  {
  }

  /** Moving a packet from queue to log, and putting a Rekey before the rest, carries the same
      events. */
  lemma QueueMoves(log: seq<Packet>, p: Packet, rest: seq<Packet>, pad: u16)
    ensures EventsOf(log + [p] + rest) == EventsOf(log + ([p] + rest))
    ensures EventsOf(log + [p] + ([Packet(REKEY, pad)] + rest)) == EventsOf(log + ([p] + rest))
  {
    var k := Packet(REKEY, pad);
    var events, others := EventsOf(log + [p]), EventsOf(rest);
    assert EventsOf([k]) == [] by {
      RekeyIsGood(k);
      LogSnoc(ToResponder, [], k);
      assert [] + [k] == [k];
    }
    hide EventsOf;
    Assoc(log, [p], rest);
    EventsAppend(log + [p], rest);
    EventsAppend(log + [p], [k] + rest);
    EventsAppend([k], rest);
    assert [] + others == others;
  }

  lemma SealKeeps(dir: Dir, s: Endpoint, arriving: Stream, pad: u16, flying: Stream, r: Endpoint)
    requires SenderOk(dir, s) && ReceiverOk(dir, s.log, flying, r)
    requires Enabled(s, arriving, SealNext(pad))
    ensures var (t, _, out) := Act(s, arriving, SealNext(pad));
      SenderOk(dir, t) && ReceiverOk(dir, t.log, flying + out, r)
  {
    hide GoodFrame, SplitsOf, SplitOf, EventsOf, Rekeys, WireFrom, Sealable, EventIn, SealedRecord, OpenFirst, PlanFor;
    var (t, _, out) := Act(s, arriving, SealNext(pad));
    var p := s.queue[0];
    SealableIsGood(p);
    LogSnoc(dir, s.log, p);
    WireSnoc(dir, s.log, p, r.unsealed);
    assert t.log[..r.unsealed] == s.log[..r.unsealed];
    RekeyIsGood(Packet(REKEY, pad));
    QueueMoves(s.log, p, s.queue[1..], pad);
    QueueMoves(s.log[s.begun..], p, s.queue[1..], pad);
    assert t.log[..s.begun] == s.log[..s.begun] && t.log[s.begun..] == s.log[s.begun..] + [p];
    assert s.queue == [p] + s.queue[1..];
    assert [] + s.queue[1..] == s.queue[1..];
  }

  /** An endpoint's writer actions, as seen by the direction it sends on. */
  lemma SenderKeeps(dir: Dir, s: Endpoint, arriving: Stream, action: Action, flying: Stream, r: Endpoint)
    requires SenderOk(dir, s) && ReceiverOk(dir, s.log, flying, r)
    requires Enabled(s, arriving, action)
    ensures var (t, _, out) := Act(s, arriving, action);
      SenderOk(dir, t) && ReceiverOk(dir, t.log, flying + out, r)
  {
    hide GoodLog, GoodFrame, SplitsOf, SplitOf, EventsOf, Rekeys, WireFrom, PlanFor, Sealable, OpenFirst, FromFrame;
    hide SealedRecord, WithoutUnsealed;
    if action.Submit? {
      SubmitKeeps(dir, s, action.ev, action.plan);
    } else if action.Refuse? || action.Break? {
      DropKeeps(dir, s);
    } else if action.SealNext? {
      SealKeeps(dir, s, arriving, action.rekeyPad, flying, r);
    }
    assert flying + [] == flying;
  }

  lemma OpenKeeps(dir: Dir, log: seq<Packet>, flying: Stream, r: Endpoint)
    requires GoodLog(log) && ReceiverOk(dir, log, flying, r) && Enabled(r, flying, OpenNext)
    ensures var (t, rest, _) := Act(r, flying, OpenNext);
      ReceiverOk(dir, log, rest, t)
  {
    hide OpenFirst, SealedRecord, GoodPacket, GoodFrame, PlanFor, Sealable, FromFrame;
    var k := r.unsealed;
    if k == |log| {
      NothingArrived(r.incoming);
      assert false;
    }
    NextRecordOpens(dir, log, k, r.incoming);
    TypeTellsRekey(log[k]);
    assert log[..k + 1] == log[..k] + [log[k]];
    LogSnoc(dir, log[..k], log[k]);
    if IsRekey(log[k]) {
      RekeyIsGood(log[k]);
      assert r.got + [] == r.got;
    }
  }

  /** An endpoint's reader actions, as seen by the direction it receives on: never a failure,
      because the next record always opens and always carries a rekey or an event. */
  lemma ReceiverKeeps(dir: Dir, log: seq<Packet>, flying: Stream, r: Endpoint, action: Action)
    requires GoodLog(log) && ReceiverOk(dir, log, flying, r) && Enabled(r, flying, action)
    ensures var (t, rest, _) := Act(r, flying, action);
      ReceiverOk(dir, log, rest, t)
  {
    hide OpenFirst, SealedRecord, GoodPacket, GoodFrame, PlanFor, Sealable, Rekeys, EventsOf, FromFrame;
    if action.OpenNext? {
      OpenKeeps(dir, log, flying, r);
    }
  }

  lemma SenderLogIsGood(l: Link)
    requires InStep(l)
    ensures GoodLog(l.a.log) && GoodLog(l.b.log)
  {
  }

  lemma StepKeeps(l: Link, s: Step)
    requires InStep(l) && CanStep(l, s)
    ensures InStep(After(l, s))
  {
    hide SenderOk, ReceiverOk, Enabled, Act;
    if s.side.A? {
      SenderLogIsGood(l);
      SenderKeeps(ToResponder, l.a, l.toA, s.action, l.toB, l.b);
      ReceiverKeeps(ToInitiator, l.b.log, l.toA, l.a, s.action);
    } else {
      SenderLogIsGood(l);
      SenderKeeps(ToInitiator, l.b, l.toB, s.action, l.toA, l.a);
      ReceiverKeeps(ToResponder, l.a.log, l.toB, l.b, s.action);
    }
  }

  lemma {:induction false} EveryRunInStep(intervalA: nat, intervalB: nat, steps: seq<Step>, l: Link)
    requires Reachable(Start(intervalA, intervalB), steps, l)
    ensures InStep(l)
  {
    var start := Start(intervalA, intervalB);
    if steps != [] {
      var n := |steps| - 1;
      var before :| ReachableBy(start, steps, before, l);
      EveryRunInStep(intervalA, intervalB, steps[..n], before);
      StepKeeps(before, steps[n]);
    }
  }

  // ---- What a run delivers ----

  function BytesFor(e: MuxEvent, id: u16): bytes {
    if e.Data? && e.streamId == id then e.data else []
  }

  function StreamBytes(evs: seq<MuxEvent>, id: u16): bytes {
    if evs == [] then []
    else StreamBytes(evs[..|evs| - 1], id) + BytesFor(evs[|evs| - 1], id)
  }

  function Unsplit(e: MuxEvent): seq<MuxEvent> {
    if e.Data? then [] else [e]
  }

  /** The events that are not Data, in order. */
  function Whole(evs: seq<MuxEvent>): seq<MuxEvent> {
    if evs == [] then []
    else
      Whole(evs[..|evs| - 1]) + Unsplit(evs[|evs| - 1])
  }

  lemma {:induction false} StreamsAppend(a: seq<MuxEvent>, b: seq<MuxEvent>, id: u16)
    ensures StreamBytes(a + b, id) == StreamBytes(a, id) + StreamBytes(b, id)
    ensures Whole(a + b) == Whole(a) + Whole(b)
  {
    hide BytesFor, Unsplit;
    if b == [] {
      assert a + b == a;
      assert StreamBytes(a, id) + [] == StreamBytes(a, id) && Whole(a) + [] == Whole(a);
    } else {
      var n := |b| - 1;
      StreamsAppend(a, b[..n], id);
      assert (a + b)[..|a + b| - 1] == a + b[..n];
      Assoc(StreamBytes(a, id), StreamBytes(b[..n], id), BytesFor(b[n], id));
      Assoc(Whole(a), Whole(b[..n]), Unsplit(b[n]));
    }
  }

  lemma {:induction false} PiecesKeepStreams(ev: MuxEvent, ps: seq<MuxEvent>, id: u16)
    requires ev.Data? && forall i :: 0 <= i < |ps| ==> ps[i].Data? && ps[i].streamId == ev.streamId
    ensures StreamBytes(ps, id) == if ev.streamId == id then DataIn(ps) else []
    ensures Whole(ps) == []
  {
    if ps != [] {
      PiecesKeepStreams(ev, ps[..|ps| - 1], id);
    }
  }

  lemma SplitKeepsStreams(ev: MuxEvent, ps: seq<MuxEvent>, id: u16)
    requires SplitOf(ev, ps)
    ensures StreamBytes(ps, id) == StreamBytes([ev], id) && Whole(ps) == Whole([ev])
  {
    if ev.Data? {
      PiecesKeepStreams(ev, ps, id);
      PiecesKeepStreams(ev, [ev], id);
      assert DataIn([ev]) == DataIn([]) + ev.data;
    }
  }

  /** Splitting leaves every stream's bytes and every other event as they were. */
  lemma {:induction false} SplitsKeepStreams(evs: seq<MuxEvent>, ps: seq<MuxEvent>, id: u16)
    requires SplitsOf(evs, ps)
    ensures StreamBytes(ps, id) == StreamBytes(evs, id) && Whole(ps) == Whole(evs)
  {
    hide StreamBytes, Whole, SplitOf;
    if evs == [] {
    } else {
      var n := |evs| - 1;
      var k: nat :| LastSplitAt(evs, ps, k);
      SplitsKeepStreams(evs[..n], ps[..k], id);
      SplitKeepsStreams(evs[n], ps[k..], id);
      StreamsAppend(ps[..k], ps[k..], id);
      StreamsAppend(evs[..n], [evs[n]], id);
      assert ps == ps[..k] + ps[k..] && evs == evs[..n] + [evs[n]];
    }
  }

  ghost predicate BeginsASplit(evs: seq<MuxEvent>, got: seq<MuxEvent>) {
    exists full :: SplitsOf(evs, full) && got <= full
  }

  /** The direction from `s` to `r`: what was received so far begins a split of what was
      submitted, and is a whole one once nothing is queued or in flight; the two chains are
      equal at every record boundary of an unbroken stream, and what is in flight opens. */
  ghost predicate Delivers(s: Endpoint, flying: Stream, r: Endpoint) {
    && !r.failed
    && BeginsASplit(s.submitted, r.got)
    && (forall id: u16 :: StreamBytes(r.got, id) <= StreamBytes(s.submitted, id))
    && Whole(r.got) <= Whole(s.submitted)
    && (s.queue == [] && flying == [] ==> SplitsOf(s.submitted, r.got))
    && (flying == [] && !s.broken && !s.mustRekey && !r.mustFollow ==> r.incoming == s.outgoing)
    && (flying != [] && !r.mustFollow ==> OpenFirst(r.incoming, flying).Opened?)
  }

  lemma FlyingIsRest(dir: Dir, log: seq<Packet>, k: nat)
    requires GoodLog(log) && k <= |log|
    ensures WireFrom(dir, log, k) == [] <==> k == |log|
  {
  }

  lemma DirectionDelivers(dir: Dir, s: Endpoint, flying: Stream, r: Endpoint)
    requires SenderOk(dir, s) && ReceiverOk(dir, s.log, flying, r)
    ensures Delivers(s, flying, r)
  {
    hide GoodFrame, GoodPacket, OpenFirst, SealedRecord, Rekeys, EventsOf, StreamBytes, Whole, SplitsOf;
    var k := r.unsealed;
    var full := EventsOf(s.log + s.queue);
    var rest := EventsOf(s.log[k..] + s.queue);
    assert s.log + s.queue == s.log[..k] + (s.log[k..] + s.queue);
    EventsAppend(s.log[..k], s.log[k..] + s.queue);
    assert full == r.got + rest;
    forall id: u16
      ensures StreamBytes(r.got, id) <= StreamBytes(s.submitted, id)
      ensures Whole(r.got) <= Whole(s.submitted)
    {
      StreamsAppend(r.got, rest, id);
      SplitsKeepStreams(s.submitted, full, id);
    }
    assert StreamBytes(r.got, 0) <= StreamBytes(s.submitted, 0);
    if k < |s.log| {
      NextRecordOpens(dir, s.log, k, r.incoming);
    } else {
      assert s.log[..k] == s.log;
      assert s.queue == [] ==> s.log + s.queue == s.log;
    }
    FlyingIsRest(dir, s.log, k);
  }

  /** End to end, for every list of events, every plan and padding, every interval, every refusal
      and broken stream, and every interleaving of the four tasks: both directions deliver. */
  lemma EndToEnd(intervalA: nat, intervalB: nat, steps: seq<Step>, l: Link)
    requires Reachable(Start(intervalA, intervalB), steps, l)
    ensures Delivers(l.a, l.toB, l.b) && Delivers(l.b, l.toA, l.a)
  {
    hide Reachable, Delivers, SenderOk, ReceiverOk;
    EveryRunInStep(intervalA, intervalB, steps, l);
    SenderLogIsGood(l);
    DirectionDelivers(ToResponder, l.a, l.toB, l.b);
    DirectionDelivers(ToInitiator, l.b, l.toA, l.a);
  }

  // ---- Keys are replaced on time ----

  /** Records since the last Rekey. */
  function SinceRekey(log: seq<Packet>): nat {
    if log == [] || IsRekey(log[|log| - 1]) then 0 else SinceRekey(log[..|log| - 1]) + 1
  }

  /** A record is a Rekey exactly when `n` others were sealed since the last one. */
  ghost predicate RekeysEvery(log: seq<Packet>, n: nat) {
    forall i :: 0 <= i < |log| ==> (IsRekey(log[i]) <==> SinceRekey(log[..i]) == n)
  }

  predicate NoRekeys(ps: seq<Packet>) {
    forall i :: 0 <= i < |ps| ==> !IsRekey(ps[i])
  }

  /** The count is the records since the last Rekey; when it is full a Rekey that can be sealed comes
      next. */
  ghost predicate Counted(e: Endpoint) {
    var n := Max(e.interval, 1);
    && RekeysEvery(e.log, n) && SinceRekey(e.log) <= n
    && (!e.broken ==>
      && (if e.mustRekey then SinceRekey(e.log) == 0 else SinceRekey(e.log) == e.sent)
      && (if SinceRekey(e.log) == n
          then e.queue != [] && IsRekey(e.queue[0]) && Sealable(e.queue[0]) && NoRekeys(e.queue[1..])
          else NoRekeys(e.queue)))
  }

  lemma SinceNext(log: seq<Packet>, p: Packet, n: nat)
    requires RekeysEvery(log, n) && (IsRekey(p) <==> SinceRekey(log) == n)
    ensures RekeysEvery(log + [p], n)
    ensures SinceRekey(log + [p]) == if IsRekey(p) then 0 else SinceRekey(log) + 1
  {
    hide IsRekey;
    var all := log + [p];
    assert all[..|log|] == log;
    forall i | 0 <= i < |all|
      ensures IsRekey(all[i]) <==> SinceRekey(all[..i]) == n
    {
      if i < |log| {
        assert all[..i] == log[..i];
      }
    }
  }

  lemma PlansHaveNoRekeys(ev: MuxEvent, plan: seq<Packet>)
    requires PlanFor(ev, plan)
    ensures NoRekeys(plan)
  {
  }

  lemma SealCounts(e: Endpoint, arriving: Stream, pad: u16)
    requires Counted(e) && Enabled(e, arriving, SealNext(pad))
    ensures Counted(Act(e, arriving, SealNext(pad)).0)
  {
    hide SinceRekey, RekeysEvery, Sealable, SealedRecord;
    SinceNext(e.log, e.queue[0], Max(e.interval, 1));
    var t := Act(e, arriving, SealNext(pad)).0;
    assert e.queue == [e.queue[0]] + e.queue[1..];
    assert IsRekey(Packet(REKEY, pad));
    assert ([Packet(REKEY, pad)] + e.queue[1..])[1..] == e.queue[1..];
    assert [] + e.queue[1..] == e.queue[1..];
  }

  lemma ActCounts(e: Endpoint, arriving: Stream, action: Action)
    requires Counted(e) && Enabled(e, arriving, action)
    ensures Counted(Act(e, arriving, action).0) && Act(e, arriving, action).0.interval == e.interval
  {
    hide SinceRekey, RekeysEvery, SealedRecord, PlanFor, OpenFirst, FromFrame, WithoutUnsealed;
    match action
    case Submit(ev, plan) => PlansHaveNoRekeys(ev, plan);
    case SealNext(pad) => SealCounts(e, arriving, pad);
    case _ =>
  }

  lemma CountedRekeys(e: Endpoint)
    requires Counted(e)
    ensures RekeysEvery(e.log, Max(e.interval, 1))
  {
  }

  /** In every run a side's record is a Rekey exactly when the interval's number of others was sealed
      since the last one, so no key ever seals more than that. */
  lemma {:induction false} RekeysOnTime(intervalA: nat, intervalB: nat, steps: seq<Step>, l: Link)
    requires Reachable(Start(intervalA, intervalB), steps, l)
    ensures Counted(l.a) && Counted(l.b) && l.a.interval == intervalA && l.b.interval == intervalB
    ensures RekeysEvery(l.a.log, Max(intervalA, 1)) && RekeysEvery(l.b.log, Max(intervalB, 1))
  {
    if steps != [] {
      hide Counted, Act, Enabled;
      var n := |steps| - 1;
      var before :| ReachableBy(Start(intervalA, intervalB), steps, before, l);
      RekeysOnTime(intervalA, intervalB, steps[..n], before);
      var step := steps[n];
      if step.side.A? {
        ActCounts(before.a, before.toA, step.action);
      } else {
        ActCounts(before.b, before.toB, step.action);
      }
      CountedRekeys(l.a);
      CountedRekeys(l.b);
    }
  }

  // ---- The steps are those of the two halves ----

  /** Sealing the next packet, with the Rekey record and the key replacement when the interval
      is reached, does to the log, the chain and the count what `SendPadded` does. */
  lemma WriterStepsSendPadded(dir: Dir, e: Endpoint, arriving: Stream, pad: u16)
    requires SenderOk(dir, e) && Enabled(e, arriving, SealNext(pad)) && !IsRekey(e.queue[0])
    ensures var sealed := Act(e, arriving, SealNext(pad)).0;
      if e.sent + 1 < e.interval then
        && sealed.log == e.log + [e.queue[0]] && sealed.queue == e.queue[1..]
        && sealed.sent == e.sent + 1 && sealed.outgoing == ChainAt(dir, sealed.log)
      else
        && Enabled(sealed, arriving, SealNext(pad))
        && var rekeying := Act(sealed, arriving, SealNext(pad)).0;
        && Enabled(rekeying, arriving, ReplaceOutgoing)
        && var done := Act(rekeying, arriving, ReplaceOutgoing).0;
        && done.log == e.log + [e.queue[0]] + [Packet(REKEY, pad)] && done.queue == e.queue[1..]
        && done.sent == 0 && done.outgoing == ChainAt(dir, done.log)
  {
    hide SealedRecord, Sealable, EventsOf, OpenFirst, SplitsOf, GoodFrame, GoodPacket, Rekeys;
    var p, k := e.queue[0], Packet(REKEY, pad);
    LogSnoc(dir, e.log, p);
    LogSnoc(dir, e.log + [p], k);
    assert ([k] + e.queue[1..])[1..] == e.queue[1..];
    assert [] + e.queue[1..] == e.queue[1..];
  }

  /** Opening the next record, and replacing the key after a Rekey, is one turn of the loop
      `RecvFrame` goes round. */
  lemma ReaderStepsReceive(e: Endpoint, arriving: Stream)
    requires Enabled(e, arriving, OpenNext) && OpenFirst(e.incoming, arriving).Opened?
    ensures var frame := OpenFirst(e.incoming, arriving).frame;
      var (t, rest, _) := Act(e, arriving, OpenNext);
      if frame.ftype == Rekey then
        && Enabled(t, rest, ReplaceIncoming)
        && Receive(Act(t, rest, ReplaceIncoming).0.incoming, rest) == Receive(e.incoming, arriving)
      else Receive(e.incoming, arriving) == (Receives(frame), t.incoming, rest)
  {
    hide OpenFirst, FromFrame;
  }

  /** No run gets stuck short of delivery: whatever is in flight can be opened, whatever is owed
      can be done, and whatever is queued on an unbroken stream can be sealed or, if too long, refused. */
  lemma NeverStuck(dir: Dir, s: Endpoint, flying: Stream, r: Endpoint)
    requires SenderOk(dir, s) && ReceiverOk(dir, s.log, flying, r)
    ensures flying != [] || r.mustFollow ==> Enabled(r, flying, if r.mustFollow then ReplaceIncoming else OpenNext)
    ensures s.queue != [] && !s.broken && !s.mustRekey ==>
      Enabled(s, [], if Sealable(s.queue[0]) then SealNext(0) else Refuse)
  {
    hide OpenFirst, SplitsOf, StreamBytes, Whole, EventsOf, WireFrom, Rekeys, GoodFrame, FromFrame;
    DirectionDelivers(dir, s, flying, r);
    hide SenderOk, ReceiverOk;
  }
}
