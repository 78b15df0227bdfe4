/** The relay on its real transports: the writer's events go through the session of `SessionRuns`
    and its native datagrams through the channel of `DatagramChannel`, and the server dispatches
    what those give it. The client is the initiator, side A.

    The tunnel's `wire` only remembers which stream each event still in the session was for. */
module Stack {
  import opened Prelude
  import opened Frame
  import Noise
  import Session
  import opened SessionWire
  import S = SessionRuns
  import D = DatagramChannel
  import R = Relay
  import RelayRuns
  import RelaySinks

  datatype Stack = Stack(tunnel: R.Tunnel, link: S.Link, net: D.Net)

  datatype Action =
    | OfRelay(action: R.Action)
    | TakeStream(plan: seq<Session.Packet>)
    | TakeNative
    | OfSession(step: S.Step)
    | Fail(how: S.Action)
    | Dispatch(connects: bool)
    | Network(event: D.Event)

  /** The handshake's hash, the two rekey intervals and the native channel's size limit. */
  datatype Setting = Setting(hash: nat, intervalA: nat, intervalB: nat, native: Option<nat>)

  function Start(cfg: Setting): Stack {
    Stack(R.Start(cfg.native), S.Start(cfg.intervalA, cfg.intervalB), D.NET0)
  }

  /** Relay steps that touch neither transport. */
  predicate Local(a: R.Action) {
    !a.WriteNative? && !a.WriteStream? && !a.WriteFails? && !a.Serve? && !a.Arrive?
  }

  /** The ways a session writer fails: a packet too long, and a broken stream. */
  predicate Failing(a: S.Action) {
    a.Refuse? || a.Break?
  }

  /** The plaintext of a native datagram. */
  function NativeWire(ev: MuxEvent): bytes
    requires ev.Datagram?
  {
    ToBe16(ev.streamId) + ev.data
  }

  ghost predicate Enabled(cfg: Setting, s: Stack, a: Action) {
    match a
    case OfRelay(action) => Local(action) && R.Enabled(s.tunnel, action)
    case TakeStream(plan) =>
      && s.tunnel.outbound != []
      && S.Enabled(s.link.a, s.link.toA, S.Submit(s.tunnel.outbound[0].ev, plan))
    case TakeNative =>
      && R.Enabled(s.tunnel, R.WriteNative)
      && D.Possible(cfg.hash, s.net, D.Send(D.Client, NativeWire(s.tunnel.outbound[0].ev)))
    case OfSession(step) => S.CanStep(s.link, step) && (step.side.A? ==> !step.action.Submit? && !Failing(step.action))
    case Fail(how) => Failing(how) && S.CanStep(s.link, S.Step(S.A, how))
    case Dispatch(_) => s.tunnel.serving && |s.tunnel.processed| < |s.link.b.got|
    case Network(e) => D.Possible(cfg.hash, s.net, e) && !(e.Send? && e.role.Client?)
  }

  function OwnerAt(ms: seq<R.Msg>, i: nat): int {
    if i < |ms| then ms[i].owner else -1
  }

  /** The writer loop hands the next event to the session, in `pieces`. */
  function Taken(t: R.Tunnel, pieces: seq<MuxEvent>): R.Tunnel
    requires t.outbound != []
  {
    t.(outbound := t.outbound[1..],
       wire := t.wire + R.Labelled(t.outbound[0].owner, pieces),
       native := if R.FitsNative(t, t.outbound[0].ev) then None else t.native)
  }

  /** The server's reader loop on the next event the session has received. */
  function Dispatched(t: R.Tunnel, ev: MuxEvent, connects: bool): R.Tunnel {
    var m := R.Msg(OwnerAt(t.wire, 0), ev);
    var (registry, targets) := R.Dispatched(t.registry, t.targets, m, connects);
    t.(wire := if t.wire == [] then [] else t.wire[1..],
       processed := t.processed + [m], registry := registry, targets := targets,
       log := t.log + [R.Came(m, connects)], replies := t.replies + R.Reply(m, connects))
  }

  /** The server's datagram loop on what the channel has opened. */
  function Arrived(t: R.Tunnel, number: nat, plaintext: bytes): R.Tunnel {
    if |plaintext| < 2 then t
    else
      var m := R.Msg(OwnerAt(t.natives, number), Datagram(FromBe16(plaintext[0], plaintext[1]), plaintext[2..]));
      t.(landed := t.landed + [number], arrived := t.arrived + [m],
         targets := R.Dispatched(t.registry, t.targets, m, false).1, log := t.log + [R.Came(m, false)])
  }

  /** The writer loop ends when the session's writer fails; what was not sealed is gone, and what
      was is still on its way to the server, whose tasks go on. */
  function Stopped(t: R.Tunnel, sealed: nat): R.Tunnel {
    var left := sealed - |t.processed|;
    t.(outbound := [], stopped := true, wire := if 0 <= left <= |t.wire| then t.wire[..left] else t.wire)
  }

  ghost function After(cfg: Setting, s: Stack, a: Action): Stack
    requires Enabled(cfg, s, a)
  {
    match a
    case OfRelay(action) => s.(tunnel := R.After(s.tunnel, action))
    case TakeStream(plan) =>
      s.(tunnel := Taken(s.tunnel, EventsOf(plan)),
         link := S.After(s.link, S.Step(S.A, S.Submit(s.tunnel.outbound[0].ev, plan))))
    case TakeNative =>
      s.(tunnel := R.After(s.tunnel, R.WriteNative),
         net := D.Step(cfg.hash, s.net, D.Send(D.Client, NativeWire(s.tunnel.outbound[0].ev))))
    case OfSession(step) => s.(link := S.After(s.link, step))
    case Fail(action) =>
      Stack(Stopped(s.tunnel, |EventsOf(s.link.a.log)|), S.After(s.link, S.Step(S.A, action)), s.net)
    case Dispatch(connects) => s.(tunnel := Dispatched(s.tunnel, s.link.b.got[|s.tunnel.processed|], connects))
    case Network(e) =>
      var net := D.Step(cfg.hash, s.net, e);
      var came := |net.server.delivered| > |s.net.server.delivered|;
      s.(net := net,
         tunnel := if !came then s.tunnel
           else var d := net.server.delivered[|net.server.delivered| - 1]; Arrived(s.tunnel, d.0, d.1))
  }

  ghost predicate Reachable(cfg: Setting, actions: seq<Action>, s: Stack)
    decreases |actions|, 1
  {
    if actions == [] then s == Start(cfg)
    else exists before :: ReachableBy(cfg, actions, before, s)
  }

  ghost predicate ReachableBy(cfg: Setting, actions: seq<Action>, before: Stack, s: Stack)
    requires actions != []
    decreases |actions|, 0
  {
    var n := |actions| - 1;
    Reachable(cfg, actions[..n], before) && Enabled(cfg, before, actions[n]) && s == After(cfg, before, actions[n])
  }

  // ---- The invariant ----

  function Events(ms: seq<R.Msg>): (r: seq<MuxEvent>)
    ensures |r| == |ms| && forall i :: 0 <= i < |r| ==> r[i] == ms[i].ev
  {
    seq(|ms|, i requires 0 <= i < |ms| => ms[i].ev)
  }

  /** What was dispatched and what the labels await is what the session took, sealed or queued. */
  ghost predicate OnSession(t: R.Tunnel, l: S.Link) {
    && Events(t.processed + t.wire) == EventsOf(l.a.log + l.a.queue)
    && |t.processed| <= |l.b.got|
  }

  /** The channel sealed the native datagrams in order; what landed is what it opened, in order. */
  ghost predicate OnChannel(t: R.Tunnel, net: D.Net) {
    && |net.client.sealed| == |t.natives|
    && (forall i :: 0 <= i < |t.natives| ==>
      t.natives[i].ev.Datagram? && net.client.sealed[i] == NativeWire(t.natives[i].ev))
    && |t.landed| == |net.server.delivered|
    && (forall i :: 0 <= i < |t.landed| ==> t.landed[i] == net.server.delivered[i].0)
  }

  ghost predicate Inv(cfg: Setting, s: Stack) {
    && RelayRuns.Inv(s.tunnel)
    && S.InStep(s.link)
    && D.Safe(cfg.hash, s.net)
    && OnSession(s.tunnel, s.link)
    && OnChannel(s.tunnel, s.net)
  }

  // ---- The session ----

  lemma GotIsPrefix(l: S.Link)
    requires S.InStep(l)
    ensures l.b.got <= EventsOf(l.a.log) <= EventsOf(l.a.log + l.a.queue)
  {
    hide EventsOf, S.SenderOk;
    var log, k := l.a.log, l.b.unsealed;
    EventsAppend(log[..k], log[k..]);
    EventsAppend(log, l.a.queue);
    assert log == log[..k] + log[k..];
  }

  /** The next event received is the one the labels await. */
  lemma NextIsAwaited(t: R.Tunnel, l: S.Link)
    requires S.InStep(l) && OnSession(t, l) && |t.processed| < |l.b.got|
    ensures t.wire != [] && l.b.got[|t.processed|] == t.wire[0].ev
  {
    hide EventsOf, S.SenderOk;
    var log, queue, k := l.a.log, l.a.queue, l.b.unsealed;
    GotIsPrefix(l);
    var i := |t.processed|;
    assert (t.processed + t.wire)[i] == t.wire[0];
    assert Events(t.processed + t.wire)[i] == t.wire[0].ev;
  }

  /** Sealing moves the head of the queue to the log. */
  lemma SealNextCarriesOn(t: R.Tunnel, l: S.Link, step: S.Step)
    requires S.InStep(l) && OnSession(t, l) && S.CanStep(l, step)
    requires step.side.A? && step.action.SealNext?
    ensures OnSession(t, S.After(l, step))
  {
    hide EventsOf, Events, S.SplitsOf, Session.Sealable, PlanFor, S.SenderOk, S.ReceiverOk;
    var e := l.a;
    S.QueueMoves(e.log, e.queue[0], e.queue[1..], step.action.rekeyPad);
    assert e.queue == [e.queue[0]] + e.queue[1..];
    assert [] + e.queue[1..] == e.queue[1..];
  }

  /** Other steps leave the client's log and queue, and what the server has received stays. */
  lemma OthersCarryOn(l: S.Link, step: S.Step)
    requires S.CanStep(l, step)
    requires step.side.A? ==> step.action.OpenNext? || step.action.ReplaceOutgoing? || step.action.ReplaceIncoming?
    ensures var m := S.After(l, step); m.a.log == l.a.log && m.a.queue == l.a.queue && |l.b.got| <= |m.b.got|
  {
    hide OpenFirst, FromFrame, S.SplitsOf, S.WithoutUnsealed, Session.Sealable, PlanFor, SealedRecord;
  }

  /** Session steps other than taking or giving up an event carry the same events on. */
  lemma SessionStepKeeps(t: R.Tunnel, l: S.Link, step: S.Step)
    requires S.InStep(l) && OnSession(t, l) && S.CanStep(l, step)
    requires step.side.A? ==> !step.action.Submit? && !Failing(step.action)
    ensures OnSession(t, S.After(l, step))
  {
    hide EventsOf, Events, S.InStep, S.After, S.CanStep;
    if step.side.A? && step.action.SealNext? {
      SealNextCarriesOn(t, l, step);
    } else {
      OthersCarryOn(l, step);
    }
  }

  lemma TunnelTakes(t: R.Tunnel, pieces: seq<MuxEvent>)
    requires RelayRuns.Inv(t) && t.outbound != [] && |t.locals| <= R.DISTINCT_IDS
    requires Sendable(t.outbound[0].ev) && SplitOf(t.outbound[0].ev, pieces)
    ensures RelayRuns.Inv(Taken(t, pieces))
    ensures Events(t.processed + Taken(t, pieces).wire) == Events(t.processed + t.wire) + pieces
  {
    hide RelayRuns.Inv, SplitOf;
    RelayRuns.StepKeeps(t, R.WriteStream(pieces));
  }

  lemma TakeStreamKeeps(cfg: Setting, s: Stack, plan: seq<Session.Packet>)
    requires Inv(cfg, s) && Enabled(cfg, s, TakeStream(plan)) && |s.tunnel.locals| <= R.DISTINCT_IDS
    ensures Inv(cfg, After(cfg, s, TakeStream(plan)))
  {
    hide RelayRuns.Inv, S.InStep, D.Safe, EventsOf, S.SplitsOf, SplitOf, Events;
    var l := s.link;
    TunnelTakes(s.tunnel, EventsOf(plan));
    S.StepKeeps(l, S.Step(S.A, S.Submit(s.tunnel.outbound[0].ev, plan)));
    EventsAppend(l.a.log, plan);
    assert l.a.log + l.a.queue == l.a.log;
  }

  lemma TunnelStops(t: R.Tunnel, sealed: nat)
    requires RelayRuns.Inv(t) && |t.processed| <= sealed <= |t.processed + t.wire|
    ensures var u := Stopped(t, sealed);
      RelayRuns.Inv(u) && Events(u.processed + u.wire) == Events(t.processed + t.wire)[..sealed]
  {
    hide RelayRuns.Inv;
    assert Stopped(t, sealed).wire <= t.wire;
    RelayRuns.TruncateKeeps(t, Stopped(t, sealed));
  }

  lemma FailKeeps(cfg: Setting, s: Stack, action: S.Action)
    requires Inv(cfg, s) && Enabled(cfg, s, Fail(action))
    ensures Inv(cfg, After(cfg, s, Fail(action)))
  {
    hide RelayRuns.Inv, D.Safe, EventsOf, S.SplitsOf, SplitOf, S.WithoutUnsealed, S.SenderOk, S.ReceiverOk;
    hide Events;
    var l := s.link;
    S.StepKeeps(l, S.Step(S.A, action));
    GotIsPrefix(l);
    TunnelStops(s.tunnel, |EventsOf(l.a.log)|);
    assert l.a.log + [] == l.a.log;
  }

  lemma TunnelDispatches(t: R.Tunnel, connects: bool)
    requires RelayRuns.Inv(t) && t.serving && t.wire != [] && |t.locals| <= R.DISTINCT_IDS
    ensures RelayRuns.Inv(Dispatched(t, t.wire[0].ev, connects))
  {
    hide RelayRuns.Inv, R.Dispatched;
    RelayRuns.StepKeeps(t, R.Serve(connects));
    assert Dispatched(t, t.wire[0].ev, connects) == R.After(t, R.Serve(connects));
  }

  lemma DispatchKeeps(cfg: Setting, s: Stack, connects: bool)
    requires Inv(cfg, s) && Enabled(cfg, s, Dispatch(connects)) && |s.tunnel.locals| <= R.DISTINCT_IDS
    ensures Inv(cfg, After(cfg, s, Dispatch(connects)))
  {
    hide RelayRuns.Inv, D.Safe, EventsOf, S.InStep, R.Dispatched, Events;
    var t := s.tunnel;
    NextIsAwaited(t, s.link);
    TunnelDispatches(t, connects);
    var u := Dispatched(t, t.wire[0].ev, connects);
    assert u.processed + u.wire == t.processed + t.wire;
  }

  // ---- The datagram channel ----

  lemma TakeNativeKeeps(cfg: Setting, s: Stack)
    requires Inv(cfg, s) && Enabled(cfg, s, TakeNative) && |s.tunnel.locals| <= R.DISTINCT_IDS
    ensures Inv(cfg, After(cfg, s, TakeNative))
  {
    hide RelayRuns.Inv, D.Safe, S.InStep, EventsOf;
    RelayRuns.StepKeeps(s.tunnel, R.WriteNative);
    D.StepKeeps(cfg.hash, s.net, D.Send(D.Client, NativeWire(s.tunnel.outbound[0].ev)));
  }

  /** A plaintext the channel opens is the native datagram of its number. */
  lemma OpensAwaited(t: R.Tunnel, net: D.Net, number: u64, plaintext: bytes)
    requires OnChannel(t, net) && D.Authentic(net.client, number, plaintext)
    ensures number < |t.natives| && |plaintext| >= 2
    ensures t.natives[number].ev == Datagram(FromBe16(plaintext[0], plaintext[1]), plaintext[2..])
  {
    var ev := t.natives[number].ev;
    Be16RoundTrip(ev.streamId, 0, 0);
    assert plaintext == ToBe16(ev.streamId) + ev.data;
  }

  /** What a network step does to the two ends of the channel the relay uses. */
  lemma ChannelStep(hash: nat, net: D.Net, e: D.Event)
    requires D.Safe(hash, net) && D.Possible(hash, net, e) && !(e.Send? && e.role.Client?)
    ensures var after := D.Step(hash, net, e);
      && after.client.sealed == net.client.sealed
      && (after.server.delivered == net.server.delivered
          || (|after.server.delivered| == |net.server.delivered| + 1
              && var d := after.server.delivered[|net.server.delivered|];
              && after.server.delivered == net.server.delivered + [d]
              && D.Authentic(net.client, d.0, d.1)
              && forall i :: 0 <= i < |net.server.delivered| ==> net.server.delivered[i].0 != d.0))
  {
    D.StepKeeps(hash, net, e);
    var after := D.Step(hash, net, e);
    if after.server.delivered != net.server.delivered {
      var n := |net.server.delivered|;
      assert D.Faithful(after.server, after.client);
      forall i | 0 <= i < n
        ensures net.server.delivered[i].0 != after.server.delivered[n].0
      {
        assert after.server.delivered[i].0 != after.server.delivered[n].0;
      }
    }
  }

  lemma TunnelArrives(t: R.Tunnel, number: nat, plaintext: bytes)
    requires RelayRuns.Inv(t) && |t.locals| <= R.DISTINCT_IDS
    requires number < |t.natives| && number !in t.landed && |plaintext| >= 2
    requires t.natives[number].ev == Datagram(FromBe16(plaintext[0], plaintext[1]), plaintext[2..])
    ensures RelayRuns.Inv(Arrived(t, number, plaintext))
  {
    hide RelayRuns.Inv, R.Dispatched;
    RelayRuns.StepKeeps(t, R.Arrive(number));
    assert Arrived(t, number, plaintext) == R.After(t, R.Arrive(number));
  }

  lemma NetworkKeeps(cfg: Setting, s: Stack, e: D.Event)
    requires Inv(cfg, s) && Enabled(cfg, s, Network(e)) && |s.tunnel.locals| <= R.DISTINCT_IDS
    ensures Inv(cfg, After(cfg, s, Network(e)))
  {
    hide RelayRuns.Inv, D.Safe, S.InStep, EventsOf, D.Step, D.Possible, R.Dispatched;
    var t, net := s.tunnel, D.Step(cfg.hash, s.net, e);
    D.StepKeeps(cfg.hash, s.net, e);
    ChannelStep(cfg.hash, s.net, e);
    var n := |s.net.server.delivered|;
    if |net.server.delivered| > n {
      var d := net.server.delivered[n];
      OpensAwaited(t, s.net, d.0, d.1);
      assert d.0 !in t.landed;
      TunnelArrives(t, d.0, d.1);
    }
  }

  // ---- Every run ----

  lemma LocalLeavesTransports(t: R.Tunnel, a: R.Action)
    requires Local(a) && R.Enabled(t, a)
    ensures var u := R.After(t, a);
      && u.processed == t.processed && u.wire == t.wire && u.natives == t.natives && u.landed == t.landed
  {
    hide SplitOf;
  }

  lemma LocalKeeps(cfg: Setting, s: Stack, a: R.Action)
    requires Inv(cfg, s) && Enabled(cfg, s, OfRelay(a)) && |s.tunnel.locals| <= R.DISTINCT_IDS
    ensures Inv(cfg, After(cfg, s, OfRelay(a)))
  {
    hide RelayRuns.Inv, D.Safe, S.InStep, EventsOf, R.After, R.Enabled;
    RelayRuns.StepKeeps(s.tunnel, a);
    LocalLeavesTransports(s.tunnel, a);
  }

  lemma StepKeeps(cfg: Setting, s: Stack, a: Action)
    requires Inv(cfg, s) && Enabled(cfg, s, a) && |s.tunnel.locals| <= R.DISTINCT_IDS
    ensures Inv(cfg, After(cfg, s, a))
  {
    match a
    case OfRelay(action) => LocalKeeps(cfg, s, action);
    case TakeStream(plan) => TakeStreamKeeps(cfg, s, plan);
    case TakeNative => TakeNativeKeeps(cfg, s);
    case OfSession(step) =>
      hide RelayRuns.Inv, D.Safe, S.InStep, EventsOf, S.CanStep, S.After, OnSession;
      S.StepKeeps(s.link, step);
      SessionStepKeeps(s.tunnel, s.link, step);
    case Fail(action) => FailKeeps(cfg, s, action);
    case Dispatch(connects) => DispatchKeeps(cfg, s, connects);
    case Network(e) => NetworkKeeps(cfg, s, e);
  }

  lemma OpensOnlyGrow(cfg: Setting, s: Stack, a: Action)
    requires Enabled(cfg, s, a)
    ensures |s.tunnel.locals| <= |After(cfg, s, a).tunnel.locals|
  {
    hide S.CanStep, S.After, S.Enabled, D.Possible, D.Step, R.Dispatched, R.Enabled, R.After, SplitOf, EventsOf;
    if a.OfRelay? {
      RelayRuns.OpensOnlyGrow(s.tunnel, a.action);
    } else if a.TakeNative? {
      RelayRuns.OpensOnlyGrow(s.tunnel, R.WriteNative);
    }
  }

  lemma StartsInStep(cfg: Setting)
    ensures Inv(cfg, Start(cfg))
  {
    S.EveryRunInStep(cfg.intervalA, cfg.intervalB, [], S.Start(cfg.intervalA, cfg.intervalB));
    RelayRuns.EveryRunKeeps(cfg.native, [], R.Start(cfg.native));
    D.EveryRunIsSafe(cfg.hash, [], D.NET0);
  }

  lemma {:induction false} EveryRunKeeps(cfg: Setting, actions: seq<Action>, s: Stack)
    requires Reachable(cfg, actions, s) && |s.tunnel.locals| <= R.DISTINCT_IDS
    ensures Inv(cfg, s)
  {
    hide Enabled, After, Inv;
    if actions == [] {
      StartsInStep(cfg);
    } else {
      var n := |actions| - 1;
      var before :| ReachableBy(cfg, actions, before, s);
      OpensOnlyGrow(cfg, before, actions[n]);
      EveryRunKeeps(cfg, actions[..n], before);
      StepKeeps(cfg, before, actions[n]);
    }
  }

  /** Isolation over the session and the datagram channel themselves: in every run with at most
      32768 opens, under any interleaving of all tasks of both, any splitting, padding, rekeying,
      refusal and broken stream in the session, and any loss, repetition, reordering and forgery on the channel. */
  lemma EveryRunIsIsolated(cfg: Setting, actions: seq<Action>, s: Stack)
    requires Reachable(cfg, actions, s) && |s.tunnel.locals| <= R.DISTINCT_IDS
    ensures R.Isolated(s.tunnel)
  {
    hide Reachable, RelayRuns.Inv;
    EveryRunKeeps(cfg, actions, s);
    RelayRuns.InvIsolates(s.tunnel);
  }

  lemma NothingAwaited(t: R.Tunnel, l: S.Link)
    requires S.InStep(l) && OnSession(t, l) && |t.processed| == |l.b.got| && l.a.queue == [] && l.toB == []
    ensures t.wire == []
  {
    hide EventsOf, S.SenderOk;
    S.SenderLogIsGood(l);
    S.FlyingIsRest(Noise.ToResponder, l.a.log, l.b.unsealed);
    assert l.a.log + [] == l.a.log && l.a.log[..|l.a.log|] == l.a.log;
    assert |Events(t.processed + t.wire)| == |l.b.got|;
  }

  /** Once the writer's queue, the session and the server's reader are through, a TCP target that is
      still registered and healthy has written every byte its local socket read. */
  lemma DrainedIsComplete(cfg: Setting, actions: seq<Action>, s: Stack, i: nat)
    requires Reachable(cfg, actions, s) && |s.tunnel.locals| <= R.DISTINCT_IDS && i < |s.tunnel.targets|
    requires s.tunnel.outbound == [] && !s.tunnel.stopped
    requires s.link.a.queue == [] && s.link.toB == [] && |s.tunnel.processed| == |s.link.b.got|
    requires RelayRuns.Caught(s.tunnel, s.tunnel.targets[i], i)
    ensures Concat(s.tunnel.targets[i].out) == Concat(s.tunnel.locals[s.tunnel.targets[i].owner].read)
  {
    hide Reachable, RelayRuns.Inv;
    EveryRunKeeps(cfg, actions, s);
    NothingAwaited(s.tunnel, s.link);
    RelayRuns.InvDrains(s.tunnel, i);
  }

  // ---- What the sinks are given ----

  ghost predicate Heard(t: R.Tunnel) {
    RelaySinks.Kept(t) && RelayRuns.Told(t)
  }

  lemma HeardAlike(t: R.Tunnel, u: R.Tunnel)
    requires Heard(t) && u.registry == t.registry && u.targets == t.targets && u.log == t.log && u.replies == t.replies
    requires u.processed == t.processed && u.arrived == t.arrived
    ensures Heard(u)
  {
    hide RelaySinks.SinksOk;
    RelayRuns.ToldAlike(t, u);
  }

  lemma HeardDispatched(t: R.Tunnel, ev: MuxEvent, connects: bool)
    requires Heard(t)
    ensures Heard(Dispatched(t, ev, connects))
  {
    hide RelaySinks.SinksOk, R.Dispatched, RelayRuns.Told, R.Reply;
    var m := R.Msg(OwnerAt(t.wire, 0), ev);
    RelaySinks.DispatchKeeps(t.registry, t.targets, t.log, t.replies, m, connects);
    RelayRuns.ToldNext(t, R.Came(m, connects), Dispatched(t, ev, connects));
  }

  lemma HeardArrived(t: R.Tunnel, number: nat, plaintext: bytes)
    requires Heard(t)
    ensures Heard(Arrived(t, number, plaintext))
  {
    hide RelaySinks.SinksOk, R.Dispatched, RelayRuns.Told;
    if |plaintext| >= 2 {
      var u := Arrived(t, number, plaintext);
      var m := u.arrived[|t.arrived|];
      RelaySinks.ArrivingKeeps(t.registry, t.targets, t.log, t.replies, m);
      RelayRuns.ToldNext(t, R.Came(m, false), u);
    }
  }

  lemma HeardStep(cfg: Setting, s: Stack, a: Action)
    requires Heard(s.tunnel) && Enabled(cfg, s, a)
    ensures Heard(After(cfg, s, a).tunnel)
  {
    hide RelaySinks.Kept, RelayRuns.Told, S.CanStep, S.After, S.Enabled, D.Possible, D.Step, EventsOf, SplitOf;
    match a
    case OfRelay(action) =>
      RelaySinks.StepKeeps(s.tunnel, action);
      RelayRuns.ToldStep(s.tunnel, action);
    case Dispatch(connects) => HeardDispatched(s.tunnel, s.link.b.got[|s.tunnel.processed|], connects);
    case Network(e) =>
      var net := D.Step(cfg.hash, s.net, e);
      var d := if |net.server.delivered| > |s.net.server.delivered|
        then Some(net.server.delivered[|net.server.delivered| - 1]) else None;
      if d.Some? {
        HeardArrived(s.tunnel, d.value.0, d.value.1);
      }
    case _ => HeardAlike(s.tunnel, After(cfg, s, a).tunnel);
  }

  lemma HeardAtStart(cfg: Setting)
    ensures Heard(Start(cfg).tunnel)
  {
    RelayRuns.NoSinks(Start(cfg).tunnel);
  }

  lemma {:induction false} EveryRunIsHeard(cfg: Setting, actions: seq<Action>, s: Stack)
    requires Reachable(cfg, actions, s)
    ensures Heard(s.tunnel)
  {
    hide Heard, Enabled, After;
    if actions == [] {
      HeardAtStart(cfg);
    } else {
      var n := |actions| - 1;
      var before :| ReachableBy(cfg, actions, before, s);
      EveryRunIsHeard(cfg, actions[..n], before);
      HeardStep(cfg, before, actions[n]);
    }
  }

  /** The sinks over the session and the datagram channel themselves: one for each Open that
      connected, given exactly the payloads of either way that came while it held its id. */
  lemma EverySinkIsGiven(cfg: Setting, actions: seq<Action>, s: Stack)
    requires Reachable(cfg, actions, s)
    ensures RelaySinks.SinksOk(s.tunnel.registry, s.tunnel.targets, s.tunnel.log, s.tunnel.replies)
  {
    hide Reachable, RelaySinks.SinksOk, RelayRuns.Told;
    EveryRunIsHeard(cfg, actions, s);
  }

  /** Once the writer's queue, the session and the server's reader are through, every datagram sent on
      the stream of a registered and healthy UDP target was written to it, or came before the
      stream's Open, or was lost on the datagram channel; each of them once. */
  lemma DatagramsAccounted(cfg: Setting, actions: seq<Action>, s: Stack, i: nat)
    requires Reachable(cfg, actions, s) && |s.tunnel.locals| <= R.DISTINCT_IDS && i < |s.tunnel.targets|
    requires s.tunnel.outbound == [] && !s.tunnel.stopped
    requires s.link.a.queue == [] && s.link.toB == [] && |s.tunnel.processed| == |s.link.b.got|
    requires RelayRuns.CaughtUdp(s.tunnel, s.tunnel.targets[i], i)
    ensures var u := s.tunnel;
      |RelaySinks.Openings(u.log)| == |u.targets| && 0 <= u.targets[i].owner < |u.locals|
    ensures var u := s.tunnel;
      var t, p := u.targets[i], RelaySinks.Openings(u.log)[i];
      multiset(u.locals[t.owner].read) == multiset(t.out) + multiset(RelaySinks.PayloadsUnder(u.log[..p], t.id)) +
        multiset(R.Payloads(RelayRuns.Unpicked(u.natives, u.landed), t.owner))
  {
    hide Reachable, RelayRuns.Inv, RelaySinks.Kept, RelayRuns.Told, R.Payloads, RelaySinks.PayloadsUnder;
    hide RelaySinks.Openings, RelayRuns.Unpicked;
    EveryRunKeeps(cfg, actions, s);
    EveryRunIsHeard(cfg, actions, s);
    NothingAwaited(s.tunnel, s.link);
    RelayRuns.UdpAccounts(s.tunnel, i);
  }
}
