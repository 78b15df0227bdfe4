/** The relay multiplexer, client to target, as interleaved task steps: tunnel users open streams
    and push events into one queue, one writer drains it into the session, one server task
    dispatches what arrives by stream id, and one task per target drains that target's sink.

    The session is the FIFO of the end-to-end theorem, which may cut Data into pieces; the native
    datagram channel loses and reorders but, by the datagram theorem, opens each at most once. */
module Relay {
  import opened Prelude
  import opened Address
  import opened Frame
  import opened Session
  import opened SessionWire

  /** The id counter moves by two and wraps; this many opens get distinct ids. */
  const DISTINCT_IDS := 0x8000

  /** `owner` is the stream an event was pushed for, counted from the first open, and -1 for a
      keep-alive. It is history: no step looks at it. */
  datatype Msg = Msg(owner: int, ev: MuxEvent)

  datatype Phase = Allocated | Reading | Ended

  /** The client end of a stream: what its socket has read, chunk by chunk, or the datagrams its
      user has sent; `pending` is a chunk read but not pushed yet. */
  datatype Local = Local(af: AddressFrame, phase: Phase, read: seq<bytes>, pending: Option<bytes>)

  /** The server end: what its sink was given and what was written to the socket. */
  datatype Target = Target(owner: int, id: u16, udp: bool, given: seq<bytes>, out: seq<bytes>, dead: bool, ended: bool)

  /** What the server's tasks have seen: an event that came by either way, with the outcome of
      connecting; the end of a target's tasks; the end of the reader. */
  datatype Seen = Came(m: Msg, connects: bool) | SocketEnded(id: u16) | Halted

  /** `natives` are the datagrams given to the native channel, `landed` the numbers of those that
      came out of it; `processed` and `arrived` are what the server has dispatched of either way,
      `log` all it has seen, in order, and `replies` what its reader has sent back. */
  datatype Tunnel = Tunnel(
    nextId: u16, locals: seq<Local>, outbound: seq<Msg>,
    stopped: bool, native: Option<nat>, wire: seq<Msg>, natives: seq<Msg>,
    serving: bool, registry: map<u16, nat>, targets: seq<Target>,
    processed: seq<Msg>, landed: seq<nat>, arrived: seq<Msg>, log: seq<Seen>, replies: seq<MuxEvent>)

  datatype Action =
    | Allocate(cmd: Cmd, port: u16, addr: Addr)
    | SendOpen(k: nat)
    | Read(k: nat, chunk: bytes)
    | Push(k: nat)
    | Finish(k: nat)
    | Abort(k: nat)
    | SendDatagram(k: nat, data: bytes)
    | Idle
    | WriteNative
    | WriteStream(pieces: seq<MuxEvent>)
    | WriteFails(pieces: seq<MuxEvent>)
    | Serve(connects: bool)
    | Arrive(i: nat)
    | StopServing
    | WriteTarget(t: nat, n: nat)
    | EndTarget(t: nat)

  function Start(native: Option<nat>): Tunnel {
    Tunnel(1, [], [], false, native, [], [], true, map[], [], [], [], [], [], [])
  }

  function FetchAdd2(id: u16): u16 {
    (id + 2) % 0x1_0000
  }

  predicate Active(s: Tunnel, k: nat, cmd: Cmd) {
    k < |s.locals| && s.locals[k].phase.Reading? && s.locals[k].af.cmd == cmd
  }

  predicate FitsNative(s: Tunnel, ev: MuxEvent) {
    ev.Datagram? && s.native.Some? && STREAM_ID_LEN + |ev.data| <= s.native.value
  }

  ghost predicate BeginsSplit(ev: MuxEvent, pieces: seq<MuxEvent>) {
    exists full :: SplitOf(ev, full) && pieces <= full
  }

  ghost predicate Enabled(s: Tunnel, a: Action) {
    match a
    case Allocate(_, _, _) => true
    case SendOpen(k) => k < |s.locals| && s.locals[k].phase.Allocated? && !s.stopped
    case Read(k, chunk) => Active(s, k, Tcp) && s.locals[k].pending.None? && 0 < |chunk| <= MAX_STREAM_CHUNK
    case Push(k) => Active(s, k, Tcp) && s.locals[k].pending.Some? && !s.stopped
    case Finish(k) => Active(s, k, Tcp) && s.locals[k].pending.None? && !s.stopped
    case Abort(k) => k < |s.locals| && s.stopped
    case SendDatagram(k, _) => Active(s, k, Udp) && !s.stopped
    case Idle => !s.stopped
    case WriteNative => s.outbound != [] && FitsNative(s, s.outbound[0].ev)
    case WriteStream(pieces) => s.outbound != [] && Sendable(s.outbound[0].ev) && SplitOf(s.outbound[0].ev, pieces)
    case WriteFails(pieces) => s.outbound != [] && BeginsSplit(s.outbound[0].ev, pieces)
    case Serve(_) => s.serving && s.wire != []
    case Arrive(i) => i < |s.natives| && i !in s.landed
    case StopServing => s.serving
    case WriteTarget(t, n) =>
      && t < |s.targets| && !s.targets[t].dead && |s.targets[t].out| < |s.targets[t].given|
      && n <= |s.targets[t].given[|s.targets[t].out|]|
    case EndTarget(t) => t < |s.targets| && !s.targets[t].ended
  }

  function Enqueue(s: Tunnel, owner: int, ev: MuxEvent): Tunnel {
    s.(outbound := s.outbound + [Msg(owner, ev)])
  }

  function Labelled(owner: int, evs: seq<MuxEvent>): (r: seq<Msg>)
    ensures |r| == |evs| && forall i :: 0 <= i < |r| ==> r[i] == Msg(owner, evs[i])
  {
    seq(|evs|, i requires 0 <= i < |evs| => Msg(owner, evs[i]))
  }

  /** Hand a payload to the sink registered under the id, if any. */
  function Deliver(registry: map<u16, nat>, targets: seq<Target>, id: u16, data: bytes): (r: seq<Target>)
    ensures |r| == |targets|
  {
    if id in registry && registry[id] < |targets| then
      var t := registry[id];
      targets[t := targets[t].(given := targets[t].given + [data])]
    else targets
  }

  /** What dispatching one event does to the registry and the targets. */
  function Dispatched(registry: map<u16, nat>, targets: seq<Target>, m: Msg, connects: bool)
    : (map<u16, nat>, seq<Target>)
  {
    match m.ev
    case Open(af) =>
      if connects then
        var target := Target(m.owner, af.streamId, af.cmd.Udp?, [], [], false, false);
        (registry[af.streamId := |targets|], targets + [target])
      else (registry, targets)
    case Data(id, data) => (registry, Deliver(registry, targets, id, data))
    case Datagram(id, data) => (registry, Deliver(registry, targets, id, data))
    case Close(id) => (registry - {id}, targets)
    case KeepAlive => (registry, targets)
  }

  /** What the server answers to an event: a refused connection is closed again. */
  function Reply(m: Msg, connects: bool): seq<MuxEvent> {
    if m.ev.Open? && !connects then [Close(m.ev.af.streamId)] else []
  }

  /** A write of the next chunk: all of it, or `n` bytes and the socket is dead. A datagram
      that fails is not sent at all. */
  function Written(t: Target, n: nat): Target
    requires |t.out| < |t.given| && n <= |t.given[|t.out|]|
  {
    var chunk := t.given[|t.out|];
    if n == |chunk| then t.(out := t.out + [chunk])
    else if t.udp then t.(dead := true)
    else t.(out := t.out + [chunk[..n]], dead := true)
  }

  ghost function After(s: Tunnel, a: Action): Tunnel
    requires Enabled(s, a)
  {
    match a
    case Allocate(cmd, port, addr) =>
      s.(nextId := FetchAdd2(s.nextId),
         locals := s.locals + [Local(AddressFrame(s.nextId, cmd, port, addr), Allocated, [], None)])
    case SendOpen(k) =>
      Enqueue(s.(locals := s.locals[k := s.locals[k].(phase := Reading)]), k, Open(s.locals[k].af))
    case Read(k, chunk) =>
      s.(locals := s.locals[k := s.locals[k].(read := s.locals[k].read + [chunk], pending := Some(chunk))])
    case Push(k) =>
      var l := s.locals[k];
      Enqueue(s.(locals := s.locals[k := l.(pending := None)]), k, Data(l.af.streamId, l.pending.value))
    case Finish(k) =>
      Enqueue(s.(locals := s.locals[k := s.locals[k].(phase := Ended)]), k, Close(s.locals[k].af.streamId))
    case Abort(k) => s.(locals := s.locals[k := s.locals[k].(phase := Ended, pending := None)])
    case SendDatagram(k, data) =>
      var l := s.locals[k];
      Enqueue(s.(locals := s.locals[k := l.(read := l.read + [data])]), k, Datagram(l.af.streamId, data))
    case Idle => Enqueue(s, -1, KeepAlive)
    case WriteNative => s.(outbound := s.outbound[1..], natives := s.natives + [s.outbound[0]])
    case WriteStream(pieces) =>
      s.(outbound := s.outbound[1..],
         wire := s.wire + Labelled(s.outbound[0].owner, pieces),
         native := if FitsNative(s, s.outbound[0].ev) then None else s.native)
    case WriteFails(pieces) =>
      s.(outbound := [], stopped := true, wire := s.wire + Labelled(s.outbound[0].owner, pieces))
    case Serve(connects) =>
      var (registry, targets) := Dispatched(s.registry, s.targets, s.wire[0], connects);
      s.(wire := s.wire[1..], processed := s.processed + [s.wire[0]], registry := registry, targets := targets,
         log := s.log + [Came(s.wire[0], connects)], replies := s.replies + Reply(s.wire[0], connects))
    case Arrive(i) =>
      var m := s.natives[i];
      s.(landed := s.landed + [i], arrived := s.arrived + [m],
         targets := Dispatched(s.registry, s.targets, m, false).1, log := s.log + [Came(m, false)])
    case StopServing => s.(serving := false, registry := map[], log := s.log + [Halted])
    case WriteTarget(t, n) => s.(targets := s.targets[t := Written(s.targets[t], n)])
    case EndTarget(t) =>
      s.(registry := s.registry - {s.targets[t].id}, targets := s.targets[t := s.targets[t].(ended := true)],
         log := s.log + [SocketEnded(s.targets[t].id)])
  }

  ghost predicate Reachable(native: Option<nat>, actions: seq<Action>, s: Tunnel)
    decreases |actions|, 1
  {
    if actions == [] then s == Start(native)
    else exists before :: ReachableBy(native, actions, before, s)
  }

  ghost predicate ReachableBy(native: Option<nat>, actions: seq<Action>, before: Tunnel, s: Tunnel)
    requires actions != []
    decreases |actions|, 0
  {
    var n := |actions| - 1;
    Reachable(native, actions[..n], before) && Enabled(before, actions[n]) && s == After(before, actions[n])
  }

  // ---- Isolation ----

  ghost predicate TargetIsolated(s: Tunnel, t: Target) {
    && 0 <= t.owner < |s.locals|
    && var l := s.locals[t.owner];
    && t.udp == l.af.cmd.Udp?
    && if t.udp then multiset(t.out) <= multiset(l.read) else Concat(t.out) <= Concat(l.read)
  }

  /** What reached a target came from its own stream: for TCP the bytes written are a prefix of
      the bytes its local socket read, for UDP each datagram was sent on the stream at least as
      often as it was delivered. No two targets serve one stream. */
  ghost predicate Isolated(s: Tunnel) {
    && (forall t :: 0 <= t < |s.targets| ==> TargetIsolated(s, s.targets[t]))
    && (forall t, u :: 0 <= t < u < |s.targets| ==> s.targets[t].owner != s.targets[u].owner)
  }

  // ---- The client end as an object ----

  datatype RelayError = TunnelClosed

  class TunnelClient {
    var nextId: u16
    /** Events pushed, and whether the writer still takes any. */
    var outbound: seq<MuxEvent>
    var writing: bool
    /** The sink each stream's downloads go to; sinks are numbered as they are made. */
    var registry: map<u16, nat>
    var sinks: nat

    constructor ()
      ensures nextId == Start(None).nextId && outbound == [] && writing && registry == map[] && sinks == 0
    {
      nextId, outbound, writing, registry, sinks := 1, [], true, map[], 0;
    }

    /** Take an id, announce the stream and wire its socket to a new sink. The id is spent even if
        the tunnel is closed, and then nothing is announced or wired. */
    method Open(cmd: Cmd, port: u16, addr: Addr) returns (r: Result<u16, RelayError>)
      modifies this
      ensures nextId == FetchAdd2(old(nextId)) && writing == old(writing)
      ensures r == if writing then Ok(old(nextId)) else Err(TunnelClosed)
      ensures r.Ok? ==>
        && outbound == old(outbound) + [MuxEvent.Open(AddressFrame(old(nextId), cmd, port, addr))]
        && registry == old(registry)[old(nextId) := old(sinks)] && sinks == old(sinks) + 1
      ensures r.Err? ==> outbound == old(outbound) && registry == old(registry) && sinks == old(sinks)
    {
      var streamId := nextId;
      nextId := (nextId + 2) % 0x1_0000;
      if !writing {
        return Err(TunnelClosed);
      }
      outbound := outbound + [MuxEvent.Open(AddressFrame(streamId, cmd, port, addr))];
      registry, sinks := registry[streamId := sinks], sinks + 1;
      r := Ok(streamId);
    }
  }

  // ---- Messages in sequence ----

  function Payload(m: Msg, k: int): seq<bytes> {
    if m.owner == k && (m.ev.Data? || m.ev.Datagram?) then [m.ev.data] else []
  }

  /** The payloads of one stream, in order. */
  function Payloads(ms: seq<Msg>, k: int): seq<bytes> {
    if ms == [] then [] else Payloads(ms[..|ms| - 1], k) + Payload(ms[|ms| - 1], k)
  }

  function Owners(ms: seq<Msg>): set<int> {
    if ms == [] then {} else Owners(ms[..|ms| - 1]) + {ms[|ms| - 1].owner}
  }

  /** An Open is the first message of its stream. */
  predicate OpensFirst(ms: seq<Msg>) {
    ms == [] ||
    (var front, last := ms[..|ms| - 1], ms[|ms| - 1];
     OpensFirst(front) && (last.ev.Open? ==> last.owner !in Owners(front)))
  }

  lemma {:induction false} PayloadsAppend(a: seq<Msg>, b: seq<Msg>, k: int)
    ensures Payloads(a + b, k) == Payloads(a, k) + Payloads(b, k)
  {
    hide Payload;
    if b == [] {
      assert a + b == a;
    } else {
      var n := |b| - 1;
      PayloadsAppend(a, b[..n], k);
      assert (a + b)[..|a + b| - 1] == a + b[..n];
    }
  }

  lemma {:induction false} OwnersAppend(a: seq<Msg>, b: seq<Msg>)
    ensures Owners(a + b) == Owners(a) + Owners(b)
  {
    if b == [] {
      assert a + b == a;
    } else {
      var n := |b| - 1;
      OwnersAppend(a, b[..n]);
      assert (a + b)[..|a + b| - 1] == a + b[..n];
    }
  }

  lemma {:induction false} OwnerIn(ms: seq<Msg>, k: int)
    ensures k in Owners(ms) <==> exists i :: 0 <= i < |ms| && ms[i].owner == k
    ensures k !in Owners(ms) ==> Payloads(ms, k) == []
  {
    if ms != [] {
      var n := |ms| - 1;
      OwnerIn(ms[..n], k);
      if k in Owners(ms[..n]) {
        var i :| 0 <= i < n && ms[..n][i].owner == k;
        assert ms[i].owner == k;
      }
    }
  }

  lemma One(m: Msg, k: int)
    ensures Payloads([m], k) == Payload(m, k) && Owners([m]) == {m.owner} && OpensFirst([m])
  {
  }

  lemma {:induction false} OpensFirstPrefix(a: seq<Msg>, b: seq<Msg>)
    requires OpensFirst(a + b)
    ensures OpensFirst(a)
  {
    if b == [] {
      assert a + b == a;
    } else {
      var n := |b| - 1;
      assert (a + b)[..|a + b| - 1] == a + b[..n];
      OpensFirstPrefix(a, b[..n]);
    }
  }

  lemma {:induction false} OpensFirstNoOpens(a: seq<Msg>, b: seq<Msg>)
    requires OpensFirst(a) && forall i :: 0 <= i < |b| ==> !b[i].ev.Open?
    ensures OpensFirst(a + b)
  {
    if b == [] {
      assert a + b == a;
    } else {
      var n := |b| - 1;
      OpensFirstNoOpens(a, b[..n]);
      assert (a + b)[..|a + b| - 1] == a + b[..n];
    }
  }

  /** The messages before a suffix matter to it only by their owners. */
  lemma {:induction false} OpensFirstSwap(a: seq<Msg>, c: seq<Msg>, b: seq<Msg>)
    requires OpensFirst(a + b) && OpensFirst(c) && Owners(c) <= Owners(a)
    ensures OpensFirst(c + b)
  {
    if b == [] {
      assert c + b == c;
    } else {
      var n := |b| - 1;
      assert (a + b)[..|a + b| - 1] == a + b[..n];
      assert (c + b)[..|c + b| - 1] == c + b[..n];
      OpensFirstSwap(a, c, b[..n]);
      OwnersAppend(a, b[..n]);
      OwnersAppend(c, b[..n]);
    }
  }
}
