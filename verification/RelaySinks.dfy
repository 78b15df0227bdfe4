/** What the server's sinks are given, read off what its tasks have seen: from its Open on, every
    payload under its id, of either way and in order, until something frees the id. */
module RelaySinks {
  import opened Prelude
  import opened Frame
  import opened Relay

  /** A connected Open makes a sink. */
  predicate Registers(e: Seen) {
    e.Came? && e.m.ev.Open? && e.connects
  }

  /** What takes an id from the sink that has it: its Close, the end of the sink's own tasks, a new
      sink under the id, the end of the reader. */
  predicate Frees(e: Seen, id: u16) {
    match e
    case Came(m, connects) =>
      (m.ev.Close? && m.ev.streamId == id) || (m.ev.Open? && connects && m.ev.af.streamId == id)
    case SocketEnded(ended) => ended == id
    case Halted => true
  }

  function PayloadUnder(e: Seen, id: u16): seq<bytes> {
    if e.Came? && (e.m.ev.Data? || e.m.ev.Datagram?) && e.m.ev.streamId == id then [e.m.ev.data] else []
  }

  /** All payloads seen under an id. */
  function PayloadsUnder(log: seq<Seen>, id: u16): seq<bytes> {
    if log == [] then [] else PayloadsUnder(log[..|log| - 1], id) + PayloadUnder(log[|log| - 1], id)
  }

  /** All messages seen, of either way. */
  function Logged(log: seq<Seen>): seq<Msg> {
    if log == [] then []
    else
      var e := log[|log| - 1];
      Logged(log[..|log| - 1]) + if e.Came? then [e.m] else []
  }

  /** Where the sinks were made. */
  function Openings(log: seq<Seen>): (r: seq<nat>)
    ensures forall i :: 0 <= i < |r| ==> r[i] < |log| && Registers(log[r[i]])
  {
    if log == [] then []
    else
      var n := |log| - 1;
      Openings(log[..n]) + if Registers(log[n]) then [n] else []
  }

  function OpeningId(log: seq<Seen>, p: nat): u16
    requires p < |log| && Registers(log[p])
  {
    log[p].m.ev.af.streamId
  }

  /** Nothing after `p` has freed the id. */
  ghost predicate Holds(log: seq<Seen>, p: nat, id: u16) {
    p < |log| && forall q :: p < q < |log| ==> !Frees(log[q], id)
  }

  /** The payloads that came under the id after `p` while nothing since then had freed it. */
  ghost function GivenSince(log: seq<Seen>, p: nat, id: u16): seq<bytes> {
    if |log| <= p + 1 then []
    else
      var n := |log| - 1;
      GivenSince(log[..n], p, id) + if Holds(log[..n], p, id) then PayloadUnder(log[n], id) else []
  }

  /** One Close for every refused Open, in order. */
  function Refusals(log: seq<Seen>): seq<MuxEvent> {
    if log == [] then []
    else
      var e := log[|log| - 1];
      Refusals(log[..|log| - 1]) +
      if e.Came? && e.m.ev.Open? && !e.connects then [Close(e.m.ev.af.streamId)] else []
  }

  ghost predicate SinkAt(log: seq<Seen>, t: Target, p: nat)
    requires p < |log| && Registers(log[p])
  {
    && t.owner == log[p].m.owner && t.udp == log[p].m.ev.af.cmd.Udp?
    && t.id == OpeningId(log, p)
    && t.given == GivenSince(log, p, t.id)
  }

  ghost predicate Found(registry: map<u16, nat>, id: u16, i: nat) {
    id in registry && registry[id] == i
  }

  /** Each sink was made by one Open and given exactly what came since under its id; it is found
      under an id exactly while it holds it; the replies are the refusals. */
  ghost predicate SinksOk(registry: map<u16, nat>, targets: seq<Target>, log: seq<Seen>, replies: seq<MuxEvent>) {
    && |targets| == |Openings(log)|
    && (forall i :: 0 <= i < |targets| ==> SinkAt(log, targets[i], Openings(log)[i]))
    && (forall id, i: nat ::
      Found(registry, id, i) <==> i < |targets| && targets[i].id == id && Holds(log, Openings(log)[i], id))
    && replies == Refusals(log)
  }

  lemma SeenSnoc(log: seq<Seen>, e: Seen)
    ensures Openings(log + [e]) == Openings(log) + if Registers(e) then [|log|] else []
    ensures Refusals(log + [e]) ==
      Refusals(log) + if e.Came? && e.m.ev.Open? && !e.connects then [Close(e.m.ev.af.streamId)] else []
    ensures forall id :: PayloadsUnder(log + [e], id) == PayloadsUnder(log, id) + PayloadUnder(e, id)
  {
    assert (log + [e])[..|log|] == log;
  }

  lemma HoldsNext(log: seq<Seen>, e: Seen, p: nat, id: u16)
    requires p < |log|
    ensures Holds(log + [e], p, id) <==> Holds(log, p, id) && !Frees(e, id)
    ensures GivenSince(log + [e], p, id) ==
      GivenSince(log, p, id) + if Holds(log, p, id) then PayloadUnder(e, id) else []
  {
    var all := log + [e];
    assert all[..|log|] == log && all[|log|] == e;
    if Holds(all, p, id) {
      forall q | p < q < |log|
        ensures !Frees(log[q], id)
      {
        assert !Frees(all[q], id);
      }
    }
  }

  lemma HoldsAtOnce(log: seq<Seen>, e: Seen, id: u16)
    ensures Holds(log + [e], |log|, id) && GivenSince(log + [e], |log|, id) == []
  {
  }

  /** Two sinks do not hold one id. */
  lemma OneHolder(log: seq<Seen>, i: nat, j: nat)
    requires i < j < |Openings(log)| && Openings(log)[i] < Openings(log)[j]
    requires OpeningId(log, Openings(log)[i]) == OpeningId(log, Openings(log)[j])
    ensures !Holds(log, Openings(log)[i], OpeningId(log, Openings(log)[i]))
  {
    assert Frees(log[Openings(log)[j]], OpeningId(log, Openings(log)[i]));
  }

  lemma SinkNext(log: seq<Seen>, e: Seen, t: Target, p: nat, u: Target)
    requires p < |log| && Registers(log[p]) && SinkAt(log, t, p)
    requires u.owner == t.owner && u.udp == t.udp && u.id == t.id
    requires u.given == t.given + if Holds(log, p, t.id) then PayloadUnder(e, t.id) else []
    ensures SinkAt(log + [e], u, p)
  {
    hide GivenSince, Holds, PayloadUnder;
    HoldsNext(log, e, p, t.id);
    assert (log + [e])[p] == log[p];
  }

  lemma LoggedSnoc(log: seq<Seen>, e: Seen)
    ensures Logged(log + [e]) == Logged(log) + if e.Came? then [e.m] else []
  {
    assert (log + [e])[..|log|] == log;
  }

  /** A sink that still holds its id was given everything that came under it since. */
  lemma {:induction false} GivenIsRest(log: seq<Seen>, p: nat, id: u16)
    requires Holds(log, p, id) && PayloadUnder(log[p], id) == []
    ensures PayloadsUnder(log, id) == PayloadsUnder(log[..p], id) + GivenSince(log, p, id)
  {
    var n := |log| - 1;
    if n == p {
      assert PayloadsUnder(log, id) == PayloadsUnder(log[..n], id) + [];
    } else {
      assert log[..n][..p] == log[..p];
      hide PayloadUnder, Frees;
      assert Holds(log[..n], p, id);
      GivenIsRest(log[..n], p, id);
    }
  }

  /** One more thing seen, given what it does to each sink and to the registry. */
  lemma SinksNext(registry: map<u16, nat>, targets: seq<Target>, log: seq<Seen>, replies: seq<MuxEvent>,
      e: Seen, reg: map<u16, nat>, tgs: seq<Target>, reps: seq<MuxEvent>)
    requires SinksOk(registry, targets, log, replies)
    requires |tgs| == |targets| + if Registers(e) then 1 else 0
    requires forall i :: 0 <= i < |targets| ==>
      && tgs[i].owner == targets[i].owner && tgs[i].udp == targets[i].udp && tgs[i].id == targets[i].id
      && tgs[i].given == targets[i].given +
        if Found(registry, targets[i].id, i) then PayloadUnder(e, targets[i].id) else []
    requires Registers(e) ==> SinkAt(log + [e], tgs[|targets|], |log|)
    requires forall id, i: nat :: Found(reg, id, i) <==>
      (Found(registry, id, i) && !Frees(e, id)) || (Registers(e) && i == |targets| && id == tgs[i].id)
    requires reps == replies + if e.Came? && e.m.ev.Open? && !e.connects then [Close(e.m.ev.af.streamId)] else []
    ensures SinksOk(reg, tgs, log + [e], reps)
  {
    hide GivenSince, Holds, PayloadUnder, Frees, Openings, Refusals;
    SeenSnoc(log, e);
    var all := log + [e];
    forall i | 0 <= i < |tgs|
      ensures SinkAt(all, tgs[i], Openings(all)[i])
    {
      if i < |targets| {
        var p := Openings(log)[i];
        assert Found(registry, targets[i].id, i) <==> Holds(log, p, targets[i].id);
        SinkNext(log, e, targets[i], p, tgs[i]);
      }
    }
    forall id, i: nat
      ensures Found(reg, id, i) <==> i < |tgs| && tgs[i].id == id && Holds(all, Openings(all)[i], id)
    {
      if i < |targets| {
        HoldsNext(log, e, Openings(log)[i], id);
      } else if i == |targets| && Registers(e) {
        HoldsAtOnce(log, e, id);
      }
    }
  }

  lemma MadeByOpen(log: seq<Seen>, m: Msg, t: Target)
    requires m.ev.Open? && t == Target(m.owner, m.ev.af.streamId, m.ev.af.cmd.Udp?, [], [], false, false)
    ensures SinkAt(log + [Came(m, true)], t, |log|)
  {
    HoldsAtOnce(log, Came(m, true), t.id);
  }

  /** One dispatched event. */
  lemma DispatchKeeps(registry: map<u16, nat>, targets: seq<Target>, log: seq<Seen>, replies: seq<MuxEvent>,
      m: Msg, connects: bool)
    requires SinksOk(registry, targets, log, replies)
    ensures var (reg, tgs) := Dispatched(registry, targets, m, connects);
      SinksOk(reg, tgs, log + [Came(m, connects)], replies + Reply(m, connects))
  {
    hide SinkAt, GivenSince, Holds, Openings, Refusals;
    var (reg, tgs) := Dispatched(registry, targets, m, connects);
    var e := Came(m, connects);
    if Registers(e) {
      MadeByOpen(log, m, tgs[|targets|]);
    }
    if m.ev.Data? || m.ev.Datagram? {
      var id := m.ev.streamId;
      assert id in registry ==> Found(registry, id, registry[id]);
    }
    SinksNext(registry, targets, log, replies, e, reg, tgs, replies + Reply(m, connects));
  }

  /** Nothing is seen, and no sink is given anything. */
  lemma WritingKeeps(registry: map<u16, nat>, targets: seq<Target>, log: seq<Seen>, replies: seq<MuxEvent>,
      tgs: seq<Target>)
    requires SinksOk(registry, targets, log, replies) && |tgs| == |targets|
    requires forall i :: 0 <= i < |tgs| ==> tgs[i] == targets[i].(out := tgs[i].out, dead := tgs[i].dead)
    ensures SinksOk(registry, tgs, log, replies)
  {
    hide GivenSince, Holds, Openings, Refusals;
    forall i | 0 <= i < |tgs|
      ensures SinkAt(log, tgs[i], Openings(log)[i])
    {
      assert SinkAt(log, targets[i], Openings(log)[i]);
    }
  }

  lemma EndingKeeps(registry: map<u16, nat>, targets: seq<Target>, log: seq<Seen>, replies: seq<MuxEvent>, t: nat)
    requires SinksOk(registry, targets, log, replies) && t < |targets|
    ensures SinksOk(registry - {targets[t].id}, targets[t := targets[t].(ended := true)],
      log + [SocketEnded(targets[t].id)], replies)
  {
    hide SinkAt, GivenSince, Holds, Openings, Refusals;
    SinksNext(registry, targets, log, replies, SocketEnded(targets[t].id),
      registry - {targets[t].id}, targets[t := targets[t].(ended := true)], replies);
  }

  lemma HaltingKeeps(registry: map<u16, nat>, targets: seq<Target>, log: seq<Seen>, replies: seq<MuxEvent>)
    requires SinksOk(registry, targets, log, replies)
    ensures SinksOk(map[], targets, log + [Halted], replies)
  {
    hide SinkAt, GivenSince, Holds, Openings, Refusals;
    SinksNext(registry, targets, log, replies, Halted, map[], targets, replies);
  }

  /** A datagram that came by the native channel. */
  lemma ArrivingKeeps(registry: map<u16, nat>, targets: seq<Target>, log: seq<Seen>, replies: seq<MuxEvent>, m: Msg)
    requires SinksOk(registry, targets, log, replies) && m.ev.Datagram?
    ensures SinksOk(registry, Dispatched(registry, targets, m, false).1, log + [Came(m, false)], replies)
  {
    hide SinksOk, Deliver;
    DispatchKeeps(registry, targets, log, replies, m, false);
    assert replies + [] == replies;
  }

  lemma WrittenKeepsRest(t: Target, n: nat)
    requires |t.out| < |t.given| && n <= |t.given[|t.out|]|
    ensures Written(t, n) == t.(out := Written(t, n).out, dead := Written(t, n).dead)
  {
  }

  // ---- The server end as an object ----

  class ServerRelay {
    var registry: map<u16, nat>
    var targets: seq<Target>
    /** What was sent back. */
    var outbound: seq<MuxEvent>
    /** Everything seen so far. */
    ghost var log: seq<Seen>

    ghost predicate Valid()
      reads this
    {
      SinksOk(registry, targets, log, outbound)
    }

    constructor ()
      ensures Valid() && registry == map[] && targets == [] && outbound == [] && log == []
    {
      registry, targets, outbound, log := map[], [], [], [];
    }

    method Hand(id: u16, data: bytes)
      modifies this`targets
      ensures targets == Deliver(registry, old(targets), id, data)
      ensures |targets| == |old(targets)|
      ensures forall i :: 0 <= i < |targets| ==> targets[i] == old(targets)[i].(
        given := old(targets)[i].given + if Found(registry, id, i) then [data] else [])
    {
      if id in registry && registry[id] < |targets| {
        var t := targets[registry[id]];
        targets := targets[registry[id] := t.(given := t.given + [data])];
      }
      assert forall i :: 0 <= i < |targets| ==> old(targets)[i].given + [] == old(targets)[i].given;
    }

    /** One turn of the reader loop, or one datagram of the other way: a payload goes to the sink
        that holds its id and to no other, and a refused connection alone is closed back. */
    method OnEvent(m: Msg, connects: bool)
      requires Valid()
      modifies this
      ensures Valid() && log == old(log) + [Came(m, connects)]
      ensures (registry, targets) == Dispatched(old(registry), old(targets), m, connects)
      ensures m.ev.Data? || m.ev.Datagram? ==>
        && registry == old(registry) && |targets| == |old(targets)|
        && forall i :: 0 <= i < |targets| ==> targets[i] == old(targets)[i].(
          given := old(targets)[i].given + if Found(registry, m.ev.streamId, i) then [m.ev.data] else [])
      ensures outbound == old(outbound) +
        if m.ev.Open? && !connects then [Close(m.ev.af.streamId)] else []
    {
      hide SinksOk;
      DispatchKeeps(registry, targets, log, outbound, m, connects);
      assert outbound + [] == outbound;
      log := log + [Came(m, connects)];
      match m.ev {
        case Open(af) =>
          if connects {
            registry := registry[af.streamId := |targets|];
            targets := targets + [Target(m.owner, af.streamId, af.cmd.Udp?, [], [], false, false)];
          } else {
            outbound := outbound + [Close(af.streamId)];
          }
        case Data(id, data) => Hand(id, data);
        case Datagram(id, data) => Hand(id, data);
        case Close(id) => registry := registry - {id};
        case KeepAlive =>
      }
    }

    /** The tasks of a target's socket are over. */
    method OnSocketEnd(t: nat)
      requires Valid() && t < |targets|
      modifies this
      ensures Valid() && log == old(log) + [SocketEnded(old(targets)[t].id)]
      ensures registry == old(registry) - {old(targets)[t].id} && outbound == old(outbound)
      ensures targets == old(targets)[t := old(targets)[t].(ended := true)]
    {
      hide SinksOk;
      EndingKeeps(registry, targets, log, outbound, t);
      log := log + [SocketEnded(targets[t].id)];
      registry := registry - {targets[t].id};
      targets := targets[t := targets[t].(ended := true)];
    }

    /** The reader is over. */
    method OnHalt()
      requires Valid()
      modifies this
      ensures Valid() && log == old(log) + [Halted]
      ensures registry == map[] && targets == old(targets) && outbound == old(outbound)
    {
      hide SinksOk;
      HaltingKeeps(registry, targets, log, outbound);
      log := log + [Halted];
      registry := map[];
    }
  }

  // ---- Runs of the tunnel ----

  /** What the registry says of a run of the tunnel. */
  ghost predicate Kept(s: Tunnel) {
    SinksOk(s.registry, s.targets, s.log, s.replies)
  }

  lemma StepKeeps(s: Tunnel, a: Action)
    requires Kept(s) && Enabled(s, a) && (a.Arrive? ==> s.natives[a.i].ev.Datagram?)
    ensures Kept(After(s, a))
  {
    hide SinksOk, Dispatched, Written;
    match a
    case Serve(connects) => DispatchKeeps(s.registry, s.targets, s.log, s.replies, s.wire[0], connects);
    case Arrive(i) => ArrivingKeeps(s.registry, s.targets, s.log, s.replies, s.natives[i]);
    case WriteTarget(t, n) =>
      WrittenKeepsRest(s.targets[t], n);
      WritingKeeps(s.registry, s.targets, s.log, s.replies, After(s, a).targets);
    case EndTarget(t) => EndingKeeps(s.registry, s.targets, s.log, s.replies, t);
    case StopServing => HaltingKeeps(s.registry, s.targets, s.log, s.replies);
    case _ =>
  }
}
