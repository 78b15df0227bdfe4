/** Whole-run isolation of the relay: the invariant every step keeps while stream ids are distinct,
    and the run that breaks isolation once they are not. */
module RelayRuns {
  import opened Prelude
  import opened Address
  import opened Frame
  import opened Session
  import opened SessionWire
  import opened Relay
  import opened RelaySinks

  function IdOf(k: nat): u16 {
    (1 + 2 * k) % 0x1_0000
  }

  lemma IdsDistinct(j: nat, k: nat)
    requires j < DISTINCT_IDS && k < DISTINCT_IDS
    ensures IdOf(j) == IdOf(k) ==> j == k
  {
  }

  /** Everything that goes by the session, from what the server has dispatched to what the writer
      has not taken yet. */
  function Pipeline(s: Tunnel): seq<Msg> {
    s.processed + s.wire + s.outbound
  }

  function Pending(l: Local): bytes {
    if l.pending.Some? then l.pending.value else []
  }

  // ---- The invariant ----

  predicate IdsOk(s: Tunnel) {
    && s.nextId == IdOf(|s.locals|)
    && (forall k :: 0 <= k < |s.locals| ==> s.locals[k].af.streamId == IdOf(k))
  }

  predicate MsgOk(locals: seq<Local>, m: Msg) {
    if m.ev.KeepAlive? then m.owner == -1
    else
      && 0 <= m.owner < |locals|
      && !locals[m.owner].phase.Allocated?
      && var af := locals[m.owner].af;
      match m.ev
      case Open(to) => to == af
      case Data(id, _) => id == af.streamId && af.cmd.Tcp?
      case Datagram(id, _) => id == af.streamId && af.cmd.Udp?
      case Close(id) => id == af.streamId
      case KeepAlive => true
  }

  predicate MsgsOk(locals: seq<Local>, ms: seq<Msg>) {
    forall i :: 0 <= i < |ms| ==> MsgOk(locals, ms[i])
  }

  /** Of what a local end has read, TCP bytes go by the pipeline alone and in order, datagrams by
      either way. Only a stopped writer loses any. */
  predicate LocalOk(s: Tunnel, k: nat)
    requires k < |s.locals|
  {
    var l := s.locals[k];
    var sent := Payloads(Pipeline(s), k);
    if l.af.cmd.Tcp? then
      && Concat(sent) <= Concat(l.read)
      && (s.stopped || Concat(sent) + Pending(l) == Concat(l.read))
    else
      var passed := multiset(sent) + multiset(Payloads(s.natives, k));
      passed <= multiset(l.read) && (s.stopped || passed == multiset(l.read))
  }

  /** Every chunk but a failed last one is written whole. */
  predicate WritesOk(t: Target) {
    && |t.out| <= |t.given|
    && (forall i :: 0 <= i < |t.out| - 1 ==> t.out[i] == t.given[i])
    && (t.out != [] ==> t.out[|t.out| - 1] <= t.given[|t.out| - 1])
    && (t.udp || !t.dead ==> t.out == t.given[..|t.out|])
  }

  predicate GivenOk(s: Tunnel, i: nat)
    requires i < |s.targets|
  {
    var t := s.targets[i];
    var came := Payloads(s.processed, t.owner);
    if t.udp then multiset(t.given) <= multiset(came) + multiset(Payloads(s.arrived, t.owner))
    else t.given <= came && (t.id in s.registry && s.registry[t.id] == i ==> t.given == came)
  }

  predicate TargetOk(s: Tunnel, i: nat)
    requires i < |s.targets|
  {
    var t := s.targets[i];
    && 0 <= t.owner < |s.locals|
    && t.owner in Owners(s.processed)
    && t.id == s.locals[t.owner].af.streamId
    && t.udp == s.locals[t.owner].af.cmd.Udp?
    && WritesOk(t)
    && GivenOk(s, i)
  }

  predicate TargetsOk(s: Tunnel) {
    && (forall i :: 0 <= i < |s.targets| ==> TargetOk(s, i))
    && (forall i, j :: 0 <= i < j < |s.targets| ==> s.targets[i].owner != s.targets[j].owner)
  }

  predicate RegistryOk(s: Tunnel) {
    forall id :: id in s.registry ==> s.registry[id] < |s.targets| && s.targets[s.registry[id]].id == id
  }

  predicate PickedFrom(ms: seq<Msg>, picks: seq<nat>, out: seq<Msg>) {
    && |out| == |picks|
    && (forall i :: 0 <= i < |picks| ==> picks[i] < |ms| && out[i] == ms[picks[i]])
    && (forall i, j :: 0 <= i < j < |picks| ==> picks[i] != picks[j])
  }

  /** What came out of the native channel was given to it, and each datagram came out once. */
  predicate NativesOk(s: Tunnel) {
    && (forall i :: 0 <= i < |s.natives| ==> s.natives[i].ev.Datagram?)
    && PickedFrom(s.natives, s.landed, s.arrived)
  }

  predicate LocalsOk(s: Tunnel) {
    forall k :: 0 <= k < |s.locals| ==> LocalOk(s, k)
  }

  ghost predicate Inv(s: Tunnel) {
    && IdsOk(s)
    && MsgsOk(s.locals, Pipeline(s)) && MsgsOk(s.locals, s.natives)
    && NativesOk(s)
    && OpensFirst(Pipeline(s))
    && LocalsOk(s)
    && TargetsOk(s) && RegistryOk(s)
  }

  // ---- The client end ----

  lemma PayloadsSnoc(ms: seq<Msg>, m: Msg, k: int)
    ensures Payloads(ms + [m], k) == Payloads(ms, k) + Payload(m, k)
    ensures Payload(m, k) == [] ==> Payloads(ms + [m], k) == Payloads(ms, k)
  {
    PayloadsAppend(ms, [m], k);
    One(m, k);
  }

  lemma OneMoreOpensFirst(locals: seq<Local>, ms: seq<Msg>, m: Msg)
    requires OpensFirst(ms) && MsgsOk(locals, ms)
    requires m.ev.Open? ==> 0 <= m.owner < |locals| && locals[m.owner].phase.Allocated?
    ensures OpensFirst(ms + [m])
  {
    assert (ms + [m])[..|ms|] == ms;
    OwnerIn(ms, m.owner);
  }

  /** Steps of the client end and the writer leave the server end alone. */
  lemma SameTargets(s: Tunnel, t: Tunnel)
    requires TargetsOk(s) && RegistryOk(s)
    requires t.targets == s.targets && t.registry == s.registry && t.processed == s.processed && t.arrived == s.arrived
    requires |s.locals| <= |t.locals| && forall k :: 0 <= k < |s.locals| ==> t.locals[k].af == s.locals[k].af
    ensures TargetsOk(t) && RegistryOk(t)
  {
    hide Payloads, Owners, WritesOk;
    forall i | 0 <= i < |t.targets|
      ensures TargetOk(t, i)
    {
      assert TargetOk(s, i);
    }
  }

  /** Pushing one event: the other streams do not notice. */
  lemma PushKeeps(s: Tunnel, k: nat, l: Local, ev: MuxEvent)
    requires Inv(s) && k < |s.locals| && l.af == s.locals[k].af && !l.phase.Allocated?
    requires !ev.KeepAlive? && MsgOk(s.locals[k := l], Msg(k, ev)) && (ev.Open? ==> s.locals[k].phase.Allocated?)
    requires var t := Enqueue(s.(locals := s.locals[k := l]), k, ev); LocalOk(t, k)
    ensures Inv(Enqueue(s.(locals := s.locals[k := l]), k, ev))
  {
    hide Payloads, Owners, OpensFirst, Concat, GivenOk, WritesOk;
    var t := Enqueue(s.(locals := s.locals[k := l]), k, ev);
    var m := Msg(k, ev);
    assert Pipeline(t) == Pipeline(s) + [m];
    OneMoreOpensFirst(s.locals, Pipeline(s), m);
    forall j | 0 <= j < |t.locals|
      ensures LocalOk(t, j)
    {
      if j != k {
        PayloadsSnoc(Pipeline(s), m, j);
        assert LocalOk(s, j);
      }
    }
    SameTargets(s, t);
  }

  /** Steps that only change one local end. */
  lemma LocalStepKeeps(s: Tunnel, k: nat, l: Local)
    requires Inv(s) && k < |s.locals| && l.af == s.locals[k].af
    requires s.locals[k].phase.Allocated? || !l.phase.Allocated?
    requires LocalOk(s.(locals := s.locals[k := l]), k)
    ensures Inv(s.(locals := s.locals[k := l]))
  {
    hide Payloads, Owners, OpensFirst, Concat, GivenOk, WritesOk;
    var t := s.(locals := s.locals[k := l]);
    assert Pipeline(t) == Pipeline(s);
    forall j | 0 <= j < |t.locals|
      ensures LocalOk(t, j)
    {
      assert LocalOk(s, j);
    }
    SameTargets(s, t);
  }

  lemma NoneYet(locals: seq<Local>, ms: seq<Msg>)
    requires MsgsOk(locals, ms)
    ensures Payloads(ms, |locals|) == []
  {
    OwnerIn(ms, |locals|);
  }

  /** Messages stay labelled while streams only move on. */
  lemma MsgsStay(before: seq<Local>, after: seq<Local>, ms: seq<Msg>)
    requires MsgsOk(before, ms) && |before| <= |after|
    requires forall k :: 0 <= k < |before| ==>
      after[k].af == before[k].af && (before[k].phase.Allocated? || !after[k].phase.Allocated?)
    ensures MsgsOk(after, ms)
  {
  }

  lemma NativesStay(s: Tunnel, t: Tunnel)
    requires NativesOk(s) && t.natives == s.natives && t.landed == s.landed && t.arrived == s.arrived
    ensures NativesOk(t)
  {
  }

  lemma NewLocalOk(s: Tunnel, t: Tunnel)
    requires MsgsOk(s.locals, Pipeline(s)) && MsgsOk(s.locals, s.natives)
    requires Pipeline(t) == Pipeline(s) && t.natives == s.natives
    requires |t.locals| == |s.locals| + 1 && t.locals[|s.locals|].pending.None? && t.locals[|s.locals|].read == []
    ensures LocalOk(t, |s.locals|)
  {
    hide Payloads, MsgsOk;
    NoneYet(s.locals, Pipeline(s));
    NoneYet(s.locals, s.natives);
  }

  lemma AllocatedTunnel(s: Tunnel, cmd: Cmd, port: u16, addr: Addr)
    requires IdsOk(s)
    ensures var t := After(s, Allocate(cmd, port, addr));
      && IdsOk(t) && t == s.(nextId := t.nextId, locals := t.locals)
      && |t.locals| == |s.locals| + 1 && t.locals[..|s.locals|] == s.locals
      && t.locals[|s.locals|].pending.None? && t.locals[|s.locals|].read == []
  {
  }

  lemma OldLocalStays(s: Tunnel, t: Tunnel, j: nat)
    requires j < |s.locals| && LocalOk(s, j)
    requires t == s.(nextId := t.nextId, locals := t.locals) && j < |t.locals| && t.locals[j] == s.locals[j]
    ensures LocalOk(t, j)
  {
    hide Payloads, Concat;
    assert Pipeline(t) == Pipeline(s);
  }

  lemma AllocateKeeps(s: Tunnel, cmd: Cmd, port: u16, addr: Addr)
    requires Inv(s)
    ensures Inv(After(s, Allocate(cmd, port, addr)))
  {
    hide Payloads, Owners, OpensFirst, GivenOk, WritesOk, MsgsOk, Concat, TargetsOk, RegistryOk, NativesOk;
    hide IdsOk, LocalOk, After;
    var t := After(s, Allocate(cmd, port, addr));
    AllocatedTunnel(s, cmd, port, addr);
    assert forall k :: 0 <= k < |s.locals| ==> t.locals[k] == t.locals[..|s.locals|][k];
    assert Pipeline(t) == Pipeline(s);
    MsgsStay(s.locals, t.locals, Pipeline(s));
    MsgsStay(s.locals, t.locals, s.natives);
    forall j | 0 <= j < |t.locals|
      ensures LocalOk(t, j)
    {
      if j < |s.locals| {
        OldLocalStays(s, t, j);
      } else {
        NewLocalOk(s, t);
      }
    }
    NativesStay(s, t);
    SameTargets(s, t);
  }

  lemma SendOpenKeeps(s: Tunnel, k: nat)
    requires Inv(s) && Enabled(s, SendOpen(k))
    ensures Inv(After(s, SendOpen(k)))
  {
    hide Payloads, Owners, OpensFirst, GivenOk, WritesOk, Concat;
    var l := s.locals[k].(phase := Reading);
    var t := Enqueue(s.(locals := s.locals[k := l]), k, Open(l.af));
    assert Pipeline(t) == Pipeline(s) + [Msg(k, Open(l.af))];
    PayloadsSnoc(Pipeline(s), Msg(k, Open(l.af)), k);
    assert LocalOk(s, k);
    PushKeeps(s, k, l, Open(l.af));
  }

  lemma PushChunkKeeps(s: Tunnel, k: nat)
    requires Inv(s) && Enabled(s, Push(k))
    ensures Inv(After(s, Push(k)))
  {
    hide Payloads, Owners, OpensFirst, GivenOk, WritesOk, Concat;
    var l := s.locals[k].(pending := None);
    var chunk := s.locals[k].pending.value;
    var ev := Data(l.af.streamId, chunk);
    var t := Enqueue(s.(locals := s.locals[k := l]), k, ev);
    assert Pipeline(t) == Pipeline(s) + [Msg(k, ev)];
    PayloadsSnoc(Pipeline(s), Msg(k, ev), k);
    ConcatSnoc(Payloads(Pipeline(s), k), chunk);
    assert LocalOk(s, k);
    PushKeeps(s, k, l, ev);
  }

  lemma FinishKeeps(s: Tunnel, k: nat)
    requires Inv(s) && Enabled(s, Finish(k))
    ensures Inv(After(s, Finish(k)))
  {
    hide Payloads, Owners, OpensFirst, GivenOk, WritesOk, Concat;
    var l := s.locals[k].(phase := Ended);
    var ev := Close(l.af.streamId);
    var t := Enqueue(s.(locals := s.locals[k := l]), k, ev);
    assert Pipeline(t) == Pipeline(s) + [Msg(k, ev)];
    PayloadsSnoc(Pipeline(s), Msg(k, ev), k);
    assert LocalOk(s, k);
    PushKeeps(s, k, l, ev);
  }

  lemma SendDatagramKeeps(s: Tunnel, k: nat, data: bytes)
    requires Inv(s) && Enabled(s, SendDatagram(k, data))
    ensures Inv(After(s, SendDatagram(k, data)))
  {
    hide Payloads, Owners, OpensFirst, GivenOk, WritesOk, Concat;
    var l := s.locals[k].(read := s.locals[k].read + [data]);
    var ev := Datagram(l.af.streamId, data);
    var t := Enqueue(s.(locals := s.locals[k := l]), k, ev);
    assert Pipeline(t) == Pipeline(s) + [Msg(k, ev)];
    PayloadsSnoc(Pipeline(s), Msg(k, ev), k);
    assert LocalOk(s, k);
    PushKeeps(s, k, l, ev);
  }

  lemma ReadKeeps(s: Tunnel, k: nat, chunk: bytes)
    requires Inv(s) && Enabled(s, Read(k, chunk))
    ensures Inv(After(s, Read(k, chunk)))
  {
    hide Payloads, Owners, OpensFirst, GivenOk, WritesOk, Concat;
    var l := s.locals[k].(read := s.locals[k].read + [chunk], pending := Some(chunk));
    ConcatSnoc(s.locals[k].read, chunk);
    assert LocalOk(s, k);
    assert Pipeline(s.(locals := s.locals[k := l])) == Pipeline(s);
    LocalStepKeeps(s, k, l);
  }

  lemma AbortKeeps(s: Tunnel, k: nat)
    requires Inv(s) && Enabled(s, Abort(k))
    ensures Inv(After(s, Abort(k)))
  {
    hide Payloads, Owners, OpensFirst, GivenOk, WritesOk, Concat;
    var l := s.locals[k].(phase := Ended, pending := None);
    assert LocalOk(s, k);
    assert Pipeline(s.(locals := s.locals[k := l])) == Pipeline(s);
    LocalStepKeeps(s, k, l);
  }

  lemma IdleKeeps(s: Tunnel)
    requires Inv(s) && Enabled(s, Idle)
    ensures Inv(After(s, Idle))
  {
    hide Payloads, Owners, OpensFirst, GivenOk, WritesOk, Concat;
    var m := Msg(-1, KeepAlive);
    var t := Enqueue(s, -1, KeepAlive);
    assert Pipeline(t) == Pipeline(s) + [m];
    OneMoreOpensFirst(s.locals, Pipeline(s), m);
    forall j | 0 <= j < |t.locals|
      ensures LocalOk(t, j)
    {
      PayloadsSnoc(Pipeline(s), m, j);
      assert LocalOk(s, j);
    }
    SameTargets(s, t);
  }

  // ---- The writer ----

  lemma {:induction false} LabelledPayloads(owner: int, id: u16, evs: seq<MuxEvent>, k: int)
    requires forall i :: 0 <= i < |evs| ==> evs[i].Data? && evs[i].streamId == id
    ensures Concat(Payloads(Labelled(owner, evs), k)) == if k == owner then DataIn(evs) else []
    ensures k != owner ==> Payloads(Labelled(owner, evs), k) == []
    ensures evs != [] ==> Owners(Labelled(owner, evs)) == {owner}
  {
    if evs != [] {
      var n := |evs| - 1;
      var ms := Labelled(owner, evs);
      assert ms[..n] == Labelled(owner, evs[..n]);
      LabelledPayloads(owner, id, evs[..n], k);
      if k == owner {
        ConcatSnoc(Payloads(ms[..n], k), evs[n].data);
      }
    }
  }

  lemma OpensFirstMiddle(before: seq<Msg>, m: Msg, ps: seq<Msg>, after: seq<Msg>)
    requires OpensFirst(before + [m] + after)
    requires Owners(ps) == {m.owner} && forall i :: 0 <= i < |ps| ==> !ps[i].ev.Open?
    ensures OpensFirst(before + ps + after)
  {
    hide OpensFirst, Owners;
    OpensFirstPrefix(before + [m], after);
    OpensFirstPrefix(before, [m]);
    OpensFirstNoOpens(before, ps);
    OwnersAppend(before, ps);
    OwnersAppend(before, [m]);
    One(m, 0);
    OpensFirstSwap(before + [m], before + ps, after);
  }

  lemma PayloadsMiddle(before: seq<Msg>, ps: seq<Msg>, after: seq<Msg>, k: int)
    ensures Payloads(before + ps + after, k) == Payloads(before, k) + Payloads(ps, k) + Payloads(after, k)
    ensures Concat(Payloads(before + ps + after, k)) ==
      Concat(Payloads(before, k)) + Concat(Payloads(ps, k)) + Concat(Payloads(after, k))
  {
    PayloadsAppend(before + ps, after, k);
    PayloadsAppend(before, ps, k);
    ConcatAppend(Payloads(before, k) + Payloads(ps, k), Payloads(after, k));
    ConcatAppend(Payloads(before, k), Payloads(ps, k));
  }

  /** Cutting the Data event at the head of the queue changes no stream's bytes. */
  lemma CutKeepsPayloads(before: seq<Msg>, m: Msg, pieces: seq<MuxEvent>, after: seq<Msg>, k: int)
    requires m.ev.Data? && SplitOf(m.ev, pieces)
    ensures var whole := Payloads(before + [m] + after, k);
      var cut := Payloads(before + Labelled(m.owner, pieces) + after, k);
      Concat(cut) == Concat(whole) && (k != m.owner ==> cut == whole)
  {
    var ps := Labelled(m.owner, pieces);
    LabelledPayloads(m.owner, m.ev.streamId, pieces, k);
    One(m, k);
    assert Concat([m.ev.data]) == m.ev.data + Concat([]);
    assert Concat(Payloads([m], k)) == Concat(Payloads(ps, k));
    hide Concat, Payloads;
    PayloadsMiddle(before, ps, after, k);
    PayloadsMiddle(before, [m], after, k);
  }

  function Passed(s: Tunnel, pieces: seq<MuxEvent>): Tunnel
    requires s.outbound != []
  {
    s.(outbound := s.outbound[1..], wire := s.wire + Labelled(s.outbound[0].owner, pieces))
  }

  lemma MiddleMsgs(locals: seq<Local>, before: seq<Msg>, m: Msg, pieces: seq<MuxEvent>, after: seq<Msg>)
    requires MsgsOk(locals, before + [m] + after) && m.ev.Data? && SplitOf(m.ev, pieces)
    ensures MsgsOk(locals, before + Labelled(m.owner, pieces) + after)
  {
    var all := before + [m] + after;
    forall i | 0 <= i < |before|
      ensures MsgOk(locals, before[i])
    {
      assert all[i] == before[i];
    }
    assert all[|before|] == m;
    forall i | 0 <= i < |after|
      ensures MsgOk(locals, after[i])
    {
      assert all[|before| + 1 + i] == after[i];
    }
  }

  /** Taking an event off the queue and putting its pieces on the wire. */
  lemma PassKeeps(s: Tunnel, pieces: seq<MuxEvent>)
    requires Inv(s) && s.outbound != [] && SplitOf(s.outbound[0].ev, pieces)
    ensures Inv(Passed(s, pieces))
  {
    hide Payloads, Owners, OpensFirst, GivenOk, WritesOk, Concat;
    var t := Passed(s, pieces);
    var m := s.outbound[0];
    var before, after := s.processed + s.wire, s.outbound[1..];
    var ps := Labelled(m.owner, pieces);
    assert s.outbound == [m] + after;
    assert Pipeline(s) == before + [m] + after;
    assert Pipeline(t) == before + ps + after;
    assert MsgOk(s.locals, m) by {
      assert Pipeline(s)[|before|] == m;
    }
    if m.ev.Data? {
      LabelledPayloads(m.owner, m.ev.streamId, pieces, 0);
      OpensFirstMiddle(before, m, ps, after);
      MiddleMsgs(s.locals, before, m, pieces, after);
    } else {
      assert ps == [m];
    }
    forall j | 0 <= j < |t.locals|
      ensures LocalOk(t, j)
    {
      assert LocalOk(s, j);
      if m.ev.Data? {
        CutKeepsPayloads(before, m, pieces, after, j);
      }
    }
    SameTargets(s, t);
  }

  lemma PayloadsPrefix(a: seq<Msg>, b: seq<Msg>, k: int)
    requires a <= b
    ensures Payloads(a, k) <= Payloads(b, k)
    ensures Concat(Payloads(a, k)) <= Concat(Payloads(b, k))
    ensures multiset(Payloads(a, k)) <= multiset(Payloads(b, k))
  {
    var rest := b[|a|..];
    assert b == a + rest;
    PayloadsAppend(a, rest, k);
    ConcatAppend(Payloads(a, k), Payloads(rest, k));
    hide Payloads, Concat;
    assert Payloads(b, k) == Payloads(a, k) + Payloads(rest, k);
  }

  /** A writer that stops loses the end of the pipeline. */
  lemma TruncateKeeps(s: Tunnel, t: Tunnel)
    requires Inv(s) && t == s.(outbound := [], stopped := true, wire := t.wire) && t.wire <= s.wire
    ensures Inv(t)
  {
    hide Payloads, Owners, OpensFirst, GivenOk, WritesOk, Concat;
    assert Pipeline(t) <= Pipeline(s);
    assert Pipeline(s) == Pipeline(t) + Pipeline(s)[|Pipeline(t)|..];
    OpensFirstPrefix(Pipeline(t), Pipeline(s)[|Pipeline(t)|..]);
    forall j | 0 <= j < |t.locals|
      ensures LocalOk(t, j)
    {
      assert LocalOk(s, j);
      PayloadsPrefix(Pipeline(t), Pipeline(s), j);
    }
    SameTargets(s, t);
  }

  lemma InvIgnoresNative(s: Tunnel, native: Option<nat>)
    requires Inv(s)
    ensures Inv(s.(native := native))
  {
    hide Payloads, Owners, OpensFirst, GivenOk, WritesOk, Concat;
    var t := s.(native := native);
    assert Pipeline(t) == Pipeline(s);
    forall j | 0 <= j < |t.locals|
      ensures LocalOk(t, j)
    {
      assert LocalOk(s, j);
    }
    SameTargets(s, t);
  }

  lemma WriteFailsKeeps(s: Tunnel, pieces: seq<MuxEvent>)
    requires Inv(s) && Enabled(s, WriteFails(pieces))
    ensures Inv(After(s, WriteFails(pieces)))
  {
    hide Inv, SplitOf;
    var full :| SplitOf(s.outbound[0].ev, full) && pieces <= full;
    PassKeeps(s, full);
    var owner := s.outbound[0].owner;
    assert Labelled(owner, pieces) <= Labelled(owner, full);
    TruncateKeeps(Passed(s, full), After(s, WriteFails(pieces)));
  }

  /** Taking one message out of a sequence takes its payload out of its stream's. */
  lemma TakenOut(before: seq<Msg>, m: Msg, after: seq<Msg>, k: int)
    ensures multiset(Payloads(before + [m] + after, k)) ==
      multiset(Payloads(before + after, k)) + multiset(Payload(m, k))
    ensures Payload(m, k) == [] ==> Payloads(before + [m] + after, k) == Payloads(before + after, k)
  {
    var a, x, b := Payloads(before, k), Payload(m, k), Payloads(after, k);
    PayloadsMiddle(before, [m], after, k);
    PayloadsAppend(before, after, k);
    One(m, k);
    hide Payloads, Payload;
    assert x == [] ==> a + x + b == a + b;
    assert multiset(a + x + b) == multiset(a + b) + multiset(x);
  }

  lemma DropDatagram(locals: seq<Local>, before: seq<Msg>, m: Msg, after: seq<Msg>)
    requires OpensFirst(before + [m] + after) && MsgsOk(locals, before + [m] + after) && m.ev.Datagram?
    ensures OpensFirst(before + after) && MsgsOk(locals, before + after)
  {
    hide OpensFirst, Owners;
    OpensFirstPrefix(before + [m], after);
    OpensFirstPrefix(before, [m]);
    OwnersAppend(before, [m]);
    OpensFirstSwap(before + [m], before, after);
    var all := before + [m] + after;
    forall i | 0 <= i < |before|
      ensures MsgOk(locals, before[i])
    {
      assert all[i] == before[i];
    }
    forall i | 0 <= i < |after|
      ensures MsgOk(locals, after[i])
    {
      assert all[|before| + 1 + i] == after[i];
    }
  }

  /** A datagram moved from the pipeline to the native channel. */
  lemma MovedToNative(s: Tunnel, t: Tunnel, before: seq<Msg>, m: Msg, after: seq<Msg>, j: nat)
    requires j < |s.locals| && LocalOk(s, j) && MsgOk(s.locals, m) && m.ev.Datagram?
    requires t.locals == s.locals && t.natives == s.natives + [m] && t.stopped == s.stopped
    requires Pipeline(s) == before + [m] + after && Pipeline(t) == before + after
    ensures LocalOk(t, j)
  {
    hide Payloads, Concat, Pipeline;
    TakenOut(before, m, after, j);
    PayloadsSnoc(s.natives, m, j);
  }

  lemma WriteNativeKeeps(s: Tunnel)
    requires Inv(s) && Enabled(s, WriteNative)
    ensures Inv(After(s, WriteNative))
  {
    hide Payloads, Owners, GivenOk, WritesOk, Concat, OpensFirst, TargetsOk, RegistryOk;
    var t := After(s, WriteNative);
    var m := s.outbound[0];
    var before, after := s.processed + s.wire, s.outbound[1..];
    assert s.outbound == [m] + after;
    assert Pipeline(s) == before + [m] + after && Pipeline(t) == before + after;
    assert MsgOk(s.locals, m) by {
      assert Pipeline(s)[|before|] == m;
    }
    DropDatagram(s.locals, before, m, after);
    forall j | 0 <= j < |t.locals|
      ensures LocalOk(t, j)
    {
      assert LocalOk(s, j);
      MovedToNative(s, t, before, m, after, j);
    }
    SameTargets(s, t);
  }

  // ---- The server end ----

  /** The sink found under a payload's id is the one of the stream it was pushed for. */
  lemma FindsOwnTarget(s: Tunnel, m: Msg, id: u16)
    requires IdsOk(s) && TargetsOk(s) && RegistryOk(s) && |s.locals| <= DISTINCT_IDS
    requires MsgOk(s.locals, m) && (m.ev.Data? || m.ev.Datagram?) && m.ev.streamId == id && id in s.registry
    ensures s.registry[id] < |s.targets| && s.targets[s.registry[id]].owner == m.owner
  {
    hide Payloads, Owners, GivenOk, WritesOk;
    var i := s.registry[id];
    assert TargetOk(s, i);
    IdsDistinct(m.owner, s.targets[i].owner);
  }

  ghost predicate Delivered(s: Tunnel, m: Msg, t: Tunnel) {
    && (m.ev.Data? || m.ev.Datagram?)
    && t.locals == s.locals && t.registry == s.registry
    && t.targets == Deliver(s.registry, s.targets, m.ev.streamId, m.ev.data)
    && if t.arrived == s.arrived then t.processed == s.processed + [m]
      else m.ev.Datagram? && t.processed == s.processed && t.arrived == s.arrived + [m]
  }

  lemma GivenKept(s: Tunnel, m: Msg, t: Tunnel, i: nat)
    requires i < |s.targets| && GivenOk(s, i) && Delivered(s, m, t)
    requires var id := m.ev.streamId;
      if id in s.registry && s.registry[id] == i
      then s.targets[i].owner == m.owner && s.targets[i].id == id && (m.ev.Data? ==> !s.targets[i].udp)
      else s.targets[i].owner == m.owner ==> id !in s.registry && s.targets[i].id == id
    requires s.targets[i].owner == m.owner ==> (s.targets[i].udp <==> m.ev.Datagram?)
    ensures GivenOk(t, i)
  {
    hide Payloads;
    var owner := s.targets[i].owner;
    PayloadsSnoc(s.processed, m, owner);
    PayloadsSnoc(s.arrived, m, owner);
  }

  lemma WritesMayGrow(t: Target, data: bytes)
    requires WritesOk(t)
    ensures WritesOk(t.(given := t.given + [data]))
  {
  }

  /** A payload reaches the sink of its stream or nobody. */
  lemma DeliverKeeps(s: Tunnel, m: Msg, t: Tunnel)
    requires IdsOk(s) && TargetsOk(s) && RegistryOk(s) && |s.locals| <= DISTINCT_IDS
    requires MsgOk(s.locals, m) && Delivered(s, m, t)
    ensures TargetsOk(t) && RegistryOk(t)
  {
    hide Payloads, Owners, OpensFirst, WritesOk, GivenOk;
    var id := m.ev.streamId;
    if id in s.registry {
      FindsOwnTarget(s, m, id);
      assert TargetOk(s, s.registry[id]);
      WritesMayGrow(s.targets[s.registry[id]], m.ev.data);
    }
    OwnersAppend(s.processed, [m]);
    forall i | 0 <= i < |t.targets|
      ensures TargetOk(t, i)
    {
      assert TargetOk(s, i);
      GivenKept(s, m, t, i);
    }
  }

  lemma NothingWritten(t: Target)
    requires t.given == [] && t.out == []
    ensures WritesOk(t)
  {
  }

  lemma HeadMsgOk(s: Tunnel)
    requires MsgsOk(s.locals, Pipeline(s)) && s.wire != []
    ensures MsgOk(s.locals, s.wire[0])
  {
    assert Pipeline(s)[|s.processed|] == s.wire[0];
  }

  /** Nothing of a stream was dispatched before its Open. */
  lemma HeadOpens(s: Tunnel)
    requires OpensFirst(Pipeline(s)) && s.wire != [] && s.wire[0].ev.Open?
    ensures s.wire[0].owner !in Owners(s.processed) && Payloads(s.processed, s.wire[0].owner) == []
  {
    var m := s.wire[0];
    var upTo := s.processed + [m];
    assert Pipeline(s) == upTo + (s.wire[1..] + s.outbound);
    OpensFirstPrefix(upTo, s.wire[1..] + s.outbound);
    assert upTo[..|upTo| - 1] == s.processed;
    OwnerIn(s.processed, m.owner);
  }

  lemma ServeOpenKeeps(s: Tunnel, connects: bool)
    requires Inv(s) && Enabled(s, Serve(connects)) && s.wire[0].ev.Open?
    ensures TargetsOk(After(s, Serve(connects))) && RegistryOk(After(s, Serve(connects)))
  {
    hide Payloads, Owners, OpensFirst, Concat, LocalOk, WritesOk;
    var t := After(s, Serve(connects));
    var m := s.wire[0];
    HeadMsgOk(s);
    var owner := m.owner;
    HeadOpens(s);
    OwnersAppend(s.processed, [m]);
    One(m, owner);
    forall i | 0 <= i < |t.targets|
      ensures TargetOk(t, i)
    {
      PayloadsSnoc(s.processed, m, t.targets[i].owner);
      if i < |s.targets| {
        assert TargetOk(s, i);
      } else {
        NothingWritten(t.targets[i]);
      }
    }
    forall i | 0 <= i < |s.targets|
      ensures s.targets[i].owner != owner
    {
      assert TargetOk(s, i);
    }
  }

  /** Events that carry nothing and register nobody. */
  lemma ServeOtherKeeps(s: Tunnel, connects: bool)
    requires Inv(s) && Enabled(s, Serve(connects)) && (s.wire[0].ev.Close? || s.wire[0].ev.KeepAlive?)
    ensures TargetsOk(After(s, Serve(connects))) && RegistryOk(After(s, Serve(connects)))
  {
    hide Payloads, Owners, OpensFirst, Concat, LocalOk, WritesOk;
    var t := After(s, Serve(connects));
    var m := s.wire[0];
    OwnersAppend(s.processed, [m]);
    forall i | 0 <= i < |t.targets|
      ensures TargetOk(t, i)
    {
      assert TargetOk(s, i);
      PayloadsSnoc(s.processed, m, t.targets[i].owner);
    }
  }

  lemma ServeKeeps(s: Tunnel, connects: bool)
    requires Inv(s) && Enabled(s, Serve(connects)) && |s.locals| <= DISTINCT_IDS
    ensures Inv(After(s, Serve(connects)))
  {
    hide Payloads, Owners, OpensFirst, Concat, WritesOk;
    var t := After(s, Serve(connects));
    var m := s.wire[0];
    assert s.wire == [m] + s.wire[1..];
    assert s.processed + [m] + s.wire[1..] == s.processed + s.wire;
    assert Pipeline(t) == Pipeline(s);
    HeadMsgOk(s);
    forall j | 0 <= j < |t.locals|
      ensures LocalOk(t, j)
    {
      assert LocalOk(s, j);
    }
    match m.ev
    case Open(_) => ServeOpenKeeps(s, connects);
    case Data(_, _) => DeliverKeeps(s, m, t);
    case Datagram(_, _) => DeliverKeeps(s, m, t);
    case _ => ServeOtherKeeps(s, connects);
  }

  lemma ArriveKeeps(s: Tunnel, i: nat)
    requires Inv(s) && Enabled(s, Arrive(i)) && |s.locals| <= DISTINCT_IDS
    ensures Inv(After(s, Arrive(i)))
  {
    hide Payloads, Owners, OpensFirst, Concat, WritesOk, GivenOk;
    var t := After(s, Arrive(i));
    var m := s.natives[i];
    assert Pipeline(t) == Pipeline(s);
    assert MsgOk(s.locals, m);
    forall j | 0 <= j < |t.locals|
      ensures LocalOk(t, j)
    {
      assert LocalOk(s, j);
    }
    DeliverKeeps(s, m, t);
  }

  lemma WritesKept(t: Target, n: nat)
    requires WritesOk(t) && !t.dead && |t.out| < |t.given| && n <= |t.given[|t.out|]|
    ensures WritesOk(Written(t, n))
    ensures Written(t, n) == t.(out := Written(t, n).out, dead := Written(t, n).dead)
  {
  }

  lemma LocalsIgnoreServer(s: Tunnel, t: Tunnel)
    requires LocalsOk(s) && t == s.(serving := t.serving, registry := t.registry, targets := t.targets, log := t.log)
    ensures LocalsOk(t) && Pipeline(t) == Pipeline(s)
  {
    hide Payloads, Concat;
    assert Pipeline(t) == Pipeline(s);
    forall j | 0 <= j < |t.locals|
      ensures LocalOk(t, j)
    {
      assert LocalOk(s, j);
    }
  }

  lemma WritesIgnoreEnd(t: Target)
    requires WritesOk(t)
    ensures WritesOk(t.(ended := true))
  {
  }

  lemma TargetStep(s: Tunnel, a: Action, i: nat)
    requires i < |s.targets| && TargetOk(s, i)
    requires Enabled(s, a) && (a.WriteTarget? || a.EndTarget? || a.StopServing?)
    ensures var t := After(s, a);
      && i < |t.targets| && TargetOk(t, i)
      && t.targets[i].owner == s.targets[i].owner && t.targets[i].id == s.targets[i].id
  {
    hide Payloads, Owners, WritesOk, Written;
    if a.WriteTarget? && i == a.t {
      WritesKept(s.targets[i], a.n);
    } else if a.EndTarget? && i == a.t {
      WritesIgnoreEnd(s.targets[i]);
    }
  }

  lemma TargetsStep(s: Tunnel, a: Action)
    requires TargetsOk(s) && RegistryOk(s)
    requires Enabled(s, a) && (a.WriteTarget? || a.EndTarget? || a.StopServing?)
    ensures TargetsOk(After(s, a)) && RegistryOk(After(s, a))
  {
    hide Payloads, Owners, WritesOk, Written, TargetOk;
    var t := After(s, a);
    forall i | 0 <= i < |t.targets|
      ensures TargetOk(t, i) && t.targets[i].owner == s.targets[i].owner && t.targets[i].id == s.targets[i].id
    {
      TargetStep(s, a, i);
    }
  }

  /** Steps of a target's own tasks, and the end of the server's reader. */
  lemma TargetStepKeeps(s: Tunnel, a: Action)
    requires Inv(s) && Enabled(s, a) && (a.WriteTarget? || a.EndTarget? || a.StopServing?)
    ensures Inv(After(s, a))
  {
    hide Payloads, Owners, OpensFirst, Concat, WritesOk, Written, MsgOk, TargetsOk, RegistryOk, LocalsOk;
    var t := After(s, a);
    LocalsIgnoreServer(s, t);
    TargetsStep(s, a);
  }

  // ---- Every run ----

  lemma StepKeeps(s: Tunnel, a: Action)
    requires Inv(s) && Enabled(s, a) && |s.locals| <= DISTINCT_IDS
    ensures Inv(After(s, a))
  {
    hide Inv, SplitOf, BeginsSplit;
    match a
    case Allocate(cmd, port, addr) => AllocateKeeps(s, cmd, port, addr);
    case SendOpen(k) => SendOpenKeeps(s, k);
    case Read(k, chunk) => ReadKeeps(s, k, chunk);
    case Push(k) => PushChunkKeeps(s, k);
    case Finish(k) => FinishKeeps(s, k);
    case Abort(k) => AbortKeeps(s, k);
    case SendDatagram(k, data) => SendDatagramKeeps(s, k, data);
    case Idle => IdleKeeps(s);
    case WriteNative => WriteNativeKeeps(s);
    case WriteStream(pieces) =>
      PassKeeps(s, pieces);
      InvIgnoresNative(Passed(s, pieces), After(s, a).native);
    case WriteFails(pieces) => WriteFailsKeeps(s, pieces);
    case Serve(connects) => ServeKeeps(s, connects);
    case Arrive(i) => ArriveKeeps(s, i);
    case _ => TargetStepKeeps(s, a);
  }

  lemma OpensOnlyGrow(s: Tunnel, a: Action)
    requires Enabled(s, a)
    ensures |s.locals| <= |After(s, a).locals| <= |s.locals| + 1
  {
  }

  lemma {:induction false} EveryRunKeeps(native: Option<nat>, actions: seq<Action>, s: Tunnel)
    requires Reachable(native, actions, s) && |s.locals| <= DISTINCT_IDS
    ensures Inv(s)
  {
    hide Enabled, After;
    if actions != [] {
      var n := |actions| - 1;
      var before :| ReachableBy(native, actions, before, s);
      OpensOnlyGrow(before, actions[n]);
      EveryRunKeeps(native, actions[..n], before);
      hide Inv;
      StepKeeps(before, actions[n]);
    }
  }

  lemma {:induction false} WrittenIsPrefix(out: seq<bytes>, given: seq<bytes>)
    requires |out| <= |given|
    requires forall i :: 0 <= i < |out| - 1 ==> out[i] == given[i]
    requires out != [] ==> out[|out| - 1] <= given[|out| - 1]
    ensures Concat(out) <= Concat(given)
  {
    if out != [] {
      assert out[0] <= given[0];
      if |out| > 1 {
        WrittenIsPrefix(out[1..], given[1..]);
      } else {
        assert Concat(out) == out[0];
      }
    }
  }

  lemma PickInRange(ms: seq<Msg>, picks: seq<nat>, out: seq<Msg>, i: nat)
    requires PickedFrom(ms, picks, out) && i < |picks|
    ensures picks[i] < |ms|
  {
  }

  lemma NothingPicked(picks: seq<nat>, out: seq<Msg>)
    requires PickedFrom([], picks, out)
    ensures out == []
  {
    if picks != [] {
      PickInRange([], picks, out, 0);
    }
  }

  lemma PickedLast(ms: seq<Msg>, picks: seq<nat>, out: seq<Msg>, p: nat)
    requires PickedFrom(ms, picks, out) && p < |picks| && picks[p] == |ms| - 1
    ensures |out| == |picks| && out == out[..p] + [ms[|ms| - 1]] + out[p + 1..]
    ensures PickedFrom(ms[..|ms| - 1], picks[..p] + picks[p + 1..], out[..p] + out[p + 1..])
  {
  }

  lemma LastNotPicked(ms: seq<Msg>, picks: seq<nat>, out: seq<Msg>)
    requires PickedFrom(ms, picks, out) && ms != [] && |ms| - 1 !in picks
    ensures PickedFrom(ms[..|ms| - 1], picks, out)
  {
    forall i | 0 <= i < |picks|
      ensures picks[i] < |ms| - 1
    {
      assert picks[i] in picks;
    }
  }

  /** The messages not picked. */
  function Unpicked(ms: seq<Msg>, picks: seq<nat>): seq<Msg> {
    if ms == [] then []
    else
      var n := |ms| - 1;
      Unpicked(ms[..n], picks) + if n in picks then [] else [ms[n]]
  }

  lemma {:induction false} UnpickedWithout(ms: seq<Msg>, picks: seq<nat>, fewer: seq<nat>)
    requires forall i :: 0 <= i < |ms| ==> (i in picks <==> i in fewer)
    ensures Unpicked(ms, picks) == Unpicked(ms, fewer)
  {
    if ms != [] {
      UnpickedWithout(ms[..|ms| - 1], picks, fewer);
    }
  }

  lemma WithoutOne(picks: seq<nat>, p: nat, n: nat)
    requires p < |picks| && picks[p] == n
    ensures forall i :: i != n ==> (i in picks <==> i in picks[..p] + picks[p + 1..])
  {
    var fewer := picks[..p] + picks[p + 1..];
    forall i | i != n && i in picks
      ensures i in fewer
    {
      var j :| 0 <= j < |picks| && picks[j] == i;
      assert fewer[if j < p then j else j - 1] == i;
    }
  }

  lemma UnpickedSnoc(ms: seq<Msg>, m: Msg, picks: seq<nat>, k: int)
    ensures multiset(Payloads(Unpicked(ms + [m], picks), k)) ==
      multiset(Payloads(Unpicked(ms, picks), k)) + multiset(if |ms| in picks then [] else Payload(m, k))
  {
    hide Payloads, Payload;
    assert (ms + [m])[..|ms|] == ms;
    var rest := Unpicked(ms, picks);
    if |ms| in picks {
      assert rest + [] == rest;
    } else {
      PayloadsSnoc(rest, m, k);
    }
  }

  /** The last message was picked. */
  lemma LastPicked(ms: seq<Msg>, picks: seq<nat>, out: seq<Msg>, p: nat, k: int)
    requires PickedFrom(ms, picks, out) && p < |picks| && picks[p] == |ms| - 1
    ensures var front, fewer, less := ms[..|ms| - 1], picks[..p] + picks[p + 1..], out[..p] + out[p + 1..];
      && PickedFrom(front, fewer, less) && Unpicked(front, fewer) == Unpicked(front, picks)
      && multiset(Payloads(out, k)) == multiset(Payloads(less, k)) + multiset(Payload(ms[|ms| - 1], k))
  {
    PickedLast(ms, picks, out, p);
    hide PickedFrom, Payloads, Payload, Unpicked;
    WithoutOne(picks, p, |ms| - 1);
    UnpickedWithout(ms[..|ms| - 1], picks, picks[..p] + picks[p + 1..]);
    TakenOut(out[..p], ms[|ms| - 1], out[p + 1..], k);
  }

  /** The last message's payload `last` is among those picked, or among the rest. */
  lemma OneMorePayload(out: multiset<bytes>, less: multiset<bytes>, rest: multiset<bytes>, left: multiset<bytes>,
      all: multiset<bytes>, front: multiset<bytes>, last: multiset<bytes>)
    requires less + left == front && all == front + last
    requires (out == less + last && rest == left) || (out == less && rest == left + last)
    ensures out + rest == all
  {
    assert (less + last) + left == (less + left) + last;
    assert less + (left + last) == (less + left) + last;
  }

  lemma AllPayloads(ms: seq<Msg>, k: int)
    requires ms != []
    ensures var n := |ms| - 1;
      multiset(Payloads(ms, k)) == multiset(Payloads(ms[..n], k)) + multiset(Payload(ms[n], k))
  {
    hide Payloads, Payload;
    var n := |ms| - 1;
    PayloadsSnoc(ms[..n], ms[n], k);
    assert ms == ms[..n] + [ms[n]];
  }

  lemma RestOfPayloads(ms: seq<Msg>, picks: seq<nat>, k: int)
    requires ms != []
    ensures var n := |ms| - 1;
      multiset(Payloads(Unpicked(ms, picks), k)) ==
        multiset(Payloads(Unpicked(ms[..n], picks), k)) + if n in picks then multiset{} else multiset(Payload(ms[n], k))
  {
    hide Payloads, Payload, Unpicked;
    var n := |ms| - 1;
    UnpickedSnoc(ms[..n], ms[n], picks, k);
    assert ms == ms[..n] + [ms[n]];
  }

  /** The payloads of what was picked, once each, and of what was not are all payloads. */
  lemma {:induction false} PickedPayloads(ms: seq<Msg>, picks: seq<nat>, out: seq<Msg>, k: int)
    requires PickedFrom(ms, picks, out)
    ensures multiset(Payloads(out, k)) + multiset(Payloads(Unpicked(ms, picks), k)) == multiset(Payloads(ms, k))
  {
    if ms == [] {
      NothingPicked(picks, out);
    } else {
      hide PickedFrom, Payload, Payloads, Unpicked;
      var n := |ms| - 1;
      var less := out;
      AllPayloads(ms, k);
      RestOfPayloads(ms, picks, k);
      if n in picks {
        var p :| 0 <= p < |picks| && picks[p] == n;
        LastPicked(ms, picks, out, p, k);
        less := out[..p] + out[p + 1..];
        PickedPayloads(ms[..n], picks[..p] + picks[p + 1..], less, k);
      } else {
        LastNotPicked(ms, picks, out);
        PickedPayloads(ms[..n], picks, out, k);
      }
      OneMorePayload(multiset(Payloads(out, k)), multiset(Payloads(less, k)),
        multiset(Payloads(Unpicked(ms, picks), k)), multiset(Payloads(Unpicked(ms[..n], picks), k)),
        multiset(Payloads(ms, k)), multiset(Payloads(ms[..n], k)), multiset(Payload(ms[n], k)));
    }
  }

  lemma SentCovers(out: multiset<bytes>, rest: multiset<bytes>, came: multiset<bytes>, arrived: multiset<bytes>,
      sent: multiset<bytes>, natives: multiset<bytes>, read: multiset<bytes>)
    requires out + rest <= came + arrived && came <= sent && arrived <= natives && sent + natives <= read
    ensures out <= read
  {
    forall x: bytes
      ensures out[x] <= read[x]
    {
      assert (out + rest)[x] <= (came + arrived)[x] && (sent + natives)[x] <= read[x];
      assert came[x] <= sent[x] && arrived[x] <= natives[x];
    }
  }

  lemma TargetIsIsolated(s: Tunnel, i: nat)
    requires Inv(s) && i < |s.targets|
    ensures TargetIsolated(s, s.targets[i])
  {
    hide Payloads, Owners, OpensFirst, Concat, MsgsOk, IdsOk, RegistryOk;
    var t := s.targets[i];
    assert TargetOk(s, i);
    assert LocalOk(s, t.owner);
    assert s.processed <= Pipeline(s) by {
      assert Pipeline(s) == s.processed + (s.wire + s.outbound);
    }
    PayloadsPrefix(s.processed, Pipeline(s), t.owner);
    if t.udp {
      assert t.given == t.out + t.given[|t.out|..];
      assert multiset(t.given) == multiset(t.out) + multiset(t.given[|t.out|..]);
      var k: nat := t.owner;
      PickedPayloads(s.natives, s.landed, s.arrived, k);
      SentCovers(multiset(t.out), multiset(t.given[|t.out|..]), multiset(Payloads(s.processed, k)),
        multiset(Payloads(s.arrived, k)), multiset(Payloads(Pipeline(s), k)), multiset(Payloads(s.natives, k)),
        multiset(s.locals[k].read));
    } else {
      var came := Payloads(s.processed, t.owner);
      WrittenIsPrefix(t.out, t.given);
      assert came == t.given + came[|t.given|..];
      ConcatAppend(t.given, came[|t.given|..]);
    }
  }

  lemma OwnersDistinct(s: Tunnel)
    requires Inv(s)
    ensures forall t, u :: 0 <= t < u < |s.targets| ==> s.targets[t].owner != s.targets[u].owner
  {
  }

  lemma InvIsolates(s: Tunnel)
    requires Inv(s)
    ensures Isolated(s)
  {
    hide Inv, TargetIsolated;
    forall i | 0 <= i < |s.targets|
      ensures TargetIsolated(s, s.targets[i])
    {
      TargetIsIsolated(s, i);
    }
    OwnersDistinct(s);
  }

  /** Isolation in every run with at most 32768 opens, whatever the interleaving, the splitting,
      the losses and reorderings of the native channel and the failures. */
  lemma EveryRunIsIsolated(native: Option<nat>, actions: seq<Action>, s: Tunnel)
    requires Reachable(native, actions, s) && |s.locals| <= DISTINCT_IDS
    ensures Isolated(s)
  {
    hide Reachable, Inv;
    EveryRunKeeps(native, actions, s);
    InvIsolates(s);
  }

  /** Target `i` serves TCP, is registered and healthy, has written all it was given, and nothing
      its local end read waits to be pushed. */
  predicate Caught(s: Tunnel, t: Target, i: nat) {
    && !t.udp && !t.dead && |t.out| == |t.given| && t.id in s.registry && s.registry[t.id] == i
    && 0 <= t.owner < |s.locals| && s.locals[t.owner].pending.None?
  }

  lemma InvDrains(s: Tunnel, i: nat)
    requires Inv(s) && i < |s.targets|
    requires s.wire == [] && s.outbound == [] && !s.stopped && Caught(s, s.targets[i], i)
    ensures Concat(s.targets[i].out) == Concat(s.locals[s.targets[i].owner].read)
  {
    hide Payloads, Owners, OpensFirst, Concat, MsgsOk, IdsOk, RegistryOk;
    var t := s.targets[i];
    assert TargetOk(s, i);
    assert LocalOk(s, t.owner);
    assert Pipeline(s) == s.processed;
    assert t.out == t.given;
  }

  /** Once nothing is left on the way, a TCP target that is still registered and healthy has
      written every byte its local socket read. */
  lemma DrainedIsComplete(native: Option<nat>, actions: seq<Action>, s: Tunnel, i: nat)
    requires Reachable(native, actions, s) && |s.locals| <= DISTINCT_IDS && i < |s.targets|
    requires s.wire == [] && s.outbound == [] && !s.stopped && Caught(s, s.targets[i], i)
    ensures Concat(s.targets[i].out) == Concat(s.locals[s.targets[i].owner].read)
  {
    hide Reachable, Inv;
    EveryRunKeeps(native, actions, s);
    InvDrains(s, i);
  }

  // ---- What the sinks are given ----

  predicate DatagramsOnly(ms: seq<Msg>) {
    forall i :: 0 <= i < |ms| ==> ms[i].ev.Datagram?
  }

  lemma NativesStep(s: Tunnel, a: Action)
    requires DatagramsOnly(s.natives) && Enabled(s, a)
    ensures DatagramsOnly(After(s, a).natives)
  {
    hide SplitOf, BeginsSplit, Dispatched, Written;
  }

  lemma NoSinks(s: Tunnel)
    requires s.registry == map[] && s.targets == [] && s.log == [] && s.replies == []
    ensures Kept(s)
  {
  }

  lemma {:induction false} EverySinkIsKept(native: Option<nat>, actions: seq<Action>, s: Tunnel)
    requires Reachable(native, actions, s)
    ensures Kept(s) && DatagramsOnly(s.natives)
  {
    if actions == [] {
      NoSinks(s);
    } else {
      hide Kept, Enabled, After;
      var n := |actions| - 1;
      var before :| ReachableBy(native, actions, before, s);
      EverySinkIsKept(native, actions[..n], before);
      RelaySinks.StepKeeps(before, actions[n]);
      NativesStep(before, actions[n]);
    }
  }

  /** In every run, with however many opens: there is one sink for each Open that connected, and it
      has been given, from both transports and in order, exactly the payloads that came under its
      id while nothing since its Open had freed the id; exactly then the registry finds it; and the
      server has sent back one Close for each Open it refused, and nothing else. */
  lemma EverySinkIsGiven(native: Option<nat>, actions: seq<Action>, s: Tunnel)
    requires Reachable(native, actions, s)
    ensures |s.targets| == |Openings(s.log)| && s.replies == Refusals(s.log)
    ensures forall i :: 0 <= i < |s.targets| ==>
      var t, p := s.targets[i], Openings(s.log)[i];
      && t.id == OpeningId(s.log, p) && t.given == GivenSince(s.log, p, t.id)
      && (t.id in s.registry && s.registry[t.id] == i <==> Holds(s.log, p, t.id))
  {
    hide Reachable, Openings, GivenSince, Refusals, Holds;
    EverySinkIsKept(native, actions, s);
    forall i: nat | i < |s.targets|
      ensures var t, p := s.targets[i], Openings(s.log)[i];
        && t.id == OpeningId(s.log, p) && t.given == GivenSince(s.log, p, t.id)
        && (t.id in s.registry && s.registry[t.id] == i <==> Holds(s.log, p, t.id))
    {
      assert SinkAt(s.log, s.targets[i], Openings(s.log)[i]);
      assert Found(s.registry, s.targets[i].id, i) <==> Holds(s.log, Openings(s.log)[i], s.targets[i].id);
    }
  }

  // ---- Datagrams ----

  /** What the server has seen is what it has dispatched of either way. */
  ghost predicate Told(s: Tunnel) {
    && (forall m :: m in Logged(s.log) ==> m in s.processed || m in s.arrived)
    && (forall k: int :: multiset(Payloads(Logged(s.log), k)) ==
         multiset(Payloads(s.processed, k)) + multiset(Payloads(s.arrived, k)))
  }

  lemma ToldNext(s: Tunnel, e: Seen, t: Tunnel)
    requires Told(s) && t.log == s.log + [e]
    requires if e.Came? then
        || (t.processed == s.processed + [e.m] && t.arrived == s.arrived)
        || (t.processed == s.processed && t.arrived == s.arrived + [e.m])
      else t.processed == s.processed && t.arrived == s.arrived
    ensures Told(t)
  {
    LoggedSnoc(s.log, e);
    hide Payloads, Payload, Logged;
    if e.Came? {
      forall k: int
        ensures multiset(Payloads(Logged(t.log), k)) ==
          multiset(Payloads(t.processed, k)) + multiset(Payloads(t.arrived, k))
      {
        PayloadsSnoc(Logged(s.log), e.m, k);
        PayloadsSnoc(s.processed, e.m, k);
        PayloadsSnoc(s.arrived, e.m, k);
      }
    } else {
      assert Logged(s.log) + [] == Logged(s.log);
    }
  }

  lemma ToldAlike(s: Tunnel, t: Tunnel)
    requires Told(s) && t.log == s.log && t.processed == s.processed && t.arrived == s.arrived
    ensures Told(t)
  {
  }

  lemma ToldStep(s: Tunnel, a: Action)
    requires Told(s) && Enabled(s, a)
    ensures Told(After(s, a))
  {
    hide Told, Dispatched, Written, SplitOf, BeginsSplit;
    var t := After(s, a);
    match a
    case Serve(connects) => ToldNext(s, Came(s.wire[0], connects), t);
    case Arrive(i) => ToldNext(s, Came(s.natives[i], false), t);
    case EndTarget(i) => ToldNext(s, SocketEnded(s.targets[i].id), t);
    case StopServing => ToldNext(s, Halted, t);
    case _ => ToldAlike(s, t);
  }

  lemma {:induction false} EveryRunTells(native: Option<nat>, actions: seq<Action>, s: Tunnel)
    requires Reachable(native, actions, s)
    ensures Told(s)
  {
    if actions != [] {
      hide Told, Enabled, After;
      var n := |actions| - 1;
      var before :| ReachableBy(native, actions, before, s);
      EveryRunTells(native, actions[..n], before);
      ToldStep(before, actions[n]);
    }
  }

  lemma {:induction false} UnderIsOwned(locals: seq<Local>, log: seq<Seen>, k: nat)
    requires k < |locals| <= DISTINCT_IDS && MsgsOk(locals, Logged(log))
    requires forall j :: 0 <= j < |locals| ==> locals[j].af.streamId == IdOf(j)
    ensures PayloadsUnder(log, IdOf(k)) == Payloads(Logged(log), k)
  {
    hide IdOf;
    if log != [] {
      var n := |log| - 1;
      assert log == log[..n] + [log[n]];
      LoggedSnoc(log[..n], log[n]);
      assert MsgsOk(locals, Logged(log[..n])) by {
        assert forall i :: 0 <= i < |Logged(log[..n])| ==> Logged(log[..n])[i] == Logged(log)[i];
      }
      UnderIsOwned(locals, log[..n], k);
      if log[n].Came? {
        var m := log[n].m;
        assert MsgOk(locals, Logged(log)[|Logged(log)| - 1]);
        PayloadsSnoc(Logged(log[..n]), m, k);
        if m.ev.Data? || m.ev.Datagram? {
          IdsDistinct(m.owner, k);
        }
        assert PayloadUnder(log[n], IdOf(k)) == Payload(m, k);
      } else {
        assert Logged(log[..n]) + [] == Logged(log[..n]);
        assert PayloadsUnder(log[..n], IdOf(k)) + [] == PayloadsUnder(log[..n], IdOf(k));
      }
    }
  }

  lemma LoggedIsOk(s: Tunnel)
    requires Inv(s) && Told(s)
    ensures MsgsOk(s.locals, Logged(s.log))
  {
    hide Payloads, MsgOk, Logged, OpensFirst, LocalsOk, TargetsOk, RegistryOk, IdsOk;
    forall i | 0 <= i < |Logged(s.log)|
      ensures MsgOk(s.locals, Logged(s.log)[i])
    {
      var m := Logged(s.log)[i];
      assert m in Logged(s.log);
      if m in s.processed {
        var j :| 0 <= j < |s.processed| && s.processed[j] == m;
        assert Pipeline(s)[j] == m;
      } else {
        var j :| 0 <= j < |s.arrived| && s.arrived[j] == m;
        assert s.arrived[j] == s.natives[s.landed[j]];
      }
    }
  }

  /** Target `i` serves UDP, is registered and healthy and has written all it was given. */
  predicate CaughtUdp(s: Tunnel, t: Target, i: nat) {
    t.udp && !t.dead && |t.out| == |t.given| && t.id in s.registry && s.registry[t.id] == i
  }

  lemma SinkHolds(s: Tunnel, i: nat)
    requires Kept(s) && i < |s.targets| && s.targets[i].id in s.registry && s.registry[s.targets[i].id] == i
    ensures |Openings(s.log)| == |s.targets|
    ensures var t, p := s.targets[i], Openings(s.log)[i];
      && Holds(s.log, p, t.id) && t.given == GivenSince(s.log, p, t.id) && PayloadUnder(s.log[p], t.id) == []
  {
    hide Openings, GivenSince, Refusals, Holds;
    assert SinkAt(s.log, s.targets[i], Openings(s.log)[i]);
    assert Found(s.registry, s.targets[i].id, i);
  }

  lemma Balance(read: multiset<bytes>, came: multiset<bytes>, arrived: multiset<bytes>, lost: multiset<bytes>,
      early: multiset<bytes>, out: multiset<bytes>)
    requires read == came + (arrived + lost) && came + arrived == early + out
    ensures read == out + early + lost
  {
    assert came + (arrived + lost) == (came + arrived) + lost;
  }

  lemma UdpAccounts(s: Tunnel, i: nat)
    requires Inv(s) && Kept(s) && Told(s) && |s.locals| <= DISTINCT_IDS && i < |s.targets|
    requires s.wire == [] && s.outbound == [] && !s.stopped && CaughtUdp(s, s.targets[i], i)
    ensures |Openings(s.log)| == |s.targets| && 0 <= s.targets[i].owner < |s.locals|
    ensures var t, p := s.targets[i], Openings(s.log)[i];
      multiset(s.locals[t.owner].read) == multiset(t.out) +
        multiset(PayloadsUnder(s.log[..p], t.id)) + multiset(Payloads(Unpicked(s.natives, s.landed), t.owner))
  {
    hide Payloads, PayloadsUnder, PayloadUnder, Openings, GivenSince, Owners, OpensFirst, MsgsOk;
    hide Logged, Unpicked, Kept, IdOf, GivenOk;
    var t := s.targets[i];
    assert TargetOk(s, i);
    var k: nat := t.owner;
    assert LocalOk(s, k) && Pipeline(s) == s.processed && t.out == t.given;
    SinkHolds(s, i);
    var p := Openings(s.log)[i];
    GivenIsRest(s.log, p, t.id);
    LoggedIsOk(s);
    UnderIsOwned(s.locals, s.log, k);
    PickedPayloads(s.natives, s.landed, s.arrived, k);
    assert PayloadsUnder(s.log, t.id) == Payloads(Logged(s.log), k);
    assert multiset(Payloads(Logged(s.log), k)) ==
      multiset(Payloads(s.processed, k)) + multiset(Payloads(s.arrived, k));
    assert multiset(PayloadsUnder(s.log, t.id)) == multiset(PayloadsUnder(s.log[..p], t.id)) + multiset(t.out);
    Balance(multiset(s.locals[k].read), multiset(Payloads(s.processed, k)), multiset(Payloads(s.arrived, k)),
      multiset(Payloads(Unpicked(s.natives, s.landed), k)), multiset(PayloadsUnder(s.log[..p], t.id)), multiset(t.out));
  }

  /** Once nothing is left on the way, every datagram sent on the stream of a registered and healthy
      UDP target was written to it, or came before the stream's Open, or never came out of the
      native channel; each of them once. */
  lemma DatagramsAccounted(native: Option<nat>, actions: seq<Action>, s: Tunnel, i: nat)
    requires Reachable(native, actions, s) && |s.locals| <= DISTINCT_IDS && i < |s.targets|
    requires s.wire == [] && s.outbound == [] && !s.stopped && CaughtUdp(s, s.targets[i], i)
    ensures |Openings(s.log)| == |s.targets| && 0 <= s.targets[i].owner < |s.locals|
    ensures var t, p := s.targets[i], Openings(s.log)[i];
      multiset(s.locals[t.owner].read) == multiset(t.out) +
        multiset(PayloadsUnder(s.log[..p], t.id)) + multiset(Payloads(Unpicked(s.natives, s.landed), t.owner))
  {
    hide Reachable, Inv, Kept, Told, Payloads, PayloadsUnder, Openings, Unpicked;
    EveryRunKeeps(native, actions, s);
    EverySinkIsKept(native, actions, s);
    EveryRunTells(native, actions, s);
    UdpAccounts(s, i);
  }

  /** A write to a target's socket takes the next chunk: all of it and the target stays healthy, or less
      and it is written to no more; a datagram is sent whole or not at all. */
  lemma WritesNextChunk(s: Tunnel, t: nat, n: nat)
    requires Enabled(s, WriteTarget(t, n))
    ensures var before, after := s.targets[t], After(s, WriteTarget(t, n)).targets[t];
      var chunk := before.given[|before.out|];
      && after.given == before.given && (after.dead <==> n < |chunk|)
      && Concat(after.out) == Concat(before.out) + (if before.udp && n < |chunk| then [] else chunk[..n])
      && (n == |chunk| ==> after.out == before.out + [chunk])
  {
    var before := s.targets[t];
    var chunk := before.given[|before.out|];
    ConcatSnoc(before.out, chunk[..n]);
    ConcatSnoc(before.out, chunk);
    assert chunk[..|chunk|] == chunk;
  }

  predicate AllFit(ms: seq<Msg>, native: Option<nat>) {
    forall i :: 0 <= i < |ms| ==>
      ms[i].ev.Datagram? && native.Some? && STREAM_ID_LEN + |ms[i].ev.data| <= native.value
  }

  lemma FitStep(native: Option<nat>, s: Tunnel, a: Action)
    requires AllFit(s.natives, native) && (s.native.None? || s.native == native) && Enabled(s, a)
    ensures var t := After(s, a); AllFit(t.natives, native) && (t.native.None? || t.native == native)
  {
    hide SplitOf, BeginsSplit, Dispatched, Written;
  }

  /** In every run what goes by the native channel is datagrams within its size, with the two bytes of
      their stream id. */
  lemma {:induction false} NativesFit(native: Option<nat>, actions: seq<Action>, s: Tunnel)
    requires Reachable(native, actions, s)
    ensures AllFit(s.natives, native) && (s.native.None? || s.native == native)
  {
    if actions != [] {
      hide Enabled, After, AllFit;
      var n := |actions| - 1;
      var before :| ReachableBy(native, actions, before, s);
      NativesFit(native, actions[..n], before);
      FitStep(native, before, actions[n]);
    }
  }

  // ---- Past the wrap-around ----

  lemma Extend(native: Option<nat>, actions: seq<Action>, s: Tunnel, a: Action)
    requires Reachable(native, actions, s) && Enabled(s, a)
    ensures Reachable(native, actions + [a], After(s, a))
  {
    hide Enabled, After;
    var longer := actions + [a];
    assert longer[..|longer| - 1] == actions;
    assert ReachableBy(native, longer, s, After(s, a));
  }

  function Untouched(k: nat, addr: Addr): Local {
    Local(AddressFrame(IdOf(k), Tcp, 0, addr), Allocated, [], None)
  }

  /** `n` streams that have taken an id and done nothing else. */
  function Opening(native: Option<nat>, n: nat, addr: Addr): Tunnel {
    Start(native).(nextId := IdOf(n), locals := seq(n, k requires 0 <= k < n => Untouched(k, addr)))
  }

  lemma NoneOpening(native: Option<nat>, addr: Addr)
    ensures Reachable(native, [], Opening(native, 0, addr))
  {
    assert Opening(native, 0, addr) == Start(native);
  }

  lemma OneMoreOpening(native: Option<nat>, n: nat, addr: Addr)
    requires n >= 1
    ensures After(Opening(native, n - 1, addr), Allocate(Tcp, 0, addr)) == Opening(native, n, addr)
  {
    assert FetchAdd2(IdOf(n - 1)) == IdOf(n);
    hide IdOf, FetchAdd2;
    var t := After(Opening(native, n - 1, addr), Allocate(Tcp, 0, addr));
    assert t.locals == Opening(native, n, addr).locals;
  }

  lemma {:induction false} ManyOpens(native: Option<nat>, n: nat, addr: Addr) returns (actions: seq<Action>)
    ensures Reachable(native, actions, Opening(native, n, addr))
  {
    hide Reachable, After;
    actions := [];
    if n == 0 {
      NoneOpening(native, addr);
    } else {
      actions := ManyOpens(native, n - 1, addr);
      var before := Opening(native, n - 1, addr);
      var open := Allocate(Tcp, 0, addr);
      Extend(native, actions, before, open);
      OneMoreOpening(native, n, addr);
      actions := actions + [open];
    }
  }

  /** The tunnel after its only event has gone all the way. */
  function Travelled(s: Tunnel, connects: bool): Tunnel
    requires s.outbound != []
  {
    var (registry, targets) := Dispatched(s.registry, s.targets, s.outbound[0], connects);
    s.(outbound := [], processed := s.processed + s.outbound, registry := registry, targets := targets,
       log := s.log + [Came(s.outbound[0], connects)], replies := s.replies + Reply(s.outbound[0], connects))
  }

  lemma Travels(native: Option<nat>, actions: seq<Action>, s: Tunnel, connects: bool) returns (longer: seq<Action>)
    requires Reachable(native, actions, s) && s.serving && s.wire == [] && |s.outbound| == 1
    requires var ev := s.outbound[0].ev; Sendable(ev) && !ev.Datagram? && SplitOf(ev, [ev])
    ensures Reachable(native, longer, Travelled(s, connects))
  {
    hide SplitOf, Reachable, Dispatched;
    var m := s.outbound[0];
    var write, serve := WriteStream([m.ev]), Serve(connects);
    var mid := After(s, write);
    assert s.wire + Labelled(m.owner, [m.ev]) == [m] && s.outbound == [m];
    assert mid == s.(outbound := [], wire := [m]);
    Extend(native, actions, s, write);
    Extend(native, actions + [write], mid, serve);
    longer := actions + [write] + [serve];
  }

  /** The streams `last` and 0 are open under one id, and only the target of `last` exists. */
  ghost predicate SharedId(s: Tunnel, last: nat, af: AddressFrame) {
    && |s.locals| == last + 1 && last > 0
    && s.locals[0] == s.locals[last] == Local(af, Reading, [], None) && af.cmd.Tcp?
    && s.targets == [Target(last, af.streamId, false, [], [], false, false)]
    && af.streamId in s.registry && s.registry[af.streamId] == 0
    && s.wire == [] && s.outbound == [] && !s.stopped && s.serving
  }

  lemma OpeningShape(native: Option<nat>, addr: Addr)
    ensures var s := Opening(native, DISTINCT_IDS + 1, addr);
      && |s.locals| == DISTINCT_IDS + 1
      && s.locals[0] == s.locals[DISTINCT_IDS] == Untouched(0, addr)
      && s.targets == [] && s.wire == [] && s.outbound == [] && !s.stopped && s.serving
  {
  }

  lemma OpenAndTravel(native: Option<nat>, actions: seq<Action>, s: Tunnel, k: nat, connects: bool)
    returns (t: Tunnel, longer: seq<Action>)
    requires Reachable(native, actions, s) && s.serving && s.wire == [] && s.outbound == [] && !s.stopped
    requires k < |s.locals| && s.locals[k].phase.Allocated? && Encodable(s.locals[k].af)
    ensures Reachable(native, longer, t)
    ensures var m := Msg(k, Open(s.locals[k].af));
      var (registry, targets) := Dispatched(s.registry, s.targets, m, connects);
      t == s.(locals := s.locals[k := s.locals[k].(phase := Reading)],
              processed := s.processed + [m], registry := registry, targets := targets,
              log := t.log, replies := t.replies)
  {
    hide Reachable, Dispatched;
    var open := SendOpen(k);
    Extend(native, actions, s, open);
    var sent := After(s, open);
    assert sent.outbound == [Msg(k, Open(s.locals[k].af))];
    longer := Travels(native, actions + [open], sent, connects);
    t := Travelled(sent, connects);
    assert [] + sent.outbound == sent.outbound;
  }

  lemma TwoShareAnId(native: Option<nat>, addr: Addr) returns (actions: seq<Action>, s: Tunnel)
    requires !addr.Domain?
    ensures Reachable(native, actions, s) && SharedId(s, DISTINCT_IDS, Untouched(0, addr).af)
  {
    hide Reachable, Opening, IdOf;
    var last := DISTINCT_IDS;
    s := Opening(native, last + 1, addr);
    actions := ManyOpens(native, last + 1, addr);
    OpeningShape(native, addr);
    s, actions := OpenAndTravel(native, actions, s, last, true);
    s, actions := OpenAndTravel(native, actions, s, 0, false);
  }

  lemma NotIsolated(s: Tunnel, owner: nat)
    requires owner < |s.locals| && s.locals[owner].read == []
    requires |s.targets| >= 1 && s.targets[0].owner == owner && !s.targets[0].udp && s.targets[0].out == [[7]]
    ensures !Isolated(s)
  {
    assert Concat(s.targets[0].out) == [7] by {
      assert [7] + [] == [7];
    }
    assert !TargetIsolated(s, s.targets[0]);
  }

  lemma ReadAndTravel(native: Option<nat>, actions: seq<Action>, s: Tunnel, k: nat, chunk: bytes)
    returns (t: Tunnel, longer: seq<Action>)
    requires Reachable(native, actions, s) && s.serving && s.wire == [] && s.outbound == [] && !s.stopped
    requires Active(s, k, Tcp) && s.locals[k].pending.None? && |chunk| == 1
    ensures Reachable(native, longer, t)
    ensures var id := s.locals[k].af.streamId;
      t == s.(locals := s.locals[k := s.locals[k].(read := s.locals[k].read + [chunk])],
              processed := s.processed + [Msg(k, Data(id, chunk))],
              targets := Deliver(s.registry, s.targets, id, chunk), log := t.log, replies := t.replies)
  {
    hide Reachable, Deliver;
    var id := s.locals[k].af.streamId;
    var ev := Data(id, chunk);
    Extend(native, actions, s, Read(k, chunk));
    var held := After(s, Read(k, chunk));
    Extend(native, actions + [Read(k, chunk)], held, Push(k));
    var sent := After(held, Push(k));
    assert sent.outbound == [Msg(k, ev)];
    assert SplitOf(ev, [ev]) by {
      assert DataIn([ev]) == DataIn([]) + chunk;
    }
    longer := Travels(native, actions + [Read(k, chunk)] + [Push(k)], sent, true);
    t := Travelled(sent, true);
    assert t.locals == s.locals[k := s.locals[k].(read := s.locals[k].read + [chunk])];
  }

  /** With one open too many, two live streams share an id and one's bytes reach the other's
      target. */
  lemma OneOpenTooMany(native: Option<nat>, addr: Addr) returns (actions: seq<Action>, s: Tunnel)
    requires !addr.Domain?
    ensures Reachable(native, actions, s) && |s.locals| == DISTINCT_IDS + 1 && !Isolated(s)
  {
    hide Reachable, Isolated, Untouched;
    var last := DISTINCT_IDS;
    var af := Untouched(0, addr).af;
    actions, s := TwoShareAnId(native, addr);
    var given: seq<bytes> := [];
    assert given + [[7]] == [[7]];
    s, actions := ReadAndTravel(native, actions, s, 0, [7]);
    assert s.targets[0] == Target(last, af.streamId, false, [[7]], [], false, false);
    var write := WriteTarget(0, 1);
    Extend(native, actions, s, write);
    actions, s := actions + [write], After(s, write);
    NotIsolated(s, last);
  }

  /** Isolation of all runs with at most `n` opens holds exactly when `n` ids are distinct. */
  lemma IsolationIffDistinctIds(native: Option<nat>, n: nat)
    ensures (forall actions, s :: Reachable(native, actions, s) && |s.locals| <= n ==> Isolated(s)) <==>
      n <= DISTINCT_IDS
  {
    hide Reachable, Isolated;
    if n <= DISTINCT_IDS {
      forall actions, s | Reachable(native, actions, s) && |s.locals| <= n
        ensures Isolated(s)
      {
        EveryRunIsIsolated(native, actions, s);
      }
    } else {
      var actions, s := OneOpenTooMany(native, Ipv4([0, 0, 0, 0]));
      assert Reachable(native, actions, s) && |s.locals| <= n && !Isolated(s);
    }
  }
}
