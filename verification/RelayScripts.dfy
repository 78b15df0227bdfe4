/** What the client announces: while the writer lives, the events of a stream between its socket and
    the server are its Open, its payloads and, once its socket has ended, its Close, in that order. */
module RelayScripts {
  import opened Prelude
  import opened Frame
  import opened SessionWire
  import opened Relay
  import RelayRuns

  predicate IsSignal(ev: MuxEvent) {
    ev.Open? || ev.Close?
  }

  function Signal(m: Msg, k: int): seq<MuxEvent> {
    if m.owner == k && IsSignal(m.ev) then [m.ev] else []
  }

  /** The Opens and Closes of one stream, in order. */
  function Signals(ms: seq<Msg>, k: int): seq<MuxEvent> {
    if ms == [] then [] else Signals(ms[..|ms| - 1], k) + Signal(ms[|ms| - 1], k)
  }

  /** What a stream must have announced. */
  function Expected(locals: seq<Local>, k: int): seq<MuxEvent> {
    if !(0 <= k < |locals|) || locals[k].phase.Allocated? then []
    else [Open(locals[k].af)] + if locals[k].phase.Ended? then [Close(locals[k].af.streamId)] else []
  }

  /** Nothing of `b` belongs to a stream that `a` closes. */
  ghost predicate Ahead(a: seq<Msg>, b: seq<Msg>) {
    forall x, y :: x in a && y in b && x.owner == y.owner ==> !x.ev.Close?
  }

  /** Nothing of a stream comes after its Close. */
  ghost predicate ClosesLast(ms: seq<Msg>) {
    forall i, j :: 0 <= i < j < |ms| && ms[i].owner == ms[j].owner ==> !ms[i].ev.Close?
  }

  ghost predicate Scripted(s: Tunnel) {
    !s.stopped ==>
      && (forall k: int :: Signals(RelayRuns.Pipeline(s), k) == Expected(s.locals, k))
      && ClosesLast(RelayRuns.Pipeline(s))
  }

  lemma {:induction false} SignalsAppend(a: seq<Msg>, b: seq<Msg>, k: int)
    ensures Signals(a + b, k) == Signals(a, k) + Signals(b, k)
  {
    hide Signal;
    if b == [] {
      assert a + b == a;
    } else {
      var n := |b| - 1;
      SignalsAppend(a, b[..n], k);
      assert (a + b)[..|a + b| - 1] == a + b[..n];
    }
  }

  lemma {:induction false} NoSignals(ms: seq<Msg>, k: int)
    requires forall i :: 0 <= i < |ms| ==> !IsSignal(ms[i].ev)
    ensures Signals(ms, k) == []
  {
    if ms != [] {
      NoSignals(ms[..|ms| - 1], k);
    }
  }

  lemma {:induction false} ClosesAreSignals(ms: seq<Msg>, m: Msg)
    requires m in ms && m.ev.Close?
    ensures m.ev in Signals(ms, m.owner)
  {
    var n := |ms| - 1;
    if ms[n] != m {
      assert m in ms[..n];
      ClosesAreSignals(ms[..n], m);
    }
  }

  lemma SignalsSnoc(ms: seq<Msg>, m: Msg)
    ensures forall k: int :: Signals(ms + [m], k) == Signals(ms, k) + Signal(m, k)
  {
    assert (ms + [m])[..|ms|] == ms;
  }

  lemma OrderSplits(a: seq<Msg>, b: seq<Msg>)
    ensures ClosesLast(a + b) <==> ClosesLast(a) && ClosesLast(b) && Ahead(a, b)
  {
    var ms := a + b;
    if ClosesLast(ms) {
      forall i, j | 0 <= i < j < |b| && b[i].owner == b[j].owner
        ensures !b[i].ev.Close?
      {
        assert ms[|a| + i] == b[i] && ms[|a| + j] == b[j];
      }
      forall i, j | 0 <= i < j < |a| && a[i].owner == a[j].owner
        ensures !a[i].ev.Close?
      {
        assert ms[i] == a[i] && ms[j] == a[j];
      }
      forall x, y | x in a && y in b && x.owner == y.owner
        ensures !x.ev.Close?
      {
        var i :| 0 <= i < |a| && a[i] == x;
        var j :| 0 <= j < |b| && b[j] == y;
        assert ms[i] == x && ms[|a| + j] == y;
      }
    }
    if ClosesLast(a) && ClosesLast(b) && Ahead(a, b) {
      forall i, j | 0 <= i < j < |ms| && ms[i].owner == ms[j].owner
        ensures !ms[i].ev.Close?
      {
        if j >= |a| {
          assert ms[j] == b[j - |a|];
          if i < |a| {
            assert ms[i] in a && ms[j] in b;
          } else {
            assert ms[i] == b[i - |a|];
          }
        }
      }
    }
  }

  lemma NothingCloses(ps: seq<Msg>)
    requires forall i :: 0 <= i < |ps| ==> !ps[i].ev.Close?
    ensures ClosesLast(ps)
  {
  }

  /** What stands in the middle may be replaced by messages of the same stream that close nothing. */
  lemma MiddleReplaced(before: seq<Msg>, m: Msg, ps: seq<Msg>, after: seq<Msg>)
    requires ClosesLast(before + [m] + after)
    requires forall i :: 0 <= i < |ps| ==> ps[i].owner == m.owner && !ps[i].ev.Close?
    ensures ClosesLast(before + ps + after)
  {
    OrderSplits(before + [m], after);
    OrderSplits(before, [m]);
    OrderSplits(before, ps);
    OrderSplits(before + ps, after);
    hide ClosesLast;
    assert m in [m];
    forall x, y | x in before + ps && y in after && x.owner == y.owner
      ensures !x.ev.Close?
    {
      if x in before {
        assert x in before + [m];
      }
    }
    assert ClosesLast(ps) by {
      NothingCloses(ps);
    }
  }

  /** One event pushed by a stream that has not closed. */
  lemma PushedLast(ms: seq<Msg>, m: Msg)
    requires ClosesLast(ms) && forall ev :: ev in Signals(ms, m.owner) ==> !ev.Close?
    ensures ClosesLast(ms + [m])
  {
    hide Signals;
    OrderSplits(ms, [m]);
    forall x | x in ms && x.owner == m.owner
      ensures !x.ev.Close?
    {
      if x.ev.Close? {
        ClosesAreSignals(ms, x);
      }
    }
  }

  /** A step that pushes one event, or none. */
  lemma PushKeeps(s: Tunnel, m: Msg, t: Tunnel)
    requires Scripted(s) && !s.stopped && t.stopped == s.stopped
    requires RelayRuns.Pipeline(t) == RelayRuns.Pipeline(s) + [m]
    requires forall ev :: ev in Expected(s.locals, m.owner) ==> !ev.Close?
    requires forall k: int :: Expected(t.locals, k) == Expected(s.locals, k) + Signal(m, k)
    ensures Scripted(t)
  {
    hide Signals, Expected, Signal, ClosesLast, RelayRuns.Pipeline;
    var ms := RelayRuns.Pipeline(s);
    SignalsSnoc(ms, m);
    PushedLast(ms, m);
  }

  lemma QuietKeeps(s: Tunnel, t: Tunnel)
    requires Scripted(s) && (!t.stopped ==> !s.stopped)
    requires RelayRuns.Pipeline(t) == RelayRuns.Pipeline(s)
    requires forall k: int :: Expected(t.locals, k) == Expected(s.locals, k)
    ensures Scripted(t)
  {
    hide Signals, Expected, ClosesLast, RelayRuns.Pipeline;
  }

  lemma Cons(s: Tunnel)
    requires s.outbound != []
    ensures RelayRuns.Pipeline(s) == s.processed + s.wire + [s.outbound[0]] + s.outbound[1..]
  {
    assert s.outbound == [s.outbound[0]] + s.outbound[1..];
  }

  /** The writer's head is passed on in pieces, or taken out. */
  lemma HeadKeeps(s: Tunnel, ps: seq<Msg>, t: Tunnel)
    requires Scripted(s) && t.stopped == s.stopped && t.locals == s.locals && s.outbound != []
    requires RelayRuns.Pipeline(t) == s.processed + s.wire + ps + s.outbound[1..]
    requires var m := s.outbound[0];
      || ps == [m]
      || (!IsSignal(m.ev) && forall i :: 0 <= i < |ps| ==> ps[i].owner == m.owner && !IsSignal(ps[i].ev))
    ensures Scripted(t)
  {
    hide Expected, Signal, RelayRuns.Pipeline;
    var before, m, after := s.processed + s.wire, s.outbound[0], s.outbound[1..];
    assert RelayRuns.Pipeline(s) == before + [m] + after by {
      Cons(s);
    }
    if ps != [m] && !s.stopped {
      MiddleReplaced(before, m, ps, after);
      forall k: int
        ensures Signals(RelayRuns.Pipeline(t), k) == Signals(RelayRuns.Pipeline(s), k)
      {
        SignalsAppend(before + ps, after, k);
        SignalsAppend(before, ps, k);
        SignalsAppend(before + [m], after, k);
        SignalsAppend(before, [m], k);
        NoSignals(ps, k);
        NoSignals([m], k);
      }
    }
  }

  /** One local end changes with the event it pushes. */
  lemma LocalChanges(locals: seq<Local>, j: nat, l: Local, m: Msg)
    requires j < |locals| && m.owner == j && l.af == locals[j].af
    requires if l.phase == locals[j].phase then !IsSignal(m.ev) && !l.phase.Ended?
      else if l.phase.Reading? then locals[j].phase.Allocated? && m.ev == Open(l.af)
      else locals[j].phase.Reading? && l.phase.Ended? && m.ev == Close(l.af.streamId)
    ensures forall k: int :: Expected(locals[j := l], k) == Expected(locals, k) + Signal(m, k)
    ensures forall ev :: ev in Expected(locals, m.owner) ==> !ev.Close?
  {
  }

  lemma OneMoreOut(s: Tunnel, t: Tunnel, m: Msg)
    requires t.processed == s.processed && t.wire == s.wire && t.outbound == s.outbound + [m]
    ensures RelayRuns.Pipeline(t) == RelayRuns.Pipeline(s) + [m]
  {
  }

  /** Steps of a local end that push an event. */
  lemma LocalStep(s: Tunnel, a: Action)
    requires Scripted(s) && Enabled(s, a)
    requires a.SendOpen? || a.Push? || a.Finish? || a.SendDatagram?
    ensures Scripted(After(s, a))
  {
    hide Signals, Signal, Expected, ClosesLast, RelayRuns.Pipeline, Scripted;
    var t := After(s, a);
    var k := a.k;
    var m := t.outbound[|s.outbound|];
    OneMoreOut(s, t, m);
    LocalChanges(s.locals, k, t.locals[k], m);
    assert t.locals == s.locals[k := t.locals[k]];
    PushKeeps(s, m, t);
  }

  lemma IdleStep(s: Tunnel)
    requires Scripted(s) && Enabled(s, Idle)
    ensures Scripted(After(s, Idle))
  {
    hide Signals, ClosesLast, RelayRuns.Pipeline, Scripted;
    OneMoreOut(s, After(s, Idle), Msg(-1, KeepAlive));
    PushKeeps(s, Msg(-1, KeepAlive), After(s, Idle));
  }

  lemma WriterStep(s: Tunnel, a: Action)
    requires Scripted(s) && Enabled(s, a) && (a.WriteNative? || a.WriteStream? || a.WriteFails?)
    ensures Scripted(After(s, a))
  {
    hide Signals, Signal, Expected, ClosesLast, BeginsSplit, DataIn;
    var t := After(s, a);
    match a
    case WriteNative =>
      assert s.processed + s.wire + [] == s.processed + s.wire;
      HeadKeeps(s, [], t);
    case WriteStream(pieces) =>
      var ps := Labelled(s.outbound[0].owner, pieces);
      assert s.processed + (s.wire + ps) + s.outbound[1..] == s.processed + s.wire + ps + s.outbound[1..];
      if !s.outbound[0].ev.Data? {
        assert ps == [s.outbound[0]];
      }
      HeadKeeps(s, ps, t);
    case WriteFails(_) =>
  }

  lemma ServeStep(s: Tunnel, connects: bool)
    requires Scripted(s) && Enabled(s, Serve(connects))
    ensures Scripted(After(s, Serve(connects)))
  {
    hide Signals, Signal, Expected, ClosesLast, Dispatched;
    var t := After(s, Serve(connects));
    assert s.wire == [s.wire[0]] + s.wire[1..];
    assert s.processed + [s.wire[0]] + s.wire[1..] == s.processed + s.wire;
    QuietKeeps(s, t);
  }

  lemma QuietStep(s: Tunnel, a: Action)
    requires Scripted(s) && Enabled(s, a)
    requires a.Allocate? || a.Read? || a.Abort? || a.Arrive? || a.StopServing? || a.WriteTarget? || a.EndTarget?
    ensures Scripted(After(s, a))
  {
    hide Signals, Signal, ClosesLast, Dispatched, Written;
    var t := After(s, a);
    assert RelayRuns.Pipeline(t) == RelayRuns.Pipeline(s);
    if a.Abort? {
      assert t.stopped;
    } else {
      QuietKeeps(s, t);
    }
  }

  lemma StepKeeps(s: Tunnel, a: Action)
    requires Scripted(s) && Enabled(s, a)
    ensures Scripted(After(s, a))
  {
    hide Scripted, Enabled, After;
    match a
    case Serve(connects) => ServeStep(s, connects);
    case WriteNative => WriterStep(s, a);
    case WriteStream(_) => WriterStep(s, a);
    case WriteFails(_) => WriterStep(s, a);
    case SendOpen(_) => LocalStep(s, a);
    case Push(_) => LocalStep(s, a);
    case Finish(_) => LocalStep(s, a);
    case SendDatagram(_, _) => LocalStep(s, a);
    case Idle => IdleStep(s);
    case _ => QuietStep(s, a);
  }

  /** In every run, as long as the writer has not stopped: what is on its way of a stream, or was
      dispatched, is announced by exactly one Open once the stream is open, is closed by exactly one
      Close once its socket has ended, and nothing of it comes after that. */
  lemma {:induction false} EveryRunIsScripted(native: Option<nat>, actions: seq<Action>, s: Tunnel)
    requires Reachable(native, actions, s)
    ensures Scripted(s)
  {
    if actions != [] {
      hide Scripted, Enabled, After;
      var n := |actions| - 1;
      var before :| ReachableBy(native, actions, before, s);
      EveryRunIsScripted(native, actions[..n], before);
      StepKeeps(before, actions[n]);
    }
  }
}
