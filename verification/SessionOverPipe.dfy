/** A session whose client writes into the packet-up pipe: records become parts of numbered POSTs,
    which complete in any order or not at all, and the server's reader gets them back in pieces of
    any size. The client is side A; the other direction is a plain stream.

    The link's `toB` only remembers what was written and not read yet. */
module SessionOverPipe {
  import opened Prelude
  import opened Noise
  import Frame
  import Session
  import opened SessionWire
  import S = SessionRuns
  import P = PacketPipe

  /** `read` is how much of what came out of the pipe the server's session has taken. */
  datatype Carried = Carried(link: S.Link, pipe: P.Pipe<Symbol>, read: nat)

  datatype Action = OfSession(step: S.Step) | OfPipe(event: P.Event<Symbol>) | Receive

  function Start(intervalA: nat, intervalB: nat): Carried {
    Carried(S.Start(intervalA, intervalB), P.Fresh(), 0)
  }

  /** What the server's reader can see: a record may have arrived in part. */
  function Available(c: Carried): Stream {
    if c.read <= |c.pipe.done| then c.pipe.done[c.read..] else []
  }

  ghost predicate Enabled(c: Carried, a: Action) {
    match a
    case OfSession(step) => S.CanStep(c.link, step) && (step.side.B? ==> !step.action.OpenNext?)
    case OfPipe(e) => P.Possible(c.pipe, e) && !e.Write?
    case Receive => S.Enabled(c.link.b, Available(c), S.OpenNext)
  }

  ghost function After(c: Carried, a: Action): Carried
    requires Enabled(c, a)
  {
    match a
    case OfSession(step) =>
      var written := if step.side.A? then S.Act(c.link.a, c.link.toA, step.action).2 else [];
      c.(link := S.After(c.link, step), pipe := P.Step(c.pipe, P.Write(written)))
    case OfPipe(e) => c.(pipe := P.Step(c.pipe, e))
    case Receive =>
      var (b, rest, _) := S.Act(c.link.b, Available(c), S.OpenNext);
      var taken := |Available(c)| - |rest|;
      c.(link := c.link.(b := b, toB := if 0 <= taken <= |c.link.toB| then c.link.toB[taken..] else []),
         read := c.read + Max(taken, 0))
  }

  ghost predicate Reachable(start: Carried, actions: seq<Action>, c: Carried)
    decreases |actions|, 1
  {
    if actions == [] then c == start
    else exists before :: ReachableBy(start, actions, before, c)
  }

  ghost predicate ReachableBy(start: Carried, actions: seq<Action>, before: Carried, c: Carried)
    requires actions != []
    decreases |actions|, 0
  {
    var n := |actions| - 1;
    Reachable(start, actions[..n], before) && Enabled(before, actions[n]) && c == After(before, actions[n])
  }

  /** What was written and not read is what the session has in flight; it may be anywhere between
      the write buffer and the reader, and the reader sees a beginning of it. */
  ghost predicate Inv(c: Carried) {
    && S.InStep(c.link)
    && P.Good(c.pipe)
    && c.read <= |c.pipe.done| <= |c.pipe.written|
    && c.pipe.written[c.read..] == c.link.toB
  }

  lemma DoneIsWritten(pipe: P.Pipe<Symbol>)
    requires P.Good(pipe)
    ensures pipe.done <= pipe.written
  {
    P.ReadableUpToMissing(pipe);
    assert Concat(pipe.chunks) + pipe.buf == pipe.written;
  }

  /** A beginning of a stream either does not hold the first record yet or opens it alike. */
  lemma OpensAlike(at: Chain, s: Stream, p: Stream)
    requires p <= s
    ensures match OpenFirst(at, p)
      case Incomplete => true
      case Broken => OpenFirst(at, s) == Broken
      case Opened(frame, rest) => OpenFirst(at, s) == Opened(frame, rest + s[|p|..])
  {
    hide OpenAt, Frame.Decode;
    match ReadRecord(p)
    case More =>
    case NotLength =>
    case Got(body, rest) =>
      var n := 2 + |body|;
      assert s[2..n] == p[2..n] && s[n..] == p[n..] + s[|p|..];
  }

  /** What is left after the first record is an end of what there was. */
  lemma RestOf(at: Chain, s: Stream)
    ensures OpenFirst(at, s).Opened? ==>
      var rest := OpenFirst(at, s).rest; |rest| <= |s| && rest == s[|s| - |rest|..]
  {
    hide OpenAt, Frame.Decode;
  }

  /** A reader that sees a beginning of what is in flight acts on it alike. */
  lemma ActsAlike(b: S.Endpoint, s: Stream, seen: Stream)
    requires seen <= s && S.Enabled(b, seen, S.OpenNext)
    ensures S.Enabled(b, s, S.OpenNext) && S.Act(b, seen, S.OpenNext).0 == S.Act(b, s, S.OpenNext).0
    ensures S.Act(b, s, S.OpenNext).2 == []
    ensures var rest := S.Act(b, seen, S.OpenNext).1;
      |rest| <= |seen| && S.Act(b, s, S.OpenNext).1 == s[|seen| - |rest|..]
  {
    hide OpenFirst, Frame.FromFrame;
    OpensAlike(b.incoming, s, seen);
    RestOf(b.incoming, seen);
    assert s == seen + s[|seen|..];
    var taken := |seen| - |S.Act(b, seen, S.OpenNext).1|;
    assert s[taken..] == seen[taken..] + s[|seen|..];
  }

  /** Opening what is available is opening what is in flight. */
  lemma ReceiveKeeps(c: Carried)
    requires Inv(c) && Enabled(c, Receive)
    ensures Inv(After(c, Receive))
  {
    hide S.InStep, S.Act, S.Enabled, P.Good;
    var l, seen := c.link, Available(c);
    DoneIsWritten(c.pipe);
    assert seen <= l.toB;
    ActsAlike(l.b, l.toB, seen);
    S.StepKeeps(l, S.Step(S.B, S.OpenNext));
    assert l.toA + [] == l.toA;
  }

  lemma SessionKeeps(c: Carried, step: S.Step)
    requires Inv(c) && Enabled(c, OfSession(step))
    ensures Inv(After(c, OfSession(step)))
  {
    hide OpenFirst, Frame.FromFrame, S.InStep, P.Good, SealedRecord, S.Dropped;
    S.StepKeeps(c.link, step);
    var written := if step.side.A? then S.Act(c.link.a, c.link.toA, step.action).2 else [];
    P.StepKeeps(c.pipe, P.Write(written));
    assert (c.pipe.written + written)[c.read..] == c.pipe.written[c.read..] + written;
    assert step.side.B? ==> c.link.toB + [] == c.link.toB;
  }

  lemma PipeKeeps(c: Carried, e: P.Event<Symbol>)
    requires Inv(c) && Enabled(c, OfPipe(e))
    ensures Inv(After(c, OfPipe(e)))
  {
    hide S.InStep, P.Good, P.Delivered;
    P.StepKeeps(c.pipe, e);
    DoneIsWritten(P.Step(c.pipe, e));
  }

  lemma StepKeeps(c: Carried, a: Action)
    requires Inv(c) && Enabled(c, a)
    ensures Inv(After(c, a))
  {
    hide Inv;
    match a
    case OfSession(step) => SessionKeeps(c, step);
    case OfPipe(e) => PipeKeeps(c, e);
    case Receive => ReceiveKeeps(c);
  }

  lemma StartsInStep(intervalA: nat, intervalB: nat)
    ensures Inv(Start(intervalA, intervalB))
  {
    S.EveryRunInStep(intervalA, intervalB, [], S.Start(intervalA, intervalB));
  }

  lemma {:induction false} EveryRunInStep(intervalA: nat, intervalB: nat, actions: seq<Action>, c: Carried)
    requires Reachable(Start(intervalA, intervalB), actions, c)
    ensures Inv(c)
  {
    hide Inv, Enabled, After, Start;
    var start := Start(intervalA, intervalB);
    if actions == [] {
      StartsInStep(intervalA, intervalB);
    } else {
      var n := |actions| - 1;
      var before :| ReachableBy(start, actions, before, c);
      EveryRunInStep(intervalA, intervalB, actions[..n], before);
      StepKeeps(before, actions[n]);
    }
  }

  /** Everything written was flushed, arrived and was read. */
  ghost predicate Drained(c: Carried) {
    && c.pipe.buf == [] && (forall k :: 0 <= k < |c.pipe.chunks| ==> k in c.pipe.arrived)
    && c.pipe.reader.buf == [] && c.pipe.reader.queue == [] && c.read == |c.pipe.done|
  }

  lemma NothingInFlight(c: Carried)
    requires Inv(c) && Drained(c)
    ensures c.link.toB == []
  {
    hide S.InStep;
    P.ReadableUpToMissing(c.pipe);
    assert c.pipe.done + [] + Concat([]) == c.pipe.done;
    assert Concat(c.pipe.chunks) + [] == Concat(c.pipe.chunks);
  }

  lemma WholeOnceDrained(s: S.Endpoint, flying: Stream, r: S.Endpoint)
    requires S.Delivers(s, flying, r) && s.queue == [] && flying == []
    ensures S.SplitsOf(s.submitted, r.got)
  {
  }

  /** End to end over any run of POSTs: whatever the flushes, the order and losses of the POSTs and
      the sizes of the reads, the server has received the beginning of a split of what the client
      submitted, and a whole one once everything is sealed and has come through. */
  lemma EndToEnd(intervalA: nat, intervalB: nat, actions: seq<Action>, c: Carried)
    requires Reachable(Start(intervalA, intervalB), actions, c)
    ensures S.Delivers(c.link.a, c.link.toB, c.link.b) && S.Delivers(c.link.b, c.link.toA, c.link.a)
    ensures c.link.a.queue == [] && Drained(c) ==> S.SplitsOf(c.link.a.submitted, c.link.b.got)
  {
    hide Reachable, S.Delivers, S.SenderOk, S.ReceiverOk, P.Good;
    EveryRunInStep(intervalA, intervalB, actions, c);
    S.SenderLogIsGood(c.link);
    S.DirectionDelivers(ToResponder, c.link.a, c.link.toB, c.link.b);
    S.DirectionDelivers(ToInitiator, c.link.b, c.link.toA, c.link.a);
    if c.link.a.queue == [] && Drained(c) {
      NothingInFlight(c);
      WholeOnceDrained(c.link.a, c.link.toB, c.link.b);
    }
  }
}
