/** What a log of sealed packets puts on the wire, what a receiver makes of it, and the writer
    and reader halves of a session. */
module SessionWire {
  import opened Prelude
  import opened Frame
  import opened Noise
  import opened Session

  const REKEY := Frame(Rekey, [])

  // ---- The log of everything one side sealed ----

  predicate IsRekey(p: Packet) {
    p.frame == REKEY
  }

  /** A log holds rekey packets and packets of events, all of them sealable. */
  ghost predicate GoodPacket(p: Packet) {
    Sealable(p) && (IsRekey(p) || exists ev :: Sendable(ev) && p.frame == ToFrame(ev))
  }

  ghost predicate GoodLog(log: seq<Packet>) {
    forall i :: 0 <= i < |log| ==> GoodPacket(log[i])
  }

  function Rekeys(log: seq<Packet>): nat {
    if log == [] then 0 else Rekeys(log[..|log| - 1]) + if IsRekey(log[|log| - 1]) then 1 else 0
  }

  /** Key generation and nonce at the record boundary after `log`. */
  function ChainAt(dir: Dir, log: seq<Packet>): Chain {
    Chain(dir, Rekeys(log), |log|)
  }

  function Plain(p: Packet): (r: bytes)
    requires Sealable(p)
    ensures |r| == PlainLength(p)
  {
    Image(p.frame, Zeros(p.pad))
  }

  function SealedRecord(c: Chain, p: Packet): Stream
    requires Sealable(p)
  {
    Record(SealAt(c, Plain(p)))
  }

  ghost function WireFrom(dir: Dir, log: seq<Packet>, r: nat): Stream
    requires GoodLog(log) && r <= |log|
    decreases |log| - r
  {
    if r == |log| then [] else SealedRecord(ChainAt(dir, log[..r]), log[r]) + WireFrom(dir, log, r + 1)
  }

  function EventIn(p: Packet): seq<MuxEvent> {
    match FromFrame(p.frame)
    case Ok(ev) => [ev]
    case Err(_) => []
  }

  /** The multiplexer events a log carries, in order. */
  function EventsOf(log: seq<Packet>): seq<MuxEvent> {
    if log == [] then []
    else EventsOf(log[..|log| - 1]) + EventIn(log[|log| - 1])
  }

  lemma LogSnoc(dir: Dir, log: seq<Packet>, p: Packet)
    ensures Rekeys(log + [p]) == Rekeys(log) + if IsRekey(p) then 1 else 0
    ensures EventsOf(log + [p]) == EventsOf(log) + EventIn(p)
  {
    assert (log + [p])[..|log|] == log;
  }

  lemma {:induction false} EventsAppend(a: seq<Packet>, b: seq<Packet>)
    ensures EventsOf(a + b) == EventsOf(a) + EventsOf(b)
  {
    hide EventIn;
    if b == [] {
      assert a + b == a;
    } else {
      var n := |b| - 1;
      EventsAppend(a, b[..n]);
      assert a + b == (a + b[..n]) + [b[n]] && b == b[..n] + [b[n]];
      hide EventsOf;
      LogSnoc(ToResponder, a + b[..n], b[n]);
      LogSnoc(ToResponder, b[..n], b[n]);
      Assoc(EventsOf(a), EventsOf(b[..n]), EventIn(b[n]));
    }
  }

  lemma {:induction false} WireSnoc(dir: Dir, log: seq<Packet>, p: Packet, r: nat)
    requires GoodLog(log) && GoodPacket(p) && r <= |log|
    ensures GoodLog(log + [p])
    ensures WireFrom(dir, log + [p], r) == WireFrom(dir, log, r) + SealedRecord(ChainAt(dir, log), p)
    decreases |log| - r
  {
    var after := log + [p];
    assert after[..r] == log[..r];
    if r == |log| {
      assert after[..r] == log;
      assert WireFrom(dir, after, r + 1) == [];
    } else {
      WireSnoc(dir, log, p, r + 1);
      Assoc(SealedRecord(ChainAt(dir, log[..r]), log[r]), WireFrom(dir, log, r + 1),
        SealedRecord(ChainAt(dir, log), p));
    }
  }

  // ---- Receiving ----

  /** The first record of a stream under a chain: not complete, broken, or a frame. */
  datatype Opened = Incomplete | Broken | Opened(frame: Frame, rest: Stream)

  function OpenFirst(c: Chain, s: Stream): (r: Opened)
    ensures r.Opened? ==> |r.rest| < |s|
  {
    match ReadRecord(s)
    case More => Incomplete
    case NotLength => Broken
    case Got(body, rest) =>
      match OpenAt(c, body)
      case None => Broken
      case Some(plaintext) =>
        match Decode(plaintext)
        case Err(_) => Broken
        case Ok(frame) => Opened(frame, rest)
  }

  /** The record after `r` opens at the record boundary's chain, to the frame that was sealed,
      and at no other chain. */
  lemma NextRecordOpens(dir: Dir, log: seq<Packet>, r: nat, c: Chain)
    requires GoodLog(log) && r < |log|
    ensures OpenFirst(c, WireFrom(dir, log, r)) ==
      if c == ChainAt(dir, log[..r]) then Opened(log[r].frame, WireFrom(dir, log, r + 1)) else Broken
  {
    var p := log[r];
    var at := ChainAt(dir, log[..r]);
    assert GoodPacket(p);
    RecordRoundTrip(SealAt(at, Plain(p)), WireFrom(dir, log, r + 1), 0);
    OpensExactlySealed(at, c, Plain(p));
    DecodeInvertsImage(p.frame, Zeros(p.pad));
  }

  /** What receiving one frame means: rekeys are followed and never surface. */
  datatype Received = Waits | Fails | Receives(frame: Frame)

  function Receive(c: Chain, s: Stream): (Received, Chain, Stream)
    decreases |s|
  {
    match OpenFirst(c, s)
    case Incomplete => (Waits, c, s)
    case Broken => (Fails, c, s)
    case Opened(frame, rest) =>
      if frame.ftype == Rekey then Receive(Rekeyed(Next(c)), rest)
      else (Receives(frame), Next(c), rest)
  }

  /** The index of the first packet from `r` on that is not a rekey, or the end of the log. */
  function SkipRekeys(log: seq<Packet>, r: nat): (k: nat)
    requires r <= |log|
    ensures r <= k <= |log|
    ensures forall i :: r <= i < k ==> IsRekey(log[i])
    ensures k < |log| ==> !IsRekey(log[k])
    decreases |log| - r
  {
    if r < |log| && IsRekey(log[r]) then SkipRekeys(log, r + 1) else r
  }

  lemma NothingArrived(c: Chain)
    ensures OpenFirst(c, []) == Incomplete
  {
  }

  lemma NextBoundary(dir: Dir, log: seq<Packet>, r: nat)
    requires r < |log|
    ensures ChainAt(dir, log[..r + 1]) ==
      if IsRekey(log[r]) then Rekeyed(Next(ChainAt(dir, log[..r]))) else Next(ChainAt(dir, log[..r]))
  {
    assert log[..r + 1] == log[..r] + [log[r]];
    LogSnoc(dir, log[..r], log[r]);
  }

  lemma TypeTellsRekey(p: Packet)
    requires GoodPacket(p)
    ensures IsRekey(p) <==> p.frame.ftype == Rekey
    ensures !IsRekey(p) ==> FromFrame(p.frame).Ok?
  {
    if !IsRekey(p) {
      var ev :| Sendable(ev) && p.frame == ToFrame(ev);
      EventRoundTrip(ev);
    }
  }

  /** From any record boundary of a log the receiver gets exactly the next frame that is not a
      rekey and ends at the boundary after it, in step with the sender's key and nonce. */
  lemma {:induction false} ReceivesNextFrame(dir: Dir, log: seq<Packet>, r: nat)
    requires GoodLog(log) && r <= |log|
    ensures var k := SkipRekeys(log, r);
      Receive(ChainAt(dir, log[..r]), WireFrom(dir, log, r)) ==
      if k < |log| then (Receives(log[k].frame), ChainAt(dir, log[..k + 1]), WireFrom(dir, log, k + 1))
      else (Waits, ChainAt(dir, log), [])
    decreases |log| - r
  {
    hide OpenFirst, ChainAt, SealedRecord, GoodPacket;
    if r == |log| {
      NothingArrived(ChainAt(dir, log));
      assert log[..r] == log;
    } else {
      NextRecordOpens(dir, log, r, ChainAt(dir, log[..r]));
      NextBoundary(dir, log, r);
      TypeTellsRekey(log[r]);
      if IsRekey(log[r]) {
        ReceivesNextFrame(dir, log, r + 1);
      }
    }
  }

  // ---- Splitting of Data ----

  function DataIn(ps: seq<MuxEvent>): bytes {
    if ps == [] then []
    else DataIn(ps[..|ps| - 1]) + var e := ps[|ps| - 1]; if e.Data? then e.data else []
  }

  /** One event as the receiver sees it: Data in one or more pieces of the same stream that
      concatenate to it, anything else whole. */
  ghost predicate SplitOf(ev: MuxEvent, ps: seq<MuxEvent>) {
    if ev.Data? then
      && ps != []
      && (forall i :: 0 <= i < |ps| ==> ps[i].Data? && ps[i].streamId == ev.streamId)
      && DataIn(ps) == ev.data
    else ps == [ev]
  }

  ghost predicate GoodFrame(p: Packet) {
    IsRekey(p) || exists ev :: Sendable(ev) && p.frame == ToFrame(ev)
  }

  /** A packet plan for one event. */
  ghost predicate PlanFor(ev: MuxEvent, plan: seq<Packet>) {
    && Sendable(ev)
    && (forall i :: 0 <= i < |plan| ==> GoodFrame(plan[i]) && !IsRekey(plan[i]))
    && SplitOf(ev, EventsOf(plan))
  }

  lemma WholePlan(ev: MuxEvent, p: Packet)
    requires Sendable(ev) && p.frame == ToFrame(ev)
    ensures PlanFor(ev, [p]) && EventsOf([p]) == [ev] && GoodFrame(p)
  {
    EventRoundTrip(ev);
    LogSnoc(ToResponder, [], p);
    assert [] + [p] == [p];
    assert DataIn([ev]) == DataIn([]) + if ev.Data? then ev.data else [];
  }

  lemma WholeLength(ev: MuxEvent)
    requires Sendable(ev)
    ensures ev.Data? ==> |ToFrame(ev).payload| == STREAM_ID_LEN + |ev.data|
  {
  }

  lemma DataSnoc(ps: seq<MuxEvent>, e: MuxEvent)
    ensures DataIn(ps + [e]) == DataIn(ps) + if e.Data? then e.data else []
  {
    assert (ps + [e])[..|ps|] == ps;
  }

  /** A StreamData packet carries its piece. */
  lemma CarriesPiece(streamId: u16, p: Packet)
    requires p.frame == ToFrame(Data(streamId, Piece(p)))
    ensures EventIn(p) == [Data(streamId, Piece(p))] && GoodFrame(p) && !IsRekey(p)
  {
    hide Piece;
    EventRoundTrip(Data(streamId, Piece(p)));
  }

  /** The shaper's output is a plan for the Data event it cuts. */
  lemma {:induction false} ShapedEvents(streamId: u16, plan: seq<Packet>)
    requires forall i :: 0 <= i < |plan| ==> plan[i].frame == ToFrame(Data(streamId, Piece(plan[i])))
    ensures |EventsOf(plan)| == |plan| && DataIn(EventsOf(plan)) == Pieces(plan)
    ensures forall i :: 0 <= i < |plan| ==> EventsOf(plan)[i] == Data(streamId, Piece(plan[i]))
  {
    hide ToFrame, Piece, EventIn;
    if plan != [] {
      var n, p := |plan| - 1, plan[|plan| - 1];
      var piece := Data(streamId, Piece(p));
      hide EventsOf, DataIn, Pieces;
      ShapedEvents(streamId, plan[..n]);
      CarriesPiece(streamId, p);
      LogSnoc(ToResponder, plan[..n], p);
      DataSnoc(EventsOf(plan[..n]), piece);
      PiecesSnoc(plan[..n], p);
      assert plan == plan[..n] + [p];
    }
  }

  lemma ShapedCarries(streamId: u16, data: bytes, plan: seq<Packet>, source: nat -> nat, drawn: nat, i: nat)
    requires ShapedFor(streamId, data, plan, source, drawn) && i < |plan|
    ensures plan[i].frame == ToFrame(Data(streamId, Piece(plan[i]))) && GoodFrame(plan[i]) && !IsRekey(plan[i])
  {
    hide ToFrame, Piece, Pieces, GoodFrame, IsRekey;
    assert ShapedPacket(streamId, plan[i], source(drawn + i));
    CarriesPiece(streamId, plan[i]);
  }

  lemma ShapedIsPlan(streamId: u16, data: bytes, plan: seq<Packet>, source: nat -> nat, drawn: nat)
    requires ShapedFor(streamId, data, plan, source, drawn)
    ensures PlanFor(Data(streamId, data), plan)
  {
    hide ToFrame, Piece, Pieces, EventsOf, DataIn, GoodFrame, IsRekey, ShapedPacket;
    forall i | 0 <= i < |plan|
      ensures plan[i].frame == ToFrame(Data(streamId, Piece(plan[i]))) && GoodFrame(plan[i]) && !IsRekey(plan[i])
    {
      ShapedCarries(streamId, data, plan, source, drawn, i);
    }
    ShapedEvents(streamId, plan);
  }

  lemma NoEvents()
    ensures EventsOf([]) == []
  {
  }

  lemma PlanStep(before: seq<MuxEvent>, plan: seq<Packet>, i: nat)
    requires i < |plan|
    ensures before + EventsOf(plan[..i]) + EventIn(plan[i]) == before + EventsOf(plan[..i + 1])
  {
    hide EventsOf, EventIn;
    LogSnoc(ToResponder, plan[..i], plan[i]);
    assert plan[..i + 1] == plan[..i] + [plan[i]];
    Assoc(before, EventsOf(plan[..i]), EventIn(plan[i]));
  }

  lemma RekeyIsGood(r: Packet)
    requires IsRekey(r)
    ensures EventIn(r) == [] && GoodFrame(r)
  {
  }

  // ---- The two halves of a session ----

  ghost predicate PiecesOf(streamId: u16, data: bytes, ps: seq<MuxEvent>) {
    (forall i :: 0 <= i < |ps| ==> ps[i].Data? && ps[i].streamId == streamId) && DataIn(ps) == data
  }

  lemma NoPieces(streamId: u16)
    ensures PiecesOf(streamId, [], [])
  {
  }

  lemma {:induction false} DataAppend(a: seq<MuxEvent>, b: seq<MuxEvent>)
    ensures DataIn(a + b) == DataIn(a) + DataIn(b)
  {
    if b == [] {
      assert a + b == a;
    } else {
      var n := |b| - 1;
      DataAppend(a, b[..n]);
      assert (a + b)[..|a + b| - 1] == a + b[..n];
    }
  }

  lemma MorePieces(streamId: u16, data: bytes, ps: seq<MuxEvent>, more: bytes, qs: seq<MuxEvent>)
    requires PiecesOf(streamId, data, ps) && SplitOf(Data(streamId, more), qs)
    ensures PiecesOf(streamId, data + more, ps + qs) && qs != []
  {
    DataAppend(ps, qs);
  }

  /** One more chunk of a block. */
  lemma NextChunk(streamId: u16, data: bytes, off: nat, end: nat, ps: seq<MuxEvent>, qs: seq<MuxEvent>)
    requires off <= end <= |data|
    requires PiecesOf(streamId, data[..off], ps) && SplitOf(Data(streamId, data[off..end]), qs)
    ensures PiecesOf(streamId, data[..end], ps + qs) && ps + qs != []
  {
    hide PiecesOf, SplitOf;
    MorePieces(streamId, data[..off], ps, data[off..end], qs);
    assert data[..end] == data[..off] + data[off..end];
  }

  ghost predicate AllFull(ps: seq<MuxEvent>) {
    forall i :: 0 <= i < |ps| ==> ps[i].Data? && |ps[i].data| == MAX_STREAM_CHUNK
  }

  /** Every piece but the last is a whole chunk, and none is more. */
  ghost predicate FullChunks(ps: seq<MuxEvent>) {
    ps != [] ==> AllFull(ps[..|ps| - 1]) && ps[|ps| - 1].Data? && |ps[|ps| - 1].data| <= MAX_STREAM_CHUNK
  }

  lemma NoChunks()
    ensures AllFull([]) && FullChunks([])
  {
  }

  lemma OneMoreChunk(ps: seq<MuxEvent>, ev: MuxEvent)
    requires AllFull(ps) && ev.Data? && |ev.data| <= MAX_STREAM_CHUNK
    ensures FullChunks(ps + [ev]) && (|ev.data| == MAX_STREAM_CHUNK ==> AllFull(ps + [ev]))
  {
    assert (ps + [ev])[..|ps|] == ps;
  }

  lemma PiecesAreSplit(streamId: u16, data: bytes, ps: seq<MuxEvent>)
    requires PiecesOf(streamId, data, ps) && ps != []
    ensures SplitOf(Data(streamId, data), ps)
  {
  }

  lemma {:induction false} PieceWithin(plan: seq<Packet>, i: nat)
    requires i < |plan|
    ensures |Piece(plan[i])| <= |Pieces(plan)|
  {
    var n := |plan| - 1;
    if i < n {
      PieceWithin(plan[..n], i);
    }
  }

  lemma ShapedFits(streamId: u16, data: bytes, plan: seq<Packet>, source: nat -> nat, drawn: nat)
    requires ShapedFor(streamId, data, plan, source, drawn)
    ensures |data| <= MAX_PLAINTEXT - HEADER_LEN - STREAM_ID_LEN || (forall k: nat :: source(k) <= MAX_PLAINTEXT) ==>
      forall i :: 0 <= i < |plan| ==> Sealable(plan[i])
  {
    if |data| <= MAX_PLAINTEXT - HEADER_LEN - STREAM_ID_LEN || forall k: nat :: source(k) <= MAX_PLAINTEXT {
      forall i | 0 <= i < |plan|
        ensures Sealable(plan[i])
      {
        PieceWithin(plan, i);
        ShapedLengthsMeetTargets(streamId, data, plan, source, drawn, i);
      }
    }
  }

  class SessionWriter {
    const transport: Transport
    const sampler: LenSampler?
    ghost const dir: Dir
    var write: Stream
    var rekeyInterval: nat
    var sentFrames: nat
    /** Everything sealed so far. */
    ghost var log: seq<Packet>

    ghost predicate Valid()
      reads this, transport
    {
      && 0 <= sentFrames < rekeyInterval
      && GoodLog(log)
      && transport.outgoing == ChainAt(dir, log)
      && write == WireFrom(dir, log, 0)
    }

    constructor (transport: Transport, sampler: LenSampler?, rekeyInterval: nat)
      requires transport.outgoing == Chain(transport.outgoing.dir, 0, 0) && rekeyInterval >= 1
      ensures Valid() && log == [] && fresh(this)
      ensures this.transport == transport && this.sampler == sampler && this.rekeyInterval == rekeyInterval
      ensures dir == transport.outgoing.dir
    {
      this.transport := transport;
      this.sampler := sampler;
      this.dir := transport.outgoing.dir;
      this.rekeyInterval := rekeyInterval;
      write, sentFrames, log := [], 0, [];
    }

    /** Seal one packet and write its record; an oversized one is refused and nothing is sent. */
    method SealAndWrite(p: Packet) returns (ok: bool)
      requires GoodLog(log) && GoodFrame(p)
      requires transport.outgoing == ChainAt(dir, log) && write == WireFrom(dir, log, 0)
      modifies this`write, this`log, transport`outgoing
      ensures ok <==> Sealable(p)
      ensures log == if ok then old(log) + [p] else old(log)
      ensures GoodLog(log) && write == WireFrom(dir, log, 0)
      ensures transport.outgoing == if ok then Next(old(transport.outgoing)) else old(transport.outgoing)
    {
      var plaintext := Encode(p.frame, p.pad);
      if plaintext.Err? {
        return false;
      }
      var ciphertext := transport.Seal(plaintext.value);
      if ciphertext.Err? {
        return false;
      }
      WireSnoc(dir, log, p, 0);
      write, ok := WriteRecord(write, ciphertext.value);
      log := log + [p];
    }

    method RekeyOutgoing()
      requires GoodLog(log) && rekeyInterval >= 1
      requires transport.outgoing == ChainAt(dir, log) && write == WireFrom(dir, log, 0)
      modifies this, transport`outgoing, sampler
      ensures Valid() && rekeyInterval == old(rekeyInterval) && sentFrames == 0
      ensures EventsOf(log) == EventsOf(old(log))
      ensures exists r :: IsRekey(r) && log == old(log) + [r]
    {
      hide GoodLog, EventIn, WireFrom, GoodFrame;
      var pad := ChoosePad(sampler, 0);
      var r := Packet(REKEY, pad);
      RekeyIsGood(r);
      LogSnoc(dir, log, r);
      var ok := SealAndWrite(r);
      transport.RekeyOutgoing();
      sentFrames := 0;
      assert IsRekey(r) && log == old(log) + [r];
    }

    /** Seal a packet and, when the interval is reached, send a Rekey frame under the old key
        and only then replace it. */
    method SendPadded(p: Packet) returns (ok: bool)
      requires Valid() && GoodFrame(p) && !IsRekey(p)
      modifies this, transport`outgoing, sampler
      ensures Valid() && rekeyInterval == old(rekeyInterval)
      ensures ok <==> Sealable(p)
      ensures EventsOf(log) == EventsOf(old(log)) + if ok then EventIn(p) else []
      ensures !ok ==> log == old(log) && sentFrames == old(sentFrames)
      ensures ok && old(sentFrames) + 1 < rekeyInterval ==> log == old(log) + [p] && sentFrames == old(sentFrames) + 1
      ensures ok && old(sentFrames) + 1 >= rekeyInterval ==>
        exists r :: IsRekey(r) && log == old(log) + [p] + [r] && sentFrames == 0
    {
      ok := SealAndWrite(p);
      if !ok {
        return;
      }
      LogSnoc(dir, old(log), p);
      sentFrames := sentFrames + 1;
      if sentFrames >= rekeyInterval {
        RekeyOutgoing();
      }
    }

    /** Send a planned list of packets until one is refused. */
    method SendPlan(plan: seq<Packet>) returns (ok: bool, ghost sent: nat)
      requires Valid() && forall i :: 0 <= i < |plan| ==> GoodFrame(plan[i]) && !IsRekey(plan[i])
      modifies this, transport`outgoing, sampler
      ensures Valid() && rekeyInterval == old(rekeyInterval)
      ensures sent <= |plan| && EventsOf(log) == EventsOf(old(log)) + EventsOf(plan[..sent])
      ensures ok <==> sent == |plan|
      ensures ok <==> forall i :: 0 <= i < |plan| ==> Sealable(plan[i])
    {
      hide Valid, EventIn, EventsOf, GoodFrame, IsRekey, Sealable;
      ok, sent := true, 0;
      var i := 0;
      NoEvents();
      while i < |plan| && ok
        invariant Valid() && rekeyInterval == old(rekeyInterval)
        invariant 0 <= sent <= i <= |plan| && (ok ==> sent == i) && (!ok ==> sent < |plan| && !Sealable(plan[sent]))
        invariant forall j :: 0 <= j < sent ==> Sealable(plan[j])
        invariant EventsOf(log) == EventsOf(old(log)) + EventsOf(plan[..sent])
      {
        ok := SendPadded(plan[i]);
        if ok {
          PlanStep(EventsOf(old(log)), plan, i);
          sent := sent + 1;
        }
        i := i + 1;
      }
      assert ok ==> plan[..sent] == plan;
    }

    /** Data is shaped into records when there is a sampler; everything else goes whole. What
        was sent is the event's split, or the beginning of one if a record was refused. */
    method SendEvent(ev: MuxEvent) returns (ok: bool, ghost sent: seq<MuxEvent>)
      requires Valid() && Sendable(ev)
      modifies this, transport`outgoing, sampler
      ensures Valid() && rekeyInterval == old(rekeyInterval)
      ensures EventsOf(log) == EventsOf(old(log)) + sent
      ensures ok ==> SplitOf(ev, sent) && (sampler == null ==> sent == [ev])
      ensures !ok ==> exists full :: SplitOf(ev, full) && sent <= full
      ensures ok <==> if sampler != null && ev.Data?
        then (forall p :: p in Planned(ev.streamId, ev.data, sampler.source, old(sampler.drawn)) ==> Sealable(p))
        else |ToFrame(ev).payload| <= MAX_PLAINTEXT - HEADER_LEN
      ensures ev.Data? && |ev.data| <= MAX_PLAINTEXT - HEADER_LEN - STREAM_ID_LEN ==> ok
      ensures ev.Data? && sampler != null && (forall k: nat :: sampler.source(k) <= MAX_PLAINTEXT) ==> ok
    {
      hide Valid, EventIn, GoodFrame, ToFrame, SplitOf, EventsOf, DataIn, ShapedFor, Planned, FullButLast, IsRekey;
      var plan: seq<Packet>;
      if ev.Data? && sampler != null {
        ghost var drawn := sampler.drawn;
        plan := PlanShapedRecords(sampler, ev.streamId, ev.data);
        ShapedIsPlan(ev.streamId, ev.data, plan, sampler.source, drawn);
        ShapedFits(ev.streamId, ev.data, plan, sampler.source, drawn);
      } else {
        var frame := ToFrame(ev);
        var pad := ChoosePad(sampler, |frame.payload|);
        plan := [Packet(frame, pad)];
        WholePlan(ev, plan[0]);
        WholeLength(ev);
      }
      ghost var count: nat;
      ok, count := SendPlan(plan);
      sent := EventsOf(plan[..count]);
      assert plan == plan[..count] + plan[count..];
      EventsAppend(plan[..count], plan[count..]);
      assert sent <= EventsOf(plan);
      assert ok ==> plan[..count] == plan;
    }

    /** An arbitrarily large block in chunks that always fit. */
    method SendStreamData(streamId: u16, data: bytes) returns (ok: bool, ghost sent: seq<MuxEvent>)
      requires Valid()
      modifies this, transport`outgoing, sampler
      ensures Valid() && rekeyInterval == old(rekeyInterval)
      ensures ok && EventsOf(log) == EventsOf(old(log)) + sent
      ensures SplitOf(Data(streamId, data), sent)
      ensures sampler == null ==> FullChunks(sent)
    {
      if data == [] {
        ok, sent := SendEvent(Data(streamId, []));
        NoChunks();
        return;
      }
      hide Valid, DataIn, SplitOf, PiecesOf, ToFrame, EventsOf, FullChunks, AllFull;
      ok, sent := true, [];
      NoChunks();
      var off := 0;
      NoPieces(streamId);
      while off < |data|
        invariant Valid() && rekeyInterval == old(rekeyInterval) && ok
        invariant 0 <= off <= |data| && (off > 0 ==> sent != [])
        invariant EventsOf(log) == EventsOf(old(log)) + sent
        invariant PiecesOf(streamId, data[..off], sent)
        invariant sampler == null ==> FullChunks(sent) && (off < |data| ==> AllFull(sent))
      {
        var end := Min(off + MAX_STREAM_CHUNK, |data|);
        ghost var more: seq<MuxEvent>;
        ok, more := SendEvent(Data(streamId, data[off..end]));
        NextChunk(streamId, data, off, end, sent, more);
        if sampler == null {
          OneMoreChunk(sent, Data(streamId, data[off..end]));
        }
        Assoc(EventsOf(old(log)), sent, more);
        sent := sent + more;
        off := end;
      }
      assert data[..off] == data;
      PiecesAreSplit(streamId, data, sent);
    }
  }

  class SessionReader {
    const transport: Transport
    /** What has arrived and is not read yet. */
    var read: Stream

    constructor (transport: Transport)
      ensures this.transport == transport && read == []
    {
      this.transport := transport;
      read := [];
    }

    /** The next frame that is not a rekey; following a rekey replaces the incoming key. */
    method RecvFrame() returns (r: Received)
      modifies this`read, transport`incoming
      ensures r == Receive(old(transport.incoming), old(read)).0
      ensures !r.Fails? ==> (r, transport.incoming, read) == Receive(old(transport.incoming), old(read))
    {
      while true
        invariant Receive(transport.incoming, read) == Receive(old(transport.incoming), old(read))
        decreases |read|
      {
        var record := ReadRecord(read);
        match record {
          case More => return Waits;
          case NotLength => return Fails;
          case Got(ciphertext, rest) =>
            var plaintext := transport.Open(ciphertext);
            if plaintext.Err? {
              return Fails;
            }
            var frame := Decode(plaintext.value);
            if frame.Err? {
              return Fails;
            }
            read := rest;
            if frame.value.ftype != Rekey {
              return Receives(frame.value);
            }
            transport.RekeyIncoming();
        }
      }
    }
  }
}
