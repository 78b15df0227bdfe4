/** The session: shaping, padding, sealing, in-band rekeying and the two halves that share a
    transport.

    The sampler is an arbitrary supply of target lengths. */
module Session {
  import opened Prelude
  import opened Frame
  import opened Noise

  const STREAM_ID_LEN := 2

  const MAX_STREAM_CHUNK := 16 * 1024

  // ---- Shaping ----

  class LenSampler {
    const source: nat -> nat
    var drawn: nat

    constructor (source: nat -> nat)
      ensures this.source == source && drawn == 0
    {
      this.source := source;
      drawn := 0;
    }

    method Sample() returns (target: nat)
      modifies this
      ensures target == source(old(drawn)) && drawn == old(drawn) + 1
    {
      target := source(drawn);
      drawn := drawn + 1;
    }
  }

  /** A frame with the number of padding bytes chosen for it. */
  datatype Packet = Packet(frame: Frame, pad: u16)

  function PlainLength(p: Packet): nat {
    HEADER_LEN + |p.frame.payload| + p.pad
  }

  predicate Sealable(p: Packet) {
    Fits(p.frame) && PlainLength(p) <= MAX_PLAINTEXT
  }

  function PadToTarget(payloadLen: nat, overhead: nat, target: nat): u16 {
    if payloadLen + overhead >= target then 0 else Min(target - (payloadLen + overhead), U16_MAX)
  }

  /** The length a plaintext of `length` bytes is padded to: the target, but never past what
      one record can carry and never below what it already has. */
  function Padded(length: nat, target: nat): nat {
    Max(length, Min(target, MAX_PLAINTEXT))
  }

  method ChoosePad(sampler: LenSampler?, payloadLen: nat) returns (pad: u16)
    modifies sampler
    ensures sampler == null ==> pad == 0
    ensures sampler != null ==>
      && sampler.drawn == old(sampler.drawn) + 1
      && HEADER_LEN + payloadLen + pad == Padded(HEADER_LEN + payloadLen, sampler.source(old(sampler.drawn)))
  {
    if sampler == null {
      return 0;
    }
    var target := sampler.Sample();
    var wanted := PadToTarget(payloadLen, HEADER_LEN, target);
    var maxPad := Max(MAX_PLAINTEXT - (HEADER_LEN + payloadLen), 0);
    pad := Min(wanted, Min(maxPad, U16_MAX));
  }

  /** The data a StreamData packet carries after its stream id. */
  function Piece(p: Packet): bytes {
    if |p.frame.payload| < STREAM_ID_LEN then [] else p.frame.payload[STREAM_ID_LEN..]
  }

  function Pieces(plan: seq<Packet>): bytes {
    if plan == [] then [] else Pieces(plan[..|plan| - 1]) + Piece(plan[|plan| - 1])
  }

  ghost predicate ShapedPacket(streamId: u16, p: Packet, target: nat) {
    && p.frame == ToFrame(Data(streamId, Piece(p)))
    && |Piece(p)| <= Max(target - HEADER_LEN - STREAM_ID_LEN, 1)
    && PlainLength(p) == Padded(HEADER_LEN + STREAM_ID_LEN + |Piece(p)|, target)
  }

  /** A plan cuts `data` of one stream into StreamData packets of the drawn target lengths. */
  ghost predicate ShapedFor(streamId: u16, data: bytes, plan: seq<Packet>, source: nat -> nat, drawn: nat) {
    && (forall i :: 0 <= i < |plan| ==> ShapedPacket(streamId, plan[i], source(drawn + i)))
    && Pieces(plan) == data
    && plan != [] && (data == [] ==> |plan| == 1)
  }

  /** One record: the frame carrying `piece`, padded up to the target. */
  function CutRecord(streamId: u16, piece: bytes, target: nat): Packet {
    var frame := ToFrame(Data(streamId, piece));
    var plaintext := HEADER_LEN + |frame.payload|;
    var maxPad := Max(MAX_PLAINTEXT - plaintext, 0);
    Packet(frame, Min(Min(Max(target - plaintext, 0), maxPad), U16_MAX))
  }

  lemma CutIsShaped(streamId: u16, piece: bytes, target: nat)
    requires |piece| <= Max(target - HEADER_LEN - STREAM_ID_LEN, 1)
    ensures var p := CutRecord(streamId, piece, target);
      Piece(p) == piece && ShapedPacket(streamId, p, target)
  {
    assert (ToBe16(streamId) + piece)[STREAM_ID_LEN..] == piece;
  }

  /** The one plan for `data`: every record but the last holds as much as its target has room for. */
  function Planned(streamId: u16, data: bytes, source: nat -> nat, drawn: nat): seq<Packet>
    decreases |data|
  {
    var target := source(drawn);
    var room := Max(target - (HEADER_LEN + STREAM_ID_LEN), 1);
    if |data| <= room then [CutRecord(streamId, data, target)]
    else [CutRecord(streamId, data[..room], target)] + Planned(streamId, data[room..], source, drawn + 1)
  }

  /** Every record of the plan but the last holds as much as its target has room for, one byte at
      least. */
  ghost predicate FullButLast(plan: seq<Packet>, source: nat -> nat, drawn: nat) {
    forall i :: 0 <= i < |plan| - 1 ==>
      |Piece(plan[i])| == Max(source(drawn + i) - HEADER_LEN - STREAM_ID_LEN, 1)
  }

  lemma {:induction false} PlannedIsFull(streamId: u16, data: bytes, source: nat -> nat, drawn: nat)
    ensures Planned(streamId, data, source, drawn) != []
    ensures FullButLast(Planned(streamId, data, source, drawn), source, drawn)
    decreases |data|
  {
    hide CutRecord, Piece;
    var target := source(drawn);
    var room := Max(target - (HEADER_LEN + STREAM_ID_LEN), 1);
    if |data| > room {
      PlannedIsFull(streamId, data[room..], source, drawn + 1);
      CutIsShaped(streamId, data[..room], target);
      var rest := Planned(streamId, data[room..], source, drawn + 1);
      var plan := [CutRecord(streamId, data[..room], target)] + rest;
      forall i | 0 <= i < |plan| - 1
        ensures |Piece(plan[i])| == Max(source(drawn + i) - HEADER_LEN - STREAM_ID_LEN, 1)
      {
        if i > 0 {
          assert plan[i] == rest[i - 1] && drawn + 1 + (i - 1) == drawn + i;
        }
      }
    }
  }

  lemma PiecesSnoc(plan: seq<Packet>, p: Packet)
    ensures Pieces(plan + [p]) == Pieces(plan) + Piece(p)
  {
    assert (plan + [p])[..|plan|] == plan;
  }

  /** What is still to be planned. */
  function Rest(streamId: u16, data: bytes, source: nat -> nat, drawn: nat, more: bool): seq<Packet> {
    if more then Planned(streamId, data, source, drawn) else []
  }

  lemma RestIsPlan(streamId: u16, data: bytes, source: nat -> nat, drawn: nat)
    ensures Rest(streamId, data, source, drawn, true) == Planned(streamId, data, source, drawn)
    ensures Rest(streamId, data, source, drawn, false) == []
  {
  }

  lemma PlannedNext(streamId: u16, data: bytes, off: nat, end: nat, source: nat -> nat, drawn: nat)
    requires off <= |data| && end == Min(off + Max(source(drawn) - (HEADER_LEN + STREAM_ID_LEN), 1), |data|)
    ensures Planned(streamId, data[off..], source, drawn) ==
      [CutRecord(streamId, data[off..end], source(drawn))] +
      Rest(streamId, data[end..], source, drawn + 1, end < |data|)
  {
    hide CutRecord;
    assert data[off..][..end - off] == data[off..end] && data[off..][end - off..] == data[end..];
    if end == |data| {
      assert data[off..end] == data[off..];
    }
  }

  /** The next record joins the plan. */
  lemma NextRecord(streamId: u16, data: bytes, off: nat, end: nat, plan: seq<Packet>, source: nat -> nat, drawn: nat)
    requires off <= |data| && end == Min(off + Max(source(drawn) - (HEADER_LEN + STREAM_ID_LEN), 1), |data|)
    requires Pieces(plan) == data[..off]
    ensures var p := CutRecord(streamId, data[off..end], source(drawn));
      && ShapedPacket(streamId, p, source(drawn)) && Pieces(plan + [p]) == data[..end]
      && plan + Rest(streamId, data[off..], source, drawn, true) ==
        (plan + [p]) + Rest(streamId, data[end..], source, drawn + 1, end < |data|)
  {
    hide CutRecord, ShapedPacket, Pieces, Piece, Planned;
    var p := CutRecord(streamId, data[off..end], source(drawn));
    PlannedNext(streamId, data, off, end, source, drawn);
    CutIsShaped(streamId, data[off..end], source(drawn));
    PiecesSnoc(plan, p);
    assert data[..end] == data[..off] + data[off..end];
    Assoc(plan, [p], Rest(streamId, data[end..], source, drawn + 1, end < |data|));
  }

  lemma EmptyPlan()
    ensures Pieces([]) == []
  {
  }

  method PlanShapedRecords(sampler: LenSampler, streamId: u16, data: bytes) returns (plan: seq<Packet>)
    modifies sampler
    ensures ShapedFor(streamId, data, plan, sampler.source, old(sampler.drawn))
    ensures FullButLast(plan, sampler.source, old(sampler.drawn))
    ensures plan == Planned(streamId, data, sampler.source, old(sampler.drawn))
    ensures sampler.drawn == old(sampler.drawn) + |plan|
  {
    hide CutRecord, ShapedPacket, Pieces, Planned, Rest;
    ghost var whole := Rest(streamId, data, sampler.source, sampler.drawn, true);
    plan := [];
    var off := 0;
    var more := true;
    EmptyPlan();
    assert data[off..] == data;
    assert whole == plan + whole;
    while more
      invariant 0 <= off <= |data| && Pieces(plan) == data[..off]
      invariant more ==> (off == 0 ==> plan == []) && (off == |data| ==> data == [])
      invariant !more ==> off == |data| && plan != [] && (data == [] ==> |plan| == 1)
      invariant forall i :: 0 <= i < |plan| ==> ShapedPacket(streamId, plan[i], sampler.source(old(sampler.drawn) + i))
      invariant whole == plan + Rest(streamId, data[off..], sampler.source, sampler.drawn, more)
      invariant sampler.drawn == old(sampler.drawn) + |plan|
      decreases |data| - off + if more then 1 else 0
    {
      var target := sampler.Sample();
      var room := Max(target - (HEADER_LEN + STREAM_ID_LEN), 1);
      var end := Min(off + room, |data|);
      var piece := data[off..end];
      NextRecord(streamId, data, off, end, plan, sampler.source, sampler.drawn - 1);
      plan := plan + [CutRecord(streamId, piece, target)];
      off := end;
      more := off < |data|;
    }
    assert data[..off] == data;
    RestIsPlan(streamId, data, sampler.source, old(sampler.drawn));
    RestIsPlan(streamId, data[off..], sampler.source, sampler.drawn);
    assert plan + [] == plan;
    PlannedIsFull(streamId, data, sampler.source, old(sampler.drawn));
  }

  /** Every record's plaintext is exactly its target long whenever the target can hold the
      headers and a byte and fits one record. */
  lemma ShapedLengthsMeetTargets(streamId: u16, data: bytes, plan: seq<Packet>, source: nat -> nat, drawn: nat, i: nat)
    requires ShapedFor(streamId, data, plan, source, drawn) && i < |plan|
    ensures HEADER_LEN + STREAM_ID_LEN < source(drawn + i) <= MAX_PLAINTEXT ==>
      PlainLength(plan[i]) == source(drawn + i)
    ensures var target, least := source(drawn + i), HEADER_LEN + STREAM_ID_LEN + |Piece(plan[i])|;
      PlainLength(plan[i]) == target <==> if target <= MAX_PLAINTEXT then least <= target else least == target
    ensures source(drawn + i) <= MAX_PLAINTEXT ==> Sealable(plan[i])
    ensures Sealable(plan[i]) <==> |Piece(plan[i])| <= MAX_PLAINTEXT - HEADER_LEN - STREAM_ID_LEN
  {
    assert ShapedPacket(streamId, plan[i], source(drawn + i));
  }
}
