/** The upload half of packet-up mode as a pipe of bytes, or of whatever stands for them: the
    client buffers writes and turns each flush into one numbered POST; the server reassembles the
    POSTs by number, in whatever order they complete, and reads the bytes in pieces of any size. */
module PacketPipe {
  import opened Prelude

  // ---- Server: reassembly ----

  /** The unbounded channel between the assembler and the session's reader. */
  class Channel<T> {
    var queue: seq<seq<T>>
    var senderAlive: bool
    var receiverAlive: bool

    constructor ()
      ensures queue == [] && senderAlive && receiverAlive
    {
      queue, senderAlive, receiverAlive := [], true, true;
    }
  }

  /** The assembler's state: the next number to hand over, the packets waiting for it, and
      what it has handed over since. */
  datatype Assembly<T> = Assembly(next: nat, pending: map<nat, seq<T>>, handed: seq<seq<T>>)

  /** Hand over every packet that has become consecutive. If the session is gone the first one
      due is lost instead and nothing is handed over. */
  function Drained<T>(a: Assembly<T>, alive: bool): Assembly<T>
    decreases |a.pending|
  {
    if a.next !in a.pending then a
    else
      var rest := a.pending - {a.next};
      assert rest.Keys == a.pending.Keys - {a.next};
      if !alive then a.(pending := rest)
      else Drained(Assembly(a.next + 1, rest, a.handed + [a.pending[a.next]]), alive)
  }

  function Delivered<T>(a: Assembly<T>, number: nat, data: seq<T>, alive: bool): Assembly<T> {
    if number < a.next then a
    else Drained(a.(pending := a.pending[number := data]), alive)
  }

  lemma DrainOne<T>(a: Assembly<T>, alive: bool)
    ensures a.next in a.pending ==> |a.pending - {a.next}| < |a.pending|
    ensures Drained(a, alive) ==
      if a.next !in a.pending then a
      else if !alive then a.(pending := a.pending - {a.next})
      else Drained(Assembly(a.next + 1, a.pending - {a.next}, a.handed + [a.pending[a.next]]), alive)
  {
    assert (a.pending - {a.next}).Keys == a.pending.Keys - {a.next};
  }

  /** A session that is gone is handed nothing. */
  lemma NothingToTheDead<T>(a: Assembly<T>, number: nat, data: seq<T>)
    ensures Delivered(a, number, data, false).handed == a.handed && Delivered(a, number, data, false).next == a.next
  {
  }

  class UploadAssembler<T> {
    const tx: Channel<T>
    var nextSeq: nat
    var pending: map<nat, seq<T>>

    function View(): Assembly<T>
      reads this
    {
      Assembly(nextSeq, pending, [])
    }

    constructor (tx: Channel<T>)
      ensures this.tx == tx && View() == Assembly(0, map[], [])
    {
      this.tx := tx;
      nextSeq, pending := 0, map[];
    }

    method Deliver(number: nat, data: seq<T>)
      modifies this, tx`queue
      ensures var after := Delivered(old(View()), number, data, tx.receiverAlive);
        nextSeq == after.next && pending == after.pending && tx.queue == old(tx.queue) + after.handed
    {
      hide Drained;
      ghost var q0 := tx.queue;
      ghost var handed: seq<seq<T>> := [];
      assert q0 == q0 + handed;
      if number < nextSeq {
        return;
      }
      pending := pending[number := data];
      ghost var goal := Drained(View(), tx.receiverAlive);
      while nextSeq in pending
        invariant Drained(Assembly(nextSeq, pending, handed), tx.receiverAlive) == goal
        invariant tx.queue == q0 + handed
        decreases |pending|
      {
        DrainOne(Assembly(nextSeq, pending, handed), tx.receiverAlive);
        var chunk := pending[nextSeq];
        pending := pending - {nextSeq};
        if !tx.receiverAlive {
          return;
        }
        tx.queue := tx.queue + [chunk];
        handed := handed + [chunk];
        nextSeq := nextSeq + 1;
      }
      DrainOne(Assembly(nextSeq, pending, handed), tx.receiverAlive);
    }
  }

  // ---- Server: reading ----

  datatype Poll<T> = Pending | Ready(data: seq<T>)

  datatype ReadState<T> = ReadState(buf: seq<T>, queue: seq<seq<T>>)

  /** One poll for at most `room` bytes. */
  function Read<T>(r: ReadState<T>, senderAlive: bool, room: nat): (ReadState<T>, Poll<T>) {
    if r.buf == [] && r.queue == [] then (r, if senderAlive then Pending else Ready([]))
    else
      var buf := if r.buf == [] then r.queue[0] else r.buf;
      var queue := if r.buf == [] then r.queue[1..] else r.queue;
      var n := Min(|buf|, room);
      (ReadState(buf[n..], queue), Ready(buf[..n]))
  }

  /** The chunk a poll takes from: what is left of the last one, or the next. */
  function Front<T>(r: ReadState<T>): seq<T> {
    if r.buf == [] && r.queue != [] then r.queue[0] else r.buf
  }

  /** With a chunk at hand a poll gives exactly as much of it as there is room for, never more. */
  lemma ReadFills<T>(r: ReadState<T>, senderAlive: bool, room: nat)
    ensures var answer := Read(r, senderAlive, room).1;
      && (answer.Ready? ==> |answer.data| == Min(|Front(r)|, room) && answer.data <= Front(r))
      && (answer.Ready? <==> r.buf != [] || r.queue != [] || !senderAlive)
  {
  }

  class PacketReader<T(==)> {
    const rx: Channel<T>
    var buf: seq<T>

    constructor (rx: Channel<T>)
      ensures this.rx == rx && buf == []
    {
      this.rx := rx;
      buf := [];
    }

    method PollRead(room: nat) returns (r: Poll<T>)
      modifies this, rx`queue
      ensures (ReadState(buf, rx.queue), r) == Read(ReadState(old(buf), old(rx.queue)), rx.senderAlive, room)
      ensures r.Pending? <==> old(buf) == [] && old(rx.queue) == [] && rx.senderAlive
      ensures r.Ready? ==>
        var front := Front(ReadState(old(buf), old(rx.queue)));
        |r.data| == Min(|front|, room) && r.data + buf == front
    {
      if buf == [] {
        if rx.queue == [] {
          return if rx.senderAlive then Pending else Ready([]);
        }
        buf := rx.queue[0];
        rx.queue := rx.queue[1..];
      }
      var n := Min(|buf|, room);
      r := Ready(buf[..n]);
      buf := buf[n..];
    }
  }

  // ---- Client: writing ----

  /** What reserving a slot in the uploader's bounded queue answers. */
  datatype Slot = Full | Gone | Free

  datatype Flushed = Waiting | Broken | Done

  class PacketWriter<T> {
    var buf: seq<T>
    /** Every chunk handed to the uploader, which numbers them from 0 in this order. */
    var chunks: seq<seq<T>>
    var closed: bool

    ghost predicate Valid()
      reads this
    {
      forall i :: 0 <= i < |chunks| ==> chunks[i] != []
    }

    constructor ()
      ensures Valid() && buf == [] && chunks == [] && !closed
    {
      buf, chunks, closed := [], [], false;
    }

    method PollWrite(data: seq<T>) returns (n: nat)
      requires Valid()
      modifies this`buf
      ensures Valid()
      ensures n == |data| && buf == old(buf) + data
    {
      if data == [] {
        return 0;
      }
      buf := buf + data;
      n := |data|;
    }

    method PollFlush(slot: Slot) returns (r: Flushed)
      requires Valid()
      modifies this`buf, this`chunks
      ensures Valid()
      ensures r.Done? <==> old(buf) == [] || slot.Free?
      ensures r.Done? ==> buf == [] && Concat(chunks) == Concat(old(chunks)) + old(buf)
      ensures r.Done? && old(buf) != [] ==> chunks == old(chunks) + [old(buf)]
      ensures !r.Done? || old(buf) == [] ==> buf == old(buf) && chunks == old(chunks)
    {
      if buf == [] {
        return Done;
      }
      match slot {
        case Full => r := Waiting;
        case Gone => r := Broken;
        case Free =>
          ConcatSnoc(chunks, buf);
          chunks := chunks + [buf];
          buf := [];
          r := Done;
      }
    }

    method PollShutdown(slot: Slot) returns (r: Flushed)
      requires Valid()
      modifies this
      ensures Valid()
      ensures r.Done? <==> old(buf) == [] || slot.Free?
      ensures Concat(chunks) + buf == Concat(old(chunks)) + old(buf)
      ensures r.Done? ==> buf == [] && closed
      ensures !r.Done? ==> closed == old(closed)
    {
      r := PollFlush(slot);
      if r.Done? {
        closed := true;
      }
    }
  }

  // ---- The whole pipe ----

  /** `chunks[k]` is the body of POST number `k`; `arrived` the numbers whose body was
      delivered at least once; `done` all bytes read so far. */
  datatype Pipe<T> = Pipe(
    written: seq<T>, buf: seq<T>, chunks: seq<seq<T>>, arrived: set<nat>,
    next: nat, pending: map<nat, seq<T>>, connected: bool,
    reader: ReadState<T>, done: seq<T>)

  /** POSTs may complete in any order, be lost or be repeated: any number may arrive at any
      time once its chunk was flushed. */
  datatype Event<T> = Write(data: seq<T>) | Flush(slot: Slot) | Arrive(number: nat) | Poll(room: nat) | Disconnect

  function Fresh<T>(): Pipe<T> {
    Pipe([], [], [], {}, 0, map[], true, ReadState([], []), [])
  }

  predicate Possible<T>(p: Pipe<T>, e: Event<T>) {
    e.Arrive? ==> e.number < |p.chunks| && p.connected
  }

  function Step<T>(p: Pipe<T>, e: Event<T>): Pipe<T>
    requires Possible(p, e)
  {
    match e
    case Write(data) => p.(written := p.written + data, buf := p.buf + data)
    case Flush(slot) =>
      if p.buf == [] || !slot.Free? then p else p.(chunks := p.chunks + [p.buf], buf := [])
    case Arrive(k) =>
      var after := Delivered(Assembly(p.next, p.pending, []), k, p.chunks[k], true);
      p.(arrived := p.arrived + {k}, next := after.next, pending := after.pending,
         reader := p.reader.(queue := p.reader.queue + after.handed))
    case Poll(room) =>
      var (reader, r) := Read(p.reader, p.connected, room);
      p.(reader := reader, done := p.done + if r.Ready? then r.data else [])
    case Disconnect => p.(connected := false)
  }

  ghost predicate Reachable<T(!new)>(events: seq<Event<T>>, p: Pipe<T>)
    decreases |events|, 1
  {
    if events == [] then p == Fresh()
    else exists before :: ReachableBy(events, before, p)
  }

  ghost predicate ReachableBy<T(!new)>(events: seq<Event<T>>, before: Pipe<T>, p: Pipe<T>)
    requires events != []
    decreases |events|, 0
  {
    var n := |events| - 1;
    Reachable(events[..n], before) && Possible(before, events[n]) && p == Step(before, events[n])
  }

  /** The numbers below `next` have been handed over, the packets pending are the ones that
      arrived beyond it. */
  ghost predicate Reassembles<T>(chunks: seq<seq<T>>, arrived: set<nat>, next: nat, pending: map<nat, seq<T>>) {
    && next <= |chunks|
    && (forall k :: k in arrived ==> k < |chunks|)
    && (forall k :: k in pending ==> k in arrived && k >= next && pending[k] == chunks[k])
    && (forall k :: k in arrived ==> k < next || k in pending)
    && (forall k :: 0 <= k < next ==> k in arrived)
  }

  ghost predicate Good<T>(p: Pipe<T>) {
    && Concat(p.chunks) + p.buf == p.written
    && (forall i :: 0 <= i < |p.chunks| ==> p.chunks[i] != [])
    && Reassembles(p.chunks, p.arrived, p.next, p.pending)
    && p.next !in p.pending
    && (forall i :: 0 <= i < |p.reader.queue| ==> p.reader.queue[i] != [])
    && p.done + p.reader.buf + Concat(p.reader.queue) == Concat(p.chunks[..p.next])
  }

  lemma HandOverNext<T>(chunks: seq<seq<T>>, arrived: set<nat>, next: nat, pending: map<nat, seq<T>>)
    requires Reassembles(chunks, arrived, next, pending) && next in pending
    ensures Reassembles(chunks, arrived, next + 1, pending - {next})
    ensures next < |chunks| && pending[next] == chunks[next]
  {
  }

  lemma PendingShrinks<T>(pending: map<nat, seq<T>>, k: nat)
    requires k in pending
    ensures |pending - {k}| < |pending|
  {
    assert (pending - {k}).Keys == pending.Keys - {k};
  }

  lemma SliceCons<T>(chunks: seq<seq<T>>, i: nat, j: nat, before: seq<seq<T>>)
    requires i < j <= |chunks|
    ensures before + [chunks[i]] + chunks[i + 1..j] == before + chunks[i..j]
  {
  }

  lemma {:induction false} DrainedGood<T>(chunks: seq<seq<T>>, arrived: set<nat>, a: Assembly<T>)
    requires Reassembles(chunks, arrived, a.next, a.pending)
    ensures var b := Drained(a, true);
      && Reassembles(chunks, arrived, b.next, b.pending) && b.next !in b.pending
      && a.next <= b.next <= |chunks|
      && b.handed == a.handed + chunks[a.next..b.next]
    decreases |a.pending|
  {
    if a.next in a.pending {
      HandOverNext(chunks, arrived, a.next, a.pending);
      hide Reassembles, Concat;
      var rest := a.pending - {a.next};
      PendingShrinks(a.pending, a.next);
      DrainedGood(chunks, arrived, Assembly(a.next + 1, rest, a.handed + [a.pending[a.next]]));
      SliceCons(chunks, a.next, Drained(a, true).next, a.handed);
    } else {
      hide Reassembles;
      assert a.handed + chunks[a.next..a.next] == a.handed;
    }
  }

  /** Handing over the chunks `next..last` extends what the reader can still get by them. */
  lemma HandedExtends<T>(p: Pipe<T>, last: nat)
    requires p.next <= last <= |p.chunks|
    requires p.done + p.reader.buf + Concat(p.reader.queue) == Concat(p.chunks[..p.next])
    ensures p.done + p.reader.buf + Concat(p.reader.queue + p.chunks[p.next..last]) == Concat(p.chunks[..last])
  {
    var more := p.chunks[p.next..last];
    assert p.chunks[..last] == p.chunks[..p.next] + more;
    ConcatAppend(p.chunks[..p.next], more);
    ConcatAppend(p.reader.queue, more);
    Assoc(p.done + p.reader.buf, Concat(p.reader.queue), Concat(more));
  }

  lemma ArrivedInTime<T>(p: Pipe<T>, k: nat)
    requires Reassembles(p.chunks, p.arrived, p.next, p.pending) && p.next <= k < |p.chunks|
    ensures Reassembles(p.chunks, p.arrived + {k}, p.next, p.pending[k := p.chunks[k]])
  {
  }

  lemma ArriveKeeps<T>(p: Pipe<T>, k: nat)
    requires Good(p) && Possible(p, Arrive(k))
    ensures Good(Step(p, Arrive(k)))
  {
    hide Drained;
    var t := Step(p, Arrive(k));
    if k >= p.next {
      ArrivedInTime(p, k);
      DrainedGood(p.chunks, t.arrived, Assembly(p.next, p.pending[k := p.chunks[k]], []));
      HandedExtends(p, t.next);
      assert t.reader.queue == p.reader.queue + p.chunks[p.next..t.next];
    } else {
      assert t.reader.queue == p.reader.queue;
      assert t.arrived == p.arrived;
    }
  }

  /** One poll moves bytes from the front of what is unread and loses none. */
  lemma ReadConserves<T>(r: ReadState<T>, senderAlive: bool, room: nat)
    ensures var (s, answer) := Read(r, senderAlive, room);
      (if answer.Ready? then answer.data else []) + (s.buf + Concat(s.queue)) == r.buf + Concat(r.queue)
  {
    var (s, answer) := Read(r, senderAlive, room);
    if answer.Ready? && (r.buf != [] || r.queue != []) {
      var buf := if r.buf == [] then r.queue[0] else r.buf;
      assert buf == answer.data + s.buf;
      Assoc(answer.data, s.buf, Concat(s.queue));
    }
  }

  lemma FrontUnread<T>(r: ReadState<T>)
    requires forall i :: 0 <= i < |r.queue| ==> r.queue[i] != []
    ensures Front(r) == [] <==> r.buf + Concat(r.queue) == []
    ensures r.buf == [] && r.queue == [] <==> r.buf + Concat(r.queue) == []
  {
    if r.buf == [] && r.queue != [] {
      assert r.queue[0] != [];
      assert Concat(r.queue) != [];
    }
  }

  lemma ReadIsPrefix<T>(p: Pipe<T>, room: nat)
    requires Good(p) && Concat(p.chunks[..p.next]) <= Concat(p.chunks)
    ensures var r := Read(p.reader, p.connected, room).1; r.Ready? ==> p.done + r.data <= Concat(p.chunks)
  {
    var (s, r) := Read(p.reader, p.connected, room);
    ReadConserves(p.reader, p.connected, room);
    if r.Ready? {
      Assoc(p.done, p.reader.buf, Concat(p.reader.queue));
      Assoc(p.done, r.data, s.buf + Concat(s.queue));
    }
  }

  lemma PollKeeps<T>(p: Pipe<T>, room: nat)
    requires Good(p)
    ensures Good(Step(p, Poll(room)))
  {
    var (s, r) := Read(p.reader, p.connected, room);
    ReadConserves(p.reader, p.connected, room);
    var data := if r.Ready? then r.data else [];
    Assoc(p.done, p.reader.buf, Concat(p.reader.queue));
    Assoc(p.done, data, s.buf + Concat(s.queue));
    Assoc(p.done + data, s.buf, Concat(s.queue));
  }

  lemma FlushKeeps<T>(p: Pipe<T>, slot: Slot)
    requires Good(p)
    ensures Good(Step(p, Flush(slot)))
  {
    if p.buf != [] && slot.Free? {
      ConcatSnoc(p.chunks, p.buf);
      assert (p.chunks + [p.buf])[..p.next] == p.chunks[..p.next];
    }
  }

  lemma StepKeeps<T>(p: Pipe<T>, e: Event<T>)
    requires Good(p) && Possible(p, e)
    ensures Good(Step(p, e))
  {
    match e
    case Write(data) =>
      Assoc(Concat(p.chunks), p.buf, data);
    case Flush(slot) =>
      FlushKeeps(p, slot);
    case Arrive(k) =>
      ArriveKeeps(p, k);
    case Poll(room) =>
      PollKeeps(p, room);
    case Disconnect =>
  }

  lemma {:induction false} EveryRunIsGood<T(!new)>(events: seq<Event<T>>, p: Pipe<T>)
    requires Reachable(events, p)
    ensures Good(p)
  {
    if events != [] {
      var before :| ReachableBy(events, before, p);
      EveryRunIsGood(events[..|events| - 1], before);
      StepKeeps(before, events[|events| - 1]);
    }
  }

  /** What can be read is what was flushed, up to the first chunk that has not arrived, and nothing
      is missing exactly when all have. */
  lemma ReadableUpToMissing<T>(p: Pipe<T>)
    requires Good(p)
    ensures p.done <= Concat(p.chunks)
    ensures p.done + p.reader.buf + Concat(p.reader.queue) == Concat(p.chunks) <==>
      forall k :: 0 <= k < |p.chunks| ==> k in p.arrived
    ensures forall k :: 0 <= k < |p.chunks| && k !in p.arrived ==>
      p.done + p.reader.buf + Concat(p.reader.queue) <= Concat(p.chunks[..k])
  {
    var readable, rest := p.done + p.reader.buf + Concat(p.reader.queue), p.chunks[p.next..];
    assert p.chunks == p.chunks[..p.next] + rest;
    ConcatAppend(p.chunks[..p.next], rest);
    if rest != [] {
      assert rest[0] != [];
      assert Concat(rest) != [];
      assert p.next !in p.arrived;
    } else {
      assert p.chunks[..p.next] == p.chunks;
    }
    forall k | 0 <= k < |p.chunks| && k !in p.arrived
      ensures readable <= Concat(p.chunks[..k])
    {
      assert p.chunks[..k] == p.chunks[..p.next] + p.chunks[p.next..k];
      ConcatAppend(p.chunks[..p.next], p.chunks[p.next..k]);
    }
  }

  /** In every run the bytes read are a prefix of the bytes flushed, which with the unflushed
      buffer are the bytes written; what is read and what waits for the reader is all that was
      flushed exactly when every POST has arrived at least once. */
  lemma ReadsWhatWasFlushed<T(!new)>(events: seq<Event<T>>, p: Pipe<T>)
    requires Reachable(events, p)
    ensures p.done <= Concat(p.chunks) && Concat(p.chunks) + p.buf == p.written
    ensures (forall k :: 0 <= k < |p.chunks| ==> k in p.arrived) <==>
      p.done + p.reader.buf + Concat(p.reader.queue) == Concat(p.chunks)
  {
    EveryRunIsGood(events, p);
    ReadableUpToMissing(p);
  }

  /** In every run a poll answers when there is a chunk or the connection is gone, with as many of the
      next unread bytes as the chunk has and fit in the room. */
  lemma PollsFill<T(!new)>(events: seq<Event<T>>, p: Pipe<T>, room: nat)
    requires Reachable(events, p)
    ensures p.next <= |p.chunks|
    ensures var r := Read(p.reader, p.connected, room).1;
      && (r.Pending? <==> p.connected && p.done == Concat(p.chunks[..p.next]))
      && (r.Ready? ==> |r.data| == Min(|Front(p.reader)|, room) && p.done + r.data <= Concat(p.chunks))
    ensures Front(p.reader) == [] <==> p.done == Concat(p.chunks[..p.next])
  {
    EveryRunIsGood(events, p);
    ReadFills(p.reader, p.connected, room);
    assert p.chunks == p.chunks[..p.next] + p.chunks[p.next..];
    ConcatAppend(p.chunks[..p.next], p.chunks[p.next..]);
    FrontUnread(p.reader);
    ReadConserves(p.reader, p.connected, room);
    ReadIsPrefix(p, room);
  }

  /** A poll with room answers with no bytes, which the reader takes for the end of the
      stream, exactly when the connection is gone and everything reassembled was read. */
  lemma NoEarlyEnd<T(!new)>(events: seq<Event<T>>, p: Pipe<T>, room: nat)
    requires Reachable(events, p) && room > 0
    ensures p.next <= |p.chunks|
    ensures Read(p.reader, p.connected, room).1 == Ready([]) <==>
      !p.connected && p.done == Concat(p.chunks[..p.next])
  {
    EveryRunIsGood(events, p);
    if p.reader.buf == [] && p.reader.queue != [] {
      assert p.reader.queue[0] != [];
      assert Concat(p.reader.queue) != [];
    }
  }
}
