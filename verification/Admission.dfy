/** Server admission: what one HTTP/2 connection does with a request, and any number of
    connections sharing one anti-replay guard.

    A token arrives decoded from its cookie. The clock is read again for every key tried. `ioOk`
    says whether the response could be sent; if it could not, the accept loop ends and with it the
    connection and its halves. */
module Admission {
  import opened Prelude
  import opened Auth
  import opened ReplayGuard

  type Pid = string

  datatype Direction = Up | Down | UpPacket(number: u64)

  /** Where a request is addressed: the tunnel path itself (or a WebTransport session, which
      is authorized the same way), a segment below it, or the honest site. */
  datatype Target = StreamOne | Segment(pid: Pid, dir: Direction) | Site

  /** A key of the keyring and the clock's reading when it is tried. */
  datatype Try = Try(psk: Psk, now: Epoch)

  datatype Req = Req(target: Target, token: Option<Token>, tries: seq<Try>, ioOk: bool)

  datatype Half = Download(auth: Token) | Upload(auth: Token)

  /** Halves waiting for their pair, and the token of each packet-up session, by `pid`. */
  datatype Conn = Conn(pending: map<Pid, Half>, uploads: map<Pid, Token>)

  const CONN0 := Conn(map[], map[])

  datatype Outcome =
    | Fallback
    | Closed
    | Waits
    | Discards
    | Starts(auth: Token)
    | Packet(assembler: Token, starts: bool)
    | StartsAndCloses(auth: Token)

  /** The first key under which the token verifies decides the epoch, at its own reading. */
  function VerifyAny(token: Token, tries: seq<Try>): Option<Request> {
    if tries == [] then None
    else
      var epoch := VerifyAt(token, tries[0].psk, tries[0].now);
      if epoch.Some? then Some(Request(tries[0].now, epoch.value, token.nonce)) else VerifyAny(token, tries[1..])
  }

  function Verified(req: Req): Option<Request> {
    if req.token.None? then None else VerifyAny(req.token.value, req.tries)
  }

  lemma {:induction false} VerifiedEpoch(token: Token, tries: seq<Try>)
    requires VerifyAny(token, tries).Some?
    ensures var asked := VerifyAny(token, tries).value;
      && token.tag.Mac? && asked.epoch == token.tag.epoch && asked.nonce == token.nonce
      && InWindow(asked.now, asked.epoch) && exists i :: 0 <= i < |tries| && tries[i].now == asked.now
  {
    if VerifyAt(token, tries[0].psk, tries[0].now).None? {
      VerifiedEpoch(token, tries[1..]);
      var i :| 0 <= i < |tries| - 1 && tries[1..][i].now == VerifyAny(token, tries).value.now;
      assert tries[i + 1] == tries[1..][i];
    }
  }

  /** What serving the request asks the guard, if anything. */
  function Asks(c: Conn, req: Req): Option<Request> {
    match req.target
    case StreamOne => Verified(req)
    case Segment(pid, dir) => if dir.UpPacket? || pid in c.pending then None else Verified(req)
    case Site => None
  }

  function HalfOf(dir: Direction, auth: Token): Half
    requires !dir.UpPacket?
  {
    if dir.Down? then Download(auth) else Upload(auth)
  }

  function FellBack(c: Conn, ioOk: bool): (Conn, Outcome) {
    if ioOk then (c, Fallback) else (CONN0, Closed)
  }

  /** A numbered packet joins the session of its `pid`, or starts it on a waiting download. The
      session starts before the response is sent, the packet is read after. */
  function HandledPacket(c: Conn, pid: Pid, auth: Token, ioOk: bool): (Conn, Outcome) {
    if pid in c.uploads then
      if c.uploads[pid] != auth then FellBack(c, ioOk)
      else if ioOk then (c, Packet(auth, false)) else (CONN0, Closed)
    else
      var rest := c.(pending := c.pending - {pid});
      if pid !in c.pending || c.pending[pid] != Download(auth) then FellBack(rest, ioOk)
      else if ioOk then (rest.(uploads := c.uploads[pid := auth]), Packet(auth, true))
      else (CONN0, StartsAndCloses(auth))
  }

  /** A second half must carry the token of the first and point the other way. */
  function HandledSecond(c: Conn, pid: Pid, dir: Direction, auth: Token, ioOk: bool): (Conn, Outcome)
    requires pid in c.pending && !dir.UpPacket?
  {
    var first := c.pending[pid];
    if first.auth != auth then FellBack(c, ioOk)
    else if !ioOk then (CONN0, Closed)
    else (c.(pending := c.pending - {pid}), if first.Download? == dir.Down? then Discards else Starts(auth))
  }

  /** The connection and the outcome after a request; `isFresh` is the guard's answer. */
  function Handled(c: Conn, req: Req, isFresh: bool): (Conn, Outcome) {
    match req.target
    case Site => FellBack(c, req.ioOk)
    case StreamOne =>
      if Verified(req).None? || !isFresh then FellBack(c, req.ioOk)
      else if req.ioOk then (c, Starts(req.token.value)) else (CONN0, Closed)
    case Segment(pid, dir) =>
      if Verified(req).None? then FellBack(c, req.ioOk)
      else
        var auth := req.token.value;
        if dir.UpPacket? then HandledPacket(c, pid, auth, req.ioOk)
        else if pid in c.pending then HandledSecond(c, pid, dir, auth, req.ioOk)
        else if !isFresh then FellBack(c, req.ioOk)
        else if !req.ioOk then (CONN0, Closed)
        else (c.(pending := c.pending[pid := HalfOf(dir, auth)]), Waits)
  }

  /** A guard of `keep` epochs before and after a request, and its answer if it was asked. */
  ghost predicate GuardStep(asks: Option<Request>, w: Window, r: Window, keep: nat, isFresh: bool) {
    match asks
    case None => r == w && !isFresh
    case Some(q) => isFresh == !Seen(w, q.epoch, q.nonce) && KeepsNewest(Inserted(w, q.epoch, q.nonce), r, keep)
  }

  /** A repeated observation leaves a guard of at most three epochs as it was. */
  lemma ReplayChangesNothing(w: Window, r: Window, epoch: u64, nonce: Nonce)
    requires |w.Keys| <= KEEP_EPOCHS && Seen(w, epoch, nonce)
    requires KeepsNewest(Inserted(w, epoch, nonce), r, KEEP_EPOCHS)
    ensures r == w
  {
    var mid := Inserted(w, epoch, nonce);
    assert mid.Keys == w.Keys;
    SubsetOfSameSize(r.Keys, mid.Keys);
    forall e | e in w
      ensures r[e] == w[e]
    {
      assert mid[e] == w[e];
    }
  }

  method Authorize(token: Token, psk: Psk, now: Epoch, guard: ReplayGuard) returns (r: Option<Token>)
    modifies guard
    ensures GuardStep(VerifyAny(token, [Try(psk, now)]), old(guard.window), guard.window, KEEP_EPOCHS, r.Some?)
    ensures r.Some? ==> r.value == token
  {
    var epoch := Verify(token, psk, now);
    if epoch.None? {
      return None;
    }
    var isFresh := guard.Observe(epoch.value, token.nonce);
    return if isFresh then Some(token) else None;
  }

  lemma KnownPair(w: Window, epoch: u64, nonce: Nonce)
    requires |w.Keys| <= KEEP_EPOCHS && Seen(w, epoch, nonce)
    ensures KeepsNewest(Inserted(w, epoch, nonce), w, KEEP_EPOCHS)
  {
    var mid := Inserted(w, epoch, nonce);
    assert mid.Keys == w.Keys;
    assert w[epoch] + {nonce} == w[epoch];
    assert mid == w;
  }

  lemma OneTry(token: Token, t: Try)
    ensures var epoch := VerifyAt(token, t.psk, t.now);
      VerifyAny(token, [t]) == if epoch.Some? then Some(Request(t.now, epoch.value, token.nonce)) else None
    ensures VerifyAt(token, t.psk, t.now).Some? ==>
      token.tag.Mac? && VerifyAt(token, t.psk, t.now).value == token.tag.epoch
  {
    assert [t][1..] == [];
  }

  /** Wrong keys never touch the guard, and once it has refused the token no later key, nor a later
      reading for the same one, lets it through. */
  method AuthorizeAny(token: Token, tries: seq<Try>, guard: ReplayGuard) returns (r: Option<Token>)
    requires |guard.window.Keys| <= KEEP_EPOCHS
    modifies guard
    ensures GuardStep(VerifyAny(token, tries), old(guard.window), guard.window, KEEP_EPOCHS, r.Some?)
    ensures r.Some? ==> r.value == token
    ensures |guard.window.Keys| <= KEEP_EPOCHS
  {
    hide KeepsNewest, Seen;
    r := None;
    ghost var asked := VerifyAny(token, tries);
    for i := 0 to |tries|
      invariant r.None? && guard.window == old(guard.window)
      invariant asked == VerifyAny(token, tries[i..]) ||
        (asked.Some? && Seen(guard.window, asked.value.epoch, asked.value.nonce))
    {
      assert tries[i..][0] == tries[i] && tries[i..][1..] == tries[i + 1..];
      OneTry(token, tries[i]);
      r := Authorize(token, tries[i].psk, tries[i].now, guard);
      if VerifyAt(token, tries[i].psk, tries[i].now).Some? {
        if asked != VerifyAny(token, tries[i..]) {
          VerifiedEpoch(token, tries);
        }
        if r.None? {
          ReplayChangesNothing(old(guard.window), guard.window, token.tag.epoch, token.nonce);
        } else {
          KeptAtMost(Inserted(old(guard.window), token.tag.epoch, token.nonce), guard.window, KEEP_EPOCHS);
        }
      }
      if r.Some? {
        return;
      }
    }
    if asked.Some? {
      KnownPair(guard.window, asked.value.epoch, asked.value.nonce);
    }
  }

  /** One accepted connection. */
  class Connection {
    const guard: ReplayGuard
    var pending: map<Pid, Half>
    var uploads: map<Pid, Token>

    function View(): Conn
      reads this
    {
      Conn(pending, uploads)
    }

    constructor (guard: ReplayGuard)
      ensures this.guard == guard && View() == CONN0
    {
      this.guard := guard;
      pending, uploads := map[], map[];
    }

    method Close() returns (out: Outcome)
      modifies this
      ensures View() == CONN0 && out == Closed
    {
      pending, uploads := map[], map[];
      out := Closed;
    }

    method ServeFallback(ioOk: bool) returns (out: Outcome)
      modifies this
      ensures (View(), out) == if ioOk then (old(View()), Fallback) else (CONN0, Closed)
    {
      if ioOk {
        out := Fallback;
      } else {
        out := Close();
      }
    }

    method HandlePacket(pid: Pid, auth: Token, ioOk: bool) returns (out: Outcome)
      modifies this
      ensures (View(), out) == HandledPacket(old(View()), pid, auth, ioOk)
    {
      var starts := false;
      if pid in uploads {
        if uploads[pid] != auth {
          out := ServeFallback(ioOk);
          return;
        }
      } else {
        var half := if pid in pending then Some(pending[pid]) else None;
        pending := pending - {pid};
        if half.None? || half.value.Upload? {
          out := ServeFallback(ioOk);
          return;
        }
        if half.value.auth != auth {
          out := ServeFallback(ioOk);
          return;
        }
        uploads := uploads[pid := half.value.auth];
        starts := true;
      }
      if !ioOk {
        out := Close();
        return if starts then StartsAndCloses(auth) else out;
      }
      out := Packet(uploads[pid], starts);
    }

    method HandleSecond(pid: Pid, dir: Direction, auth: Token, ioOk: bool) returns (out: Outcome)
      requires pid in pending && !dir.UpPacket?
      modifies this
      ensures (View(), out) == HandledSecond(old(View()), pid, dir, auth, ioOk)
    {
      var first := pending[pid];
      pending := pending - {pid};
      if first.auth != auth {
        pending := pending[pid := first];
        assert pending == old(pending);
        out := ServeFallback(ioOk);
        return;
      }
      if !ioOk {
        out := Close();
        return;
      }
      var second := HalfOf(dir, auth);
      out := if first.Download? != second.Download? then Starts(first.auth) else Discards;
    }

    method HandleStreamOne(req: Req) returns (out: Outcome, isFresh: bool)
      requires req.target.StreamOne? && |guard.window.Keys| <= KEEP_EPOCHS
      modifies this, guard
      ensures GuardStep(Verified(req), old(guard.window), guard.window, KEEP_EPOCHS, isFresh)
      ensures (View(), out) == Handled(old(View()), req, isFresh)
      ensures |guard.window.Keys| <= KEEP_EPOCHS
    {
      isFresh := false;
      if req.token.None? {
        out := ServeFallback(req.ioOk);
        return;
      }
      var auth := AuthorizeAny(req.token.value, req.tries, guard);
      isFresh := auth.Some?;
      if auth.None? {
        out := ServeFallback(req.ioOk);
      } else if !req.ioOk {
        out := Close();
      } else {
        out := Starts(auth.value);
      }
    }

    method Handle(req: Req) returns (out: Outcome, isFresh: bool)
      requires |guard.window.Keys| <= KEEP_EPOCHS
      modifies this, guard
      ensures GuardStep(Asks(old(View()), req), old(guard.window), guard.window, KEEP_EPOCHS, isFresh)
      ensures (View(), out) == Handled(old(View()), req, isFresh)
      ensures |guard.window.Keys| <= KEEP_EPOCHS
    {
      hide Seen, Inserted;
      isFresh := false;
      match req.target {
        case Site =>
          out := ServeFallback(req.ioOk);
        case StreamOne =>
          out, isFresh := HandleStreamOne(req);
        case Segment(pid, dir) =>
          var asked := Verified(req);
          if asked.None? {
            out := ServeFallback(req.ioOk);
          } else if dir.UpPacket? {
            out := HandlePacket(pid, req.token.value, req.ioOk);
          } else if pid in pending {
            out := HandleSecond(pid, dir, req.token.value, req.ioOk);
          } else {
            VerifiedEpoch(req.token.value, req.tries);
            isFresh := guard.Observe(asked.value.epoch, req.token.value.nonce);
            if !isFresh {
              out := ServeFallback(req.ioOk);
            } else if !req.ioOk {
              out := Close();
            } else {
              pending := pending[pid := HalfOf(dir, req.token.value)];
              out := Waits;
            }
          }
      }
    }
  }
}
