/** When a request starts a session, and what becomes of the halves that wait: each step of a
    connection as an exact law on what a client can see. */
module Pairing {
  import opened Prelude
  import opened Auth
  import opened ReplayGuard
  import opened Admission
  import A = AdmissionRuns

  predicate Opposite(half: Half, dir: Direction) {
    (half.Download? && dir.Up?) || (half.Upload? && dir.Down?)
  }

  /** The token verifies and the guard has not seen it. */
  predicate Admits(w: Window, req: Req) {
    Verified(req).Some? && !Seen(w, Verified(req).value.epoch, Verified(req).value.nonce)
  }

  /** A half under the request's identifier that carries the request's token. */
  predicate OwnHalf(c: Conn, req: Req) {
    && Verified(req).Some? && req.target.Segment? && req.target.pid in c.pending
    && c.pending[req.target.pid].auth == req.token.value
  }

  /** The three ways a session starts: a fresh stream-one request; the second half of a pair, the
      other way and with the same token; the first packet on a waiting download of its token. Only the
      last does not need its response to go out. */
  predicate Completes(w: Window, c: Conn, req: Req) {
    || (req.target.StreamOne? && req.ioOk && Admits(w, req))
    || (OwnHalf(c, req) && req.ioOk && Opposite(c.pending[req.target.pid], req.target.dir))
    || (OwnHalf(c, req) && req.target.dir.UpPacket? && c.pending[req.target.pid].Download?
        && req.target.pid !in c.uploads)
  }

  /** A request starts a session exactly when it completes one, and then its own token's. */
  lemma SessionStartsIff(cfg: A.Setting, s: A.Server, c: nat, req: Req, t: A.Server)
    requires c < |s.conns| && A.Next(cfg, s, A.Serve(c, req), t)
    ensures t.sessions == s.sessions + if Completes(s.window, s.conns[c], req) then [req.token.value] else []
  {
    hide GuardStep, A.InTime, Seen, VerifyAny;
  }

  /** A verified second half of a waiting one's token: the pair starts its session exactly when the
      two point opposite ways and the response goes out; two of the same way are both discarded. */
  lemma PairStartsIff(cfg: A.Setting, s: A.Server, c: nat, req: Req, t: A.Server)
    requires c < |s.conns| && A.Next(cfg, s, A.Serve(c, req), t)
    requires OwnHalf(s.conns[c], req) && !req.target.dir.UpPacket?
    ensures t.sessions == s.sessions + [req.token.value] <==>
      req.ioOk && (s.conns[c].pending[req.target.pid].Download? <==> req.target.dir.Up?)
    ensures t.sessions == s.sessions || t.sessions == s.sessions + [req.token.value]
    ensures req.target.pid !in t.conns[c].pending
  {
    SessionStartsIff(cfg, s, c, req, t);
    hide GuardStep, A.InTime, Seen, VerifyAny;
  }

  /** A request takes a waiting half: a packet before its session has one, whatever its token, or a
      second half of the same token. */
  predicate Takes(c: Conn, req: Req, pid: Pid) {
    && Verified(req).Some? && req.target.Segment? && req.target.pid == pid && pid in c.pending
    && if req.target.dir.UpPacket? then pid !in c.uploads else c.pending[pid].auth == req.token.value
  }

  /** The first half of a pair: verified, fresh, and nothing waits under its identifier. */
  predicate Begins(w: Window, c: Conn, req: Req, pid: Pid) {
    && req.target.Segment? && req.target.pid == pid && !req.target.dir.UpPacket?
    && pid !in c.pending && Admits(w, req)
  }

  predicate IsHalf(half: Half, req: Req) {
    && req.target.Segment? && req.token == Some(half.auth)
    && (half.Download? <==> req.target.dir.Down?)
  }

  /** A half waits after a request exactly when the response went out and either it waited before
      and was not taken, or it is the request's own first half; and it never changes. */
  lemma WaitsIff(cfg: A.Setting, s: A.Server, c: nat, req: Req, t: A.Server, pid: Pid, half: Half)
    requires c < |s.conns| && A.Next(cfg, s, A.Serve(c, req), t)
    ensures pid in t.conns[c].pending && t.conns[c].pending[pid] == half <==>
      && req.ioOk
      && (if pid in s.conns[c].pending then half == s.conns[c].pending[pid] && !Takes(s.conns[c], req, pid)
          else Begins(s.window, s.conns[c], req, pid) && IsHalf(half, req))
  {
    hide GuardStep, A.InTime, Seen, VerifyAny;
  }

  /** A packet of the session its identifier has, or of the waiting download it starts one on. */
  predicate OwnPacket(c: Conn, req: Req) {
    && Verified(req).Some? && req.target.Segment? && req.target.dir.UpPacket?
    && var pid, auth := req.target.pid, req.token.value;
    && if pid in c.uploads then c.uploads[pid] == auth else pid in c.pending && c.pending[pid] == Download(auth)
  }

  /** A packet is brought to a session exactly when it is the session's own and its response goes
      out; an identifier has a session exactly when it had it or got it from its first packet. */
  lemma PacketsIff(cfg: A.Setting, s: A.Server, c: nat, req: Req, t: A.Server, pid: Pid, auth: Token)
    requires c < |s.conns| && A.Next(cfg, s, A.Serve(c, req), t)
    ensures t.packets == s.packets +
      if OwnPacket(s.conns[c], req) && req.ioOk then [(req.token.value, req.token.value)] else []
    ensures pid in t.conns[c].uploads && t.conns[c].uploads[pid] == auth <==>
      && req.ioOk
      && (if pid in s.conns[c].uploads then s.conns[c].uploads[pid] == auth
          else OwnPacket(s.conns[c], req) && req.target.pid == pid && req.token == Some(auth))
  {
    hide GuardStep, A.InTime, Seen, VerifyAny;
  }

  /** Other connections do not notice a request, and one whose response cannot be sent ends its own. */
  lemma OnlyItsConnection(cfg: A.Setting, s: A.Server, c: nat, req: Req, t: A.Server, d: nat)
    requires c < |s.conns| && d < |s.conns| && A.Next(cfg, s, A.Serve(c, req), t)
    ensures |t.conns| == |s.conns| && (d != c ==> t.conns[d] == s.conns[d]) && (!req.ioOk ==> t.conns[c] == CONN0)
  {
    hide GuardStep, A.InTime, Seen, VerifyAny;
  }

  /** A request that is not for the tunnel or does not verify gets the honest site, or ends its
      connection when that cannot be sent. */
  lemma StrangersFallBack(c: Conn, req: Req)
    requires Verified(req).None? || req.target.Site?
    ensures Handled(c, req, false) == if req.ioOk then (c, Fallback) else (CONN0, Closed)
  {
  }

  /** The honest site is served exactly when the response goes out and the request is no part of a
      session: it neither starts one, nor begins or discards a pair, nor brings a packet to its own. */
  lemma FallbackIff(w: Window, c: Conn, req: Req, isFresh: bool)
    requires isFresh <==> Asks(c, req).Some? && !Seen(w, Asks(c, req).value.epoch, Asks(c, req).value.nonce)
    ensures Handled(c, req, isFresh).1.Fallback? <==>
      && req.ioOk && !Completes(w, c, req)
      && !(req.target.Segment? && Begins(w, c, req, req.target.pid))
      && !(OwnHalf(c, req) && !req.target.dir.UpPacket?)
      && !OwnPacket(c, req)
  {
    hide Seen, VerifyAny;
  }
}
