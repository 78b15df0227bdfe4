/** Whole-run safety of admission: any number of connections and the guard they share as one
    transition system.

    Every request is verified at its own readings of the clock, which are `first` or later and at
    most `lag` behind the highest reading of any request before it: this covers a clock that is set
    back and time that passes between verification and the guard. A stream-one request may also be
    served key by key, with other requests in between: `TryKey` is a key whose token the guard has
    refused or that is not the token's, and the last key is a request with that key alone. */
module AdmissionRuns {
  import opened Prelude
  import opened Auth
  import opened ReplayGuard
  import opened Admission

  /** The first reading, the lag, and how many epochs the guard keeps. */
  datatype Setting = Setting(first: Epoch, lag: nat, keep: nat)

  /** `high` is the highest reading so far, `log` lists every question asked of the guard,
      `admitted` the tokens it answered fresh, `sessions` the tokens of the sessions started,
      `packets` each dispatched packet as its assembler's token and its own. */
  datatype Server = Server(
    high: Epoch,
    window: Window,
    log: seq<Request>,
    admitted: seq<Token>,
    conns: seq<Conn>,
    sessions: seq<Token>,
    packets: seq<(Token, Token)>)

  datatype Event = Accept | Serve(conn: nat, req: Req) | TryKey(token: Token, t: Try) | End(conn: nat)

  function Start(first: Epoch): Server {
    Server(first, map[], [], [], [], [], [])
  }

  function SessionsOf(out: Outcome): seq<Token> {
    match out
    case Starts(auth) => [auth]
    case StartsAndCloses(auth) => [auth]
    case Packet(assembler, starts) => if starts then [assembler] else []
    case _ => []
  }

  function PacketsOf(out: Outcome, req: Req): seq<(Token, Token)> {
    if out.Packet? && req.token.Some? then [(out.assembler, req.token.value)] else []
  }

  predicate InTime(cfg: Setting, high: Epoch, tries: seq<Try>) {
    forall i :: 0 <= i < |tries| ==> cfg.first <= tries[i].now && high <= tries[i].now + cfg.lag
  }

  function Highest(high: Epoch, tries: seq<Try>): (h: Epoch)
    ensures high <= h && forall i :: 0 <= i < |tries| ==> tries[i].now <= h
    ensures h == high || exists i :: 0 <= i < |tries| && tries[i].now == h
  {
    if tries == [] then high else Max(Highest(high, tries[..|tries| - 1]), tries[|tries| - 1].now)
  }

  /** A key of a stream-one request that is not the last and does not let it through. */
  ghost predicate Tried(cfg: Setting, s: Server, asks: Option<Request>, one: Try, t: Server) {
    && InTime(cfg, s.high, [one])
    && GuardStep(asks, s.window, t.window, cfg.keep, false)
    && t == s.(
      high := Highest(s.high, [one]), window := t.window, log := s.log + if asks.Some? then [asks.value] else [])
  }

  ghost predicate Served(cfg: Setting, s: Server, c: nat, req: Req, t: Server)
    requires c < |s.conns|
  {
    var asks := Asks(s.conns[c], req);
    var isFresh := asks.Some? && !Seen(s.window, asks.value.epoch, asks.value.nonce);
    var (conn, out) := Handled(s.conns[c], req, isFresh);
    && InTime(cfg, s.high, req.tries)
    && GuardStep(asks, s.window, t.window, cfg.keep, isFresh)
    && t == s.(
      high := Highest(s.high, req.tries),
      window := t.window,
      log := s.log + if asks.Some? then [asks.value] else [],
      admitted := s.admitted + if isFresh then [req.token.value] else [],
      conns := s.conns[c := conn],
      sessions := s.sessions + SessionsOf(out),
      packets := s.packets + PacketsOf(out, req))
  }

  ghost predicate Next(cfg: Setting, s: Server, e: Event, t: Server) {
    match e
    case Accept => t == s.(conns := s.conns + [CONN0])
    case Serve(c, req) => c < |s.conns| && Served(cfg, s, c, req, t)
    case TryKey(token, one) => Tried(cfg, s, VerifyAny(token, [one]), one, t)
    case End(c) => c < |s.conns| && t == s.(conns := s.conns[c := CONN0])
  }

  ghost predicate Reachable(cfg: Setting, events: seq<Event>, s: Server)
    decreases |events|, 1
  {
    if events == [] then s == Start(cfg.first)
    else exists before :: ReachableBy(cfg, events, before, s)
  }

  ghost predicate ReachableBy(cfg: Setting, events: seq<Event>, before: Server, s: Server)
    requires events != []
    decreases |events|, 0
  {
    Reachable(cfg, events[..|events| - 1], before) && Next(cfg, before, events[|events| - 1], s)
  }

  // ---- The invariant ----

  predicate SameStamp(a: Token, b: Token) {
    a.tag.Mac? && b.tag.Mac? && a.tag.epoch == b.tag.epoch && a.nonce == b.nonce
  }

  /** The guard remembers all that can still be presented, and no (epoch, nonce) pair was
      answered fresh twice. */
  ghost predicate GuardSafe(cfg: Setting, s: Server) {
    && Remembers(s.log, |s.log|, s.window, cfg.first, cfg.lag, s.high)
    && (forall i :: 0 <= i < |s.admitted| ==>
      s.admitted[i].tag.Mac? && Requested(s.log, |s.log|, s.admitted[i].tag.epoch, s.admitted[i].nonce))
    && (forall i, j :: 0 <= i < j < |s.admitted| ==> !SameStamp(s.admitted[i], s.admitted[j]))
  }

  ghost predicate Waiting(conns: seq<Conn>, c: nat, pid: Pid, auth: Token) {
    c < |conns| && pid in conns[c].pending && conns[c].pending[pid].auth == auth
  }

  /** Every waiting half and every session holds a token that was answered fresh, and no token
      is held twice. */
  ghost predicate HeldOnce(admitted: seq<Token>, conns: seq<Conn>, sessions: seq<Token>) {
    && (forall t :: t in sessions ==> t in admitted)
    && (forall i, j :: 0 <= i < j < |sessions| ==> sessions[i] != sessions[j])
    && (forall c, pid, t :: Waiting(conns, c, pid, t) ==> t in admitted && t !in sessions)
    && (forall c, pid, d, qid, t :: Waiting(conns, c, pid, t) && Waiting(conns, d, qid, t) ==> c == d && pid == qid)
  }

  /** Every assembler belongs to a session and only ever got packets with its own token. */
  ghost predicate PacketsOwn(s: Server) {
    && (forall i :: 0 <= i < |s.packets| ==> s.packets[i].0 == s.packets[i].1 && s.packets[i].0 in s.sessions)
    && (forall c, pid :: 0 <= c < |s.conns| && pid in s.conns[c].uploads ==> s.conns[c].uploads[pid] in s.sessions)
  }

  ghost predicate Safe(cfg: Setting, s: Server) {
    GuardSafe(cfg, s) && HeldOnce(s.admitted, s.conns, s.sessions) && PacketsOwn(s)
  }

  // ---- Every step keeps it ----

  lemma ReadingKeeps(cfg: Setting, s: Server, high: Epoch)
    requires GuardSafe(cfg, s) && s.high <= high
    ensures GuardSafe(cfg, s.(high := high))
  {
    hide Requested, Alive, Bounded, Seen;
    RemembersLater(s.log, |s.log|, s.window, cfg.first, cfg.lag, s.high, high);
  }

  /** The guard calls a pair fresh only if no token with it was admitted before. */
  lemma FreshIsNew(cfg: Setting, s: Server, epoch: u64, nonce: Nonce)
    requires GuardSafe(cfg, s) && !Seen(s.window, epoch, nonce) && Alive(cfg.first, cfg.lag, s.high, epoch)
    ensures forall i :: 0 <= i < |s.admitted| ==> s.admitted[i].tag.epoch != epoch || s.admitted[i].nonce != nonce
  {
    hide Requested;
  }

  lemma LogGrows(log: seq<Request>, r: Request, e: u64, n: Nonce)
    ensures Requested(log + [r], |log|, e, n) <==> Requested(log, |log|, e, n)
    ensures Requested(log + [r], |log| + 1, e, n) <==> Requested(log, |log|, e, n) || (e == r.epoch && n == r.nonce)
  {
    var after := log + [r];
    assert after[..|log|] == log;
    RequestedNext(after, |log|, e, n);
  }

  /** Asking about a verified token, whatever the answer. */
  lemma AskingKeeps(cfg: Setting, s: Server, token: Token, now: Epoch, window: Window, t: Server)
    requires GuardSafe(cfg, s) && cfg.keep >= Needed(cfg.first, cfg.lag)
    requires token.tag.Mac? && InWindow(now, token.tag.epoch) && cfg.first <= now <= s.high <= now + cfg.lag
    requires KeepsNewest(Inserted(s.window, token.tag.epoch, token.nonce), window, cfg.keep)
    requires t == s.(
      window := window,
      log := s.log + [Request(now, token.tag.epoch, token.nonce)],
      admitted := s.admitted + if Seen(s.window, token.tag.epoch, token.nonce) then [] else [token])
    ensures GuardSafe(cfg, t)
  {
    hide Requested, KeepsNewest, Needed, InWindow, Alive;
    var r := Request(now, token.tag.epoch, token.nonce);
    forall e: u64, n
      ensures Requested(t.log, |s.log|, e, n) <==> Requested(s.log, |s.log|, e, n)
      ensures Requested(t.log, |t.log|, e, n) <==> Requested(s.log, |s.log|, e, n) || (e == r.epoch && n == r.nonce)
    {
      LogGrows(s.log, r, e, n);
    }
    RemembersNext(t.log, |s.log|, s.window, window, cfg.keep, cfg.first, cfg.lag, s.high);
    AcceptedIsAlive(cfg.first, cfg.lag, s.high, now, token.tag.epoch);
    if !Seen(s.window, token.tag.epoch, token.nonce) {
      FreshIsNew(cfg, s, token.tag.epoch, token.nonce);
    }
  }

  /** The deciding reading is one of the request's, and what it accepts is still remembered. */
  lemma AskedInTime(cfg: Setting, high: Epoch, token: Token, tries: seq<Try>)
    requires InTime(cfg, high, tries) && VerifyAny(token, tries).Some?
    ensures var asked := VerifyAny(token, tries).value;
      && token.tag.Mac? && asked == Request(asked.now, token.tag.epoch, token.nonce) && InWindow(asked.now, asked.epoch)
      && cfg.first <= asked.now <= Highest(high, tries) && high <= asked.now + cfg.lag
      && Alive(cfg.first, cfg.lag, high, asked.epoch)
  {
    VerifiedEpoch(token, tries);
    var asked := VerifyAny(token, tries).value;
    AcceptedIsAlive(cfg.first, cfg.lag, high, asked.now, asked.epoch);
  }

  lemma GuardKeeps(cfg: Setting, s: Server, c: nat, req: Req, t: Server)
    requires GuardSafe(cfg, s) && cfg.keep >= Needed(cfg.first, cfg.lag)
    requires c < |s.conns| && Served(cfg, s, c, req, t)
    ensures GuardSafe(cfg, t)
  {
    hide Handled, KeepsNewest, Needed, Remembers, Requested, InWindow, Alive;
    var asks := Asks(s.conns[c], req);
    if asks.Some? {
      AskedInTime(cfg, s.high, req.token.value, req.tries);
      var asked := asks.value;
      var read := s.(high := Max(s.high, asked.now));
      ReadingKeeps(cfg, s, read.high);
      var answered := read.(window := t.window, log := t.log, admitted := t.admitted);
      AskingKeeps(cfg, read, req.token.value, asked.now, t.window, answered);
      ReadingKeeps(cfg, answered, t.high);
    } else {
      assert t.log == s.log && t.admitted == s.admitted;
      ReadingKeeps(cfg, s, t.high);
    }
  }

  predicate Subset(a: map<Pid, Half>, b: map<Pid, Half>) {
    forall pid :: pid in a ==> pid in b && a[pid] == b[pid]
  }

  /** A connection whose halves are a subset of what they were, with no session added. */
  lemma ReleasingKeeps(admitted: seq<Token>, conns: seq<Conn>, c: nat, conn: Conn, sessions: seq<Token>)
    requires HeldOnce(admitted, conns, sessions) && c < |conns|
    requires Subset(conn.pending, conns[c].pending)
    ensures HeldOnce(admitted, conns[c := conn], sessions)
  {
    var after := conns[c := conn];
    forall d, pid, t | Waiting(after, d, pid, t)
      ensures Waiting(conns, d, pid, t)
    {
    }
  }

  /** A waiting half turns into a session. */
  lemma PairingKeeps(admitted: seq<Token>, conns: seq<Conn>, c: nat, pid: Pid, conn: Conn, sessions: seq<Token>)
    requires HeldOnce(admitted, conns, sessions) && c < |conns| && pid in conns[c].pending
    requires Subset(conn.pending, conns[c].pending - {pid})
    ensures HeldOnce(admitted, conns[c := conn], sessions + [conns[c].pending[pid].auth])
  {
    var auth := conns[c].pending[pid].auth;
    assert Waiting(conns, c, pid, auth);
    ReleasingKeeps(admitted, conns, c, conn, sessions);
    var after := conns[c := conn];
    forall d, q | Waiting(after, d, q, auth)
      ensures false
    {
      assert Waiting(conns, d, q, auth);
    }
  }

  /** A token just answered fresh is held by nobody yet. */
  lemma AdmittingKeeps(admitted: seq<Token>, conns: seq<Conn>, sessions: seq<Token>, auth: Token)
    requires HeldOnce(admitted, conns, sessions) && auth !in admitted
    ensures HeldOnce(admitted + [auth], conns, sessions)
    ensures auth !in sessions && forall c, pid :: !Waiting(conns, c, pid, auth)
  {
  }

  lemma StoringKeeps(admitted: seq<Token>, conns: seq<Conn>, c: nat, pid: Pid, half: Half, conn: Conn,
      sessions: seq<Token>)
    requires HeldOnce(admitted, conns, sessions) && c < |conns|
    requires half.auth in admitted && half.auth !in sessions && forall d, q :: !Waiting(conns, d, q, half.auth)
    requires conn.pending == conns[c].pending[pid := half]
    ensures HeldOnce(admitted, conns[c := conn], sessions)
  {
    var after := conns[c := conn];
    forall d, q, t | Waiting(after, d, q, t)
      ensures Waiting(conns, d, q, t) || (d == c && q == pid && t == half.auth)
    {
    }
  }

  /** What a request can do to the waiting halves and the sessions. */
  lemma Shape(conn: Conn, req: Req, isFresh: bool)
    requires isFresh ==> Asks(conn, req).Some?
    ensures var (after, out) := Handled(conn, req, isFresh);
      var pid := if req.target.Segment? then req.target.pid else "";
      || (isFresh && SessionsOf(out) == [] && Subset(conn.pending, after.pending)
          && exists half: Half :: half.auth == req.token.value && after.pending == conn.pending[pid := half])
      || (isFresh && SessionsOf(out) == [req.token.value] && Subset(after.pending, conn.pending))
      || (!isFresh && pid in conn.pending && SessionsOf(out) == [conn.pending[pid].auth]
          && Subset(after.pending, conn.pending - {pid}))
      || (SessionsOf(out) == [] && Subset(after.pending, conn.pending))
  {
    var (after, out) := Handled(conn, req, isFresh);
    if isFresh && out == Waits {
      var half := HalfOf(req.target.dir, req.token.value);
      assert half.auth == req.token.value && after.pending == conn.pending[req.target.pid := half];
    }
  }

  /** A session started at once on a token nobody holds. */
  lemma StartingKeeps(admitted: seq<Token>, conns: seq<Conn>, c: nat, conn: Conn, sessions: seq<Token>, auth: Token)
    requires c < |conns| && Subset(conn.pending, conns[c].pending)
    requires HeldOnce(admitted, conns[c := conn], sessions)
    requires auth in admitted && auth !in sessions && forall d, q :: !Waiting(conns, d, q, auth)
    ensures HeldOnce(admitted, conns[c := conn], sessions + [auth])
  {
    var after := conns[c := conn];
    forall d, q, t | Waiting(after, d, q, t)
      ensures t != auth
    {
      assert Waiting(conns, d, q, t);
    }
  }

  lemma HeldKeeps(cfg: Setting, s: Server, c: nat, req: Req, t: Server)
    requires Safe(cfg, s) && c < |s.conns| && Served(cfg, s, c, req, t)
    ensures HeldOnce(t.admitted, t.conns, t.sessions)
  {
    hide Handled, HeldOnce, KeepsNewest, SessionsOf, PacketsOf, Remembers, Requested;
    var conn := s.conns[c];
    var asks := Asks(conn, req);
    var isFresh := asks.Some? && !Seen(s.window, asks.value.epoch, asks.value.nonce);
    var (after, out) := Handled(conn, req, isFresh);
    var pid := if req.target.Segment? then req.target.pid else "";
    Shape(conn, req, isFresh);
    if isFresh {
      var auth := req.token.value;
      AskedInTime(cfg, s.high, auth, req.tries);
      FreshIsNew(cfg, s, auth.tag.epoch, auth.nonce);
      AdmittingKeeps(s.admitted, s.conns, s.sessions, auth);
      if SessionsOf(out) == [] && !Subset(after.pending, conn.pending) {
        var half: Half :| half.auth == auth && after.pending == conn.pending[pid := half];
        StoringKeeps(t.admitted, s.conns, c, pid, half, after, s.sessions);
        assert t.sessions == s.sessions;
      } else {
        ReleasingKeeps(t.admitted, s.conns, c, after, s.sessions);
        if SessionsOf(out) != [] {
          StartingKeeps(t.admitted, s.conns, c, after, s.sessions, auth);
        } else {
          assert t.sessions == s.sessions;
        }
      }
    } else if SessionsOf(out) != [] {
      PairingKeeps(s.admitted, s.conns, c, pid, after, s.sessions);
    } else {
      ReleasingKeeps(s.admitted, s.conns, c, after, s.sessions);
      assert t.sessions == s.sessions;
    }
    assert !isFresh ==> t.admitted == s.admitted;
  }

  /** One connection's assemblers and its dispatched packet. */
  lemma UploadsOwn(conn: Conn, req: Req, isFresh: bool, sessions: seq<Token>)
    requires forall pid :: pid in conn.uploads ==> conn.uploads[pid] in sessions
    ensures var (after, out) := Handled(conn, req, isFresh);
      && (forall pid :: pid in after.uploads ==> after.uploads[pid] in sessions + SessionsOf(out))
      && (forall p :: p in PacketsOf(out, req) ==> p.0 == p.1 && p.0 in sessions + SessionsOf(out))
  {
    hide Asks, Verified;
  }

  lemma PacketsKeep(cfg: Setting, s: Server, c: nat, req: Req, t: Server)
    requires PacketsOwn(s) && c < |s.conns| && Served(cfg, s, c, req, t)
    ensures PacketsOwn(t)
  {
    hide InTime, GuardStep, Asks, Seen, Verified, Highest, Handled, SessionsOf, PacketsOf;
    var asks := Asks(s.conns[c], req);
    UploadsOwn(s.conns[c], req, asks.Some? && !Seen(s.window, asks.value.epoch, asks.value.nonce), s.sessions);
  }

  lemma SameHolders(s: Server, t: Server)
    requires t.conns == s.conns && t.sessions == s.sessions && t.packets == s.packets && t.admitted == s.admitted
    ensures HeldOnce(s.admitted, s.conns, s.sessions) ==> HeldOnce(t.admitted, t.conns, t.sessions)
    ensures PacketsOwn(s) ==> PacketsOwn(t)
  {
  }

  lemma TriedKeeps(cfg: Setting, s: Server, token: Token, one: Try, t: Server)
    requires Safe(cfg, s) && cfg.keep >= Needed(cfg.first, cfg.lag) && Tried(cfg, s, VerifyAny(token, [one]), one, t)
    ensures Safe(cfg, t)
  {
    hide KeepsNewest, Needed, Remembers, Requested, InWindow, Alive, HeldOnce, PacketsOwn;
    var asks := VerifyAny(token, [one]);
    if asks.Some? {
      AskedInTime(cfg, s.high, token, [one]);
      var read := s.(high := Max(s.high, asks.value.now));
      ReadingKeeps(cfg, s, read.high);
      var answered := read.(window := t.window, log := t.log);
      assert read.admitted + [] == read.admitted;
      AskingKeeps(cfg, read, token, asks.value.now, t.window, answered);
      ReadingKeeps(cfg, answered, t.high);
    } else {
      assert t.log == s.log;
      ReadingKeeps(cfg, s, t.high);
    }
    SameHolders(s, t);
  }

  lemma EndKeeps(cfg: Setting, s: Server, c: nat)
    requires Safe(cfg, s) && c < |s.conns|
    ensures Safe(cfg, s.(conns := s.conns[c := CONN0]))
  {
    hide Remembers, Requested, HeldOnce;
    ReleasingKeeps(s.admitted, s.conns, c, CONN0, s.sessions);
  }

  lemma AcceptKeeps(cfg: Setting, s: Server)
    requires Safe(cfg, s)
    ensures Safe(cfg, s.(conns := s.conns + [CONN0]))
  {
    hide Remembers, Requested;
    var after := s.conns + [CONN0];
    forall d, pid, t | Waiting(after, d, pid, t)
      ensures Waiting(s.conns, d, pid, t)
    {
    }
  }

  lemma NextKeeps(cfg: Setting, s: Server, e: Event, t: Server)
    requires Safe(cfg, s) && Next(cfg, s, e, t) && cfg.keep >= Needed(cfg.first, cfg.lag)
    ensures Safe(cfg, t)
  {
    hide GuardSafe, HeldOnce, PacketsOwn, Needed, Served, Tried;
    match e
    case Accept =>
      AcceptKeeps(cfg, s);
    case TryKey(token, one) =>
      TriedKeeps(cfg, s, token, one, t);
    case End(c) =>
      EndKeeps(cfg, s, c);
    case Serve(c, req) =>
      GuardKeeps(cfg, s, c, req, t);
      HeldKeeps(cfg, s, c, req, t);
      PacketsKeep(cfg, s, c, req, t);
  }

  lemma {:induction false} EveryRunIsSafe(cfg: Setting, events: seq<Event>, s: Server)
    requires cfg.keep >= Needed(cfg.first, cfg.lag) && Reachable(cfg, events, s)
    ensures Safe(cfg, s)
  {
    hide Needed, Next;
    if events == [] {
      RemembersNothing([], cfg.first, cfg.lag);
    } else {
      var before :| ReachableBy(cfg, events, before, s);
      EveryRunIsSafe(cfg, events[..|events| - 1], before);
      hide Safe;
      NextKeeps(cfg, before, events[|events| - 1], s);
    }
  }

  ghost predicate IsOnlyAdmission(admitted: seq<Token>, k: nat, auth: Token) {
    k < |admitted| && admitted[k] == auth && forall m :: 0 <= m < |admitted| && SameStamp(admitted[m], auth) ==> m == k
  }

  ghost predicate AdmittedOnce(admitted: seq<Token>, auth: Token) {
    exists k :: IsOnlyAdmission(admitted, k, auth)
  }

  lemma BackedOnce(cfg: Setting, s: Server, auth: Token)
    requires GuardSafe(cfg, s) && auth in s.admitted
    ensures AdmittedOnce(s.admitted, auth)
  {
    hide Requested, Remembers;
    var k :| 0 <= k < |s.admitted| && s.admitted[k] == auth;
    forall m | 0 <= m < |s.admitted| && SameStamp(s.admitted[m], auth)
      ensures m == k
    {
      assert SameStamp(s.admitted[k], s.admitted[m]);
    }
    assert IsOnlyAdmission(s.admitted, k, auth);
  }

  /** In every run each token starts at most one session, even counting tokens that share
      epoch and nonce as one; each session is backed by exactly one fresh answer of the guard;
      and an assembler only receives packets carrying its own token. */
  lemma AtMostOneSession(cfg: Setting, events: seq<Event>, s: Server)
    requires cfg.keep >= Needed(cfg.first, cfg.lag) && Reachable(cfg, events, s)
    ensures forall i, j :: 0 <= i < j < |s.sessions| ==>
      s.sessions[i] != s.sessions[j] && !SameStamp(s.sessions[i], s.sessions[j])
    ensures forall i :: 0 <= i < |s.sessions| ==> AdmittedOnce(s.admitted, s.sessions[i])
    ensures forall i :: 0 <= i < |s.packets| ==> s.packets[i].0 == s.packets[i].1
  {
    hide Needed, Reachable, Remembers, Requested;
    EveryRunIsSafe(cfg, events, s);
    forall i | 0 <= i < |s.sessions|
      ensures AdmittedOnce(s.admitted, s.sessions[i])
    {
      BackedOnce(cfg, s, s.sessions[i]);
    }
    forall i, j | 0 <= i < j < |s.sessions|
      ensures s.sessions[i] != s.sessions[j] && !SameStamp(s.sessions[i], s.sessions[j])
    {
      var k :| IsOnlyAdmission(s.admitted, k, s.sessions[i]);
      var m :| IsOnlyAdmission(s.admitted, m, s.sessions[j]);
    }
  }

  // ---- Fewer epochs kept ----

  ghost predicate OneSessionPerToken(s: Server) {
    forall i, j :: 0 <= i < j < |s.sessions| ==> s.sessions[i] != s.sessions[j]
  }

  function TokenOf(epoch: u64): Token {
    BuildWith([], epoch, [], [])
  }

  function RequestOf(now: Epoch, epoch: u64): Req {
    Req(StreamOne, Some(TokenOf(epoch)), [Try([], now)], true)
  }

  lemma Extend(cfg: Setting, events: seq<Event>, s: Server, e: Event, t: Server)
    requires Reachable(cfg, events, s) && Next(cfg, s, e, t)
    ensures Reachable(cfg, events + [e], t)
  {
    hide Next;
    var longer := events + [e];
    assert longer[..|longer| - 1] == events;
    assert ReachableBy(cfg, longer, s, t);
  }

  /** A token the guard calls fresh starts a session on an idle connection. */
  lemma StartsOne(cfg: Setting, events: seq<Event>, s: Server, now: Epoch, epoch: u64, window: Window)
    returns (longer: seq<Event>, t: Server)
    requires Reachable(cfg, events, s) && s.conns == [CONN0]
    requires InWindow(now, epoch) && cfg.first <= now && s.high <= now + cfg.lag
    requires !Seen(s.window, epoch, []) && KeepsNewest(Inserted(s.window, epoch, []), window, cfg.keep)
    ensures Reachable(cfg, longer, t) && t.conns == [CONN0] && t.window == window && t.high == Max(s.high, now)
    ensures t.sessions == s.sessions + [TokenOf(epoch)]
  {
    hide Reachable, Seen, KeepsNewest, Inserted, InWindow;
    var req := RequestOf(now, epoch);
    OneTry(TokenOf(epoch), Try([], now));
    assert Asks(CONN0, req) == Some(Request(now, epoch, []));
    assert req.tries[..0] == [];
    t := s.(
      high := Max(s.high, now), window := window, log := s.log + [Request(now, epoch, [])],
      admitted := s.admitted + [TokenOf(epoch)], sessions := s.sessions + [TokenOf(epoch)]);
    assert s.conns[0 := CONN0] == s.conns;
    assert s.packets + [] == s.packets;
    assert Served(cfg, s, 0, req, t);
    longer := events + [Serve(0, req)];
    Extend(cfg, events, s, Serve(0, req), t);
  }

  lemma IdleConnection(cfg: Setting) returns (events: seq<Event>, s: Server)
    ensures Reachable(cfg, events, s) && s == Start(cfg.first).(conns := [CONN0])
  {
    var start := Start(cfg.first);
    s := start.(conns := [CONN0]);
    events := [] + [Accept];
    assert start.conns + [CONN0] == [CONN0];
    Extend(cfg, [], start, Accept, s);
  }

  lemma NotSeen(w: Window, e: u64, n: Nonce)
    requires e !in w
    ensures !Seen(w, e, n)
  {
  }

  lemma FloodInTime(first: Epoch, lag: nat, k: nat)
    requires k < Needed(first, lag)
    ensures var req := FloodRequest(first, lag, [], k);
      && first <= req.now <= TopReading(first, lag) && InWindow(req.now, req.epoch)
      && (k > 0 ==> FloodRequest(first, lag, [], k - 1).now <= req.now)
      && (k == 0 ==> req.epoch == OldestEpoch(first) && req.now == first)
  {
    WindowIsThreeHours(FloodRequest(first, lag, [], k).now, FloodRequest(first, lag, [], k).epoch);
  }

  /** The tokens of a flood all start sessions. */
  lemma {:induction false} FloodStarts(cfg: Setting, k: nat) returns (events: seq<Event>, s: Server)
    requires k <= Needed(cfg.first, cfg.lag)
    ensures Reachable(cfg, events, s) && s.conns == [CONN0]
    ensures Flooded(cfg.first, k, s.window) && |s.window.Keys| <= cfg.keep
    ensures s.high == (if k == 0 then cfg.first else FloodRequest(cfg.first, cfg.lag, [], k - 1).now)
    ensures |s.sessions| == k && (k > 0 ==> s.sessions[0] == TokenOf(OldestEpoch(cfg.first)))
  {
    hide Reachable, KeepsNewest, Needed, Flooded, FloodEpoch, Inserted, InWindow, TokenOf, Seen;
    if k == 0 {
      events, s := IdleConnection(cfg);
      NoneFlooded(cfg.first);
    } else {
      events, s := FloodStarts(cfg, k - 1);
      var req := FloodRequest(cfg.first, cfg.lag, [], k - 1);
      FloodInTime(cfg.first, cfg.lag, k - 1);
      var window := Pruned(Inserted(s.window, req.epoch, []), cfg.keep);
      FloodStep(cfg.first, cfg.lag, cfg.keep, [], k - 1, s.window, window);
      KeptAtMost(Inserted(s.window, req.epoch, []), window, cfg.keep);
      NotSeen(s.window, req.epoch, []);
      events, s := StartsOne(cfg, events, s, req.now, req.epoch, window);
    }
  }

  /** With fewer epochs kept, the oldest token of a flood starts a second session. */
  lemma FloodReplays(cfg: Setting) returns (events: seq<Event>, s: Server)
    requires cfg.keep < Needed(cfg.first, cfg.lag)
    ensures Reachable(cfg, events, s) && !OneSessionPerToken(s)
  {
    hide Reachable, KeepsNewest, Flooded, FloodEpoch, Inserted, TokenOf, Seen;
    var m := Needed(cfg.first, cfg.lag);
    events, s := FloodStarts(cfg, m);
    FloodInTime(cfg.first, cfg.lag, m - 1);
    FloodForgets(cfg.first, cfg.lag, s.window);
    var again := OldestEpoch(cfg.first);
    NotSeen(s.window, again, []);
    WindowIsThreeHours(Base(cfg.first), again);
    var window := Pruned(Inserted(s.window, again, []), cfg.keep);
    events, s := StartsOne(cfg, events, s, Base(cfg.first), again, window);
    assert s.sessions[0] == s.sessions[m] == TokenOf(again);
  }

  lemma SessionsDiffer(s: Server)
    requires forall i, j :: 0 <= i < j < |s.sessions| ==>
      s.sessions[i] != s.sessions[j] && !SameStamp(s.sessions[i], s.sessions[j])
    ensures OneSessionPerToken(s)
  {
  }

  /** One session per token holds in all runs exactly when the guard keeps as many epochs as can be
      acceptable at once. */
  lemma OneSessionIff(cfg: Setting)
    ensures cfg.keep >= Needed(cfg.first, cfg.lag) <==>
      forall events, s :: Reachable(cfg, events, s) ==> OneSessionPerToken(s)
  {
    hide Reachable, OneSessionPerToken, Needed;
    if cfg.keep >= Needed(cfg.first, cfg.lag) {
      forall events, s | Reachable(cfg, events, s)
        ensures OneSessionPerToken(s)
      {
        AtMostOneSession(cfg, events, s);
        SessionsDiffer(s);
      }
    } else {
      var events, s := FloodReplays(cfg);
      assert Reachable(cfg, events, s) && !OneSessionPerToken(s);
    }
  }

  /** With the three epochs the code keeps: exactly when the clock starts at epoch 1 or later and
      readings reach the guard in order, or the clock cannot advance. */
  lemma OneSessionOfThreeIff(first: Epoch, lag: nat)
    ensures (forall events, s :: Reachable(Setting(first, lag, KEEP_EPOCHS), events, s) ==> OneSessionPerToken(s)) <==>
      first >= 1 && (lag == 0 || first == LAST_EPOCH)
  {
    hide Reachable, OneSessionPerToken, Needed;
    OneSessionIff(Setting(first, lag, KEEP_EPOCHS));
    ThreeEpochsIff(first, lag);
  }

  /** One late reading is enough: five requests from epoch 2, the last read at the first hour. */
  lemma LateReadingReplays() returns (events: seq<Event>, s: Server)
    ensures Reachable(Setting(2, 1, KEEP_EPOCHS), events, s) && !OneSessionPerToken(s)
  {
    events, s := FloodReplays(Setting(2, 1, KEEP_EPOCHS));
  }
}
