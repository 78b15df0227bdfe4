/** The packet-up pipe over admission. A session's POSTs arrive among any other requests on its own
    and on other connections, and each is verified again when it arrives, at the clock's readings of
    that moment. One that is not accepted gets the honest site's answer, which the client takes for
    success, and its chunk is gone. */
module PacketPosts {
  import opened Prelude
  import opened Auth
  import opened ReplayGuard
  import opened Admission
  import A = AdmissionRuns
  import P = PacketPipe

  /** The server's setting, the session's connection and identifier, and what its token was built
      from. */
  datatype Setting = Setting(
    admission: A.Setting, conn: nat, pid: Pid, psk: Psk, epoch: u64, salt: bytes, nonce: Nonce)

  /** A POST of the session, and whether the session was open when it arrived. */
  datatype Post = Post(number: nat, tries: seq<Try>, ioOk: bool, open: bool)

  /** `closed` once the connection has ended, `reading` the accepted POSTs whose bodies are being
      read, `failed` the numbers of bodies that could not be, `log` the session's POSTs. */
  datatype State = State(
    server: A.Server, pipe: P.Pipe<byte>, closed: bool, reading: multiset<nat>, failed: set<nat>, log: seq<Post>)

  datatype Event =
    | OfServer(event: A.Event)
    | Write(data: bytes)
    | Flush(slot: P.Slot)
    | Poll(room: nat)
    | Body(number: nat, ok: bool)
    | HangUp

  function TokenOf(cfg: Setting): Token {
    BuildWith(cfg.psk, cfg.epoch, cfg.salt, cfg.nonce)
  }

  /** The connection holds the session, or its download half waiting for the first POST. */
  predicate Open(cfg: Setting, c: Conn) {
    if cfg.pid in c.uploads then c.uploads[cfg.pid] == TokenOf(cfg)
    else cfg.pid in c.pending && c.pending[cfg.pid] == Download(TokenOf(cfg))
  }

  /** A server in the middle of any run, whose connection has the session's download half. */
  ghost predicate Begins(cfg: Setting, s: State) {
    && cfg.admission.keep >= Needed(cfg.admission.first, cfg.admission.lag)
    && (exists events :: A.Reachable(cfg.admission, events, s.server))
    && A.Waiting(s.server.conns, cfg.conn, cfg.pid, TokenOf(cfg)) && Open(cfg, s.server.conns[cfg.conn])
    && s == State(s.server, P.Fresh(), false, multiset{}, {}, [])
  }

  predicate IsPost(cfg: Setting, e: A.Event) {
    && e.Serve? && e.conn == cfg.conn && e.req.token == Some(TokenOf(cfg))
    && e.req.target.Segment? && e.req.target.pid == cfg.pid && e.req.target.dir.UpPacket?
  }

  function Number(e: A.Event): nat
    requires e.Serve? && e.req.target.Segment? && e.req.target.dir.UpPacket?
  {
    e.req.target.dir.number
  }

  predicate Closes(cfg: Setting, e: A.Event) {
    (e.End? && e.conn == cfg.conn) || (e.Serve? && e.conn == cfg.conn && !e.req.ioOk)
  }

  /** What a request means for the pipe. */
  function Received(cfg: Setting, s: State, e: A.Event): State {
    var closed := s.(closed := s.closed || Closes(cfg, e));
    if !IsPost(cfg, e) || cfg.conn >= |s.server.conns| then closed
    else
      var conn := s.server.conns[cfg.conn];
      var accepted := Handled(conn, e.req, false).1.Packet?;
      closed.(log := s.log + [Post(Number(e), e.req.tries, e.req.ioOk, Open(cfg, conn))],
              reading := s.reading + if accepted then multiset{Number(e)} else multiset{})
  }

  ghost predicate Next(cfg: Setting, s: State, e: Event, t: State) {
    match e
    case OfServer(event) =>
      && A.Next(cfg.admission, s.server, event, t.server)
      && (IsPost(cfg, event) ==> cfg.conn < |s.server.conns| && Number(event) < |s.pipe.chunks|)
      && t == Received(cfg, s, event).(server := t.server)
    case Write(data) => t == s.(pipe := P.Step(s.pipe, P.Write(data)))
    case Flush(slot) => t == s.(pipe := P.Step(s.pipe, P.Flush(slot)))
    case Poll(room) => t == s.(pipe := P.Step(s.pipe, P.Event.Poll(room)))
    case Body(number, ok) =>
      && number in s.reading && s.pipe.connected && number < |s.pipe.chunks|
      && t == s.(
        reading := s.reading - multiset{number},
        failed := s.failed + if ok then {} else {number},
        pipe := if ok then P.Step(s.pipe, P.Arrive(number)) else s.pipe)
    case HangUp => s.closed && s.reading == multiset{} && t == s.(pipe := P.Step(s.pipe, P.Disconnect))
  }

  ghost predicate Reachable(cfg: Setting, start: State, events: seq<Event>, s: State)
    decreases |events|, 1
  {
    if events == [] then s == start
    else exists before :: ReachableBy(cfg, start, events, before, s)
  }

  ghost predicate ReachableBy(cfg: Setting, start: State, events: seq<Event>, before: State, s: State)
    requires events != []
    decreases |events|, 0
  {
    var n := |events| - 1;
    Reachable(cfg, start, events[..n], before) && Next(cfg, before, events[n], s)
  }

  /** Whether a POST is served: the session is open, its response goes out, and some key of the
      keyring is the token's, tried while the token's epoch is within an hour of the clock's. */
  predicate Timely(cfg: Setting, post: Post) {
    post.open && post.ioOk && exists i ::
      0 <= i < |post.tries| && post.tries[i].psk == cfg.psk && InWindow(post.tries[i].now, cfg.epoch)
  }

  ghost predicate Served(cfg: Setting, log: seq<Post>, k: nat) {
    exists i :: 0 <= i < |log| && log[i].number == k && Timely(cfg, log[i])
  }

  ghost predicate Accounted(cfg: Setting, s: State) {
    && P.Good(s.pipe)
    && (forall k :: k in s.reading ==> k < |s.pipe.chunks|)
    && (forall k :: Served(cfg, s.log, k) <==> k in s.reading || k in s.failed || k in s.pipe.arrived)
  }

  /** The token was answered fresh once; what was accepted is being read, failed or arrived. */
  ghost predicate Inv(cfg: Setting, s: State) {
    && cfg.admission.keep >= Needed(cfg.admission.first, cfg.admission.lag)
    && A.Safe(cfg.admission, s.server)
    && TokenOf(cfg) in s.server.admitted
    && cfg.conn < |s.server.conns|
    && Accounted(cfg, s)
  }

  // ---- Which POSTs are accepted ----

  lemma {:induction false} VerifiesIffTimely(cfg: Setting, tries: seq<Try>)
    ensures VerifyAny(TokenOf(cfg), tries).Some? <==>
      exists i :: 0 <= i < |tries| && tries[i].psk == cfg.psk && InWindow(tries[i].now, cfg.epoch)
  {
    if tries != [] {
      VerifiesIffTimely(cfg, tries[1..]);
      assert forall i :: 1 <= i < |tries| ==> tries[i] == tries[1..][i - 1];
      if VerifyAny(TokenOf(cfg), tries[1..]).Some? {
        var i :| 0 <= i < |tries| - 1 && tries[1..][i].psk == cfg.psk && InWindow(tries[1..][i].now, cfg.epoch);
        assert tries[i + 1] == tries[1..][i];
      }
    }
  }

  /** A POST of the session is accepted exactly when it is timely. */
  lemma AcceptedIffTimely(cfg: Setting, c: Conn, req: Req)
    requires req.target.Segment? && req.target.pid == cfg.pid && req.target.dir.UpPacket?
    requires req.token == Some(TokenOf(cfg))
    ensures Handled(c, req, false).1.Packet? <==>
      Timely(cfg, Post(req.target.dir.number, req.tries, req.ioOk, Open(cfg, c)))
  {
    VerifiesIffTimely(cfg, req.tries);
  }

  /** For a token of an ordinary epoch: a POST of an open session is timely exactly when its response
      goes out and the token's key is tried at most an hour before or after the token's own. */
  lemma TimelyWithinAnHour(cfg: Setting, post: Post)
    requires 1 <= cfg.epoch < LAST_EPOCH
    ensures Timely(cfg, post) == (post.open && post.ioOk && exists i ::
      0 <= i < |post.tries| && post.tries[i].psk == cfg.psk && cfg.epoch - 1 <= post.tries[i].now <= cfg.epoch + 1)
  {
    forall i | 0 <= i < |post.tries|
      ensures InWindow(post.tries[i].now, cfg.epoch) <==> cfg.epoch - 1 <= post.tries[i].now <= cfg.epoch + 1
    {
      WindowIsThreeHours(post.tries[i].now, cfg.epoch);
    }
  }

  // ---- How long a session is open ----

  /** A verified request under the session's identifier that takes the waiting half away: a packet
      of another token, or a second half of the same one. */
  predicate Takes(cfg: Setting, req: Req) {
    && Verified(req).Some? && req.target.Segment? && req.target.pid == cfg.pid
    && (req.target.dir.UpPacket? <==> req.token != Some(TokenOf(cfg)))
  }

  lemma IdleNotOpen(cfg: Setting)
    ensures !Open(cfg, CONN0)
  {
  }

  lemma OpenAfter(cfg: Setting, c: Conn, req: Req, isFresh: bool)
    requires isFresh ==> Asks(c, req).Some? && req.token != Some(TokenOf(cfg))
    ensures Open(cfg, Handled(c, req, isFresh).0) <==>
      Open(cfg, c) && req.ioOk && (cfg.pid in c.uploads || !Takes(cfg, req))
  {
    hide TokenOf, VerifyAny;
  }

  /** A session stays open until its connection ends or, before its first POST is accepted, some
      request takes its waiting half; and it never opens again. */
  lemma OpenUntilTaken(cfg: Setting, s: State, e: A.Event, t: A.Server)
    requires Inv(cfg, s) && A.Next(cfg.admission, s.server, e, t)
    ensures var before := s.server.conns[cfg.conn];
      cfg.conn < |t.conns| &&
      (Open(cfg, t.conns[cfg.conn]) <==>
        && Open(cfg, before) && !Closes(cfg, e)
        && (e.Serve? && e.conn == cfg.conn ==> cfg.pid in before.uploads || !Takes(cfg, e.req)))
  {
    hide Needed, A.HeldOnce, A.PacketsOwn, KeepsNewest, InWindow, Remembers, Requested, Handled, Open, Takes;
    IdleNotOpen(cfg);
    if e.Serve? && e.conn == cfg.conn {
      var conn := s.server.conns[cfg.conn];
      var asks := Asks(conn, e.req);
      var isFresh := asks.Some? && !Seen(s.server.window, asks.value.epoch, asks.value.nonce);
      if isFresh {
        A.AskedInTime(cfg.admission, s.server.high, e.req.token.value, e.req.tries);
        A.FreshIsNew(cfg.admission, s.server, asks.value.epoch, asks.value.nonce);
      }
      OpenAfter(cfg, conn, e.req, isFresh);
    }
  }

  // ---- Every run ----

  lemma ServedNext(cfg: Setting, log: seq<Post>, post: Post, k: nat)
    ensures Served(cfg, log + [post], k) <==> Served(cfg, log, k) || (post.number == k && Timely(cfg, post))
  {
    hide Timely;
    var after := log + [post];
    assert after[|log|] == post;
    if Served(cfg, log, k) {
      var i :| 0 <= i < |log| && log[i].number == k && Timely(cfg, log[i]);
      assert after[i] == log[i];
    }
  }

  lemma ReceivedKeeps(cfg: Setting, s: State, e: A.Event)
    requires Accounted(cfg, s) && cfg.conn < |s.server.conns|
    requires IsPost(cfg, e) ==> Number(e) < |s.pipe.chunks|
    ensures Accounted(cfg, Received(cfg, s, e))
  {
    hide P.Good, Timely, Handled, Open, TokenOf, Served;
    if IsPost(cfg, e) {
      var post := Post(Number(e), e.req.tries, e.req.ioOk, Open(cfg, s.server.conns[cfg.conn]));
      AcceptedIffTimely(cfg, s.server.conns[cfg.conn], e.req);
      forall k
        ensures Served(cfg, s.log + [post], k) <==> Served(cfg, s.log, k) || (post.number == k && Timely(cfg, post))
      {
        ServedNext(cfg, s.log, post, k);
      }
    }
  }

  /** A step of the pipe that brings nothing in. */
  lemma PipeKeeps(cfg: Setting, s: State, event: P.Event<byte>)
    requires Accounted(cfg, s) && !event.Arrive?
    ensures Accounted(cfg, s.(pipe := P.Step(s.pipe, event)))
  {
    hide P.Good, Served, P.Read;
    P.StepKeeps(s.pipe, event);
  }

  lemma BodyKeeps(cfg: Setting, s: State, number: nat, ok: bool, t: State)
    requires Accounted(cfg, s) && Next(cfg, s, Body(number, ok), t)
    ensures Accounted(cfg, t)
  {
    hide P.Good, Served, P.Delivered;
    if ok {
      P.StepKeeps(s.pipe, P.Arrive(number));
    }
  }

  lemma ServerKeeps(cfg: Setting, s: A.Server, e: A.Event, t: A.Server)
    requires cfg.admission.keep >= Needed(cfg.admission.first, cfg.admission.lag)
    requires A.Safe(cfg.admission, s) && TokenOf(cfg) in s.admitted && cfg.conn < |s.conns|
    requires A.Next(cfg.admission, s, e, t)
    ensures A.Safe(cfg.admission, t) && TokenOf(cfg) in t.admitted && cfg.conn < |t.conns|
  {
    hide Needed, A.Safe, Handled, A.InTime, GuardStep;
    A.NextKeeps(cfg.admission, s, e, t);
  }

  lemma AccountedIgnoresServer(cfg: Setting, s: State, server: A.Server)
    requires Accounted(cfg, s)
    ensures Accounted(cfg, s.(server := server))
  {
    hide P.Good, Served;
  }

  lemma StepKeeps(cfg: Setting, s: State, e: Event, t: State)
    requires Inv(cfg, s) && Next(cfg, s, e, t)
    ensures Inv(cfg, t)
  {
    hide Needed, A.Safe, A.Next, TokenOf, Received, Accounted, P.Step;
    match e
    case OfServer(event) =>
      ServerKeeps(cfg, s.server, event, t.server);
      ReceivedKeeps(cfg, s, event);
      AccountedIgnoresServer(cfg, Received(cfg, s, event), t.server);
    case Write(data) => PipeKeeps(cfg, s, P.Write(data));
    case Flush(slot) => PipeKeeps(cfg, s, P.Flush(slot));
    case Poll(room) => PipeKeeps(cfg, s, P.Event.Poll(room));
    case Body(number, ok) => BodyKeeps(cfg, s, number, ok, t);
    case HangUp => PipeKeeps(cfg, s, P.Disconnect);
  }

  lemma BeginsGood(cfg: Setting, s: State)
    requires Begins(cfg, s)
    ensures Inv(cfg, s)
  {
    hide Needed, A.Reachable;
    var events :| A.Reachable(cfg.admission, events, s.server);
    A.EveryRunIsSafe(cfg.admission, events, s.server);
  }

  lemma {:induction false} EveryRunIsGood(cfg: Setting, start: State, events: seq<Event>, s: State)
    requires Inv(cfg, start) && Reachable(cfg, start, events, s)
    ensures Inv(cfg, s)
  {
    if events != [] {
      var n := |events| - 1;
      var before :| ReachableBy(cfg, start, events, before, s);
      EveryRunIsGood(cfg, start, events[..n], before);
      hide Inv, Next;
      StepKeeps(cfg, before, events[n], s);
    }
  }

  /** In every run, among any other requests, the bytes read are a prefix of the bytes flushed, and
      end before every chunk none of whose POSTs was timely. Once the accepted bodies are read and
      none failed, nothing flushed is missing exactly when every chunk had a timely POST. */
  lemma CompleteIffTimely(cfg: Setting, start: State, events: seq<Event>, s: State)
    requires Begins(cfg, start) && Reachable(cfg, start, events, s)
    ensures s.pipe.done <= Concat(s.pipe.chunks)
    ensures forall k :: 0 <= k < |s.pipe.chunks| && !Served(cfg, s.log, k) ==> s.pipe.done <= Concat(s.pipe.chunks[..k])
    ensures s.reading == multiset{} && s.failed == {} ==>
      (s.pipe.done + s.pipe.reader.buf + Concat(s.pipe.reader.queue) == Concat(s.pipe.chunks) <==>
        forall k :: 0 <= k < |s.pipe.chunks| ==> Served(cfg, s.log, k))
  {
    hide Served, P.Good, Reachable, Begins, A.Safe, Needed, TokenOf;
    BeginsGood(cfg, start);
    EveryRunIsGood(cfg, start, events, s);
    P.ReadableUpToMissing(s.pipe);
    forall k | 0 <= k < |s.pipe.chunks| && !Served(cfg, s.log, k)
      ensures s.pipe.done <= Concat(s.pipe.chunks[..k])
    {
      assert k !in s.pipe.arrived;
    }
  }

  // ---- A token that has expired ----

  /** No reading still to come accepts the token's epoch. */
  predicate Expired(cfg: Setting, s: State) {
    cfg.epoch < LAST_EPOCH && s.server.high > cfg.epoch + 1 + cfg.admission.lag
  }

  lemma PipeGrows(pipe: P.Pipe<byte>, event: P.Event<byte>)
    requires P.Possible(pipe, event)
    ensures pipe.chunks <= P.Step(pipe, event).chunks
  {
    hide P.Read, P.Delivered;
  }

  /** After the token's window no POST is timely. */
  lemma ExpiredPost(cfg: Setting, s: State, post: Post)
    requires Expired(cfg, s) && A.InTime(cfg.admission, s.server.high, post.tries)
    ensures !Timely(cfg, post)
  {
    forall i | 0 <= i < |post.tries|
      ensures !InWindow(post.tries[i].now, cfg.epoch)
    {
      WindowIsThreeHours(post.tries[i].now, cfg.epoch);
    }
  }

  lemma ClockOnlyAdvances(cfg: A.Setting, s: A.Server, e: A.Event, t: A.Server)
    requires A.Next(cfg, s, e, t)
    ensures s.high <= t.high && (e.Serve? ==> A.InTime(cfg, s.high, e.req.tries))
  {
    hide Handled, GuardStep, Asks, VerifyAny, A.InTime;
  }

  lemma ExpiredStep(cfg: Setting, s: State, e: Event, t: State, k: nat)
    requires Next(cfg, s, e, t) && Expired(cfg, s)
    ensures Expired(cfg, t) && s.pipe.chunks <= t.pipe.chunks
    ensures Served(cfg, t.log, k) ==> Served(cfg, s.log, k)
  {
    hide TokenOf, Open, Handled, Timely, A.Next, A.InTime, P.Step, Served;
    match e
    case OfServer(event) =>
      ClockOnlyAdvances(cfg.admission, s.server, event, t.server);
      if IsPost(cfg, event) {
        ServedNext(cfg, s.log, t.log[|s.log|], k);
        ExpiredPost(cfg, s, t.log[|s.log|]);
      }
    case Write(data) => PipeGrows(s.pipe, P.Write(data));
    case Flush(slot) => PipeGrows(s.pipe, P.Flush(slot));
    case Poll(room) => PipeGrows(s.pipe, P.Event.Poll(room));
    case Body(number, ok) =>
      if ok {
        PipeGrows(s.pipe, P.Arrive(number));
      }
    case HangUp => PipeGrows(s.pipe, P.Disconnect);
  }

  lemma EndsBefore(cfg: Setting, s: State, k: nat)
    requires Inv(cfg, s) && k < |s.pipe.chunks| && !Served(cfg, s.log, k)
    ensures s.pipe.done <= Concat(s.pipe.chunks[..k])
  {
    hide P.Good, Served, A.Safe, Needed, TokenOf;
    P.ReadableUpToMissing(s.pipe);
    assert k !in s.pipe.arrived;
  }

  /** Once the token has expired, a chunk without a timely POST is lost for good: in no continuation
      is it served, and the bytes read end before it. */
  lemma {:induction false} LostForGood(cfg: Setting, s: State, events: seq<Event>, t: State, k: nat)
    requires Inv(cfg, s) && Expired(cfg, s) && k < |s.pipe.chunks| && !Served(cfg, s.log, k)
    requires Reachable(cfg, s, events, t)
    ensures Expired(cfg, t) && s.pipe.chunks <= t.pipe.chunks && !Served(cfg, t.log, k)
    ensures t.pipe.done <= Concat(s.pipe.chunks[..k])
  {
    hide Served, Inv, Expired, Next;
    if events != [] {
      var n := |events| - 1;
      var before :| ReachableBy(cfg, s, events, before, t);
      LostForGood(cfg, s, events[..n], before, k);
      ExpiredStep(cfg, before, events[n], t, k);
    }
    EveryRunIsGood(cfg, s, events, t);
    EndsBefore(cfg, t, k);
    assert t.pipe.chunks[..k] == s.pipe.chunks[..k];
  }

  lemma Extend(cfg: Setting, start: State, events: seq<Event>, s: State, e: Event, t: State)
    requires Reachable(cfg, start, events, s) && Next(cfg, s, e, t)
    ensures Reachable(cfg, start, events + [e], t)
  {
    hide Next;
    var longer := events + [e];
    assert longer[..|longer| - 1] == events;
    assert ReachableBy(cfg, start, longer, s, t);
  }

  lemma StartIsReachable(cfg: Setting, start: State)
    ensures Reachable(cfg, start, [], start)
  {
  }

  /** A token of epoch 1 on a server whose clock starts there and never goes back. */
  function Example(): Setting {
    Setting(A.Setting(1, 0, KEEP_EPOCHS), 0, "p", [], 1, [], [])
  }

  function ExampleRequest(dir: Direction, now: Epoch): Req {
    Req(Segment("p", dir), Some(TokenOf(Example())), [Try([], now)], true)
  }

  lemma VerifiedIs(req: Req)
    requires req.token.Some?
    ensures Verified(req) == VerifyAny(req.token.value, req.tries)
  {
  }

  lemma HalfHandled()
    ensures var req, own := ExampleRequest(Down, 1), TokenOf(Example());
      && Asks(CONN0, req) == Some(Request(1, 1, [])) && req.token == Some(own)
      && Handled(CONN0, req, true) == (CONN0.(pending := map["p" := Download(own)]), Waits)
  {
    hide Verified;
    var req := ExampleRequest(Down, 1);
    OneTry(TokenOf(Example()), Try([], 1));
    VerifiedIs(req);
  }

  /** A download half of the example's token is admitted at epoch 1. */
  lemma HalfAdmitted(s: A.Server) returns (t: A.Server)
    requires s == A.Start(1).(conns := [CONN0])
    ensures A.Next(Example().admission, s, A.Serve(0, ExampleRequest(Down, 1)), t)
    ensures t.high == 1 && t.window == map[1 := {[]}] && TokenOf(Example()) in t.admitted
    ensures t.conns == [CONN0.(pending := map["p" := Download(TokenOf(Example()))])]
  {
    hide Handled, Asks, TokenOf;
    var own, req := TokenOf(Example()), ExampleRequest(Down, 1);
    HalfHandled();
    var window: Window := map[1 := {[]}];
    assert Inserted(map[], 1, []) == window && window.Keys == {1};
    assert req.tries[..0] == [];
    t := s.(
      window := window, log := [Request(1, 1, [])], admitted := [own],
      conns := [CONN0.(pending := map["p" := Download(own)])]);
    assert s.log + t.log == t.log && s.admitted + [own] == t.admitted;
    assert s.sessions + [] == s.sessions && s.packets + [] == s.packets;
    assert A.Served(Example().admission, s, 0, req, t);
  }

  lemma HalfWaits() returns (start: State)
    ensures Begins(Example(), start) && start.server.high == 1 && start.server.window == map[1 := {[]}]
    ensures start.server.conns == [CONN0.(pending := map["p" := Download(TokenOf(Example()))])]
  {
    hide A.Reachable, A.Next, TokenOf, Needed;
    var cfg := Example();
    var events, s := A.IdleConnection(cfg.admission);
    var t := HalfAdmitted(s);
    A.Extend(cfg.admission, events, s, A.Serve(0, ExampleRequest(Down, 1)), t);
    start := State(t, P.Fresh(), false, multiset{}, {}, []);
    ThreeEpochsIff(1, 0);
  }

  lemma StartsFresh(cfg: Setting, s: State)
    requires Begins(cfg, s)
    ensures s == State(s.server, P.Fresh(), false, multiset{}, {}, [])
  {
  }

  /** The client writes and flushes one byte. */
  lemma OneChunk() returns (start: State, events: seq<Event>, s: State)
    ensures Begins(Example(), start) && Reachable(Example(), start, events, s)
    ensures s.server == start.server && s.pipe.chunks == [[7]]
    ensures s == State(s.server, s.pipe, false, multiset{}, {}, [])
    ensures s.server.high == 1 && s.server.conns == [CONN0.(pending := map["p" := Download(TokenOf(Example()))])]
  {
    hide A.Reachable, Reachable, Begins, TokenOf;
    var cfg := Example();
    start := HalfWaits();
    StartsFresh(cfg, start);
    StartIsReachable(cfg, start);
    assert start.pipe.written + [7] == [7] && start.pipe.chunks + [[7]] == [[7]];
    var written := start.(pipe := P.Step(start.pipe, P.Write([7])));
    Extend(cfg, start, [], start, Write([7]), written);
    s := written.(pipe := P.Step(written.pipe, P.Flush(P.Free)));
    events := [] + [Write([7])] + [Flush(P.Free)];
    Extend(cfg, start, [] + [Write([7])], written, Flush(P.Free), s);
  }

  /** The server answers a POST of the example's token at epoch 3 and changes nothing. */
  lemma LatePostFallsBack(s: A.Server) returns (t: A.Server)
    requires s.high == 1 && s.conns == [CONN0.(pending := map["p" := Download(TokenOf(Example()))])]
    ensures A.Next(Example().admission, s, A.Serve(0, ExampleRequest(UpPacket(0), 3)), t) && t == s.(high := 3)
  {
    hide Verified;
    var req := ExampleRequest(UpPacket(0), 3);
    OneTry(TokenOf(Example()), Try([], 3));
    VerifiedIs(req);
    assert req.tries[..0] == [];
    t := s.(high := 3);
    assert s.conns[0 := s.conns[0]] == s.conns;
    assert s.log + [] == s.log && s.admitted + [] == s.admitted;
    assert s.sessions + [] == s.sessions && s.packets + [] == s.packets;
    assert A.Served(Example().admission, s, 0, req, t);
  }

  /** A run: the one chunk's POST arrives two epochs after the token's own. The session is open, the
      client's uploader goes on, and the chunk is lost for good. */
  lemma LatePostLosesItsChunk() returns (start: State, events: seq<Event>, s: State)
    ensures Begins(Example(), start) && Reachable(Example(), start, events, s) && Inv(Example(), s)
    ensures s.log == [Post(0, [Try([], 3)], true, true)] && s.pipe.chunks == [[7]] && !s.closed
    ensures Expired(Example(), s) && !Served(Example(), s.log, 0)
  {
    hide A.Reachable, Reachable, Begins, A.Next, Handled, Inv;
    var cfg, req := Example(), ExampleRequest(UpPacket(0), 3);
    var before: State;
    start, events, before := OneChunk();
    var server := LatePostFallsBack(before.server);
    var late := OfServer(A.Serve(0, req));
    var post := Post(0, req.tries, true, true);
    AcceptedIffTimely(cfg, before.server.conns[0], req);
    s := before.(server := server, log := [post]);
    assert before.log + [post] == s.log && before.reading + multiset{} == s.reading;
    Extend(cfg, start, events, before, late, s);
    events := events + [late];
    BeginsGood(cfg, start);
    EveryRunIsGood(cfg, start, events, s);
  }
}
