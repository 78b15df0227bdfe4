/** The side datagram channel: an AEAD per direction under a counter nonce, and a receiver
    that tolerates loss and reordering but opens each datagram once.

    Cryptography is ideal. A ciphertext is either what some key sealed under some nonce, or
    forged bytes that no key opens; the two directions of one handshake have different keys. */
module DatagramChannel {
  import opened Prelude
  import opened ReplayWindow

  datatype Role = Client | Server

  datatype Dir = C2S | S2C

  /** The key derived from a handshake hash for one direction. */
  datatype Key = Derived(handshakeHash: nat, dir: Dir)

  datatype Body =
    | Sealed(key: Key, nonce: u64, plaintext: bytes)
    | Forged(junk: bytes)

  /** What arrives from the network: a frame shorter than counter and tag, or a counter
      followed by a ciphertext. */
  datatype Framed = TooShort(junk: bytes) | Framed(counter: u64, body: Body)

  function SealKey(handshakeHash: nat, role: Role): Key {
    Derived(handshakeHash, if role.Client? then C2S else S2C)
  }

  function OpenKey(handshakeHash: nat, role: Role): Key {
    Derived(handshakeHash, if role.Client? then S2C else C2S)
  }

  function Peer(role: Role): Role {
    if role.Client? then Server else Client
  }

  /** Each side seals with the key the other side opens with, and never with its own. */
  lemma DirectionsPair(handshakeHash: nat, role: Role)
    ensures SealKey(handshakeHash, role) == OpenKey(handshakeHash, Peer(role))
    ensures SealKey(handshakeHash, role) != OpenKey(handshakeHash, role)
  {
  }

  class DatagramSealer {
    const key: Key
    var counter: u64

    constructor (handshakeHash: nat, role: Role)
      ensures key == SealKey(handshakeHash, role) && counter == 0
    {
      key := SealKey(handshakeHash, role);
      counter := 0;
    }

    /** Sealing panics when the counter is exhausted. */
    method Seal(plaintext: bytes) returns (framed: Framed)
      requires counter < U64_MAX
      modifies this
      ensures framed == Framed(old(counter), Sealed(key, old(counter), plaintext))
      ensures counter == old(counter) + 1
    {
      var ctr := counter;
      counter := counter + 1;
      framed := Framed(ctr, Sealed(key, ctr, plaintext));
    }
  }

  /** Decryption under the receiver's key with the nonce the frame claims. */
  function Decrypt(key: Key, nonce: u64, body: Body): Option<bytes> {
    match body
    case Sealed(k, n, plaintext) => if k == key && n == nonce then Some(plaintext) else None
    case Forged(_) => None
  }

  /** What a receiver that has accepted exactly `accepted` answers to a frame. */
  ghost function Opens(key: Key, accepted: set<u64>, framed: Framed): Option<bytes> {
    if framed.Framed? && Decrypt(key, framed.counter, framed.body).Some? && Admits(accepted, framed.counter)
    then Decrypt(key, framed.counter, framed.body)
    else None
  }

  class DatagramOpener {
    const key: Key
    const window: ReplayWindow

    ghost predicate Valid()
      reads this, window
    {
      window.Valid()
    }

    constructor (handshakeHash: nat, role: Role)
      ensures key == OpenKey(handshakeHash, role)
      ensures Valid() && fresh(window) && window.accepted == {}
    {
      key := OpenKey(handshakeHash, role);
      window := new ReplayWindow();
    }

    /** Authentication comes before the window, so a forged frame cannot move it. */
    method Open(framed: Framed) returns (r: Option<bytes>)
      requires Valid()
      modifies window
      ensures Valid()
      ensures r == Opens(key, old(window.accepted), framed)
      ensures window.accepted == old(window.accepted) + if r.Some? then {framed.counter} else {}
    {
      if framed.TooShort? {
        return None;
      }
      var ctr := framed.counter;
      var plaintext := Decrypt(key, ctr, framed.body);
      if plaintext.None? {
        return None;
      }
      var ok := window.CheckAndSet(ctr);
      if !ok {
        return None;
      }
      return plaintext;
    }
  }

  // ---- Both sides over a hostile network ----

  /** One side: the plaintexts it sealed (the counter is their number), the numbers its
      window accepted, and what it opened. */
  datatype Side = Side(sealed: seq<bytes>, accepted: set<u64>, delivered: seq<(u64, bytes)>)

  /** `used` lists the (key, nonce) pair of every seal, in order. */
  datatype Net = Net(client: Side, server: Side, used: seq<(Key, u64)>)

  datatype Event = Send(role: Role, plaintext: bytes) | Deliver(role: Role, framed: Framed)

  const NET0 := Net(Side([], {}, []), Side([], {}, []), [])

  function SideOf(net: Net, role: Role): Side {
    if role.Client? then net.client else net.server
  }

  function WithSide(net: Net, role: Role, side: Side): Net {
    if role.Client? then net.(client := side) else net.(server := side)
  }

  predicate Authentic(side: Side, nonce: u64, plaintext: bytes) {
    nonce < |side.sealed| && side.sealed[nonce] == plaintext
  }

  /** The ideal-AEAD assumption: the network may lose, repeat, reorder, reflect and relabel
      anything, and invent any frame, except ciphertexts under this session's keys that the
      key's owner never sealed. */
  ghost predicate Possible(hash: nat, net: Net, e: Event) {
    match e
    case Send(role, _) => |SideOf(net, role).sealed| < U64_MAX
    case Deliver(_, framed) =>
      framed.Framed? && framed.body.Sealed? ==>
        forall owner :: framed.body.key == SealKey(hash, owner) ==>
          Authentic(SideOf(net, owner), framed.body.nonce, framed.body.plaintext)
  }

  ghost function Step(hash: nat, net: Net, e: Event): Net
    requires Possible(hash, net, e)
  {
    match e
    case Send(role, plaintext) =>
      var side := SideOf(net, role);
      WithSide(net, role, side.(sealed := side.sealed + [plaintext]))
        .(used := net.used + [(SealKey(hash, role), |side.sealed|)])
    case Deliver(role, framed) =>
      var side := SideOf(net, role);
      var r := Opens(OpenKey(hash, role), side.accepted, framed);
      if r.None? then net
      else WithSide(net, role, side.(
        accepted := side.accepted + {framed.counter},
        delivered := side.delivered + [(framed.counter, r.value)]))
  }

  /** Some run of events leads from the fresh channel to `net`. */
  ghost predicate Reachable(hash: nat, events: seq<Event>, net: Net)
    decreases |events|, 1
  {
    if events == [] then net == NET0
    else exists before :: ReachableBy(hash, events, before, net)
  }

  ghost predicate ReachableBy(hash: nat, events: seq<Event>, before: Net, net: Net)
    requires events != []
    decreases |events|, 0
  {
    && Reachable(hash, events[..|events| - 1], before)
    && Possible(hash, before, events[|events| - 1])
    && net == Step(hash, before, events[|events| - 1])
  }

  /** Everything a side delivered its peer sealed under that number, each number once; and
      the window holds exactly the delivered numbers. */
  ghost predicate Faithful(side: Side, peer: Side) {
    && (forall i :: 0 <= i < |side.delivered| ==>
      Authentic(peer, side.delivered[i].0, side.delivered[i].1))
    && (forall i, j :: 0 <= i < j < |side.delivered| ==> side.delivered[i].0 != side.delivered[j].0)
    && (forall c :: c in side.accepted <==> exists i :: 0 <= i < |side.delivered| && side.delivered[i].0 == c)
  }

  /** No (key, nonce) pair sealed twice: the log counts each direction's counter up from 0. */
  ghost predicate NoncesFresh(hash: nat, net: Net) {
    && (forall i, j :: 0 <= i < j < |net.used| ==> net.used[i] != net.used[j])
    && (forall i, role :: 0 <= i < |net.used| && net.used[i].0 == SealKey(hash, role) ==>
      net.used[i].1 < |SideOf(net, role).sealed|)
  }

  ghost predicate Safe(hash: nat, net: Net) {
    && Faithful(net.client, net.server)
    && Faithful(net.server, net.client)
    && NoncesFresh(hash, net)
  }

  lemma DeliverKeeps(side: Side, peer: Side, c: u64, plaintext: bytes)
    requires Faithful(side, peer) && Authentic(peer, c, plaintext) && c !in side.accepted
    ensures Faithful(side.(accepted := side.accepted + {c}, delivered := side.delivered + [(c, plaintext)]), peer)
  {
    var after := side.(accepted := side.accepted + {c}, delivered := side.delivered + [(c, plaintext)]);
    var n := |side.delivered|;
    assert after.delivered[n].0 == c;
    forall d | d in side.accepted
      ensures exists i :: 0 <= i < |after.delivered| && after.delivered[i].0 == d
    {
      var i :| 0 <= i < n && side.delivered[i].0 == d;
      assert after.delivered[i].0 == d;
    }
  }

  lemma SendKeeps(hash: nat, net: Net, role: Role, plaintext: bytes)
    requires Safe(hash, net) && Possible(hash, net, Send(role, plaintext))
    ensures Safe(hash, Step(hash, net, Send(role, plaintext)))
  {
    DirectionsPair(hash, role);
  }

  lemma StepKeeps(hash: nat, net: Net, e: Event)
    requires Safe(hash, net) && Possible(hash, net, e)
    ensures Safe(hash, Step(hash, net, e))
  {
    match e
    case Send(role, plaintext) =>
      hide Safe, Step, Possible;
      SendKeeps(hash, net, role, plaintext);
    case Deliver(role, framed) =>
      DirectionsPair(hash, role);
      var side := SideOf(net, role);
      var r := Opens(OpenKey(hash, role), side.accepted, framed);
      if r.Some? {
        DeliverKeeps(side, SideOf(net, Peer(role)), framed.counter, r.value);
      }
  }

  /** Over any run with loss, repetition, reordering, reflection and injection. */
  lemma {:induction false} EveryRunIsSafe(hash: nat, events: seq<Event>, net: Net)
    requires Reachable(hash, events, net)
    ensures Safe(hash, net)
  {
    if events != [] {
      var before :| ReachableBy(hash, events, before, net);
      EveryRunIsSafe(hash, events[..|events| - 1], before);
      StepKeeps(hash, before, events[|events| - 1]);
    }
  }

  /** What the peer sealed and was not accepted yet opens on arrival, unless the window has
      moved 64 or more past it; an unauthentic frame changes nothing. */
  lemma FirstArrivalOpens(hash: nat, net: Net, role: Role, framed: Framed)
    requires Possible(hash, net, Deliver(role, framed))
    ensures var side := SideOf(net, role);
      var peer := SideOf(net, Peer(role));
      var after := Step(hash, net, Deliver(role, framed));
      if framed.Framed? && framed.body.Sealed?
        && framed.body.key == SealKey(hash, Peer(role)) && framed.body.nonce == framed.counter
        && framed.counter !in side.accepted && (forall t :: t in side.accepted ==> t - framed.counter < 64)
      then SideOf(after, role).delivered == side.delivered + [(framed.counter, peer.sealed[framed.counter])]
      else after == net
  {
    DirectionsPair(hash, role);
  }
}
