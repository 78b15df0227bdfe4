/** The Noise transport as an ideal cipher over a symbolic byte stream, and the record layer
    that frames ciphertexts on it.

    The two directions have their own keys. A ciphertext of n bytes of plaintext is n + 16
    symbols naming the key, the nonce and the plaintext they seal; it opens under that key and
    nonce and under no other. Rekeying replaces the key and leaves the nonce counting (Noise
    Protocol Framework, section 11.3). */
module Noise {
  import opened Prelude

  const TAG_LEN := 16

  const NOISE_MAX_MESSAGE := 65535

  const MAX_PLAINTEXT := NOISE_MAX_MESSAGE - TAG_LEN

  const MAX_RECORD := U16_MAX

  datatype Dir = ToResponder | ToInitiator

  /** One direction's key, by how often it was replaced, and its next nonce. */
  datatype Chain = Chain(dir: Dir, generation: nat, nonce: nat)

  datatype Symbol = Raw(b: byte) | Ct(chain: Chain, plaintext: bytes, index: int)

  type Stream = seq<Symbol>

  function SealAt(c: Chain, plaintext: bytes): (r: Stream)
    ensures |r| == |plaintext| + TAG_LEN
  {
    seq(|plaintext| + TAG_LEN, i => Ct(c, plaintext, i))
  }

  function OpenAt(c: Chain, ciphertext: Stream): Option<bytes> {
    if |ciphertext| >= TAG_LEN && ciphertext[0].Ct? && ciphertext == SealAt(c, ciphertext[0].plaintext)
    then Some(ciphertext[0].plaintext) else None
  }

  /** Opening succeeds exactly on what was sealed under the same key and nonce. */
  lemma OpensExactlySealed(sealed: Chain, at: Chain, plaintext: bytes)
    ensures OpenAt(at, SealAt(sealed, plaintext)) == if at == sealed then Some(plaintext) else None
  {
    var c := SealAt(sealed, plaintext);
    assert c[0] == Ct(sealed, plaintext, 0);
    if at != sealed {
      assert SealAt(at, plaintext)[0] != c[0];
    }
  }

  function Next(c: Chain): Chain {
    c.(nonce := c.nonce + 1)
  }

  function Rekeyed(c: Chain): Chain {
    c.(generation := c.generation + 1)
  }

  datatype NoiseError = PlaintextTooLarge(length: nat) | BadCiphertext

  /** One side's transport, shared by its reader and its writer. */
  class Transport {
    var outgoing: Chain
    var incoming: Chain

    constructor (initiator: bool)
      ensures outgoing == Chain(if initiator then ToResponder else ToInitiator, 0, 0)
      ensures incoming == Chain(if initiator then ToInitiator else ToResponder, 0, 0)
    {
      outgoing := Chain(if initiator then ToResponder else ToInitiator, 0, 0);
      incoming := Chain(if initiator then ToInitiator else ToResponder, 0, 0);
    }

    method Seal(plaintext: bytes) returns (r: Result<Stream, NoiseError>)
      modifies this`outgoing
      ensures if |plaintext| <= MAX_PLAINTEXT
        then r == Ok(SealAt(old(outgoing), plaintext)) && outgoing == Next(old(outgoing))
        else r == Err(PlaintextTooLarge(|plaintext|)) && outgoing == old(outgoing)
    {
      if |plaintext| > MAX_PLAINTEXT {
        return Err(PlaintextTooLarge(|plaintext|));
      }
      r := Ok(SealAt(outgoing, plaintext));
      outgoing := Next(outgoing);
    }

    /** A ciphertext that does not open leaves the nonce where it was. */
    method Open(ciphertext: Stream) returns (r: Result<bytes, NoiseError>)
      modifies this`incoming
      ensures match OpenAt(old(incoming), ciphertext)
        case Some(plaintext) => r == Ok(plaintext) && incoming == Next(old(incoming))
        case None => r == Err(BadCiphertext) && incoming == old(incoming)
    {
      match OpenAt(incoming, ciphertext) {
        case None => r := Err(BadCiphertext);
        case Some(plaintext) =>
          incoming := Next(incoming);
          r := Ok(plaintext);
      }
    }

    method RekeyOutgoing()
      modifies this`outgoing
      ensures outgoing == Rekeyed(old(outgoing))
    {
      outgoing := Rekeyed(outgoing);
    }

    method RekeyIncoming()
      modifies this`incoming
      ensures incoming == Rekeyed(old(incoming))
    {
      incoming := Rekeyed(incoming);
    }
  }

  // ---- Records: two length bytes, then the body ----

  function Lifted(b: bytes): Stream {
    seq(|b|, i requires 0 <= i < |b| => Raw(b[i]))
  }

  function Record(body: Stream): Stream
    requires |body| <= MAX_RECORD
  {
    Lifted(ToBe16(|body|)) + body
  }

  method WriteRecord(w: Stream, body: Stream) returns (r: Stream, ok: bool)
    ensures ok <==> |body| <= MAX_RECORD
    ensures r == if |body| <= MAX_RECORD then w + Record(body) else w
  {
    ok := |body| <= MAX_RECORD;
    r := w;
    if ok {
      r := r + Lifted(ToBe16(|body|));
      r := r + body;
    }
  }

  datatype Reading = More | NotLength | Got(body: Stream, rest: Stream)

  /** The first record of what has arrived, or `More` while it is incomplete. */
  function ReadRecord(s: Stream): (r: Reading)
    ensures r.Got? ==> |r.rest| < |s|
  {
    if |s| < 2 then More
    else if s[0].Ct? || s[1].Ct? then NotLength
    else
      var n: nat := FromBe16(s[0].b, s[1].b);
      if |s| < 2 + n then More else Got(s[2..2 + n], s[2 + n..])
  }

  /** A record is read back with exactly what follows it; no proper prefix of it is enough. */
  lemma RecordRoundTrip(body: Stream, rest: Stream, k: nat)
    requires |body| <= MAX_RECORD && k < |Record(body)|
    ensures ReadRecord(Record(body) + rest) == Got(body, rest)
    ensures ReadRecord(Record(body)[..k]) == More
  {
    Be16RoundTrip(|body|, 0, 0);
    var s := Record(body) + rest;
    assert s[0] == Raw(ToBe16(|body|)[0]) && s[1] == Raw(ToBe16(|body|)[1]);
    assert s[2..2 + |body|] == body && s[2 + |body|..] == rest;
  }
}
