/** Authentication tokens over an ideal MAC: a tag tells exactly which key, epoch, salt and
    nonce it was computed for. The token's raw bytes are the token itself. */
module Auth {
  import opened Prelude

  type Psk = bytes

  type Nonce = bytes

  datatype Tag = Mac(psk: Psk, epoch: u64, salt: bytes, nonce: Nonce) | Junk(junk: bytes)

  datatype Token = Token(salt: bytes, nonce: Nonce, tag: Tag)

  const EPOCH_SECS := 3600

  /** The clock reads whole hours of a 64-bit second count. */
  const LAST_EPOCH := U64_MAX / EPOCH_SECS

  type Epoch = n: int | 0 <= n <= LAST_EPOCH

  function BuildWith(psk: Psk, epoch: u64, salt: bytes, nonce: Nonce): Token {
    Token(salt, nonce, Mac(psk, epoch, salt, nonce))
  }

  predicate VerifyEpoch(token: Token, psk: Psk, epoch: u64) {
    token.tag == Mac(psk, epoch, token.salt, token.nonce)
  }

  /** The epoch `delta` hours from `now`, as the signed addition and the cast back to 64
      unsigned bits compute it: one before epoch 0 is the largest 64-bit number. */
  function EpochAt(now: Epoch, delta: int): u64
    requires -1 <= delta <= 1
  {
    if now + delta < 0 then U64_MAX else now + delta
  }

  /** The epochs a token may carry at clock epoch `now`. */
  predicate InWindow(now: Epoch, epoch: u64) {
    epoch == EpochAt(now, -1) || epoch == EpochAt(now, 0) || epoch == EpochAt(now, 1)
  }

  lemma WindowIsThreeHours(now: Epoch, epoch: u64)
    ensures now >= 1 ==> (InWindow(now, epoch) <==> now - 1 <= epoch <= now + 1)
    ensures now == 0 ==> (InWindow(now, epoch) <==> epoch == U64_MAX || epoch <= 1)
  {
  }

  /** What verification under `psk` at `now` promises to answer. */
  ghost predicate Verifies(token: Token, psk: Psk, now: Epoch, r: Option<u64>) {
    match r
    case Some(epoch) => InWindow(now, epoch) && token == BuildWith(psk, epoch, token.salt, token.nonce)
    case None => forall epoch :: InWindow(now, epoch) ==> token != BuildWith(psk, epoch, token.salt, token.nonce)
  }

  function VerifyAt(token: Token, psk: Psk, now: Epoch): Option<u64> {
    if token.tag.Mac? && VerifyEpoch(token, psk, token.tag.epoch) && InWindow(now, token.tag.epoch)
    then Some(token.tag.epoch) else None
  }

  /** All three epochs are tried; since a tag fits one epoch only, the last match is the match. */
  method Verify(token: Token, psk: Psk, now: Epoch) returns (matched: Option<u64>)
    ensures Verifies(token, psk, now, matched)
    ensures matched == VerifyAt(token, psk, now)
  {
    matched := None;
    for delta := -1 to 2
      invariant match matched
        case Some(epoch) => InWindow(now, epoch) && VerifyEpoch(token, psk, epoch)
        case None => forall d :: -1 <= d < delta ==> !VerifyEpoch(token, psk, EpochAt(now, d))
    {
      var epoch := EpochAt(now, delta);
      var ok := VerifyEpoch(token, psk, epoch);
      if ok {
        matched := Some(epoch);
      }
    }
  }

  /** A token verifies under at most one key and at one epoch, whenever it is tried. */
  lemma VerifiesForOneKeyAndEpoch(token: Token, p: Psk, q: Psk, now: Epoch, later: Epoch)
    requires VerifyAt(token, p, now).Some? && VerifyAt(token, q, later).Some?
    ensures p == q && VerifyAt(token, p, now) == VerifyAt(token, q, later)
  {
  }
}
