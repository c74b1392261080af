/** Frames are authenticated: what Decrypt accepts carries the HMAC of exactly its own fields
    under the session's key, and anything else is refused before it can move the session. */
module Authenticity {
  import opened Terms
  import opened Ratchet
  import opened OneUse

  /** An accepted frame has its nonce in range and the tag of its four fields. */
  lemma AcceptedIsTagged(s: Session, f: Frame)
    requires Decrypt(s, f).1.Ok?
    ensures f.nonce < MAX_WIRE_NONCE && f.tag == Mac(s.hmacKey, f.sender, f.ratchetKey, f.nonce, f.cipher)
  {}

  /** Its ciphertext was sealed under the key tried, at its own nonce and for its own ratchet
      key, and holds the plaintext returned under the frame's own sender. */
  lemma AcceptedIsSealed(s: Session, f: Frame)
    requires Decrypt(s, f).1.Ok?
    ensures TriedKey(s, f).Some?
    ensures f.cipher == Seal(TriedKey(s, f).value, f.nonce, f.ratchetKey, f.nonce, Decrypt(s, f).1.plaintext)
    ensures Decrypt(s, f).1.sender == f.sender
  {}

  /** Any other tag is refused as such, and nothing moves. */
  lemma BadTagRefused(s: Session, f: Frame)
    requires f.nonce < MAX_WIRE_NONCE && f.tag != Mac(s.hmacKey, f.sender, f.ratchetKey, f.nonce, f.cipher)
    ensures Decrypt(s, f) == (s, Err(InvalidTag)) && TriedKey(s, f) == None
  {}

  /** A nonce out of range is refused before the tag is looked at. */
  lemma BigNonceRefused(s: Session, f: Frame)
    requires f.nonce >= MAX_WIRE_NONCE
    ensures Decrypt(s, f) == (s, Err(NonceOutOfRange)) && TriedKey(s, f) == None
  {}

  /** Every frame a session emits carries such a tag, whatever its state. */
  lemma EmittedIsTagged(s: Session, sender: Bytes, plaintext: Bytes, drawn: nat)
    ensures var f := Encrypt(s, sender, plaintext, drawn).1;
      f.tag == Mac(s.hmacKey, f.sender, f.ratchetKey, f.nonce, f.cipher) && f.sender == sender
  {}

  /** The HMAC and file keys are those of the handshake for the life of the session. */
  lemma {:induction false} HmacKeyStays(s: Session, es: seq<Event>, n: nat)
    requires n <= |es|
    ensures StateAt(s, es, n).hmacKey == s.hmacKey && StateAt(s, es, n).fileKey == s.fileKey
  {
    if n > 0 {
      HmacKeyStays(s, es, n - 1);
      var t, e := StateAt(s, es, n - 1), es[n - 1];
      if e.Receive? { StashUntilEffect(Turned(t, e.frame.ratchetKey), e.frame.nonce); }
      if e.SkipTo? { StashUntilEffect(t, e.until); }
    }
  }

  /** In every run, a frame that carries the tag of one sealed by either peer, and differs from
      it in sender, ratchet key, nonce or ciphertext, is refused and moves nothing. */
  lemma AlteredFrameRefused(s: Session, es: seq<Event>, n: nat, t: Session, sender: Bytes, plaintext: Bytes, drawn: nat, f: Frame)
    requires n <= |es|
    requires var g := Encrypt(t, sender, plaintext, drawn).1; f.tag == g.tag && f != g
    ensures var now := StateAt(s, es, n); Decrypt(now, f).0 == now && Decrypt(now, f).1.Err?
  {
    var now := StateAt(s, es, n);
    EmittedIsTagged(t, sender, plaintext, drawn);
    if f.nonce < MAX_WIRE_NONCE { BadTagRefused(now, f); } else { BigNonceRefused(now, f); }
  }

  /** In every run, whatever is accepted was tagged under the handshake's own HMAC key. */
  lemma OnlyKeyHoldersAreHeard(s: Session, es: seq<Event>, n: nat, f: Frame)
    requires n <= |es| && Decrypt(StateAt(s, es, n), f).1.Ok?
    ensures f.tag == Mac(s.hmacKey, f.sender, f.ratchetKey, f.nonce, f.cipher)
    ensures Decrypt(StateAt(s, es, n), f).1.sender == f.sender
  {
    HmacKeyStays(s, es, n);
    AcceptedIsTagged(StateAt(s, es, n), f);
  }
}
