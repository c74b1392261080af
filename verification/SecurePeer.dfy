/** `SecurePeer` as the object the source mutates. Each method is proved to do to the fields
    exactly what the session functions say, so the run-level results are about this class. */
module SecurePeers {
  import opened Terms
  import opened Ratchet
  import opened Handshakes

  class SecurePeer {
    var expectedPeerHash: Option<PeerId>
    var identityPrivate: nat
    var pqcSignPrivate: nat
    var privateKey: nat
    var pqcPrivateKey: nat
    var dhPrivate: nat
    var dhPublic: Point
    var remoteDhPublic: Option<Point>
    var rootKey: Term
    var sendCk: Term
    var recvCk: Term
    var hmacKey: Term
    var fileKey: Term
    var sendNonce: nat
    var recvNonce: nat
    var skippedMessages: map<Slot, Term>
    var amInitiator: bool
    var pendingDhRatchet: bool
    var seenOffers: set<Bytes>

    /** The session fields as a value. */
    function State(): Session
      reads this
    {
      Session(dhPrivate, dhPublic, remoteDhPublic, rootKey, sendCk, recvCk, hmacKey, fileKey,
              sendNonce, recvNonce, skippedMessages, amInitiator, pendingDhRatchet)
    }

    /** All fields as a value. */
    function View(): Peer
      reads this
    {
      Peer(expectedPeerHash, identityPrivate, pqcSignPrivate, privateKey, pqcPrivateKey, seenOffers, State())
    }

    constructor (me: Identity, d: Draw)
      ensures View() == NewPeer(me, d)
    {
      expectedPeerHash := None;
      identityPrivate, pqcSignPrivate := me.edSecret, me.dilSecret;
      privateKey, pqcPrivateKey := d.x, d.kyber;
      dhPrivate, dhPublic, remoteDhPublic := d.dh, Point(d.dh), None;
      rootKey, sendCk, recvCk, hmacKey, fileKey := Nil, Nil, Nil, Nil, Nil;
      sendNonce, recvNonce := 0, 0;
      skippedMessages := map[];
      amInitiator, pendingDhRatchet := false, false;
      seenOffers := {};
    }

    /** Verify the peer's signatures, agree on the hybrid secret and cut the session keys. A
        refusal leaves every field as it was. */
    method Handshake(h: Hashes, peerId: Public, peerPub: Point, peerDh: Point, peerKyber: Public, peerDil: Public,
                     sig: Signature, dilSig: Signature, kem: Term, offerId: Bytes, recipient: PeerId)
      returns (refusal: Option<Refusal>)
      modifies `amInitiator, `remoteDhPublic, `sendCk, `recvCk, `rootKey, `hmacKey, `fileKey, `sendNonce, `recvNonce, `pendingDhRatchet
      ensures var r := Handshakes.Handshake(h, old(View()), peerId, peerPub, peerDh, peerKyber, peerDil, sig, dilSig, kem, offerId, recipient);
        if r.Success? then refusal == None && View() == r.value
        else refusal == Some(r.refusal) && View() == old(View())
    {
      var refused, ecc := Checks(h, peerId, peerPub, peerDh, peerKyber, peerDil, sig, dilSig, kem, offerId, recipient);
      if refused.Some? { return refused; }
      var initiator := SortedByHash(h, peerId, Ed(identityPrivate)).0 == Ed(identityPrivate);
      var transcript := GetTranscript(h, (Ed(identityPrivate), Point(privateKey), dhPublic, Kyber(pqcPrivateKey)),
                                      (peerId, peerPub, peerDh, peerKyber));
      CutKeys(InitialRootKey(ecc, kem, transcript), peerDh, initiator);
      refusal := None;
    }

    /** The head of Handshake: signatures, pinned identity and the X25519 secret. */
    method Checks(h: Hashes, peerId: Public, peerPub: Point, peerDh: Point, peerKyber: Public, peerDil: Public,
                  sig: Signature, dilSig: Signature, ghost kem: Term, offerId: Bytes, recipient: PeerId)
      returns (refusal: Option<Refusal>, ecc: Term)
      ensures var r := Handshakes.Handshake(h, View(), peerId, peerPub, peerDh, peerKyber, peerDil, sig, dilSig, kem, offerId, recipient);
        if r.Success? then refusal == None && X25519(privateKey, peerPub) == Some(ecc) else refusal == Some(r.refusal)
    {
      ecc := Nil;
      if peerId.Garbage? && |peerId.bytes| != 32 { return Some(IdentityKeyLength), ecc; }
      var msg := SignMessage(recipient, peerPub, peerDh, peerKyber, peerDil, offerId);
      if !EdVerify(peerId, msg, sig) { return Some(BadEdSignature), ecc; }
      if !DilithiumVerify(peerDil, msg, dilSig) { return Some(BadDilithiumSignature), ecc; }
      var expectedId := DerivePeerId(h, peerId, peerDil);
      if expectedPeerHash.Some? && expectedId != expectedPeerHash.value { return Some(PeerMismatch), ecc; }
      var secret := X25519(privateKey, peerPub);
      if secret.None? { return Some(BadSharedPoint), ecc; }
      return None, secret.value;
    }

    /** The tail of Handshake: the 160-byte expansion and the fields cut from it. */
    method CutKeys(initial: Term, peerDh: Point, initiator: bool)
      modifies `amInitiator, `remoteDhPublic, `sendCk, `recvCk, `rootKey, `hmacKey, `fileKey, `sendNonce, `recvNonce, `pendingDhRatchet
      ensures State() == Keyed(old(State()), initial, peerDh, initiator)
    {
      remoteDhPublic := Some(peerDh);
      CutChains(DhSecret(dhPrivate, peerDh), initial, initiator);
      Begin(initiator);
    }

    method Begin(initiator: bool)
      modifies `amInitiator, `sendNonce, `recvNonce, `pendingDhRatchet
      ensures amInitiator == initiator && sendNonce == 0 && recvNonce == 0
      ensures pendingDhRatchet == (!initiator || old(pendingDhRatchet))
    {
      amInitiator := initiator;
      sendNonce, recvNonce := 0, 0;
      if !amInitiator { pendingDhRatchet := true; }
    }

    method CutChains(dh: Term, initial: Term, initiator: bool)
      modifies `sendCk, `recvCk, `rootKey, `hmacKey, `fileKey
      ensures sendCk == RootBlock(dh, initial, if initiator then 1 else 2)
      ensures recvCk == RootBlock(dh, initial, if initiator then 2 else 1)
      ensures rootKey == RootBlock(dh, initial, 3) && hmacKey == RootBlock(dh, initial, 4) && fileKey == RootBlock(dh, initial, 5)
    {
      if initiator {
        sendCk := RootBlock(dh, initial, 1);
        recvCk := RootBlock(dh, initial, 2);
      } else {
        recvCk := RootBlock(dh, initial, 1);
        sendCk := RootBlock(dh, initial, 2);
      }
      rootKey, hmacKey, fileKey := RootBlock(dh, initial, 3), RootBlock(dh, initial, 4), RootBlock(dh, initial, 5);
    }

    /** Advance the receive chain to `until`, filing every key passed; refuse a gap above
        MAX_SKIP without changing anything. */
    method SkipMessageKeys(until: int) returns (ok: bool)
      modifies `recvCk, `recvNonce, `skippedMessages
      ensures var r := Ratchet.SkipMessageKeys(old(State()), until);
        ok == r.Some? && State() == if r.Some? then r.value else old(State())
    {
      if recvNonce + MAX_SKIP < until { return false; }
      while recvNonce < until
        invariant StashUntil(State(), until) == StashUntil(old(State()), until)
        decreases until - recvNonce
      {
        var mk := MessageKey(recvCk);
        var name := RemoteBytes(State());
        recvCk := NextChain(recvCk);
        skippedMessages := skippedMessages[Slot(name, recvNonce) := mk];
        recvNonce := recvNonce + 1;
      }
      ok := true;
    }

    method DhRatchet(remoteKey: Point)
      modifies `remoteDhPublic, `rootKey, `recvCk, `recvNonce, `pendingDhRatchet
      ensures State() == Ratchet.DhRatchet(old(State()), remoteKey)
    {
      remoteDhPublic := Some(remoteKey);
      var dh := DhSecret(dhPrivate, remoteKey);
      var salt := rootKey;
      rootKey := RootBlock(dh, salt, 1);
      recvCk := RootBlock(dh, salt, 2);
      recvNonce := 0;
      pendingDhRatchet := true;
    }

    /** Seal the next frame of the send chain, turning the ratchet first when one is owed. */
    method Encrypt(sender: Bytes, plaintext: Bytes, drawn: nat) returns (f: Frame)
      modifies `dhPrivate, `dhPublic, `rootKey, `sendCk, `sendNonce, `pendingDhRatchet
      ensures (State(), f) == Ratchet.Encrypt(old(State()), sender, plaintext, drawn)
    {
      if pendingDhRatchet {
        dhPrivate, dhPublic := drawn, Point(drawn);
        var dh := DhSecret(dhPrivate, RemoteBytes(State()));
        var salt := rootKey;
        rootKey := RootBlock(dh, salt, 1);
        sendCk := RootBlock(dh, salt, 2);
        sendNonce := 0;
        pendingDhRatchet := false;
      }
      var mk := MessageKey(sendCk);
      sendCk := NextChain(sendCk);
      var cipher := Seal(mk, sendNonce, dhPublic, sendNonce, plaintext);
      f := Frame(sender, dhPublic, sendNonce, cipher, Mac(hmacKey, sender, dhPublic, sendNonce, cipher));
      sendNonce := sendNonce + 1;
    }

    /** Check the tag, find or derive the message key, and open the frame. The chain moves on
        whether or not the ciphertext opens. */
    method Decrypt(f: Frame) returns (r: Result)
      modifies `remoteDhPublic, `rootKey, `recvCk, `recvNonce, `skippedMessages, `pendingDhRatchet
      ensures (State(), r) == Ratchet.Decrypt(old(State()), f)
    {
      if f.nonce >= MAX_WIRE_NONCE { return Err(NonceOutOfRange); }
      if f.tag != Mac(hmacKey, f.sender, f.ratchetKey, f.nonce, f.cipher) { return Err(InvalidTag); }
      var name := Slot(f.ratchetKey, f.nonce);
      if name in skippedMessages {
        var mk := skippedMessages[name];
        skippedMessages := skippedMessages - {name};
        return Open(mk, f);
      }
      if remoteDhPublic.None? || remoteDhPublic.value != f.ratchetKey {
        DhRatchet(f.ratchetKey);
      }
      ghost var turned := State();
      assert turned == Turned(old(State()), f.ratchetKey);
      if f.nonce < recvNonce { return Err(Replay); }
      while recvNonce < f.nonce
        invariant recvNonce <= f.nonce
        invariant StashUntil(State(), f.nonce) == StashUntil(turned, f.nonce)
        decreases f.nonce - recvNonce
      {
        var mk := MessageKey(recvCk);
        var key := RemoteBytes(State());
        recvCk := NextChain(recvCk);
        skippedMessages := skippedMessages[Slot(key, recvNonce) := mk];
        recvNonce := recvNonce + 1;
      }
      var mk := MessageKey(recvCk);
      recvCk := NextChain(recvCk);
      recvNonce := recvNonce + 1;
      r := Open(mk, f);
    }

    /** Saving and reloading keeps the exported fields; `pendingDhRatchet` is not exported. */
    method Reload()
      modifies `pendingDhRatchet
      ensures State() == Restart(old(State()))
    {
      pendingDhRatchet := false;
    }
  }
}
