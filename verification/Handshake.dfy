/** The three-step hybrid handshake: CreateOffer, AcceptOffer, FinishHandshake. */
module Handshakes {
  import opened Terms
  import opened Ratchet
  import ByteOrder
  import Duplex
  import Conversation
  import OneUse

  /** Public values that are signed or hashed. */
  datatype Public =
    | Ed(edSecret: nat)
    | Dilithium(dilSecret: nat)
    | Kyber(kyberSecret: nat)
    | Curve(point: Point)
    | Garbage(bytes: Bytes)

  /** SHA-256 and SHA3-256 of a public value: any two functions at all. */
  datatype Hashes = Hashes(sha256: Public -> Bytes, sha3: Public -> Bytes)

  /** A peer ID: base58 of the identity key and the digest of the Dilithium key. */
  datatype PeerId = PeerId(identity: Public, dilithiumDigest: Bytes) | BadName(text: string)

  datatype SignMessage = SignMessage(
    recipient: PeerId, pub: Point, dhPub: Point, kyberPub: Public, dilithiumPub: Public, offerId: Bytes)

  datatype Signature =
    | EdSig(edSecret: nat, msg: SignMessage)
    | DilithiumSig(dilSecret: nat, msg: SignMessage)
    | NotSig(bytes: Bytes)

  datatype KemCipher = Encapsulated(owner: nat, coins: nat) | NotEncapsulated(bytes: Bytes)

  datatype Offer = Offer(
    senderId: PeerId, recipientId: PeerId, offerId: Bytes, idPub: Public, pub: Point, dhPub: Point,
    kyberPub: Public, dilithiumPub: Public, sign: Signature, dilithiumSign: Signature)

  datatype Answer = Answer(
    senderId: PeerId, recipientId: PeerId, offerId: Bytes, idPub: Public, pub: Point, dhPub: Point,
    kyberPub: Public, kyberCiphertext: KemCipher, dilithiumPub: Public, sign: Signature, dilithiumSign: Signature)

  /** The long-term identity a client holds. */
  datatype Identity = Identity(id: PeerId, edSecret: nat, dilSecret: nat)

  /** Freshly drawn short-term secrets. */
  datatype Draw = Draw(x: nat, dh: nat, kyber: nat)

  datatype Peer = Peer(
    expectedPeer: Option<PeerId>, edSecret: nat, dilSecret: nat, private: nat, pqcPrivate: nat,
    seenOffers: set<Bytes>, session: Session)

  datatype Refusal =
    | InvalidPeerName | MissingOfferId | NotForThisPeer | SenderSpoofed | OfferReplayed | BadKyberKey
    | MissingCiphertext | BadCiphertext | IdentityKeyLength | BadEdSignature | BadDilithiumSignature
    | PeerMismatch | BadSharedPoint | NoPendingSession

  datatype Outcome<+T> = Success(value: T) | Failure(refusal: Refusal)

  function DerivePeerId(h: Hashes, identity: Public, dilithium: Public): PeerId {
    PeerId(identity, h.sha3(dilithium))
  }

  function NewPeer(me: Identity, d: Draw): Peer {
    Peer(None, me.edSecret, me.dilSecret, d.x, d.kyber, {},
         Session(d.dh, Point(d.dh), None, Nil, Nil, Nil, Nil, Nil, 0, 0, map[], false, false))
  }

  function BuildSignMessage(p: Peer, offerId: Bytes, recipient: PeerId): SignMessage {
    SignMessage(recipient, Point(p.private), p.session.dhPublic, Kyber(p.pqcPrivate), Dilithium(p.dilSecret), offerId)
  }

  predicate EdVerify(pub: Public, msg: SignMessage, sig: Signature) {
    pub.Ed? && sig == EdSig(pub.edSecret, msg)
  }

  predicate DilithiumVerify(pub: Public, msg: SignMessage, sig: Signature) {
    pub.Dilithium? && sig == DilithiumSig(pub.dilSecret, msg)
  }

  /** The first of two identities in the order of their SHA-256 hashes. */
  function SortedByHash(h: Hashes, a: Public, b: Public): (Public, Public) {
    if ByteOrder.Less(h.sha256(a), h.sha256(b)) then (a, b) else (b, a)
  }

  predicate AmInitiator(h: Hashes, mine: Public, theirs: Public) {
    SortedByHash(h, theirs, mine).0 == mine
  }

  function TranscriptItems(mine: (Public, Point, Point, Public), theirs: (Public, Point, Point, Public)): seq<Public> {
    [mine.0, Curve(mine.1), Curve(mine.2), mine.3, theirs.0, Curve(theirs.1), Curve(theirs.2), theirs.3]
  }

  function HashAll(h: Hashes, items: seq<Public>): (r: seq<Bytes>)
    ensures |r| == |items| && forall i :: 0 <= i < |items| ==> r[i] == h.sha3(items[i])
  {
    if items == [] then [] else [h.sha3(items[0])] + HashAll(h, items[1..])
  }

  function GetTranscript(h: Hashes, mine: (Public, Point, Point, Public), theirs: (Public, Point, Point, Public)): Term {
    Transcript(ByteOrder.Sort(HashAll(h, TranscriptItems(mine, theirs))))
  }

  function PublicsOf(p: Peer): (Public, Point, Point, Public) {
    (Ed(p.edSecret), Point(p.private), p.session.dhPublic, Kyber(p.pqcPrivate))
  }

  function InitialRootKey(ecc: Term, kem: Term, transcript: Term): Term {
    Expand(Hybrid(ecc, kem), transcript, InitialRoot, 1)
  }

  /** The session keys cut from the 160-byte expansion. */
  function Keyed(s: Session, initial: Term, peerDh: Point, initiator: bool): Session {
    var dh := DhSecret(s.dhPrivate, peerDh);
    s.(remoteDhPublic := Some(peerDh),
       sendCk := RootBlock(dh, initial, if initiator then 1 else 2),
       recvCk := RootBlock(dh, initial, if initiator then 2 else 1),
       rootKey := RootBlock(dh, initial, 3), hmacKey := RootBlock(dh, initial, 4), fileKey := RootBlock(dh, initial, 5),
       sendNonce := 0, recvNonce := 0, amInitiator := initiator,
       pendingDhRatchet := if initiator then s.pendingDhRatchet else true)
  }

  /** SecurePeer.Handshake: the refusals in the order the source checks them, then the keys. */
  function Handshake(h: Hashes, p: Peer, peerId: Public, peerPub: Point, peerDh: Point, peerKyber: Public,
                     peerDil: Public, sig: Signature, dilSig: Signature, kem: Term, offerId: Bytes, recipient: PeerId): Outcome<Peer> {
    var msg := SignMessage(recipient, peerPub, peerDh, peerKyber, peerDil, offerId);
    var ecc := X25519(p.private, peerPub);
    if peerId.Garbage? && |peerId.bytes| != 32 then Failure(IdentityKeyLength)
    else if !EdVerify(peerId, msg, sig) then Failure(BadEdSignature)
    else if !DilithiumVerify(peerDil, msg, dilSig) then Failure(BadDilithiumSignature)
    else if p.expectedPeer.Some? && p.expectedPeer.value != DerivePeerId(h, peerId, peerDil) then Failure(PeerMismatch)
    else if ecc.None? then Failure(BadSharedPoint)
    else
      var initiator := AmInitiator(h, Ed(p.edSecret), peerId);
      var transcript := GetTranscript(h, PublicsOf(p), (peerId, peerPub, peerDh, peerKyber));
      Success(p.(session := Keyed(p.session, InitialRootKey(ecc.value, kem, transcript), peerDh, initiator)))
  }

  function CreateOffer(h: Hashes, me: Identity, d: Draw, peerId: PeerId, offerId: Bytes): Outcome<(Peer, Offer)> {
    if peerId.BadName? then Failure(InvalidPeerName) else
      var p := NewPeer(me, d);
      var msg := BuildSignMessage(p, offerId, peerId);
      Success((p, Offer(me.id, peerId, offerId, Ed(p.edSecret), Point(p.private), p.session.dhPublic,
                        Kyber(p.pqcPrivate), Dilithium(p.dilSecret), EdSig(p.edSecret, msg), DilithiumSig(p.dilSecret, msg))))
  }

  function AcceptOffer(h: Hashes, me: Identity, d: Draw, coins: nat, sessions: map<PeerId, Peer>, o: Offer): Outcome<(PeerId, Peer, Answer)> {
    if |o.offerId| == 0 then Failure(MissingOfferId)
    else if o.recipientId != me.id then Failure(NotForThisPeer)
    else if DerivePeerId(h, o.idPub, o.dilithiumPub) != o.senderId then Failure(SenderSpoofed)
    else if o.senderId in sessions && o.offerId in sessions[o.senderId].seenOffers then Failure(OfferReplayed)
    else if !o.kyberPub.Kyber? then Failure(BadKyberKey)
    else
      var seen := (if o.senderId in sessions then sessions[o.senderId].seenOffers else {}) + {o.offerId};
      var p := NewPeer(me, d).(seenOffers := seen);
      var kem := KemSecret(o.kyberPub.kyberSecret, coins);
      var r := Handshake(h, p, o.idPub, o.pub, o.dhPub, o.kyberPub, o.dilithiumPub, o.sign, o.dilithiumSign, kem, o.offerId, me.id);
      if r.Failure? then Failure(r.refusal) else
        var msg := BuildSignMessage(p, o.offerId, o.senderId);
        Success((o.senderId, r.value,
                 Answer(me.id, me.id, o.offerId, Ed(p.edSecret), Point(p.private), p.session.dhPublic, Kyber(p.pqcPrivate),
                        Encapsulated(o.kyberPub.kyberSecret, coins), Dilithium(p.dilSecret),
                        EdSig(p.edSecret, msg), DilithiumSig(p.dilSecret, msg))))
  }

  function Decapsulate(priv: nat, c: KemCipher): Option<Term> {
    match c
    case Encapsulated(owner, coins) => Some(if owner == priv then KemSecret(owner, coins) else KemReject(priv))
    case NotEncapsulated(_) => None
  }

  function FinishHandshake(h: Hashes, me: Identity, pending: Peer, a: Answer): Outcome<(PeerId, Peer)> {
    var kem := Decapsulate(pending.pqcPrivate, a.kyberCiphertext);
    if a.kyberCiphertext == NotEncapsulated([]) then Failure(MissingCiphertext)
    else if DerivePeerId(h, a.idPub, a.dilithiumPub) != a.senderId then Failure(SenderSpoofed)
    else if kem.None? then Failure(BadCiphertext)
    else if me.id.BadName? then Failure(InvalidPeerName)
    else
      var r := Handshake(h, pending, a.idPub, a.pub, a.dhPub, a.kyberPub, a.dilithiumPub, a.sign, a.dilithiumSign, kem.value, a.offerId, me.id);
      if r.Failure? then Failure(r.refusal) else Success((a.senderId, r.value))
  }

  // ---- who is let in ----

  /** The values were signed for `me` by both secrets behind the peer ID `x`: over exactly the
      recipient, the three short-term keys, the Dilithium key and the offer id. */
  predicate SignedBy(h: Hashes, x: PeerId, me: PeerId, idPub: Public, pub: Point, dhPub: Point, kyberPub: Public,
                     dilithiumPub: Public, offerId: Bytes, sign: Signature, dilithiumSign: Signature) {
    && idPub.Ed? && dilithiumPub.Dilithium? && x == PeerId(idPub, h.sha3(dilithiumPub))
    && sign == EdSig(idPub.edSecret, SignMessage(me, pub, dhPub, kyberPub, dilithiumPub, offerId))
    && dilithiumSign == DilithiumSig(dilithiumPub.dilSecret, SignMessage(me, pub, dhPub, kyberPub, dilithiumPub, offerId))
  }

  predicate OfferSigned(h: Hashes, me: Identity, o: Offer) {
    SignedBy(h, o.senderId, me.id, o.idPub, o.pub, o.dhPub, o.kyberPub, o.dilithiumPub, o.offerId, o.sign, o.dilithiumSign)
  }

  predicate AnswerSigned(h: Hashes, me: Identity, a: Answer) {
    SignedBy(h, a.senderId, me.id, a.idPub, a.pub, a.dhPub, a.kyberPub, a.dilithiumPub, a.offerId, a.sign, a.dilithiumSign)
  }

  /** An offer is accepted if and only if it names an offer id not seen from that sender, is for
      this client, was signed for it by both secrets behind its sender's ID, and its Kyber and
      X25519 keys are usable. */
  lemma AcceptIff(h: Hashes, me: Identity, d: Draw, coins: nat, known: map<PeerId, Peer>, o: Offer)
    ensures AcceptOffer(h, me, d, coins, known, o).Success? <==>
            && o.offerId != [] && o.recipientId == me.id && OfferSigned(h, me, o)
            && !(o.senderId in known && o.offerId in known[o.senderId].seenOffers)
            && o.kyberPub.Kyber? && o.pub.Point?
  {}

  /** An offer that is refused only for its signatures is refused by the first bad one. */
  lemma ForgedOfferRefused(h: Hashes, me: Identity, d: Draw, coins: nat, known: map<PeerId, Peer>, o: Offer, good: Offer)
    requires AcceptOffer(h, me, d, coins, known, good).Success? && o == good.(sign := o.sign, dilithiumSign := o.dilithiumSign)
    ensures o.sign != good.sign ==> AcceptOffer(h, me, d, coins, known, o) == Failure(BadEdSignature)
    ensures o.sign == good.sign && o.dilithiumSign != good.dilithiumSign ==>
            AcceptOffer(h, me, d, coins, known, o) == Failure(BadDilithiumSignature)
  {}

  /** An answer completes an offer if and only if it was signed for this client by both secrets
      behind its sender's ID, holds a ciphertext, its X25519 key is usable and its sender is
      the one expected, if any. */
  lemma FinishIff(h: Hashes, me: Identity, p: Peer, a: Answer)
    ensures FinishHandshake(h, me, p, a).Success? <==>
            && AnswerSigned(h, me, a) && a.kyberCiphertext.Encapsulated? && a.pub.Point? && !me.id.BadName?
            && (p.expectedPeer.Some? ==> p.expectedPeer.value == a.senderId)
  {}

  /** Block n of the keys that a client's short-term secrets and a peer's public values give. */
  function Cut(h: Hashes, me: Identity, d: Draw, idPub: Public, pub: Point, dhPub: Point, kyberPub: Public, kem: Term, n: nat): Term {
    var transcript := GetTranscript(h, (Ed(me.edSecret), Point(d.x), Point(d.dh), Kyber(d.kyber)), (idPub, pub, dhPub, kyberPub));
    RootBlock(DhSecret(d.dh, dhPub), InitialRootKey(DhSecret(d.x, pub), kem, transcript), n)
  }

  /** The session holds the five keys of its handshake: the peer whose identity key hashes lower
      sends on the first chain and receives on the second. */
  predicate HoldsCut(h: Hashes, me: Identity, d: Draw, idPub: Public, pub: Point, dhPub: Point, kyberPub: Public, kem: Term, s: Session) {
    var lower := ByteOrder.Leq(h.sha256(Ed(me.edSecret)), h.sha256(idPub));
    && s.sendCk == Cut(h, me, d, idPub, pub, dhPub, kyberPub, kem, if lower then 1 else 2)
    && s.recvCk == Cut(h, me, d, idPub, pub, dhPub, kyberPub, kem, if lower then 2 else 1)
    && s.rootKey == Cut(h, me, d, idPub, pub, dhPub, kyberPub, kem, 3)
    && s.hmacKey == Cut(h, me, d, idPub, pub, dhPub, kyberPub, kem, 4)
    && s.fileKey == Cut(h, me, d, idPub, pub, dhPub, kyberPub, kem, 5)
    && s.remoteDhPublic == Some(dhPub) && s.sendNonce == 0 == s.recvNonce && s.amInitiator == lower
  }

  lemma InitiatorIsLower(h: Hashes, mine: Public, theirs: Public)
    ensures AmInitiator(h, mine, theirs) <==> ByteOrder.Leq(h.sha256(mine), h.sha256(theirs))
  {
    ByteOrder.LeqTotal(h.sha256(mine), h.sha256(theirs));
  }

  /** The session of an accepted offer is keyed from the values signed in it. */
  lemma AcceptedKeys(h: Hashes, me: Identity, d: Draw, coins: nat, known: map<PeerId, Peer>, o: Offer)
    requires AcceptOffer(h, me, d, coins, known, o).Success?
    ensures HoldsCut(h, me, d, o.idPub, o.pub, o.dhPub, o.kyberPub, KemSecret(o.kyberPub.kyberSecret, coins),
                     AcceptOffer(h, me, d, coins, known, o).value.1.session)
  {
    InitiatorIsLower(h, Ed(me.edSecret), o.idPub);
  }

  /** The session of a completed offer is keyed from the values signed in the answer, and from
      the secrets its object holds at that moment. */
  lemma FinishedKeys(h: Hashes, me: Identity, p: Peer, a: Answer)
    requires p.edSecret == me.edSecret && p.session.dhPublic == Point(p.session.dhPrivate)
    requires FinishHandshake(h, me, p, a).Success?
    ensures HoldsCut(h, me, Draw(p.private, p.session.dhPrivate, p.pqcPrivate), a.idPub, a.pub, a.dhPub, a.kyberPub,
                     Decapsulate(p.pqcPrivate, a.kyberCiphertext).value, FinishHandshake(h, me, p, a).value.1.session)
  {
    InitiatorIsLower(h, Ed(me.edSecret), a.idPub);
  }

  /** The digests that the transcript joins, in the order the items are listed. */
  function Digests(h: Hashes, a: (Public, Point, Point, Public), b: (Public, Point, Point, Public)): seq<Bytes> {
    [h.sha3(a.0), h.sha3(Curve(a.1)), h.sha3(Curve(a.2)), h.sha3(a.3), h.sha3(b.0), h.sha3(Curve(b.1)), h.sha3(Curve(b.2)), h.sha3(b.3)]
  }

  lemma DigestsHashed(h: Hashes, a: (Public, Point, Point, Public), b: (Public, Point, Point, Public))
    ensures HashAll(h, TranscriptItems(a, b)) == Digests(h, a, b)
  {}

  /** The transcript holds the digests of all eight public values, in no order of its own. */
  lemma TranscriptHolds(h: Hashes, a: (Public, Point, Point, Public), b: (Public, Point, Point, Public))
    ensures GetTranscript(h, a, b).Transcript? && multiset(GetTranscript(h, a, b).digests) == multiset(Digests(h, a, b))
  {
    DigestsHashed(h, a, b);
    ByteOrder.SortCorrect(HashAll(h, TranscriptItems(a, b)));
  }

  /** A root, HMAC or other key cut by a handshake determines every secret and all eight public
      values that went into it, the latter by their digests. */
  lemma KeysBindHandshake(h: Hashes, dh: Term, ecc: Term, kem: Term, a: (Public, Point, Point, Public), b: (Public, Point, Point, Public),
                          dh': Term, ecc': Term, kem': Term, c: (Public, Point, Point, Public), d: (Public, Point, Point, Public), n: nat)
    requires RootBlock(dh, InitialRootKey(ecc, kem, GetTranscript(h, a, b)), n) == RootBlock(dh', InitialRootKey(ecc', kem', GetTranscript(h, c, d)), n)
    ensures dh == dh' && ecc == ecc' && kem == kem' && multiset(Digests(h, a, b)) == multiset(Digests(h, c, d))
  {
    TranscriptHolds(h, a, b);
    TranscriptHolds(h, c, d);
    SameBlock(dh, InitialRootKey(ecc, kem, GetTranscript(h, a, b)), dh', InitialRootKey(ecc', kem', GetTranscript(h, c, d)), n);
    SameInitial(ecc, kem, GetTranscript(h, a, b), ecc', kem', GetTranscript(h, c, d));
  }

  lemma SameBlock(dh: Term, root: Term, dh': Term, root': Term, n: nat)
    requires RootBlock(dh, root, n) == RootBlock(dh', root', n)
    ensures dh == dh' && root == root'
  {}

  lemma SameInitial(ecc: Term, kem: Term, t: Term, ecc': Term, kem': Term, t': Term)
    requires InitialRootKey(ecc, kem, t) == InitialRootKey(ecc', kem', t')
    ensures ecc == ecc' && kem == kem' && t == t'
  {}

  // ---- the honest run ----

  predicate Genuine(h: Hashes, me: Identity) {
    me.id == DerivePeerId(h, Ed(me.edSecret), Dilithium(me.dilSecret))
  }

  /** The transcript does not depend on who computes it. */
  lemma TranscriptSymmetric(h: Hashes, a: (Public, Point, Point, Public), b: (Public, Point, Point, Public))
    ensures GetTranscript(h, a, b) == GetTranscript(h, b, a)
  {
    var s, t := HashAll(h, TranscriptItems(a, b)), HashAll(h, TranscriptItems(b, a));
    var x, y := HashAll(h, [a.0, Curve(a.1), Curve(a.2), a.3]), HashAll(h, [b.0, Curve(b.1), Curve(b.2), b.3]);
    assert s == x + y && t == y + x;
    ByteOrder.SortIgnoresOrder(s, t);
  }

  /** Exactly one of two peers takes the initiator's role if and only if the SHA-256 hashes of
      their identity keys differ; when the hashes are equal both take it. It is the one whose
      hash is lower. */
  lemma OneInitiator(h: Hashes, a: Public, b: Public)
    ensures (AmInitiator(h, a, b) <==> !AmInitiator(h, b, a)) <==> h.sha256(a) != h.sha256(b)
    ensures h.sha256(a) == h.sha256(b) ==> AmInitiator(h, a, b) && AmInitiator(h, b, a)
    ensures AmInitiator(h, a, b) <==> ByteOrder.Leq(h.sha256(a), h.sha256(b))
  {
    ByteOrder.LeqTotal(h.sha256(a), h.sha256(b));
    if h.sha256(a) != h.sha256(b) && ByteOrder.Leq(h.sha256(a), h.sha256(b)) && ByteOrder.Leq(h.sha256(b), h.sha256(a)) {
      ByteOrder.LeqAntisymmetric(h.sha256(a), h.sha256(b));
    }
  }

  datatype Honest = Honest(a: Identity, b: Identity, da: Draw, db: Draw, offerId: Bytes, coins: nat, known: map<PeerId, Peer>)

  predicate HonestRun(h: Hashes, r: Honest) {
    && Genuine(h, r.a) && Genuine(h, r.b) && |r.offerId| > 0
    && (r.a.id in r.known ==> r.offerId !in r.known[r.a.id].seenOffers)
  }

  /** The two sessions an honest run should end with. */
  function SharedRoot(h: Hashes, r: Honest): Term {
    InitialRootKey(DhSecret(r.da.x, Point(r.db.x)), KemSecret(r.da.kyber, r.coins),
                   GetTranscript(h, PublicsOf(NewPeer(r.a, r.da)), PublicsOf(NewPeer(r.b, r.db))))
  }

  function SessionOf(h: Hashes, r: Honest, mine: Identity, d: Draw, theirs: Identity, theirDh: nat): Session {
    Keyed(NewPeer(mine, d).session, SharedRoot(h, r), Point(theirDh), AmInitiator(h, Ed(mine.edSecret), Ed(theirs.edSecret)))
  }

  lemma AcceptSucceeds(h: Hashes, r: Honest)
    requires HonestRun(h, r)
    ensures var offer := CreateOffer(h, r.a, r.da, r.b.id, r.offerId);
      && offer.Success?
      && var accepted := AcceptOffer(h, r.b, r.db, r.coins, r.known, offer.value.1);
      accepted.Success? && accepted.value.0 == r.a.id && accepted.value.1.session == SessionOf(h, r, r.b, r.db, r.a, r.da.dh)
  {
    TranscriptSymmetric(h, PublicsOf(NewPeer(r.a, r.da)), PublicsOf(NewPeer(r.b, r.db)));
    DhCommutes(r.da.x, r.db.x);
  }

  /** An honest offer, accept, finish run always succeeds on both sides. */
  lemma HonestRunSucceeds(h: Hashes, r: Honest)
    requires HonestRun(h, r)
    ensures var offer := CreateOffer(h, r.a, r.da, r.b.id, r.offerId);
      && offer.Success?
      && var accepted := AcceptOffer(h, r.b, r.db, r.coins, r.known, offer.value.1);
      && accepted.Success? && accepted.value.0 == r.a.id
      && accepted.value.1.session == SessionOf(h, r, r.b, r.db, r.a, r.da.dh)
      && var finished := FinishHandshake(h, r.a, offer.value.0, accepted.value.2);
      finished.Success? && finished.value.0 == r.b.id && finished.value.1.session == SessionOf(h, r, r.a, r.da, r.b, r.db.dh)
  {
    AcceptSucceeds(h, r);
  }

  /** Each side's send chain is the other's receive chain. */
  predicate Mirrored(s: Session, t: Session) {
    && s.sendCk == t.recvCk && s.recvCk == t.sendCk
    && s.remoteDhPublic == Some(t.dhPublic) && t.remoteDhPublic == Some(s.dhPublic)
  }

  /** The sessions of an honest run agree on root, HMAC and file keys; they are mirrored, with
      exactly one initiator and exactly the other owing the first ratchet, if and only if the
      hashes of the two identity keys differ. */
  lemma HonestSessionsMirror(h: Hashes, r: Honest)
    requires HonestRun(h, r)
    ensures var s, t := SessionOf(h, r, r.a, r.da, r.b, r.db.dh), SessionOf(h, r, r.b, r.db, r.a, r.da.dh);
      && s.rootKey == t.rootKey && s.hmacKey == t.hmacKey && s.fileKey == t.fileKey
      && (Mirrored(s, t) <==> h.sha256(Ed(r.a.edSecret)) != h.sha256(Ed(r.b.edSecret)))
      && (Mirrored(s, t) ==> s.amInitiator != t.amInitiator)
      && s.pendingDhRatchet == !s.amInitiator && t.pendingDhRatchet == !t.amInitiator
  {
    DhCommutes(r.da.dh, r.db.dh);
    OneInitiator(h, Ed(r.a.edSecret), Ed(r.b.edSecret));
  }

  // ---- what the handshake hands to the ratchet ----

  /** Both ends are ready for a run in which every message key is used once. */
  lemma HonestSessionEstablished(h: Hashes, r: Honest, mine: Identity, d: Draw, theirs: Identity, theirDh: nat)
    ensures OneUse.Established(SessionOf(h, r, mine, d, theirs, theirDh))
  {}

  /** The world in which the conversation starts; peer 1 is the initiator. */
  function FirstWorld(h: Hashes, r: Honest): Duplex.World {
    var s, t := SessionOf(h, r, r.a, r.da, r.b, r.db.dh), SessionOf(h, r, r.b, r.db, r.a, r.da.dh);
    var (zero, one) := if s.amInitiator then (t, s) else (s, t);
    Duplex.World([Duplex.End(zero, 0, 1, {}), Duplex.End(one, 1, 0, {})],
                 Duplex.Opening(SharedRoot(h, r), s.hmacKey, zero.dhPrivate, one.dhPrivate), [[], []])
  }

  /** An honest handshake between identities with different hashes, on different ratchet
      scalars, puts the two peers in step. */
  lemma HandshakePutsInStep(h: Hashes, r: Honest)
    requires HonestRun(h, r) && h.sha256(Ed(r.a.edSecret)) != h.sha256(Ed(r.b.edSecret)) && r.da.dh != r.db.dh
    ensures Duplex.InStep(FirstWorld(h, r))
  {
    HonestSessionsMirror(h, r);
    DhCommutes(r.da.dh, r.db.dh);
    OpeningInStep(FirstWorld(h, r));
  }

  /** From the handshake on, every run of timely deliveries is a run in step, so everything
      proved of conversations holds of honest peers. */
  lemma HonestConversation(h: Hashes, r: Honest, ms: seq<Conversation.Move>)
    requires HonestRun(h, r) && h.sha256(Ed(r.a.edSecret)) != h.sha256(Ed(r.b.edSecret)) && r.da.dh != r.db.dh
    requires forall i: nat :: i < |ms| ==> Conversation.LegalAt(FirstWorld(h, r), ms, i)
    ensures Conversation.Run(FirstWorld(h, r), ms)
  {
    HandshakePutsInStep(h, r);
  }

  lemma OpeningInStep(w: Duplex.World)
    requires |w.ends| == 2 && w.sent == [[], []]
    requires var k0, k1 := w.ends[0].me.dhPrivate, w.ends[1].me.dhPrivate;
      k0 != k1 && w.sch == Duplex.Opening(w.sch.base, w.sch.hmacKey, k0, k1)
    requires forall p :: 0 <= p < 2 ==> OpeningEnd(w, p)
    ensures Duplex.InStep(w)
  {
    var sch := w.sch;
    assert sch.keys[..1] == [sch.keys[0]] && sch.keys[..2] == sch.keys;
    assert Duplex.Distinct(sch.keys[..1]);
    assert Duplex.Derived(sch);
    assert OpeningEnd(w, 0) && OpeningEnd(w, 1);
    assert Duplex.EndInStep(w, 0) && Duplex.EndInStep(w, 1);
    Duplex.Conclude(w);
  }

  /** One end as the handshake leaves it. */
  predicate OpeningEnd(w: Duplex.World, p: nat)
    requires p < 2 == |w.ends| && Duplex.Sized(w.sch)
  {
    var e := w.ends[p];
    var me := e.me;
    && e == Duplex.End(me, p, 1 - p, {}) && me.skipped == map[] && me.sendNonce == 0 && me.recvNonce == 0
    && me.dhPrivate == w.sch.keys[p] && me.dhPublic == Point(w.sch.keys[p])
    && me.remoteDhPublic == Some(Point(w.sch.keys[1 - p])) && me.hmacKey == w.sch.hmacKey
    && me.sendCk == w.sch.starts[p] && me.recvCk == w.sch.starts[1 - p] && me.rootKey == w.sch.roots[1]
    && (me.pendingDhRatchet ==> p == 0)
  }
}
