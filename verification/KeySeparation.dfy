/** Message keys are independent of everything else: a leaked one is not a chain, root, HMAC or
    file key, and nothing the session ever holds or uses is derived from it. */
module KeySeparation {
  import opened Terms
  import opened Ratchet
  import opened OneUse
  import Handshakes

  /** `k` is `t` or something `t` was derived from. */
  predicate Occurs(k: Term, t: Term) {
    || k == t
    || match t
       case Expand(ikm, salt, _, _) => Occurs(k, ikm) || Occurs(k, salt)
       case Hybrid(ecc, kem) => Occurs(k, ecc) || Occurs(k, kem)
       case _ => false
  }

  predicate IsMessageKey(t: Term) { t.Expand? && t.info == RatchetStep && t.block == 2 }

  /** No message key went into `t`. */
  predicate Clean(t: Term) {
    match t
    case Expand(ikm, salt, info, block) => !(info == RatchetStep && block == 2) && Clean(ikm) && Clean(salt)
    case Hybrid(ecc, kem) => Clean(ecc) && Clean(kem)
    case _ => true
  }

  lemma {:induction false} CleanHasNone(k: Term, t: Term)
    requires IsMessageKey(k) && Clean(t)
    ensures !Occurs(k, t)
  {
    match t
    case Expand(ikm, salt, _, _) =>
      CleanHasNone(k, ikm);
      CleanHasNone(k, salt);
    case Hybrid(ecc, kem) =>
      CleanHasNone(k, ecc);
      CleanHasNone(k, kem);
    case _ =>
  }

  /** A key a frame was sealed under, or may be opened with: a last step from a clean chain. */
  predicate Leaf(k: Term) { IsMessageKey(k) && Clean(k.ikm) && Clean(k.salt) }

  ghost predicate Separated(s: Session) {
    && Clean(s.sendCk) && Clean(s.recvCk) && Clean(s.rootKey) && Clean(s.hmacKey) && Clean(s.fileKey)
    && (forall x <- s.skipped :: Leaf(s.skipped[x]))
  }

  lemma CleanDh(x: nat, pub: Point)
    ensures Clean(DhSecret(x, pub))
  {}

  lemma {:induction false} StashSeparated(s: Session, n: int)
    requires Separated(s)
    ensures Separated(StashUntil(s, n))
    decreases n - s.recvNonce
  {
    if s.recvNonce < n { StashSeparated(StashOne(s), n); }
  }

  lemma ReceiveSeparated(s: Session, f: Frame)
    requires Separated(s)
    ensures Separated(Decrypt(s, f).0)
    ensures TriedKey(s, f).Some? ==> Leaf(TriedKey(s, f).value)
  {
    var t := Turned(s, f.ratchetKey);
    CleanDh(s.dhPrivate, f.ratchetKey);
    assert Separated(t);
    StashSeparated(t, f.nonce);
  }

  lemma SendSeparated(s: Session, drawn: nat)
    requires Separated(s)
    ensures Separated(SendRatchet(s, drawn)) && Separated(AdvanceSend(SendRatchet(s, drawn)))
  {
    CleanDh(drawn, RemoteBytes(s));
  }

  lemma {:induction false} SeparatedAt(s: Session, es: seq<Event>, n: nat)
    requires Separated(s) && n <= |es|
    ensures Separated(StateAt(s, es, n))
  {
    if n > 0 {
      SeparatedAt(s, es, n - 1);
      var t, e := StateAt(s, es, n - 1), es[n - 1];
      match e
      case Send(_, _, drawn) => SendSeparated(t, drawn);
      case Receive(f) => ReceiveSeparated(t, f);
      case SkipTo(until) => StashSeparated(t, until);
      case Restarted =>
    }
  }

  /** The keys the AEAD is given at an event. */
  function Used(s: Session, e: Event): set<Term> { Entry(KeySealed(s, e)) + Entry(KeyTried(s, e)) }

  lemma UsedAreLeaves(s: Session, e: Event, k: Term)
    requires Separated(s) && k in Used(s, e)
    ensures Leaf(k)
  {
    if e.Send? { SendSeparated(s, e.drawn); }
    if e.Receive? { ReceiveSeparated(s, e.frame); }
  }

  /** In every run from a keyed session, a key any frame was sealed under or tried with occurs
      in no chain, root, HMAC or file key the session has at any point, before or after. */
  lemma MessageKeysStandApart(s: Session, es: seq<Event>, i: nat, n: nat, k: Term)
    requires Separated(s) && i < |es| && n <= |es| && k in Used(StateAt(s, es, i), es[i])
    ensures var now := StateAt(s, es, n);
      && !Occurs(k, now.sendCk) && !Occurs(k, now.recvCk) && !Occurs(k, now.rootKey)
      && !Occurs(k, now.hmacKey) && !Occurs(k, now.fileKey)
  {
    SeparatedAt(s, es, i);
    SeparatedAt(s, es, n);
    UsedAreLeaves(StateAt(s, es, i), es[i], k);
    var now := StateAt(s, es, n);
    CleanHasNone(k, now.sendCk);
    CleanHasNone(k, now.recvCk);
    CleanHasNone(k, now.rootKey);
    CleanHasNone(k, now.hmacKey);
    CleanHasNone(k, now.fileKey);
  }

  /** And no other message key is derived from it: a leaked one opens its own frame alone. */
  lemma MessageKeysOpenNothingElse(s: Session, es: seq<Event>, i: nat, j: nat, k: Term, l: Term)
    requires Separated(s) && i < |es| && j < |es| && k in Used(StateAt(s, es, i), es[i]) && l in Used(StateAt(s, es, j), es[j])
    ensures Occurs(k, l) ==> k == l
  {
    SeparatedAt(s, es, i);
    SeparatedAt(s, es, j);
    UsedAreLeaves(StateAt(s, es, i), es[i], k);
    UsedAreLeaves(StateAt(s, es, j), es[j], l);
    CleanHasNone(k, l.ikm);
    CleanHasNone(k, l.salt);
  }

  // ---- what a handshake cuts ----

  /** The five blocks of a handshake are five different keys. */
  lemma FiveKeysDiffer(s: Session, initial: Term, peerDh: Point, initiator: bool)
    ensures var t := Handshakes.Keyed(s, initial, peerDh, initiator);
      && t.sendCk != t.recvCk && t.sendCk != t.rootKey && t.sendCk != t.hmacKey && t.sendCk != t.fileKey
      && t.recvCk != t.rootKey && t.recvCk != t.hmacKey && t.recvCk != t.fileKey
      && t.rootKey != t.hmacKey && t.rootKey != t.fileKey && t.hmacKey != t.fileKey
  {}

  lemma KeyedIsSeparated(s: Session, ecc: Term, kem: Term, transcript: Term, peerDh: Point, initiator: bool)
    requires s.skipped == map[] && Clean(ecc) && Clean(kem) && Clean(transcript)
    ensures Separated(Handshakes.Keyed(s, Handshakes.InitialRootKey(ecc, kem, transcript), peerDh, initiator))
  {
    var initial := Handshakes.InitialRootKey(ecc, kem, transcript);
    assert Clean(Hybrid(ecc, kem)) && Clean(initial);
    CleanDh(s.dhPrivate, peerDh);
  }

  /** Every offer accepted leaves a session from which such runs start. */
  lemma AcceptedIsSeparated(h: Handshakes.Hashes, me: Handshakes.Identity, d: Handshakes.Draw, coins: nat,
                            known: map<Handshakes.PeerId, Handshakes.Peer>, o: Handshakes.Offer)
    requires Handshakes.AcceptOffer(h, me, d, coins, known, o).Success?
    ensures Separated(Handshakes.AcceptOffer(h, me, d, coins, known, o).value.1.session)
  {
    var p := Handshakes.NewPeer(me, d);
    CleanDh(d.x, o.pub);
    KeyedIsSeparated(p.session, DhSecret(d.x, o.pub), KemSecret(o.kyberPub.kyberSecret, coins),
                     Handshakes.GetTranscript(h, Handshakes.PublicsOf(p), (o.idPub, o.pub, o.dhPub, o.kyberPub)), o.dhPub,
                     Handshakes.AmInitiator(h, Handshakes.Ed(me.edSecret), o.idPub));
  }

  /** So does every answer that completes an offer. */
  lemma FinishedIsSeparated(h: Handshakes.Hashes, me: Handshakes.Identity, d: Handshakes.Draw, a: Handshakes.Answer)
    requires Handshakes.FinishHandshake(h, me, Handshakes.NewPeer(me, d), a).Success?
    ensures Separated(Handshakes.FinishHandshake(h, me, Handshakes.NewPeer(me, d), a).value.1.session)
  {
    var p := Handshakes.NewPeer(me, d);
    CleanDh(d.x, a.pub);
    KeyedIsSeparated(p.session, DhSecret(d.x, a.pub), Handshakes.Decapsulate(d.kyber, a.kyberCiphertext).value,
                     Handshakes.GetTranscript(h, Handshakes.PublicsOf(p), (a.idPub, a.pub, a.dhPub, a.kyberPub)), a.dhPub,
                     Handshakes.AmInitiator(h, Handshakes.Ed(me.edSecret), a.idPub));
  }
}
