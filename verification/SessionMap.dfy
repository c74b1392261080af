/** `Client` as the object the source mutates: a session map whose slots share `SecurePeer`
    objects. Each method says which slot points where afterwards and which one object, if
    any, changed; and whatever book the map shows before a call, it shows that book's next
    afterwards, so the interleaving results of Clients are about this class. */
module SessionMaps {
  import opened Terms
  import opened Handshakes
  import opened Clients
  import opened SecurePeers
  import Ratchet

  predicate Alike(objs: map<Slot, SecurePeer>, b: Book, j: Slot, k: Slot) {
    j in objs && k in objs && j in b.slots && k in b.slots ==> (objs[j] == objs[k] <==> b.slots[j] == b.slots[k])
  }

  /** A session map and the values of its objects are what a book describes: the same slots,
      the same values, and the same sharing. */
  ghost predicate Shows(objs: map<Slot, SecurePeer>, views: map<Slot, Peer>, b: Book) {
    && Whole(b) && objs.Keys == b.slots.Keys && views.Keys == b.slots.Keys
    && (forall k :: k in views ==> views[k] == b.heap(b.slots[k]))
    && (forall j, k :: Alike(objs, b, j, k))
  }

  lemma FinishShows(h: Hashes, me: Identity, objs: map<Slot, SecurePeer>, views: map<Slot, Peer>, b: Book, a: Answer,
                    objs': map<Slot, SecurePeer>, views': map<Slot, Peer>)
    requires Shows(objs, views, b) && Finishing(h, me, b, a).Some?
    requires var x, k := a.senderId, TakenSlot(b, a.senderId);
      && objs' == (objs - {Pending, PendingFor(x)})[Active(x) := objs[k]] && views'.Keys == objs'.Keys
      && (forall j :: j in views' ==>
            views'[j] == if objs'[j] == objs[k] || j !in views then Finishing(h, me, b, a).value else views[j])
    ensures Shows(objs', views', FinishStep(h, me, b, a))
  {
    var x, k, c := a.senderId, TakenSlot(b, a.senderId), FinishStep(h, me, b, a);
    forall j | j in views' ensures views'[j] == c.heap(c.slots[j]) {
      if j != Active(x) { assert Alike(objs, b, j, k); }
    }
    forall i, j ensures Alike(objs', c, i, j) {
      assert Alike(objs, b, i, j) && Alike(objs, b, k, j) && Alike(objs, b, i, k);
    }
  }

  /** A new object filed under one slot. */
  lemma MakeShows(objs: map<Slot, SecurePeer>, views: map<Slot, Peer>, b: Book, k: Slot, o: SecurePeer, p: Peer)
    requires Shows(objs, views, b) && o !in objs.Values
    ensures Shows(objs[k := o], views[k := p], Make(b, k, p))
  {
    var objs', c := objs[k := o], Make(b, k, p);
    forall i, j ensures Alike(objs', c, i, j) { assert Alike(objs, b, i, j); }
  }

  lemma RememberShows(objs: map<Slot, SecurePeer>, views: map<Slot, Peer>, b: Book, k: Slot)
    requires Shows(objs, views, b) && k in objs
    ensures Shows(objs[Pending := objs[k]], views[Pending := views[k]], Remember(b, k))
  {
    var objs', c := objs[Pending := objs[k]], Remember(b, k);
    forall i, j ensures Alike(objs', c, i, j) {
      assert Alike(objs, b, i, j) && Alike(objs, b, k, j) && Alike(objs, b, i, k);
    }
  }

  lemma OfferShows(h: Hashes, me: Identity, objs: map<Slot, SecurePeer>, views: map<Slot, Peer>, b: Book, to: PeerId, d: Draw,
                   offerId: Bytes, o: SecurePeer)
    requires Shows(objs, views, b) && o !in objs.Values && Handshakes.CreateOffer(h, me, d, to, offerId).Success?
    ensures var p := Handshakes.CreateOffer(h, me, d, to, offerId).value.0;
      Shows(objs[PendingFor(to) := o][Pending := o], views[PendingFor(to) := p][Pending := p], CreateOfferStep(h, me, b, to, d, offerId))
  {
    var p, k := Handshakes.CreateOffer(h, me, d, to, offerId).value.0, PendingFor(to);
    MakeShows(objs, views, b, k, o, p);
    RememberShows(objs[k := o], views[k := p], Make(b, k, p), k);
  }

  lemma AcceptShows(h: Hashes, me: Identity, objs: map<Slot, SecurePeer>, views: map<Slot, Peer>, b: Book, offer: Handshakes.Offer,
                    d: Draw, coins: nat, o: SecurePeer)
    requires Shows(objs, views, b) && o !in objs.Values && Accepting(h, me, b, offer, d, coins).Success?
    ensures var p, k := Accepting(h, me, b, offer, d, coins).value.1, Active(offer.senderId);
      Shows(objs[k := o], views[k := p], AcceptStep(h, me, b, offer, d, coins))
  {
    AcceptedSender(h, me, d, coins, KnownAs(offer.senderId, Find(b, Active(offer.senderId))), offer);
    MakeShows(objs, views, b, Active(offer.senderId), o, Accepting(h, me, b, offer, d, coins).value.1);
  }

  /** One object changed in place, under every slot that shares it. */
  lemma ChangeShows(objs: map<Slot, SecurePeer>, views: map<Slot, Peer>, b: Book, k: Slot, p: Peer, views': map<Slot, Peer>)
    requires Shows(objs, views, b) && k in objs && views'.Keys == objs.Keys
    requires forall j :: j in views' ==> views'[j] == if objs[j] == objs[k] then p else views[j]
    ensures Shows(objs, views', Change(b, k, p))
  {
    forall j | j in views' ensures views'[j] == Change(b, k, p).heap(b.slots[j]) { assert Alike(objs, b, j, k); }
    forall i, j ensures Alike(objs, Change(b, k, p), i, j) { assert Alike(objs, b, i, j); }
  }

  class Client {
    const hashes: Hashes
    const me: Identity
    var sessions: map<Slot, SecurePeer>

    constructor (hashes: Hashes, me: Identity)
      ensures this.hashes == hashes && this.me == me && sessions == map[]
    {
      this.hashes, this.me := hashes, me;
      sessions := map[];
    }

    function Known(x: PeerId): Option<Peer>
      reads this, if Active(x) in sessions then {sessions[Active(x)]} else {}
    {
      if Active(x) in sessions then Some(sessions[Active(x)].View()) else None
    }

    /** The slot whose offer an answer from `x` completes. */
    function Taken(x: PeerId): Slot
      reads this
    {
      if PendingFor(x) in sessions then PendingFor(x) else Pending
    }

    function At(k: Slot): set<SecurePeer>
      reads this
    {
      if k in sessions then {sessions[k]} else {}
    }

    /** The values of the objects, slot by slot. */
    ghost function Views(): map<Slot, Peer>
      reads this, sessions.Values
    {
      map k | k in sessions :: sessions[k].View()
    }

    /** The new object goes under "pending" and under the peer's pending key; no existing
        object changes. */
    method CreateOffer(to: PeerId, d: Draw, offerId: Bytes) returns (r: Outcome<Handshakes.Offer>)
      modifies `sessions
      ensures var made := Handshakes.CreateOffer(hashes, me, d, to, offerId);
        if made.Failure? then r == Failure(made.refusal) && sessions == old(sessions)
        else
          && r == Success(made.value.1) && Pending in sessions
          && fresh(sessions[Pending]) && sessions[Pending].View() == made.value.0
          && sessions == old(sessions)[PendingFor(to) := sessions[Pending]][Pending := sessions[Pending]]
      ensures Views() == if r.Success? then old(Views())[PendingFor(to) := sessions[Pending].View()][Pending := sessions[Pending].View()] else old(Views())
    {
      if to.BadName? { return Failure(InvalidPeerName); }
      var p := new SecurePeer(me, d);
      var msg := BuildSignMessage(p.View(), offerId, to);
      r := Success(Handshakes.Offer(me.id, to, offerId, Ed(p.identityPrivate), Point(p.privateKey), p.dhPublic, Kyber(p.pqcPrivateKey),
                                    Dilithium(p.pqcSignPrivate), EdSig(p.identityPrivate, msg), DilithiumSig(p.pqcSignPrivate, msg)));
      sessions := sessions[PendingFor(to) := p];
      sessions := sessions[Pending := p];
    }

    /** A new object replaces the session with the sender; no existing object changes. */
    method AcceptOffer(o: Handshakes.Offer, d: Draw, coins: nat) returns (r: Outcome<Answer>)
      modifies `sessions
      ensures var made := Handshakes.AcceptOffer(hashes, me, d, coins, KnownAs(o.senderId, old(Known(o.senderId))), o);
        if made.Failure? then r == Failure(made.refusal) && sessions == old(sessions)
        else
          && r == Success(made.value.2) && Active(o.senderId) in sessions
          && fresh(sessions[Active(o.senderId)]) && sessions[Active(o.senderId)].View() == made.value.1
          && sessions == old(sessions)[Active(o.senderId) := sessions[Active(o.senderId)]]
      ensures Views() == if r.Success? then old(Views())[Active(o.senderId) := sessions[Active(o.senderId)].View()] else old(Views())
    {
      var existing := Known(o.senderId);
      if |o.offerId| == 0 { return Failure(MissingOfferId); }
      if o.recipientId != me.id { return Failure(NotForThisPeer); }
      if DerivePeerId(hashes, o.idPub, o.dilithiumPub) != o.senderId { return Failure(SenderSpoofed); }
      if existing.Some? && o.offerId in existing.value.seenOffers { return Failure(OfferReplayed); }
      if !o.kyberPub.Kyber? { return Failure(BadKyberKey); }
      var p, made := Respond(o, d, coins, if existing.Some? then existing.value.seenOffers else {});
      if made.Failure? { return Failure(made.refusal); }
      sessions := sessions[Active(o.senderId) := p];
      r := made;
    }

    /** The responder's half of AcceptOffer once the offer is admitted. */
    method Respond(o: Handshakes.Offer, d: Draw, coins: nat, seen: set<Bytes>) returns (p: SecurePeer, r: Outcome<Answer>)
      requires o.kyberPub.Kyber?
      ensures fresh(p)
      ensures var before := NewPeer(me, d).(seenOffers := seen + {o.offerId});
        var keyed := Handshakes.Handshake(hashes, before, o.idPub, o.pub, o.dhPub, o.kyberPub, o.dilithiumPub, o.sign, o.dilithiumSign,
                                          KemSecret(o.kyberPub.kyberSecret, coins), o.offerId, me.id);
        var msg := BuildSignMessage(before, o.offerId, o.senderId);
        if keyed.Failure? then r == Failure(keyed.refusal)
        else
          && p.View() == keyed.value
          && r == Success(Answer(me.id, me.id, o.offerId, Ed(me.edSecret), Point(d.x), Point(d.dh), Kyber(d.kyber),
                                 Encapsulated(o.kyberPub.kyberSecret, coins), Dilithium(me.dilSecret),
                                 EdSig(me.edSecret, msg), DilithiumSig(me.dilSecret, msg)))
    {
      p := new SecurePeer(me, d);
      p.seenOffers := seen + {o.offerId};
      var refusal := p.Handshake(hashes, o.idPub, o.pub, o.dhPub, o.kyberPub, o.dilithiumPub, o.sign, o.dilithiumSign,
                                 KemSecret(o.kyberPub.kyberSecret, coins), o.offerId, me.id);
      if refusal.Some? { return p, Failure(refusal.value); }
      var msg := BuildSignMessage(p.View(), o.offerId, o.senderId);
      r := Success(Answer(me.id, me.id, o.offerId, Ed(p.identityPrivate), Point(p.privateKey), p.dhPublic, Kyber(p.pqcPrivateKey),
                          Encapsulated(o.kyberPub.kyberSecret, coins), Dilithium(p.pqcSignPrivate),
                          EdSig(p.identityPrivate, msg), DilithiumSig(p.pqcSignPrivate, msg)));
    }

    /** The object of the offer taken is keyed in place and filed under the sender; both
        pending keys go. No other object changes, and a refusal changes nothing. */
    method FinishHandshake(a: Answer) returns (r: Outcome<PeerId>)
      modifies `sessions, At(Taken(a.senderId))
      ensures var x, k := a.senderId, old(Taken(a.senderId));
        if k !in old(sessions) then r == Failure(NoPendingSession) && sessions == old(sessions)
        else
          var p := old(sessions)[k];
          var done := Handshakes.FinishHandshake(hashes, me, old(p.View()), a);
          if done.Failure? then r == Failure(done.refusal) && sessions == old(sessions) && p.View() == old(p.View())
          else
            && r == Success(x) && p.View() == done.value.1
            && sessions == (old(sessions) - {Pending, PendingFor(x)})[Active(x) := p]
      ensures r.Failure? ==> Views() == old(Views())
      ensures r.Success? ==> Views().Keys == sessions.Keys && forall j :: j in Views() ==>
        Views()[j] == if sessions[j] == sessions[Active(a.senderId)] || j !in old(Views()) then sessions[Active(a.senderId)].View() else old(Views())[j]
    {
      var k := Taken(a.senderId);
      if k !in sessions { return Failure(NoPendingSession); }
      var p := sessions[k];
      if a.kyberCiphertext == NotEncapsulated([]) { return Failure(MissingCiphertext); }
      if DerivePeerId(hashes, a.idPub, a.dilithiumPub) != a.senderId { return Failure(SenderSpoofed); }
      var kem := Decapsulate(p.pqcPrivateKey, a.kyberCiphertext);
      if kem.None? { return Failure(BadCiphertext); }
      if me.id.BadName? { return Failure(InvalidPeerName); }
      var refusal := p.Handshake(hashes, a.idPub, a.pub, a.dhPub, a.kyberPub, a.dilithiumPub, a.sign, a.dilithiumSign,
                                 kem.value, a.offerId, me.id);
      if refusal.Some? { return Failure(refusal.value); }
      sessions := sessions - {Pending};
      sessions := sessions - {PendingFor(a.senderId)};
      sessions := sessions[Active(a.senderId) := p];
      r := Success(a.senderId);
    }

    /** Only the object of the session used changes. */
    method Encrypt(to: PeerId, name: Bytes, plaintext: Bytes, drawn: nat) returns (f: Option<Ratchet.Frame>)
      modifies At(Active(to))
      ensures f.Some? <==> Active(to) in sessions
      ensures f.Some? ==>
        var p := sessions[Active(to)];
        p.View() == Sealed(old(p.View()), name, plaintext, drawn) &&
        f.value == Ratchet.Encrypt(old(p.State()), name, plaintext, drawn).1
    {
      if Active(to) !in sessions { return None; }
      var frame := sessions[Active(to)].Encrypt(name, plaintext, drawn);
      f := Some(frame);
    }

    method Decrypt(from: PeerId, frame: Ratchet.Frame) returns (r: Option<Ratchet.Result>)
      modifies At(Active(from))
      ensures r.Some? <==> Active(from) in sessions
      ensures r.Some? ==>
        var p := sessions[Active(from)];
        p.View() == Opened(old(p.View()), frame) && r.value == Ratchet.Decrypt(old(p.State()), frame).1
    {
      if Active(from) !in sessions { return None; }
      var got := sessions[Active(from)].Decrypt(frame);
      r := Some(got);
    }

    // ---- the methods are the events ----

    method OfferEvent(to: PeerId, d: Draw, offerId: Bytes, ghost b: Book) returns (r: Outcome<Handshakes.Offer>)
      requires Shows(sessions, Views(), b)
      modifies `sessions
      ensures Shows(sessions, Views(), CreateOfferStep(hashes, me, b, to, d, offerId))
    {
      ghost var objs, views := sessions, Views();
      r := CreateOffer(to, d, offerId);
      if r.Success? {
        ghost var o := sessions[Pending];
        OfferShows(hashes, me, objs, views, b, to, d, offerId, o);
      }
    }

    method AcceptEvent(o: Handshakes.Offer, d: Draw, coins: nat, ghost b: Book) returns (r: Outcome<Answer>)
      requires Shows(sessions, Views(), b)
      modifies `sessions
      ensures Shows(sessions, Views(), AcceptStep(hashes, me, b, o, d, coins))
    {
      ghost var objs, views := sessions, Views();
      assert Known(o.senderId) == Find(b, Active(o.senderId));
      r := AcceptOffer(o, d, coins);
      if r.Success? {
        ghost var p := sessions[Active(o.senderId)];
        AcceptShows(hashes, me, objs, views, b, o, d, coins, p);
      }
    }

    method FinishEvent(a: Answer, ghost b: Book) returns (r: Outcome<PeerId>)
      requires Shows(sessions, Views(), b)
      modifies `sessions, At(Taken(a.senderId))
      ensures Shows(sessions, Views(), FinishStep(hashes, me, b, a))
    {
      ghost var objs, views, k := sessions, Views(), Taken(a.senderId);
      assert k in sessions ==> Find(b, k) == Some(sessions[k].View());
      r := FinishHandshake(a);
      if r.Success? { FinishShows(hashes, me, objs, views, b, a, sessions, Views()); }
    }

    method WriteEvent(to: PeerId, name: Bytes, plaintext: Bytes, drawn: nat, ghost b: Book) returns (f: Option<Ratchet.Frame>)
      requires Shows(sessions, Views(), b)
      modifies At(Active(to))
      ensures Shows(sessions, Views(), Next(hashes, me, b, Write(to, name, plaintext, drawn)))
    {
      ghost var views := Views();
      f := Encrypt(to, name, plaintext, drawn);
      if f.Some? {
        ChangeShows(sessions, views, b, Active(to), sessions[Active(to)].View(), Views());
      } else {
        assert Views() == views;
      }
    }

    method ReadEvent(from: PeerId, frame: Ratchet.Frame, ghost b: Book) returns (r: Option<Ratchet.Result>)
      requires Shows(sessions, Views(), b)
      modifies At(Active(from))
      ensures Shows(sessions, Views(), Next(hashes, me, b, Read(from, frame)))
    {
      ghost var views := Views();
      r := Decrypt(from, frame);
      if r.Some? {
        ChangeShows(sessions, views, b, Active(from), sessions[Active(from)].View(), Views());
      } else {
        assert Views() == views;
      }
    }
  }
}
