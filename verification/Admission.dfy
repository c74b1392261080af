/** Who a client's sessions are with: over every run of its session map, a session is keyed
    only from values that the peer's own two secrets signed for this client. */
module Admission {
  import opened Terms
  import opened Handshakes
  import opened Clients
  import Ratchet

  // ---- one event lets a peer in ----

  predicate FromOffer(h: Hashes, me: Identity, o: Handshakes.Offer, d: Draw, coins: nat, key: Term) {
    && OfferSigned(h, me, o) && o.kyberPub.Kyber?
    && key == Cut(h, me, d, o.idPub, o.pub, o.dhPub, o.kyberPub, KemSecret(o.kyberPub.kyberSecret, coins), 4)
  }

  predicate FromAnswer(h: Hashes, me: Identity, a: Answer, d: Draw, key: Term) {
    && AnswerSigned(h, me, a) && a.kyberCiphertext.Encapsulated?
    && key == Cut(h, me, d, a.idPub, a.pub, a.dhPub, a.kyberPub, Decapsulate(d.kyber, a.kyberCiphertext).value, 4)
  }

  /** The HMAC key was cut from what this event brought, signed for `me` by the event's sender. */
  ghost predicate KeyedBy(h: Hashes, me: Identity, e: Event, key: Term) {
    || (e.Accept? && FromOffer(h, me, e.offer, e.draw, e.coins, key))
    || (e.Finish? && exists d :: FromAnswer(h, me, e.answer, d, key))
  }

  /** The peer an offer or answer claims to be from. */
  function Sender(e: Event): Option<PeerId> {
    match e
    case Accept(o, _, _) => Some(o.senderId)
    case Finish(a) => Some(a.senderId)
    case _ => None
  }

  /** The event is an offer or answer of `x`, signed for `me` by both secrets behind `x`. */
  predicate LetsIn(h: Hashes, me: Identity, e: Event, x: PeerId) {
    || (e.Accept? && e.offer.senderId == x && OfferSigned(h, me, e.offer))
    || (e.Finish? && e.answer.senderId == x && AnswerSigned(h, me, e.answer))
  }

  lemma SessionAppears(h: Hashes, me: Identity, b: Book, e: Event, x: PeerId)
    requires Whole(b) && Active(x) !in b.slots && Active(x) in Next(h, me, b, e).slots
    ensures LetsIn(h, me, e, x)
  {
    if e.Accept? {
      AcceptIff(h, me, e.draw, e.coins, KnownAs(e.offer.senderId, Find(b, Active(e.offer.senderId))), e.offer);
    } else if e.Finish? {
      var p := Find(b, TakenSlot(b, e.answer.senderId));
      if p.Some? { FinishIff(h, me, p.value, e.answer); }
    }
  }

  /** In every run, stray answers included, there is a session under `x` only if an offer or an
      answer came in that both secrets behind `x` signed for this client. */
  lemma {:induction false} NoSessionUnsigned(h: Hashes, me: Identity, es: seq<Event>, n: nat, x: PeerId)
    requires n <= |es| && Active(x) in At(h, me, es, n).slots
    ensures exists i :: 0 <= i < n && LetsIn(h, me, es[i], x)
  {
    var b := At(h, me, es, n - 1);
    if Active(x) in b.slots { NoSessionUnsigned(h, me, es, n - 1, x); } else { SessionAppears(h, me, b, es[n - 1], x); }
  }

  // ---- what the session is keyed from ----

  /** The object belongs to this client and its ratchet key pair is one. */
  predicate Own(me: Identity, p: Peer) {
    p.edSecret == me.edSecret && p.session.dhPublic == Point(p.session.dhPrivate)
  }

  /** Sealing, opening and reloading keep the HMAC key. */
  lemma MessagesKeepKey(me: Identity, p: Peer, name: Bytes, plaintext: Bytes, drawn: nat, f: Ratchet.Frame)
    ensures Sealed(p, name, plaintext, drawn).session.hmacKey == p.session.hmacKey
    ensures Opened(p, f).session.hmacKey == p.session.hmacKey && Reloaded(p).session.hmacKey == p.session.hmacKey
    ensures Own(me, p) ==> Own(me, Sealed(p, name, plaintext, drawn)) && Own(me, Opened(p, f)) && Own(me, Reloaded(p))
  {
    Ratchet.StashUntilEffect(Ratchet.Turned(p.session, f.ratchetKey), f.nonce);
  }

  ghost predicate KeyedBefore(h: Hashes, me: Identity, es: seq<Event>, n: nat, key: Term) {
    exists i :: 0 <= i < n <= |es| && KeyedBy(h, me, es[i], key)
  }

  ghost predicate ObjectOk(h: Hashes, me: Identity, es: seq<Event>, n: nat, k: Slot, p: Peer) {
    Own(me, p) && (k.Active? ==> KeyedBefore(h, me, es, n, p.session.hmacKey))
  }

  ghost predicate SlotOk(h: Hashes, me: Identity, es: seq<Event>, n: nat, b: Book, k: Slot) {
    k in b.slots ==> ObjectOk(h, me, es, n, k, b.heap(b.slots[k]))
  }

  lemma OneMoreEvent(h: Hashes, me: Identity, es: seq<Event>, n: nat, k: Slot, p: Peer)
    requires n < |es| && ObjectOk(h, me, es, n, k, p)
    ensures ObjectOk(h, me, es, n + 1, k, p)
  {}

  lemma OfferKeepsOk(h: Hashes, me: Identity, es: seq<Event>, n: nat, b: Book, k: Slot)
    requires n < |es| && Whole(b) && SlotOk(h, me, es, n, b, k) && es[n].Offer?
    ensures SlotOk(h, me, es, n + 1, Next(h, me, b, es[n]), k)
  {
    var e := es[n];
    if !e.to.BadName? { Offered(b, PendingFor(e.to), NewPeer(me, e.draw)); }
    if k in b.slots { OneMoreEvent(h, me, es, n, k, b.heap(b.slots[k])); }
  }

  lemma AcceptedIsKeyed(h: Hashes, me: Identity, e: Event, known: map<PeerId, Peer>)
    requires e.Accept? && AcceptOffer(h, me, e.draw, e.coins, known, e.offer).Success?
    ensures var p := AcceptOffer(h, me, e.draw, e.coins, known, e.offer).value.1;
      Own(me, p) && KeyedBy(h, me, e, p.session.hmacKey)
  {
    AcceptIff(h, me, e.draw, e.coins, known, e.offer);
    AcceptedKeys(h, me, e.draw, e.coins, known, e.offer);
  }

  lemma AcceptKeepsOk(h: Hashes, me: Identity, es: seq<Event>, n: nat, b: Book, k: Slot)
    requires n < |es| && Whole(b) && SlotOk(h, me, es, n, b, k) && es[n].Accept?
    ensures SlotOk(h, me, es, n + 1, Next(h, me, b, es[n]), k)
  {
    var e := es[n];
    if k in b.slots { OneMoreEvent(h, me, es, n, k, b.heap(b.slots[k])); }
    var made := Accepting(h, me, b, e.offer, e.draw, e.coins);
    if made.Success? {
      AcceptedIsKeyed(h, me, e, KnownAs(e.offer.senderId, Find(b, Active(e.offer.senderId))));
      Made(b, Active(made.value.0), made.value.1);
    }
  }

  lemma FinishedIsKeyed(h: Hashes, me: Identity, e: Event, p: Peer)
    requires e.Finish? && Own(me, p) && FinishHandshake(h, me, p, e.answer).Success?
    ensures var q := FinishHandshake(h, me, p, e.answer).value.1;
      Own(me, q) && KeyedBy(h, me, e, q.session.hmacKey)
  {
    FinishIff(h, me, p, e.answer);
    FinishedKeys(h, me, p, e.answer);
    var key := FinishHandshake(h, me, p, e.answer).value.1.session.hmacKey;
    assert FromAnswer(h, me, e.answer, Draw(p.private, p.session.dhPrivate, p.pqcPrivate), key);
  }

  lemma FinishKeepsOk(h: Hashes, me: Identity, es: seq<Event>, n: nat, b: Book, k: Slot)
    requires n < |es| && Whole(b) && es[n].Finish? && forall j :: SlotOk(h, me, es, n, b, j)
    ensures SlotOk(h, me, es, n + 1, Next(h, me, b, es[n]), k)
  {
    var a := es[n].answer;
    var taken := TakenSlot(b, a.senderId);
    assert SlotOk(h, me, es, n, b, taken) && SlotOk(h, me, es, n, b, k);
    if k in b.slots { OneMoreEvent(h, me, es, n, k, b.heap(b.slots[k])); }
    var done := Finishing(h, me, b, a);
    if done.Some? {
      FinishedIsKeyed(h, me, es[n], b.heap(b.slots[taken]));
    }
  }

  lemma MessageKeepsOk(h: Hashes, me: Identity, es: seq<Event>, n: nat, b: Book, k: Slot)
    requires n < |es| && Whole(b) && SlotOk(h, me, es, n, b, k) && (es[n].Write? || es[n].Read?)
    ensures SlotOk(h, me, es, n + 1, Next(h, me, b, es[n]), k)
  {
    if k in b.slots {
      var e, p := es[n], b.heap(b.slots[k]);
      OneMoreEvent(h, me, es, n, k, p);
      if e.Write? { MessagesKeepKey(me, p, e.name, e.plaintext, e.drawn, Ratchet.Frame([], Unusable([]), 0, Ratchet.NotSealed([]), Ratchet.NotMac([]))); }
      else { MessagesKeepKey(me, p, [], [], 0, e.frame); }
    }
  }

  lemma ReloadKeepsOk(h: Hashes, me: Identity, es: seq<Event>, n: nat, b: Book, k: Slot)
    requires n < |es| && Whole(b) && SlotOk(h, me, es, n, b, k) && es[n].Reload?
    ensures SlotOk(h, me, es, n + 1, Next(h, me, b, es[n]), k)
  {
    ReloadFinds(b, k);
    if k in b.slots { OneMoreEvent(h, me, es, n, k, b.heap(b.slots[k])); }
  }

  lemma {:induction false} SlotsOkAt(h: Hashes, me: Identity, es: seq<Event>, n: nat)
    requires n <= |es|
    ensures forall k :: SlotOk(h, me, es, n, At(h, me, es, n), k)
  {
    if n > 0 {
      SlotsOkAt(h, me, es, n - 1);
      var b := At(h, me, es, n - 1);
      forall k ensures SlotOk(h, me, es, n, At(h, me, es, n), k) { StepKeepsOk(h, me, es, n - 1, b, k); }
    }
  }

  lemma StepKeepsOk(h: Hashes, me: Identity, es: seq<Event>, n: nat, b: Book, k: Slot)
    requires n < |es| && Whole(b) && forall j :: SlotOk(h, me, es, n, b, j)
    ensures SlotOk(h, me, es, n + 1, Next(h, me, b, es[n]), k)
  {
    match es[n]
    case Offer(_, _, _) => OfferKeepsOk(h, me, es, n, b, k);
    case Accept(_, _, _) => AcceptKeepsOk(h, me, es, n, b, k);
    case Finish(_) => FinishKeepsOk(h, me, es, n, b, k);
    case Write(_, _, _, _) => MessageKeepsOk(h, me, es, n, b, k);
    case Read(_, _) => MessageKeepsOk(h, me, es, n, b, k);
    case Reload => ReloadKeepsOk(h, me, es, n, b, k);
  }

  /** In every run, stray answers included, every session is keyed from public values that came
      in an offer or answer signed for this client by both secrets behind its sender. */
  lemma SessionsAreSigned(h: Hashes, me: Identity, es: seq<Event>, n: nat, x: PeerId)
    requires n <= |es| && Active(x) in At(h, me, es, n).slots
    ensures KeyedBefore(h, me, es, n, Find(At(h, me, es, n), Active(x)).value.session.hmacKey)
  {
    SlotsOkAt(h, me, es, n);
    assert SlotOk(h, me, es, n, At(h, me, es, n), Active(x));
  }

  // ---- the peer it is filed under ----

  /** The key was cut from what `x` signed for `me`, by an accepted offer's own draw or by the
      draw of an offer made to `x`. */
  predicate KeyedWith(h: Hashes, me: Identity, es: seq<Event>, j: nat, i: nat, x: PeerId, key: Term) {
    && j <= i < |es| && Sender(es[i]) == Some(x)
    && (es[i].Accept? ==> j == i && FromOffer(h, me, es[i].offer, es[i].draw, es[i].coins, key))
    && (es[i].Finish? ==> es[j].Offer? && es[j].to == x && FromAnswer(h, me, es[i].answer, es[j].draw, key))
  }

  predicate OfferedAt(me: Identity, es: seq<Event>, j: nat, x: PeerId, p: Peer) {
    j < |es| && es[j].Offer? && es[j].to == x && p == NewPeer(me, es[j].draw)
  }

  lemma {:induction false} OfferedFrom(h: Hashes, me: Identity, es: seq<Event>, n: nat, x: PeerId)
    requires n <= |es| && Alone(h, me, x, es[..n]).offered.Some?
    ensures exists j: nat :: j < n && OfferedAt(me, es, j, x, Alone(h, me, x, es[..n]).offered.value)
  {
    AloneOneMore(h, me, x, es, n - 1);
    var v, e := Alone(h, me, x, es[..n - 1]), es[n - 1];
    if Concerns(e, x) && e.Offer? && !e.to.BadName? {
      assert OfferedAt(me, es, n - 1, x, NewPeer(me, e.draw));
    } else {
      OfferedFrom(h, me, es, n - 1, x);
      assert Reloaded(v.offered.value) == v.offered.value;
    }
  }

  lemma FinishKeysWith(h: Hashes, me: Identity, es: seq<Event>, n: nat, x: PeerId)
    requires n < |es| && es[n].Finish? && es[n].answer.senderId == x
    requires var v := Alone(h, me, x, es[..n]); v.offered.Some? && FinishHandshake(h, me, v.offered.value, es[n].answer).Success?
    ensures exists j: nat ::
      KeyedWith(h, me, es, j, n, x, FinishHandshake(h, me, Alone(h, me, x, es[..n]).offered.value, es[n].answer).value.1.session.hmacKey)
  {
    OfferedFrom(h, me, es, n, x);
    var p, a := Alone(h, me, x, es[..n]).offered.value, es[n].answer;
    var j: nat :| j < n && OfferedAt(me, es, j, x, p);
    FinishIff(h, me, p, a);
    FinishedKeys(h, me, p, a);
    assert KeyedWith(h, me, es, j, n, x, FinishHandshake(h, me, p, a).value.1.session.hmacKey);
  }

  lemma AcceptKeysWith(h: Hashes, me: Identity, es: seq<Event>, n: nat, known: map<PeerId, Peer>)
    requires n < |es| && es[n].Accept? && AcceptOffer(h, me, es[n].draw, es[n].coins, known, es[n].offer).Success?
    ensures KeyedWith(h, me, es, n, n, es[n].offer.senderId,
                      AcceptOffer(h, me, es[n].draw, es[n].coins, known, es[n].offer).value.1.session.hmacKey)
  {
    AcceptIff(h, me, es[n].draw, es[n].coins, known, es[n].offer);
    AcceptedKeys(h, me, es[n].draw, es[n].coins, known, es[n].offer);
  }

  lemma {:induction false} AloneKeyedWith(h: Hashes, me: Identity, es: seq<Event>, n: nat, x: PeerId)
    requires n <= |es| && Alone(h, me, x, es[..n]).active.Some?
    ensures exists j: nat, i: nat :: i < n && KeyedWith(h, me, es, j, i, x, Alone(h, me, x, es[..n]).active.value.session.hmacKey)
  {
    AloneOneMore(h, me, x, es, n - 1);
    var v, e := Alone(h, me, x, es[..n - 1]), es[n - 1];
    if Concerns(e, x) && e.Accept? && AcceptOffer(h, me, e.draw, e.coins, KnownAs(x, v.active), e.offer).Success? {
      AcceptKeysWith(h, me, es, n - 1, KnownAs(x, v.active));
    } else if Concerns(e, x) && e.Finish? && v.offered.Some? && FinishHandshake(h, me, v.offered.value, e.answer).Success? {
      FinishKeysWith(h, me, es, n - 1, x);
    } else {
      if Concerns(e, x) { KeepsKey(h, me, v, e, x); }
      AloneKeyedWith(h, me, es, n - 1, x);
    }
  }

  /** An event that neither accepts nor finishes leaves the session's HMAC key as it was. */
  lemma KeepsKey(h: Hashes, me: Identity, v: View, e: Event, x: PeerId)
    requires ViewStep(h, me, v, e).active.Some? && Concerns(e, x)
    requires e.Accept? ==> AcceptOffer(h, me, e.draw, e.coins, KnownAs(x, v.active), e.offer).Failure?
    requires e.Finish? && v.offered.Some? ==> FinishHandshake(h, me, v.offered.value, e.answer).Failure?
    ensures v.active.Some? && ViewStep(h, me, v, e).active.value.session.hmacKey == v.active.value.session.hmacKey
  {
    if v.active.None? { return; }
    var p := v.active.value;
    if e.Write? { MessagesKeepKey(me, p, e.name, e.plaintext, e.drawn, Ratchet.Frame([], Unusable([]), 0, Ratchet.NotSealed([]), Ratchet.NotMac([]))); }
    if e.Read? { MessagesKeepKey(me, p, [], [], 0, e.frame); }
  }

  /** In every run without stray answers, the session under `x` is keyed from public values that
      both secrets behind `x` itself signed for this client, and from secrets this client drew
      in accepting that offer or in making an offer to `x`. With stray answers it need not be:
      see Clients.RepeatedAnswerStrays. */
  lemma SessionIsWithItsPeer(h: Hashes, me: Identity, es: seq<Event>, n: nat, x: PeerId)
    requires n <= |es| && NoStray(h, me, es) && Active(x) in At(h, me, es, n).slots
    ensures exists j: nat, i: nat :: i < n && KeyedWith(h, me, es, j, i, x, Find(At(h, me, es, n), Active(x)).value.session.hmacKey)
  {
    EachPeerAlone(h, me, es, n, x);
    AloneKeyedWith(h, me, es, n, x);
  }
}
