/** The session map of a client: many handshakes at once over shared `SecurePeer` objects. */
module Clients {
  import opened Terms
  import opened Handshakes
  import Ratchet

  /** A key of the session map: "pending", "pending_" followed by a peer ID, or a peer ID. */
  datatype Slot = Pending | PendingFor(peer: PeerId) | Active(peer: PeerId)

  /** The key as the source spells it, given how peer IDs are spelled. */
  function KeyText(spell: PeerId -> string, k: Slot): string {
    match k
    case Pending => "pending"
    case PendingFor(x) => "pending_" + spell(x)
    case Active(x) => spell(x)
  }

  ghost predicate Injective(spell: PeerId -> string) { forall x: PeerId, y: PeerId :: spell(x) == spell(y) ==> x == y }

  /** A name that, used as it stands, is the key of a pending slot. */
  predicate Collides(spell: PeerId -> string, j: Slot, k: Slot) {
    j.Active? && ((k.Pending? && spell(j.peer) == "pending") || (k.PendingFor? && spell(j.peer) == "pending_" + spell(k.peer)))
  }

  /** Two slots have the same key if and only if one is a name that spells the key of the
      other, a pending one. */
  lemma KeysCollideIff(spell: PeerId -> string, j: Slot, k: Slot)
    requires Injective(spell) && j != k
    ensures KeyText(spell, j) == KeyText(spell, k) <==> Collides(spell, j, k) || Collides(spell, k, j)
  {
    if j.PendingFor? { assert KeyText(spell, j)[8..] == spell(j.peer); }
    if k.PendingFor? { assert KeyText(spell, k)[8..] == spell(k.peer); }
  }

  /** Base58 has no underscore, and the 64 bytes of an ID take at least 64 of its letters. */
  ghost predicate Spells(spell: PeerId -> string) {
    Injective(spell) && forall x: PeerId :: !x.BadName? ==> |spell(x)| >= 64 && '_' !in spell(x)
  }

  /** So a peer named by its ID never collides: any name goes for the offers, but a session is
      filed under an ID. */
  lemma KeysDistinct(spell: PeerId -> string, j: Slot, k: Slot)
    requires Spells(spell) && (j.Active? ==> !j.peer.BadName?) && (k.Active? ==> !k.peer.BadName?) && KeyText(spell, j) == KeyText(spell, k)
    ensures j == k
  {
    if j != k { KeysCollideIff(spell, j, k); }
  }

  /** The identity of an object: the step that made it and the slot it was made for. */
  datatype Handle = Handle(step: nat, slot: Slot)

  /** The session map and the objects it points to. Two slots may share an object. */
  datatype Book = Book(slots: map<Slot, Handle>, heap: Handle -> Peer, next: nat)

  datatype Event =
    | Offer(to: PeerId, draw: Draw, offerId: Bytes)
    | Accept(offer: Handshakes.Offer, draw: Draw, coins: nat)
    | Finish(answer: Answer)
    | Write(to: PeerId, name: Bytes, plaintext: Bytes, drawn: nat)
    | Read(from: PeerId, frame: Ratchet.Frame)
    | Reload

  /** No slots; what the heap holds at unused handles does not matter. */
  function Empty(me: Identity): Book { Book(map[], _ => NewPeer(me, Draw(0, 0, 0)), 0) }

  /** Every object in use was made in an earlier step. */
  predicate Whole(b: Book) { forall k :: k in b.slots ==> b.slots[k].step < b.next }

  function Find(b: Book, k: Slot): Option<Peer> {
    if k in b.slots then Some(b.heap(b.slots[k])) else None
  }

  function KnownAs(x: PeerId, p: Option<Peer>): map<PeerId, Peer> {
    if p.Some? then map[x := p.value] else map[]
  }

  function Store(heap: Handle -> Peer, at: Handle, p: Peer): Handle -> Peer { (x: Handle) => if x == at then p else heap(x) }

  /** Make an object and point a slot at it. */
  function Make(b: Book, k: Slot, p: Peer): (r: Book)
    requires Whole(b)
    ensures Whole(r)
  {
    Book(b.slots[k := Handle(b.next, k)], Store(b.heap, Handle(b.next, k), p), b.next + 1)
  }

  /** Change the object a slot points to, for every slot that shares it. */
  function Change(b: Book, k: Slot, p: Peer): (r: Book)
    requires Whole(b) && k in b.slots
    ensures Whole(r)
  {
    b.(heap := Store(b.heap, b.slots[k], p))
  }

  function Reloaded(p: Peer): Peer { p.(session := Ratchet.Restart(p.session)) }

  // ---- the operations ----

  /** Point "pending" at the object of another slot. */
  function Remember(b: Book, k: Slot): (r: Book)
    requires Whole(b) && k in b.slots
    ensures Whole(r)
  {
    b.(slots := b.slots[Pending := b.slots[k]])
  }

  function CreateOfferStep(h: Hashes, me: Identity, b: Book, to: PeerId, d: Draw, offerId: Bytes): (r: Book)
    requires Whole(b)
    ensures Whole(r)
  {
    var made := CreateOffer(h, me, d, to, offerId);
    if made.Failure? then b else
      var c := Make(b, PendingFor(to), made.value.0);
      Remember(c, PendingFor(to))
  }

  function Accepting(h: Hashes, me: Identity, b: Book, o: Handshakes.Offer, d: Draw, coins: nat): Outcome<(PeerId, Peer, Answer)> {
    AcceptOffer(h, me, d, coins, KnownAs(o.senderId, Find(b, Active(o.senderId))), o)
  }

  function AcceptStep(h: Hashes, me: Identity, b: Book, o: Handshakes.Offer, d: Draw, coins: nat): (r: Book)
    requires Whole(b)
    ensures Whole(r)
  {
    var made := Accepting(h, me, b, o, d, coins);
    if made.Failure? then b else Make(b, Active(made.value.0), made.value.1)
  }

  /** The slot FinishHandshake takes: the one for the answer's sender, else the last offer. */
  function TakenSlot(b: Book, x: PeerId): Slot {
    if PendingFor(x) in b.slots then PendingFor(x) else Pending
  }

  /** What FinishHandshake gives for an answer, if there is an offer to try it on. */
  function Finishing(h: Hashes, me: Identity, b: Book, a: Answer): Option<Peer> {
    var p := Find(b, TakenSlot(b, a.senderId));
    if p.None? then None else
      var r := FinishHandshake(h, me, p.value, a);
      if r.Failure? then None else Some(r.value.1)
  }

  /** Drop both pending slots and file the object under the peer. */
  function Promote(b: Book, k: Slot, x: PeerId): (r: Book)
    requires Whole(b) && k in b.slots
    ensures Whole(r)
  {
    b.(slots := (b.slots - {Pending, PendingFor(x)})[Active(x) := b.slots[k]])
  }

  function FinishStep(h: Hashes, me: Identity, b: Book, a: Answer): (r: Book)
    requires Whole(b)
    ensures Whole(r)
  {
    var x := a.senderId;
    var k := TakenSlot(b, x);
    var done := Finishing(h, me, b, a);
    if done.None? then b else
      var c := Change(b, k, done.value);
      Promote(c, k, x)
  }

  function Sealed(p: Peer, name: Bytes, plaintext: Bytes, drawn: nat): Peer {
    p.(session := Ratchet.Encrypt(p.session, name, plaintext, drawn).0)
  }

  function Opened(p: Peer, f: Ratchet.Frame): Peer {
    p.(session := Ratchet.Decrypt(p.session, f).0)
  }

  function Copies(b: Book): Handle -> Peer {
    (x: Handle) => if x.slot in b.slots && x.step == b.next then Reloaded(b.heap(b.slots[x.slot])) else b.heap(x)
  }

  /** Saving and loading gives every slot an object of its own. */
  function ReloadStep(b: Book): (r: Book)
    requires Whole(b)
    ensures Whole(r)
  {
    Book(map k | k in b.slots :: Handle(b.next, k), Copies(b), b.next + 1)
  }

  function Next(h: Hashes, me: Identity, b: Book, e: Event): (r: Book)
    requires Whole(b)
    ensures Whole(r)
  {
    match e
    case Offer(to, d, offerId) => CreateOfferStep(h, me, b, to, d, offerId)
    case Accept(o, d, coins) => AcceptStep(h, me, b, o, d, coins)
    case Finish(a) => FinishStep(h, me, b, a)
    case Write(to, name, plaintext, drawn) =>
      if Active(to) !in b.slots then b else Change(b, Active(to), Sealed(b.heap(b.slots[Active(to)]), name, plaintext, drawn))
    case Read(from, f) =>
      if Active(from) !in b.slots then b else Change(b, Active(from), Opened(b.heap(b.slots[Active(from)]), f))
    case Reload => ReloadStep(b)
  }

  function At(h: Hashes, me: Identity, es: seq<Event>, n: nat): (r: Book)
    requires n <= |es|
    ensures Whole(r)
  {
    if n == 0 then Empty(me) else Next(h, me, At(h, me, es, n - 1), es[n - 1])
  }

  // ---- one peer on its own ----

  /** What concerns one peer: the offer outstanding to it and the session with it. */
  datatype View = View(offered: Option<Peer>, active: Option<Peer>)

  function ViewOf(b: Book, x: PeerId): View { View(Find(b, PendingFor(x)), Find(b, Active(x))) }

  predicate Concerns(e: Event, x: PeerId) {
    match e
    case Offer(to, _, _) => to == x
    case Accept(o, _, _) => o.senderId == x
    case Finish(a) => a.senderId == x
    case Write(to, _, _, _) => to == x
    case Read(from, _) => from == x
    case Reload => true
  }

  /** One step for one peer, with no map and no sharing. */
  function ViewStep(h: Hashes, me: Identity, v: View, e: Event): View {
    match e
    case Offer(to, d, offerId) => if to.BadName? then v else v.(offered := Some(NewPeer(me, d)))
    case Accept(o, d, coins) =>
      var r := AcceptOffer(h, me, d, coins, KnownAs(o.senderId, v.active), o);
      if r.Failure? then v else v.(active := Some(r.value.1))
    case Finish(a) =>
      if v.offered.None? then v else
        var r := FinishHandshake(h, me, v.offered.value, a);
        if r.Failure? then v else View(None, Some(r.value.1))
    case Write(_, name, plaintext, drawn) =>
      if v.active.None? then v else v.(active := Some(Sealed(v.active.value, name, plaintext, drawn)))
    case Read(_, f) => if v.active.None? then v else v.(active := Some(Opened(v.active.value, f)))
    case Reload =>
      View(if v.offered.None? then None else Some(Reloaded(v.offered.value)),
           if v.active.None? then None else Some(Reloaded(v.active.value)))
  }

  /** The events that concern a peer, run on their own. */
  function Alone(h: Hashes, me: Identity, x: PeerId, es: seq<Event>): View {
    if es == [] then View(None, None) else
      var v := Alone(h, me, x, es[..|es| - 1]);
      if Concerns(es[|es| - 1], x) then ViewStep(h, me, v, es[|es| - 1]) else v
  }

  predicate Apart(b: Book, j: Slot, k: Slot) {
    j in b.slots && k in b.slots && j != k && j != Pending && k != Pending ==> b.slots[j] != b.slots[k]
  }

  /** Outside "pending", no two slots share an object. */
  ghost predicate Separate(b: Book) {
    forall j, k :: Apart(b, j, k)
  }

  /** An answer that no outstanding offer to its sender called for, and that the last offer,
      made to somebody else, takes instead. */
  predicate Stray(h: Hashes, me: Identity, b: Book, e: Event) {
    e.Finish? && PendingFor(e.answer.senderId) !in b.slots && Finishing(h, me, b, e.answer).Some?
  }

  lemma Made(b: Book, k: Slot, p: Peer)
    requires Whole(b) && k != Pending
    ensures Separate(b) ==> Separate(Make(b, k, p))
    ensures forall j :: Find(Make(b, k, p), j) == if j == k then Some(p) else Find(b, j)
  {
    if Separate(b) { forall i, j ensures Apart(Make(b, k, p), i, j) { assert Apart(b, i, j); } }
  }

  lemma Remembered(b: Book, k: Slot)
    requires Whole(b) && k in b.slots
    ensures Separate(b) ==> Separate(Remember(b, k))
    ensures forall j :: Find(Remember(b, k), j) == if j == Pending then Find(b, k) else Find(b, j)
  {
    if Separate(b) { forall i, j ensures Apart(Remember(b, k), i, j) { assert Apart(b, i, j); } }
  }

  lemma Changed(b: Book, k: Slot, p: Peer)
    requires Whole(b) && Separate(b) && k in b.slots && k != Pending
    ensures Separate(Change(b, k, p))
    ensures forall j :: j != Pending ==> Find(Change(b, k, p), j) == if j == k then Some(p) else Find(b, j)
  {
    forall i, j ensures Apart(Change(b, k, p), i, j) { assert Apart(b, i, j); }
    forall j | j != Pending ensures Find(Change(b, k, p), j) == if j == k then Some(p) else Find(b, j) { assert Apart(b, j, k); }
  }

  lemma Promoted(b: Book, x: PeerId)
    requires Whole(b) && Separate(b) && PendingFor(x) in b.slots
    ensures Separate(Promote(b, PendingFor(x), x))
    ensures forall j :: j != Pending && j != PendingFor(x) && j != Active(x) ==> Find(Promote(b, PendingFor(x), x), j) == Find(b, j)
    ensures Find(Promote(b, PendingFor(x), x), Active(x)) == Find(b, PendingFor(x)) && Find(Promote(b, PendingFor(x), x), PendingFor(x)) == None
  {
    forall i, j ensures Apart(Promote(b, PendingFor(x), x), i, j) {
      assert Apart(b, i, j) && Apart(b, PendingFor(x), j) && Apart(b, i, PendingFor(x));
    }
  }

  /** What one step does for peer `x`, stated without the map. */
  ghost predicate Refined(h: Hashes, me: Identity, b: Book, e: Event, x: PeerId)
    requires Whole(b)
  {
    && Separate(Next(h, me, b, e))
    && ViewOf(Next(h, me, b, e), x) == if Concerns(e, x) then ViewStep(h, me, ViewOf(b, x), e) else ViewOf(b, x)
  }

  lemma Offered(b: Book, k: Slot, p: Peer)
    requires Whole(b) && k != Pending
    ensures Separate(b) ==> Separate(Remember(Make(b, k, p), k))
    ensures forall j :: Find(Remember(Make(b, k, p), k), j) == if j == k || j == Pending then Some(p) else Find(b, j)
  {
    Made(b, k, p);
    Remembered(Make(b, k, p), k);
  }

  lemma OfferRefined(h: Hashes, me: Identity, b: Book, e: Event, x: PeerId)
    requires Whole(b) && Separate(b) && e.Offer?
    ensures Refined(h, me, b, e, x)
  {
    var made := CreateOffer(h, me, e.draw, e.to, e.offerId);
    if made.Success? { Offered(b, PendingFor(e.to), made.value.0); }
  }

  lemma AcceptRefined(h: Hashes, me: Identity, b: Book, e: Event, x: PeerId)
    requires Whole(b) && Separate(b) && e.Accept?
    ensures Refined(h, me, b, e, x)
  {
    var made := Accepting(h, me, b, e.offer, e.draw, e.coins);
    if made.Success? {
      AcceptedSender(h, me, e.draw, e.coins, KnownAs(e.offer.senderId, Find(b, Active(e.offer.senderId))), e.offer);
      Made(b, Active(made.value.0), made.value.1);
    }
  }

  lemma AcceptedSender(h: Hashes, me: Identity, d: Draw, coins: nat, known: map<PeerId, Peer>, o: Handshakes.Offer)
    ensures AcceptOffer(h, me, d, coins, known, o).Success? ==> AcceptOffer(h, me, d, coins, known, o).value.0 == o.senderId
  {}

  lemma FinishRefined(h: Hashes, me: Identity, b: Book, e: Event, x: PeerId)
    requires Whole(b) && Separate(b) && e.Finish? && !Stray(h, me, b, e)
    ensures Refined(h, me, b, e, x)
  {
    var done := Finishing(h, me, b, e.answer);
    if done.Some? {
      var k := PendingFor(e.answer.senderId);
      Changed(b, k, done.value);
      Promoted(Change(b, k, done.value), e.answer.senderId);
    }
  }

  lemma MessageRefined(h: Hashes, me: Identity, b: Book, e: Event, x: PeerId)
    requires Whole(b) && Separate(b) && (e.Write? || e.Read?)
    ensures Refined(h, me, b, e, x)
  {
    var k := Active(if e.Write? then e.to else e.from);
    if k in b.slots {
      var p := b.heap(b.slots[k]);
      Changed(b, k, if e.Write? then Sealed(p, e.name, e.plaintext, e.drawn) else Opened(p, e.frame));
    }
  }

  lemma ReloadRefined(h: Hashes, me: Identity, b: Book, x: PeerId)
    requires Whole(b)
    ensures Refined(h, me, b, Reload, x)
  {
    var c := Next(h, me, b, Reload);
    assert c == ReloadStep(b);
    ReloadSeparates(b);
    ReloadFinds(b, PendingFor(x));
    ReloadFinds(b, Active(x));
    ReloadView(h, me, b, c, x);
  }

  lemma ReloadView(h: Hashes, me: Identity, b: Book, c: Book, x: PeerId)
    requires forall k :: k in [PendingFor(x), Active(x)] ==>
               Find(c, k) == if Find(b, k).None? then None else Some(Reloaded(Find(b, k).value))
    ensures ViewOf(c, x) == ViewStep(h, me, ViewOf(b, x), Reload)
  {}

  lemma ReloadSeparates(b: Book)
    requires Whole(b)
    ensures Separate(ReloadStep(b))
  {
    forall i, j ensures Apart(ReloadStep(b), i, j) {}
  }

  lemma ReloadFinds(b: Book, k: Slot)
    requires Whole(b)
    ensures Find(ReloadStep(b), k) == if Find(b, k).None? then None else Some(Reloaded(Find(b, k).value))
  {}

  /** A save and a load keep every slot and everything its object holds, but for the turn of the
      ratchet it owes: that is forgotten, in whatever slot. */
  lemma ReloadForgetsTurns(h: Hashes, me: Identity, b: Book, k: Slot)
    requires Whole(b)
    ensures var p, q := Find(b, k), Find(Next(h, me, b, Reload), k);
      && (p.Some? <==> q.Some?)
      && (q.Some? ==> !q.value.session.pendingDhRatchet && q.value.(session := p.value.session) == p.value
                      && q.value.session.(pendingDhRatchet := p.value.session.pendingDhRatchet) == p.value.session)
  {
    ReloadFinds(b, k);
  }

  predicate StrayAt(h: Hashes, me: Identity, es: seq<Event>, i: nat) {
    i < |es| && Stray(h, me, At(h, me, es, i), es[i])
  }

  ghost predicate NoStray(h: Hashes, me: Identity, es: seq<Event>) {
    forall i: nat :: !StrayAt(h, me, es, i)
  }

  lemma AloneOneMore(h: Hashes, me: Identity, x: PeerId, es: seq<Event>, n: nat)
    requires n < |es|
    ensures Alone(h, me, x, es[..n + 1]) ==
      if Concerns(es[n], x) then ViewStep(h, me, Alone(h, me, x, es[..n]), es[n]) else Alone(h, me, x, es[..n])
  {
    assert es[..n + 1][..n] == es[..n];
  }

  lemma StepRefined(h: Hashes, me: Identity, b: Book, e: Event, x: PeerId)
    requires Whole(b) && Separate(b) && !Stray(h, me, b, e)
    ensures Refined(h, me, b, e, x)
  {
    match e
    case Offer(_, _, _) => OfferRefined(h, me, b, e, x);
    case Accept(_, _, _) => AcceptRefined(h, me, b, e, x);
    case Finish(_) => FinishRefined(h, me, b, e, x);
    case Write(_, _, _, _) => MessageRefined(h, me, b, e, x);
    case Read(_, _) => MessageRefined(h, me, b, e, x);
    case Reload => ReloadRefined(h, me, b, x);
  }

  /** However handshakes and messages with many peers interleave, and whatever objects the
      slots share, each peer's offer and session are what its own events alone would make them. */
  lemma {:induction false} EachPeerAlone(h: Hashes, me: Identity, es: seq<Event>, n: nat, x: PeerId)
    requires n <= |es| && NoStray(h, me, es)
    ensures Separate(At(h, me, es, n)) && ViewOf(At(h, me, es, n), x) == Alone(h, me, x, es[..n])
  {
    if n > 0 {
      EachPeerAlone(h, me, es, n - 1, x);
      assert !StrayAt(h, me, es, n - 1);
      AloneNext(h, me, es, n - 1, At(h, me, es, n - 1), x);
    }
  }

  lemma AloneNext(h: Hashes, me: Identity, es: seq<Event>, n: nat, b: Book, x: PeerId)
    requires n < |es| && Whole(b) && Separate(b) && !Stray(h, me, b, es[n]) && ViewOf(b, x) == Alone(h, me, x, es[..n])
    ensures Separate(Next(h, me, b, es[n])) && ViewOf(Next(h, me, b, es[n]), x) == Alone(h, me, x, es[..n + 1])
  {
    StepRefined(h, me, b, es[n], x);
    AloneOneMore(h, me, x, es, n);
  }

  // ---- which offer an answer completes ----

  /** Offer `j` is the latest outstanding one to `x` at step `i`: no later offer to `x`, and
      no answer from `x` since that completes it. */
  predicate Outstanding(h: Hashes, me: Identity, es: seq<Event>, j: nat, i: nat, x: PeerId) {
    && j < i <= |es| && es[j].Offer? && es[j].to == x && !x.BadName?
    && (forall k :: j < k < i && es[k].Offer? ==> es[k].to != x)
    && (forall k :: j < k < i && es[k].Finish? && es[k].answer.senderId == x ==>
          FinishHandshake(h, me, NewPeer(me, es[j].draw), es[k].answer).Failure?)
  }

  lemma {:induction false} OfferKept(h: Hashes, me: Identity, es: seq<Event>, j: nat, i: nat, x: PeerId)
    requires Outstanding(h, me, es, j, i, x)
    ensures Alone(h, me, x, es[..i]).offered == Some(NewPeer(me, es[j].draw))
    decreases i
  {
    AloneOneMore(h, me, x, es, i - 1);
    if i - 1 > j {
      OfferKept(h, me, es, j, i - 1, x);
      if es[i - 1].Finish? && es[i - 1].answer.senderId == x {
        assert FinishHandshake(h, me, NewPeer(me, es[j].draw), es[i - 1].answer).Failure?;
      }
    }
  }

  /** In every interleaving without stray answers, an answer completes exactly the latest
      outstanding offer to its sender, with that offer's keys; the offer slot is then empty,
      and no other peer's offer or session moves. */
  lemma AnswerCompletesLatestOffer(h: Hashes, me: Identity, es: seq<Event>, j: nat, i: nat, y: PeerId)
    requires NoStray(h, me, es) && i < |es| && es[i].Finish? && Outstanding(h, me, es, j, i, es[i].answer.senderId)
    ensures var x := es[i].answer.senderId;
      var done := FinishHandshake(h, me, NewPeer(me, es[j].draw), es[i].answer);
      && (y != x ==> ViewOf(At(h, me, es, i + 1), y) == ViewOf(At(h, me, es, i), y))
      && ViewOf(At(h, me, es, i + 1), x) == if done.Success? then View(None, Some(done.value.1)) else ViewOf(At(h, me, es, i), x)
  {
    var x := es[i].answer.senderId;
    OfferKept(h, me, es, j, i, x);
    EachPeerAlone(h, me, es, i, x);
    EachPeerAlone(h, me, es, i + 1, x);
    EachPeerAlone(h, me, es, i, y);
    EachPeerAlone(h, me, es, i + 1, y);
    AloneOneMore(h, me, x, es, i);
    AloneOneMore(h, me, y, es, i);
  }

  /** So with any number of other handshakes under way, the honest answer to the latest offer
      always completes it and leaves the session that mirrors the answering peer's. */
  lemma HonestAnswerAmongMany(h: Hashes, r: Honest, es: seq<Event>, j: nat, i: nat)
    requires HonestRun(h, r) && NoStray(h, r.a, es) && i < |es|
    requires Outstanding(h, r.a, es, j, i, r.b.id) && es[j] == Event.Offer(r.b.id, r.da, r.offerId)
    requires es[i] == Finish(AcceptOffer(h, r.b, r.db, r.coins, r.known, CreateOffer(h, r.a, r.da, r.b.id, r.offerId).value.1).value.2)
    ensures var v := ViewOf(At(h, r.a, es, i + 1), r.b.id);
      v.offered.None? && v.active.Some? && v.active.value.session == SessionOf(h, r, r.a, r.da, r.b, r.db.dh)
  {
    HonestRunSucceeds(h, r);
    AnswerCompletesLatestOffer(h, r.a, es, j, i, r.b.id);
  }

  /** A stray answer leaves the slots separate exactly when no other slot shares the object of
      the last offer, apart from the session it replaces. */
  lemma StrayKeepsSeparateIff(h: Hashes, me: Identity, b: Book, e: Event)
    requires Whole(b) && Separate(b) && Stray(h, me, b, e)
    ensures Separate(Next(h, me, b, e)) <==>
            forall k :: k in b.slots && k != Pending && k != Active(e.answer.senderId) ==> b.slots[k] != b.slots[Pending]
  {
    var x, c := e.answer.senderId, Next(h, me, b, e);
    assert c.slots == (b.slots - {Pending, PendingFor(x)})[Active(x) := b.slots[Pending]];
    if Separate(c) {
      forall k | k in b.slots && k != Pending && k != Active(x) ensures b.slots[k] != b.slots[Pending] {
        assert Apart(c, k, Active(x));
      }
    }
    if forall k :: k in b.slots && k != Pending && k != Active(x) ==> b.slots[k] != b.slots[Pending] {
      forall i, j ensures Apart(c, i, j) { assert Apart(b, i, j); }
    }
  }

  // ---- offers are accepted once ----

  /** The offer ids remembered by the object in a slot. */
  function Seen(b: Book, k: Slot): set<Bytes> {
    var p := Find(b, k);
    if p.Some? then p.value.seenOffers else {}
  }

  /** An object that waits in a pending slot has seen no offers. */
  ghost predicate PendingBlank(b: Book) {
    forall k: Slot :: !k.Active? ==> Seen(b, k) == {}
  }

  /** An object keeps the offer ids it was made with, so sharing cannot change them. */
  lemma ChangeKeepsSeen(b: Book, k: Slot, p: Peer)
    requires Whole(b) && k in b.slots && p.seenOffers == b.heap(b.slots[k]).seenOffers
    ensures forall j :: Seen(Change(b, k, p), j) == Seen(b, j)
  {}

  lemma FinishKeepsSeen(h: Hashes, me: Identity, p: Peer, a: Answer)
    ensures FinishHandshake(h, me, p, a).Success? ==> FinishHandshake(h, me, p, a).value.1.seenOffers == p.seenOffers
  {}

  lemma AcceptAddsSeen(h: Hashes, me: Identity, d: Draw, coins: nat, p: Option<Peer>, o: Handshakes.Offer)
    ensures var r := AcceptOffer(h, me, d, coins, KnownAs(o.senderId, p), o);
      r.Success? ==>
        && (p.Some? ==> o.offerId !in p.value.seenOffers)
        && r.value.1.seenOffers == (if p.Some? then p.value.seenOffers else {}) + {o.offerId}
  {}

  /** Whether an offer is accepted depends on the ids seen, not on what the acceptor draws. */
  lemma AcceptDependsOnSeen(h: Hashes, me: Identity, d: Draw, coins: nat, p: Option<Peer>, d': Draw, coins': nat, p': Option<Peer>, o: Handshakes.Offer)
    requires AcceptOffer(h, me, d, coins, KnownAs(o.senderId, p), o).Success?
    ensures AcceptOffer(h, me, d', coins', KnownAs(o.senderId, p'), o).Success? <==> !(p'.Some? && o.offerId in p'.value.seenOffers)
  {}

  predicate Accepts(h: Hashes, me: Identity, b: Book, e: Event, x: PeerId) {
    e.Accept? && e.offer.senderId == x && Accepting(h, me, b, e.offer, e.draw, e.coins).Success?
  }

  predicate Finishes(h: Hashes, me: Identity, b: Book, e: Event, x: PeerId) {
    e.Finish? && e.answer.senderId == x && Finishing(h, me, b, e.answer).Some?
  }

  /** What a step does to the offer ids remembered for `x`; stray answers are not excluded. */
  ghost predicate SeenMoves(h: Hashes, me: Identity, b: Book, e: Event, x: PeerId)
    requires Whole(b)
  {
    var now := Seen(Next(h, me, b, e), Active(x));
    && PendingBlank(Next(h, me, b, e))
    && now == (if Accepts(h, me, b, e, x) then Seen(b, Active(x)) + {e.offer.offerId}
               else if Finishes(h, me, b, e, x) then {} else Seen(b, Active(x)))
  }

  lemma OfferedSeen(b: Book, k: Slot, p: Peer)
    requires Whole(b) && PendingBlank(b) && k != Pending && p.seenOffers == {}
    ensures var c := Remember(Make(b, k, p), k);
      PendingBlank(c) && forall j: Slot :: j.Active? && j != k ==> Seen(c, j) == Seen(b, j)
  {
    Offered(b, k, p);
  }

  lemma OfferSeen(h: Hashes, me: Identity, b: Book, e: Event, x: PeerId)
    requires Whole(b) && PendingBlank(b) && e.Offer?
    ensures SeenMoves(h, me, b, e, x)
  {
    var made := CreateOffer(h, me, e.draw, e.to, e.offerId);
    if made.Success? { OfferedSeen(b, PendingFor(e.to), made.value.0); }
  }

  lemma AcceptSeen(h: Hashes, me: Identity, b: Book, e: Event, x: PeerId)
    requires Whole(b) && PendingBlank(b) && e.Accept?
    ensures SeenMoves(h, me, b, e, x)
  {
    var made := Accepting(h, me, b, e.offer, e.draw, e.coins);
    if made.Success? {
      var known := Find(b, Active(e.offer.senderId));
      AcceptedSender(h, me, e.draw, e.coins, KnownAs(e.offer.senderId, known), e.offer);
      AcceptAddsSeen(h, me, e.draw, e.coins, known, e.offer);
      Made(b, Active(made.value.0), made.value.1);
    }
  }

  lemma FinishSeen(h: Hashes, me: Identity, b: Book, e: Event, x: PeerId)
    requires Whole(b) && PendingBlank(b) && e.Finish?
    ensures SeenMoves(h, me, b, e, x)
  {
    var done := Finishing(h, me, b, e.answer);
    if done.Some? {
      var k := TakenSlot(b, e.answer.senderId);
      FinishKeepsSeen(h, me, Find(b, k).value, e.answer);
      ChangeKeepsSeen(b, k, done.value);
      PromoteSeen(Change(b, k, done.value), k, e.answer.senderId);
      assert Seen(b, k) == {};
    }
  }

  lemma PromoteSeen(b: Book, k: Slot, x: PeerId)
    requires Whole(b) && k in b.slots
    ensures forall j :: Seen(Promote(b, k, x), j) == (if j == Active(x) then Seen(b, k) else if j == Pending || j == PendingFor(x) then {} else Seen(b, j))
  {}

  lemma MessageSeen(h: Hashes, me: Identity, b: Book, e: Event, x: PeerId)
    requires Whole(b) && PendingBlank(b) && (e.Write? || e.Read?)
    ensures SeenMoves(h, me, b, e, x)
  {
    var k := Active(if e.Write? then e.to else e.from);
    if k in b.slots {
      var p := b.heap(b.slots[k]);
      ChangeKeepsSeen(b, k, if e.Write? then Sealed(p, e.name, e.plaintext, e.drawn) else Opened(p, e.frame));
    }
  }

  lemma ReloadSeen(h: Hashes, me: Identity, b: Book, x: PeerId)
    requires Whole(b) && PendingBlank(b)
    ensures SeenMoves(h, me, b, Reload, x)
  {
    var c := Next(h, me, b, Reload);
    assert c == ReloadStep(b);
    ReloadKeepsSeen(b);
    SameSeen(b, c);
  }

  lemma ReloadKeepsSeen(b: Book)
    requires Whole(b)
    ensures forall k :: Seen(ReloadStep(b), k) == Seen(b, k)
  {
    forall k ensures Seen(ReloadStep(b), k) == Seen(b, k) { ReloadFinds(b, k); }
  }

  lemma SameSeen(b: Book, c: Book)
    requires PendingBlank(b) && forall k :: Seen(c, k) == Seen(b, k)
    ensures PendingBlank(c)
  {}

  lemma StepSeen(h: Hashes, me: Identity, b: Book, e: Event, x: PeerId)
    requires Whole(b) && PendingBlank(b)
    ensures SeenMoves(h, me, b, e, x)
  {
    match e
    case Offer(_, _, _) => OfferSeen(h, me, b, e, x);
    case Accept(_, _, _) => AcceptSeen(h, me, b, e, x);
    case Finish(_) => FinishSeen(h, me, b, e, x);
    case Write(_, _, _, _) => MessageSeen(h, me, b, e, x);
    case Read(_, _) => MessageSeen(h, me, b, e, x);
    case Reload => ReloadSeen(h, me, b, x);
  }

  /** So the results below hold from every book a run reaches. */
  lemma {:induction false} PendingBlankAt(h: Hashes, me: Identity, es: seq<Event>, n: nat)
    requires n <= |es|
    ensures PendingBlank(At(h, me, es, n))
  {
    if n > 0 {
      PendingBlankAt(h, me, es, n - 1);
      StepSeen(h, me, At(h, me, es, n - 1), es[n - 1], me.id);
    }
  }

  /** What a step means for one offer id from one peer. */
  datatype Mark = Taken | Finished | Other

  function MarkOf(h: Hashes, me: Identity, b: Book, e: Event, x: PeerId, id: Bytes): Mark {
    if Accepts(h, me, b, e, x) && e.offer.offerId == id then Taken else if Finishes(h, me, b, e, x) then Finished else Other
  }

  /** Where a run leads from any book, and what its steps mean. */
  function Final(h: Hashes, me: Identity, b: Book, es: seq<Event>): (r: Book)
    requires Whole(b)
    ensures Whole(r)
    decreases |es|
  {
    if es == [] then b else Final(h, me, Next(h, me, b, es[0]), es[1..])
  }

  function Marks(h: Hashes, me: Identity, b: Book, es: seq<Event>, x: PeerId, id: Bytes): seq<Mark>
    requires Whole(b)
    decreases |es|
  {
    if es == [] then [] else [MarkOf(h, me, b, es[0], x, id)] + Marks(h, me, Next(h, me, b, es[0]), es[1..], x, id)
  }

  /** An acceptance stands: no finish came after the last one. */
  predicate Stands(t: seq<Mark>) {
    t != [] && (t[|t| - 1] == Taken || (t[|t| - 1] == Other && Stands(t[..|t| - 1])))
  }

  lemma {:induction false} StandsUnlessFinished(t: seq<Mark>)
    requires Finished !in t
    ensures Stands([Taken] + t)
  {
    var s := [Taken] + t;
    if t != [] {
      StandsUnlessFinished(t[..|t| - 1]);
      assert s[..|t|] == [Taken] + t[..|t| - 1] && s[|t|] in t;
    }
  }

  /** The first two marks matter only for what they leave to the rest. */
  lemma {:induction false} FoldMarks(a: Mark, m: Mark, c: Mark, rest: seq<Mark>)
    requires c == Taken <==> m == Taken || (m == Other && a == Taken)
    requires a != Finished && c != Finished
    ensures Stands([a] + ([m] + rest)) <==> Stands([c] + rest)
  {
    var s, t := [a] + ([m] + rest), [c] + rest;
    if rest == [] {
      assert s == [a, m] && t == [c];
      assert s[..1] == [a] && [a][..0] == [] && [c][..0] == [];
    } else {
      var n := |rest| - 1;
      FoldMarks(a, m, c, rest[..n]);
      assert s[..|s| - 1] == [a] + ([m] + rest[..n]) && t[..|t| - 1] == [c] + rest[..n];
      assert s[|s| - 1] == rest[n] == t[|t| - 1];
    }
  }

  function Start(b: Book, x: PeerId, id: Bytes): Mark { if id in Seen(b, Active(x)) then Taken else Other }

  lemma StartStep(h: Hashes, me: Identity, b: Book, e: Event, x: PeerId, id: Bytes)
    requires Whole(b) && PendingBlank(b)
    ensures var m, c := MarkOf(h, me, b, e, x, id), Next(h, me, b, e);
      PendingBlank(c) && (Start(c, x, id) == Taken <==> m == Taken || (m == Other && Start(b, x, id) == Taken))
  {
    StepSeen(h, me, b, e, x);
  }

  /** After any run, the ids remembered for a peer are exactly those accepted since its last
      finish, those remembered at the start counting as accepted before it. */
  lemma {:induction false} SeenExactly(h: Hashes, me: Identity, b: Book, es: seq<Event>, x: PeerId, id: Bytes)
    requires Whole(b) && PendingBlank(b)
    ensures Start(Final(h, me, b, es), x, id) == Taken <==> Stands([Start(b, x, id)] + Marks(h, me, b, es, x, id))
    decreases |es|
  {
    if es == [] {
      OneMark(Start(b, x, id));
      assert [Start(b, x, id)] + [] == [Start(b, x, id)];
    } else {
      StartStep(h, me, b, es[0], x, id);
      SeenExactly(h, me, Next(h, me, b, es[0]), es[1..], x, id);
      SeenFold(h, me, b, es[0], es[1..], x, id);
      assert es == [es[0]] + es[1..];
    }
  }

  lemma OneMark(m: Mark)
    ensures Stands([m]) <==> m == Taken
  {
    assert [m][..0] == [];
  }

  lemma SeenFold(h: Hashes, me: Identity, b: Book, e: Event, rest: seq<Event>, x: PeerId, id: Bytes)
    requires Whole(b) && PendingBlank(b)
    ensures var c := Next(h, me, b, e);
      Stands([Start(b, x, id)] + Marks(h, me, b, [e] + rest, x, id)) <==> Stands([Start(c, x, id)] + Marks(h, me, c, rest, x, id))
  {
    StartStep(h, me, b, e, x, id);
    var m, c := MarkOf(h, me, b, e, x, id), Next(h, me, b, e);
    var later := Marks(h, me, c, rest, x, id);
    FoldMarks(Start(b, x, id), m, Start(c, x, id), later);
    MarksFirst(h, me, b, e, rest, x, id);
  }

  lemma MarksFirst(h: Hashes, me: Identity, b: Book, e: Event, rest: seq<Event>, x: PeerId, id: Bytes)
    requires Whole(b)
    ensures Marks(h, me, b, [e] + rest, x, id) == [MarkOf(h, me, b, e, x, id)] + Marks(h, me, Next(h, me, b, e), rest, x, id)
  {
    var es := [e] + rest;
    assert es[0] == e && es[1..] == rest;
  }

  /** Once accepted, the same offer is accepted again after any further run exactly when a
      finish for its sender came after every acceptance of its id; stray answers are not
      excluded. The marks begin with the first acceptance. */
  lemma OfferAcceptedAgainIff(h: Hashes, me: Identity, b: Book, first: Event, es: seq<Event>, again: Event, x: PeerId)
    requires Whole(b) && PendingBlank(b) && Accepts(h, me, b, first, x) && again.Accept? && again.offer == first.offer
    ensures var c := Next(h, me, b, first);
      Accepts(h, me, Final(h, me, c, es), again, x) <==> !Stands([Taken] + Marks(h, me, c, es, x, first.offer.offerId))
  {
    var c, id := Next(h, me, b, first), first.offer.offerId;
    StartStep(h, me, b, first, x, id);
    SeenExactly(h, me, c, es, x, id);
    AcceptDependsOnSeen(h, me, first.draw, first.coins, Find(b, Active(x)), again.draw, again.coins,
                        Find(Final(h, me, c, es), Active(x)), first.offer);
  }

  /** With no finish for a sender in between, no offer id from it is accepted twice, even in
      two different offers. */
  lemma NoOfferAcceptedTwice(h: Hashes, me: Identity, b: Book, first: Event, es: seq<Event>, again: Event, x: PeerId)
    requires Whole(b) && PendingBlank(b) && Accepts(h, me, b, first, x)
    requires Accepts(h, me, Final(h, me, Next(h, me, b, first), es), again, x) && again.offer.offerId == first.offer.offerId
    ensures Finished in Marks(h, me, Next(h, me, b, first), es, x, first.offer.offerId)
  {
    var c, id := Next(h, me, b, first), first.offer.offerId;
    StartStep(h, me, b, first, x, id);
    SeenExactly(h, me, c, es, x, id);
    AcceptAddsSeen(h, me, again.draw, again.coins, Find(Final(h, me, c, es), Active(x)), again.offer);
    var t := Marks(h, me, c, es, x, id);
    if Finished !in t { StandsUnlessFinished(t); }
  }

  // ---- where the conditions fail ----

  /** The answer of an honest run. */
  function AnswerOf(h: Hashes, r: Honest): Answer
    requires HonestRun(h, r)
  {
    HonestRunSucceeds(h, r);
    AcceptOffer(h, r.b, r.db, r.coins, r.known, CreateOffer(h, r.a, r.da, r.b.id, r.offerId).value.1).value.2
  }

  /** An answer is not tied to the offer it answers: it completes any offer of the same peer. */
  lemma AnswerFitsAnyOffer(h: Hashes, r: Honest, d: Draw)
    requires HonestRun(h, r)
    ensures AnswerOf(h, r).senderId == r.b.id && FinishHandshake(h, r.a, NewPeer(r.a, d), AnswerOf(h, r)).Success?
  {
    HonestRunSucceeds(h, r);
  }

  /** But it agrees with the answering peer only on the offer it answers: on an offer with
      another Kyber key it leaves a session whose every key differs from the peer's. */
  lemma StaleAnswerDisagrees(h: Hashes, r: Honest, d: Draw)
    requires HonestRun(h, r) && d.kyber != r.da.kyber
    ensures var done := FinishHandshake(h, r.a, NewPeer(r.a, d), AnswerOf(h, r));
      && done.Success?
      && var s, t := done.value.1.session, SessionOf(h, r, r.b, r.db, r.a, r.da.dh);
      {s.sendCk, s.recvCk, s.rootKey, s.hmacKey, s.fileKey} !! {t.sendCk, t.recvCk, t.rootKey, t.hmacKey, t.fileKey}
  {
    AnswerFitsAnyOffer(h, r, d);
    HonestRunSucceeds(h, r);
  }

  /** The step after an offer to `x` when the answer is taken by that offer. */
  lemma OfferThenAnswer(h: Hashes, me: Identity, b: Book, x: PeerId, d: Draw, offerId: Bytes, a: Answer)
    requires Whole(b) && !x.BadName? && FinishHandshake(h, me, NewPeer(me, d), a).Success?
    requires a.senderId == x || PendingFor(a.senderId) !in b.slots
    ensures var c := Next(h, me, b, Event.Offer(x, d, offerId));
      var k := TakenSlot(c, a.senderId);
      && k in c.slots && c.slots[k] == c.slots[PendingFor(x)] == c.slots[Pending] && Find(c, PendingFor(x)) == Some(NewPeer(me, d))
      && Finishing(h, me, c, a) == Some(FinishHandshake(h, me, NewPeer(me, d), a).value.1)
      && Next(h, me, c, Finish(a)).slots == (c.slots - {Pending, PendingFor(a.senderId)})[Active(a.senderId) := c.slots[k]]
      && Find(Next(h, me, c, Finish(a)), Active(a.senderId)) == Finishing(h, me, c, a)
  {
    Offered(b, PendingFor(x), NewPeer(me, d));
  }

  /** Once a stray answer has left one object under x's session and y's offer, the answer from
      y rekeys x's session in place: both names lead to the session with y. */
  lemma StrayRekeys(h: Hashes, me: Identity, b: Book, x: PeerId, a: Answer)
    requires Whole(b) && x != a.senderId && Active(x) in b.slots && PendingFor(a.senderId) in b.slots
    requires b.slots[Active(x)] == b.slots[PendingFor(a.senderId)] && Finishing(h, me, b, a).Some?
    ensures var c := Next(h, me, b, Finish(a));
      && Active(x) in c.slots && c.slots[Active(x)] == c.slots[Active(a.senderId)]
      && Find(c, Active(x)) == Find(c, Active(a.senderId)) == Finishing(h, me, b, a)
  {}

  /** A reachable stray: the answer of `x` arrives a second time while an offer to `y` is out.
      It leaves one object under x's session and y's offer, and the honest answer of `y` then
      makes x's session the one with `y`. */
  lemma RepeatedAnswerStrays(h: Hashes, rx: Honest, ry: Honest)
    requires HonestRun(h, rx) && HonestRun(h, ry) && rx.a == ry.a && rx.b.id != ry.b.id
    ensures var me, x, y, ax := rx.a, rx.b.id, ry.b.id, AnswerOf(h, rx);
      var b1 := Next(h, me, Empty(me), Event.Offer(x, rx.da, rx.offerId));
      var b2 := Next(h, me, b1, Finish(ax));
      var b3 := Next(h, me, b2, Event.Offer(y, ry.da, ry.offerId));
      var b4 := Next(h, me, b3, Finish(ax));
      var b5 := Next(h, me, b4, Finish(AnswerOf(h, ry)));
      && Stray(h, me, b3, Finish(ax)) && Active(x) in b4.slots && PendingFor(y) in b4.slots
      && b4.slots[Active(x)] == b4.slots[PendingFor(y)] && !Separate(b4)
      && Find(b5, Active(x)).Some? && Find(b5, Active(x)) == Find(b5, Active(y))
  {
    var me, x, y, ax := rx.a, rx.b.id, ry.b.id, AnswerOf(h, rx);
    AnswerFitsAnyOffer(h, rx, rx.da);
    OfferThenAnswer(h, me, Empty(me), x, rx.da, rx.offerId, ax);
    var b2 := Next(h, me, Next(h, me, Empty(me), Event.Offer(x, rx.da, rx.offerId)), Finish(ax));
    StrayLands(h, b2, rx, ry);
    var b4 := Next(h, me, Next(h, me, b2, Event.Offer(y, ry.da, ry.offerId)), Finish(ax));
    SharedIsRekeyed(h, b4, x, ry);
  }

  /** One object stands under x's session and y's offer, keyed by the stray answer. */
  predicate SharedBy(b: Book, x: PeerId, y: PeerId, d: Draw) {
    && Active(x) in b.slots && PendingFor(y) in b.slots && b.slots[Active(x)] == b.slots[PendingFor(y)]
    && b.heap(b.slots[PendingFor(y)]).private == d.x && b.heap(b.slots[PendingFor(y)]).expectedPeer == None
  }

  lemma StrayLands(h: Hashes, b: Book, rx: Honest, ry: Honest)
    requires Whole(b) && HonestRun(h, rx) && HonestRun(h, ry) && rx.a == ry.a && rx.b.id != ry.b.id
    requires PendingFor(rx.b.id) !in b.slots
    ensures var b3 := Next(h, rx.a, b, Event.Offer(ry.b.id, ry.da, ry.offerId));
      Stray(h, rx.a, b3, Finish(AnswerOf(h, rx))) && SharedBy(Next(h, rx.a, b3, Finish(AnswerOf(h, rx))), rx.b.id, ry.b.id, ry.da)
  {
    AnswerFitsAnyOffer(h, rx, ry.da);
    OfferThenAnswer(h, rx.a, b, ry.b.id, ry.da, ry.offerId, AnswerOf(h, rx));
  }

  lemma SharedIsRekeyed(h: Hashes, b: Book, x: PeerId, r: Honest)
    requires Whole(b) && HonestRun(h, r) && x != r.b.id && SharedBy(b, x, r.b.id, r.da)
    ensures !Separate(b)
    ensures var c := Next(h, r.a, b, Finish(AnswerOf(h, r)));
      Find(c, Active(x)).Some? && Find(c, Active(x)) == Find(c, Active(r.b.id))
  {
    assert !Apart(b, Active(x), PendingFor(r.b.id));
    RekeyedTwice(h, r, b.heap(b.slots[PendingFor(r.b.id)]));
    StrayRekeys(h, r.a, b, x, AnswerOf(h, r));
  }

  /** A peer that a stray answer has keyed already still takes the answer meant for it. */
  lemma RekeyedTwice(h: Hashes, r: Honest, p: Peer)
    requires HonestRun(h, r) && p.private == r.da.x && p.expectedPeer == None
    ensures AnswerOf(h, r).senderId == r.b.id && FinishHandshake(h, r.a, p, AnswerOf(h, r)).Success?
  {
    HonestRunSucceeds(h, r);
  }

  /** A reachable second acceptance: `x` offers, we accept; we offer, `x` answers, we finish;
      and the first offer is accepted again. */
  lemma OfferAcceptedAgain(h: Hashes, r: Honest, q: Honest, d: Draw, coins: nat)
    requires HonestRun(h, r) && HonestRun(h, q) && q.a == r.b && q.b == r.a
    ensures var me, x, o := r.b, r.a.id, CreateOffer(h, r.a, r.da, r.b.id, r.offerId);
      && o.Success?
      && var b1 := Next(h, me, Empty(me), Accept(o.value.1, r.db, r.coins));
      var b2 := Next(h, me, b1, Event.Offer(x, q.da, q.offerId));
      var b3 := Next(h, me, b2, Finish(AnswerOf(h, q)));
      && Accepts(h, me, Empty(me), Accept(o.value.1, r.db, r.coins), x)
      && Finishes(h, me, b2, Finish(AnswerOf(h, q)), x)
      && Accepts(h, me, b3, Accept(o.value.1, d, coins), x)
  {
    var me, x, o := r.b, r.a.id, CreateOffer(h, r.a, r.da, r.b.id, r.offerId).value.1;
    HonestRunSucceeds(h, r.(known := map[]));
    assert AcceptOffer(h, me, r.db, r.coins, map[], o).Success?;
    var b1 := Next(h, me, Empty(me), Accept(o, r.db, r.coins));
    AnswerFitsAnyOffer(h, q, q.da);
    OfferThenAnswer(h, me, b1, x, q.da, q.offerId, AnswerOf(h, q));
    var b3 := Next(h, me, Next(h, me, b1, Event.Offer(x, q.da, q.offerId)), Finish(AnswerOf(h, q)));
    FinishKeepsSeen(h, me, NewPeer(me, q.da), AnswerOf(h, q));
    AcceptDependsOnSeen(h, me, r.db, r.coins, None, d, coins, Find(b3, Active(x)), o);
  }
}
