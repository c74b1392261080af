/** What an attacker can work out. Derivation is the only way from one key to another: a term
    made by HKDF needs its input key and its salt, a hybrid secret both of its halves. */
module Secrecy {
  import opened Terms
  import opened Ratchet
  import opened OneUse
  import opened KeySeparation
  import Handshakes

  /** Who holds the terms `held`, and the agreed secrets `base` says are known, can derive `t`. */
  predicate Derives(held: set<Term>, base: Term -> bool, t: Term) {
    || t in held
    || match t
       case Expand(ikm, salt, _, _) => Derives(held, base, ikm) && Derives(held, base, salt)
       case Hybrid(ecc, kem) => Derives(held, base, ecc) && Derives(held, base, kem)
       case Nil => true
       case Transcript(_) => true
       case _ => base(t)
  }

  /** Everything a session holds, the cached message keys included. */
  function Held(s: Session): set<Term> {
    {s.sendCk, s.recvCk, s.rootKey, s.hmacKey, s.fileKey} + s.skipped.Values
  }

  // ---- the spine of a key ----

  /** `x` lies on the spine of `t`: the line of roots and chain keys down to the handshake. */
  predicate OnSpine(x: Term, t: Term) {
    || x == t
    || match t
       case Expand(ikm, salt, info, _) => if info == RatchetRoot then OnSpine(x, salt) else OnSpine(x, ikm)
       case _ => false
  }

  lemma {:induction false} SpineTransitive(x: Term, y: Term, t: Term)
    requires OnSpine(x, y) && OnSpine(y, t)
    ensures OnSpine(x, t)
  {
    if y != t { SpineTransitive(x, y, if t.info == RatchetRoot then t.salt else t.ikm); }
  }

  /** A root key: ratchet roots on top of each other, on top of the handshake's hybrid secret. */
  predicate RootLike(t: Term) {
    match t
    case Expand(ikm, salt, RatchetRoot, _) => RootLike(salt)
    case Expand(ikm, _, InitialRoot, _) => ikm.Hybrid?
    case _ => false
  }

  /** The hybrid secret at the foot of a root key. */
  function Seed(t: Term): Term
    requires RootLike(t)
  {
    match t
    case Expand(ikm, salt, RatchetRoot, _) => Seed(salt)
    case Expand(ikm, _, _, _) => ikm
  }

  lemma {:induction false} RootSpine(x: Term, t: Term)
    requires RootLike(t) && OnSpine(x, t)
    ensures Depth(x) <= Depth(t) && !(x.Expand? && x.info == RatchetStep)
    ensures RootLike(x) ==> Seed(x) == Seed(t)
  {
    if x != t && t.info == RatchetRoot { RootSpine(x, t.salt); }
  }

  /** Along a chain: what lies on its spine is on the chain itself, or under its origin. */
  lemma {:induction false} ChainSpine(x: Term, t: Term)
    requires Origin(t).Expand? && Origin(t).info == RatchetRoot && OnSpine(x, t)
    ensures OnSpine(x, Origin(t).salt) || (Origin(x) == Origin(t) && Index(x) <= Index(t) && (Index(x) == Index(t) ==> x == t))
  {
    if x != t && t.info == RatchetStep { ChainSpine(x, t.ikm); }
  }

  /** A root or chain key can be derived only by one who holds something on its spine, or can
      derive the hybrid secret of the handshake. */
  lemma {:induction false} SpineIsCut(held: set<Term>, base: Term -> bool, t: Term)
    requires RootLike(t) && Derives(held, base, t) && !Derives(held, base, Seed(t))
    ensures exists x :: x in held && OnSpine(x, t)
  {
    if t in held {
      assert OnSpine(t, t);
    } else if t.info == RatchetRoot {
      SpineIsCut(held, base, t.salt);
      var x :| x in held && OnSpine(x, t.salt);
      assert OnSpine(x, t);
    }
  }

  lemma {:induction false} ChainIsCut(held: set<Term>, base: Term -> bool, t: Term)
    requires Origin(t).Expand? && Origin(t).info == RatchetRoot && RootLike(Origin(t).salt)
    requires Derives(held, base, t) && !Derives(held, base, Seed(Origin(t).salt))
    ensures exists x :: x in held && OnSpine(x, t)
  {
    if t in held {
      assert OnSpine(t, t);
    } else if t.info == RatchetStep {
      ChainIsCut(held, base, t.ikm);
      var x :| x in held && OnSpine(x, t.ikm);
      assert OnSpine(x, t);
    } else {
      SpineIsCut(held, base, t.salt);
      var x :| x in held && OnSpine(x, t.salt);
      assert OnSpine(x, t);
    }
  }

  // ---- the tree of keys ----

  /** A chain begins beside the line of roots: cut from a root on it, and not on it itself. */
  predicate Beside(o: Term, s: Session) {
    && o.Expand? && o.info == RatchetRoot && RootLike(o.salt) && OnSpine(o.salt, s.rootKey) && !OnSpine(o, s.rootKey)
    && Depth(o) <= Depth(s.rootKey) && o != s.hmacKey && o != s.fileKey
  }

  predicate Twig(t: Term, s: Session) { Beside(Origin(t), s) }

  predicate Side(x: Term, s: Session) {
    && x.Expand? && x.info == RatchetRoot && !OnSpine(x, s.rootKey) && Depth(x) <= Depth(s.rootKey)
    && RootLike(x) && RootLike(s.rootKey) && Seed(x) == Seed(s.rootKey)
  }

  /** The session's keys, the cached ones and those used so far form a tree over one handshake. */
  ghost predicate Tree(s: Session, used: set<Term>) {
    && RootLike(s.rootKey) && Twig(s.sendCk, s) && Twig(s.recvCk, s)
    && Side(s.hmacKey, s) && Side(s.fileKey, s)
    && (forall k <- used :: Twig(k, s)) && (forall x <- s.skipped :: Twig(s.skipped[x], s))
  }

  /** A turn of the root ratchet grows the tree. */
  lemma RootGrows(s: Session, t: Session, dh: Term)
    requires RootLike(s.rootKey) && t.rootKey == RootBlock(dh, s.rootKey, 1) && t.hmacKey == s.hmacKey && t.fileKey == s.fileKey
    ensures forall o :: Beside(o, s) ==> Beside(o, t)
    ensures forall x :: Side(x, s) ==> Side(x, t)
    ensures Side(s.hmacKey, s) && Side(s.fileKey, s) ==> Beside(RootBlock(dh, s.rootKey, 2), t)
    ensures RootLike(t.rootKey)
  {
    var o := RootBlock(dh, s.rootKey, 2);
    if OnSpine(o, s.rootKey) { RootSpine(o, s.rootKey); }
    assert OnSpine(s.rootKey, s.rootKey);
  }

  lemma SendGrows(s: Session, drawn: nat, used: set<Term>)
    requires Tree(s, used)
    ensures Tree(SendRatchet(s, drawn), used)
    ensures var t := SendRatchet(s, drawn); Tree(AdvanceSend(t), used + {MessageKey(t.sendCk)})
  {
    var t := SendRatchet(s, drawn);
    if s.pendingDhRatchet {
      RootGrows(s, t, DhSecret(drawn, RemoteBytes(s)));
      assert Origin(t.sendCk) == t.sendCk;
    }
    assert Tree(t, used);
    assert Origin(MessageKey(t.sendCk)) == Origin(t.sendCk) == Origin(NextChain(t.sendCk));
  }

  lemma TurnGrows(s: Session, key: Point, used: set<Term>)
    requires Tree(s, used)
    ensures Tree(Turned(s, key), used)
  {
    if s.remoteDhPublic != Some(key) {
      var t := DhRatchet(s, key);
      RootGrows(s, t, DhSecret(s.dhPrivate, key));
      assert Origin(t.recvCk) == t.recvCk;
    }
  }

  lemma {:induction false} StashGrows(s: Session, n: int, used: set<Term>)
    requires Tree(s, used)
    ensures Tree(StashUntil(s, n), used)
    decreases n - s.recvNonce
  {
    if s.recvNonce < n {
      assert Origin(MessageKey(s.recvCk)) == Origin(s.recvCk) == Origin(NextChain(s.recvCk));
      assert Tree(StashOne(s), used);
      StashGrows(StashOne(s), n, used);
    }
  }

  lemma OpenGrows(s: Session, used: set<Term>)
    requires Tree(s, used)
    ensures Tree(AdvanceRecv(s), used + {MessageKey(s.recvCk)})
  {
    assert Origin(MessageKey(s.recvCk)) == Origin(s.recvCk) == Origin(NextChain(s.recvCk));
  }

  lemma CachedGrows(s: Session, x: Slot, used: set<Term>)
    requires Tree(s, used) && x in s.skipped
    ensures Tree(s.(skipped := s.skipped - {x}), used + {s.skipped[x]})
  {}

  lemma ReceiveGrows(s: Session, f: Frame, used: set<Term>)
    requires Tree(s, used)
    ensures Tree(Decrypt(s, f).0, used + Entry(TriedKey(s, f)))
  {
    var x := Slot(f.ratchetKey, f.nonce);
    if f.nonce >= MAX_WIRE_NONCE || !Authentic(s.hmacKey, f) {
      assert used + Entry(TriedKey(s, f)) == used;
    } else if x in s.skipped {
      CachedGrows(s, x, used);
    } else {
      var t := Turned(s, f.ratchetKey);
      TurnGrows(s, f.ratchetKey, used);
      if f.nonce < t.recvNonce {
        assert used + Entry(TriedKey(s, f)) == used;
      } else {
        StashGrows(t, f.nonce, used);
        OpenGrows(StashUntil(t, f.nonce), used);
      }
    }
  }

  lemma StepGrows(s: Session, e: Event, used: set<Term>)
    requires Tree(s, used)
    ensures Tree(Step(s, e), used + Used(s, e))
  {
    match e
    case Send(_, _, drawn) =>
      SendGrows(s, drawn, used);
      assert Used(s, e) == {MessageKey(SendRatchet(s, drawn).sendCk)};
    case Receive(f) =>
      ReceiveGrows(s, f, used);
      assert Used(s, e) == Entry(TriedKey(s, f));
    case SkipTo(until) =>
      StashGrows(s, until, used);
      assert used + Used(s, e) == used;
    case Restarted =>
      assert used + Used(s, e) == used;
  }

  function UsedBefore(s: Session, es: seq<Event>, n: nat): set<Term>
    requires n <= |es|
  {
    if n == 0 then {} else UsedBefore(s, es, n - 1) + Used(StateAt(s, es, n - 1), es[n - 1])
  }

  lemma {:induction false} TreeAt(s: Session, es: seq<Event>, n: nat)
    requires Tree(s, {}) && n <= |es|
    ensures Tree(StateAt(s, es, n), UsedBefore(s, es, n))
  {
    if n > 0 {
      TreeAt(s, es, n - 1);
      StepGrows(StateAt(s, es, n - 1), es[n - 1], UsedBefore(s, es, n - 1));
    }
  }

  // ---- forward secrecy ----

  /** What holds of a session and the keys used before it. */
  ghost predicate Sound(s: Session, sealed: set<Term>, tried: set<Term>) {
    Inv(s, sealed, tried) && Separated(s) && Tree(s, sealed + tried) && forall k <- sealed + tried :: Leaf(k)
  }

  lemma OffTheRoots(t: Term, s: Session)
    requires RootLike(s.rootKey) && Twig(t, s)
    ensures !OnSpine(t, s.rootKey)
  {
    if OnSpine(t, s.rootKey) { RootSpine(t, s.rootKey); }
  }

  /** Anything that is off the line of roots lies on the spine of a key only if it is on that
      key's own chain. */
  lemma OwnChainOnly(x: Term, k: Term, s: Session)
    requires RootLike(s.rootKey) && Twig(k, s) && !OnSpine(x, s.rootKey) && OnSpine(x, k)
    ensures Origin(x) == Origin(k) && Index(x) <= Index(k) && (Index(x) == Index(k) ==> x == k)
  {
    ChainSpine(x, k);
    if OnSpine(x, Origin(k).salt) { SpineTransitive(x, Origin(k).salt, s.rootKey); }
  }

  /** The chain key a used key came from has moved past it. */
  lemma ChainMovedPast(ck: Term, k: Term, s: Session)
    requires RootLike(s.rootKey) && Twig(ck, s) && Twig(k, s) && Clean(ck) && Leaf(k)
    requires Below(k, ck) || Origin(k) != Origin(ck)
    ensures !OnSpine(ck, k)
  {
    OffTheRoots(ck, s);
    if OnSpine(ck, k) {
      OwnChainOnly(ck, k, s);
      DepthOfOrigin(ck);
      DepthOfOrigin(k);
    }
  }

  lemma RootMovedPast(k: Term, s: Session)
    requires RootLike(s.rootKey) && Twig(k, s)
    ensures !OnSpine(s.rootKey, k)
  {
    var root, o := s.rootKey, Origin(k);
    if OnSpine(root, k) {
      ChainSpine(root, k);
      if OnSpine(root, o.salt) { RootSpine(root, o.salt); }
    }
  }

  lemma SideIsOff(x: Term, k: Term, s: Session)
    requires RootLike(s.rootKey) && Twig(k, s) && Side(x, s) && (x == s.hmacKey || x == s.fileKey)
    ensures !OnSpine(x, k)
  {
    if OnSpine(x, k) { OwnChainOnly(x, k, s); }
  }

  /** A cached key is on the spine of another message key only if it is that key. */
  lemma CachedIsOff(x: Term, k: Term, s: Session)
    requires RootLike(s.rootKey) && Twig(x, s) && Twig(k, s) && Leaf(x) && Leaf(k) && x != k
    ensures !OnSpine(x, k)
  {
    OffTheRoots(x, s);
    if OnSpine(x, k) {
      OwnChainOnly(x, k.ikm, s);
      ChainIsClean(x, k.ikm);
    }
  }

  lemma {:induction false} ChainIsClean(x: Term, t: Term)
    requires Clean(t) && OnSpine(x, t)
    ensures Clean(x)
  {
    if x != t { ChainIsClean(x, if t.info == RatchetRoot then t.salt else t.ikm); }
  }

  /** Nothing a session holds lies on the spine of a key used before. */
  lemma NothingHeldBelow(s: Session, sealed: set<Term>, tried: set<Term>, k: Term, x: Term)
    requires Sound(s, sealed, tried) && k in sealed + tried && x in Held(s)
    ensures !OnSpine(x, k)
  {
    if x == s.rootKey { RootMovedPast(k, s); }
    else if x == s.hmacKey || x == s.fileKey { SideIsOff(x, k, s); }
    else if x == s.sendCk || x == s.recvCk { ChainMovedPast(x, k, s); }
    else {
      var c :| c in s.skipped && s.skipped[c] == x;
      CachedIsOff(x, k, s);
    }
  }

  /** The hybrid secret takes both of its halves. */
  lemma SeedIsSafe(held: set<Term>, base: Term -> bool, ecc: Term, kem: Term)
    requires ecc.Shared? && (kem.KemSecret? || kem.KemReject?) && !(base(ecc) && base(kem))
    requires forall x <- held :: x.Expand?
    ensures !Derives(held, base, Hybrid(ecc, kem))
  {}

  /** The attacker does not know both the X25519 and the Kyber secret of the handshake. */
  predicate SafeSeed(base: Term -> bool, t: Term) {
    t.Hybrid? && t.ecc.Shared? && (t.kem.KemSecret? || t.kem.KemReject?) && !(base(t.ecc) && base(t.kem))
  }

  /** A session as a handshake leaves it. */
  ghost predicate Begun(s: Session) { Established(s) && Separated(s) && Tree(s, {}) }

  lemma {:induction false} UsedIsSealedOrTried(s: Session, es: seq<Event>, n: nat)
    requires Separated(s) && n <= |es|
    ensures UsedBefore(s, es, n) == SealedBefore(s, es, n) + TriedBefore(s, es, n)
    ensures forall k <- UsedBefore(s, es, n) :: Leaf(k)
  {
    if n > 0 {
      UsedIsSealedOrTried(s, es, n - 1);
      SeparatedAt(s, es, n - 1);
      forall k | k in Used(StateAt(s, es, n - 1), es[n - 1]) ensures Leaf(k) { UsedAreLeaves(StateAt(s, es, n - 1), es[n - 1], k); }
    }
  }

  lemma SoundAt(s: Session, es: seq<Event>, n: nat)
    requires Begun(s) && n <= |es|
    ensures Sound(StateAt(s, es, n), SealedBefore(s, es, n), TriedBefore(s, es, n))
  {
    InvAt(s, es, n);
    SeparatedAt(s, es, n);
    TreeAt(s, es, n);
    UsedIsSealedOrTried(s, es, n);
  }

  lemma RootRises(s: Session, e: Event)
    ensures OnSpine(s.rootKey, Step(s, e).rootKey)
  {
    if e.Receive? { StashUntilEffect(Turned(s, e.frame.ratchetKey), e.frame.nonce); }
    if e.SkipTo? { StashUntilEffect(s, e.until); }
    assert OnSpine(s.rootKey, s.rootKey);
  }

  lemma {:induction false} RootsRise(s: Session, es: seq<Event>, i: nat, n: nat)
    requires i <= n <= |es|
    ensures OnSpine(StateAt(s, es, i).rootKey, StateAt(s, es, n).rootKey)
    decreases n
  {
    if i < n {
      RootsRise(s, es, i, n - 1);
      RootRises(StateAt(s, es, n - 1), es[n - 1]);
      SpineTransitive(StateAt(s, es, i).rootKey, StateAt(s, es, n - 1).rootKey, StateAt(s, es, n).rootKey);
    }
  }

  /** The handshake's secret stays at the foot of every root and every chain. */
  lemma SeedStays(s: Session, es: seq<Event>, n: nat)
    requires Begun(s) && n <= |es|
    ensures var now := StateAt(s, es, n); RootLike(now.rootKey) && Seed(now.rootKey) == Seed(s.rootKey)
  {
    TreeAt(s, es, n);
    RootsRise(s, es, 0, n);
    RootSpine(s.rootKey, StateAt(s, es, n).rootKey);
  }

  lemma TwigSeed(t: Term, s: Session)
    requires RootLike(s.rootKey) && Twig(t, s)
    ensures RootLike(Origin(t).salt) && Seed(Origin(t).salt) == Seed(s.rootKey) && t.Expand?
  {
    RootSpine(Origin(t).salt, s.rootKey);
  }

  lemma HeldIsExpanded(s: Session, used: set<Term>, x: Term)
    requires Tree(s, used) && x in Held(s)
    ensures x.Expand?
  {
    if x in s.skipped.Values {
      var c :| c in s.skipped && s.skipped[c] == x;
      TwigSeed(x, s);
    } else {
      TwigSeed(s.sendCk, s);
      TwigSeed(s.recvCk, s);
    }
  }

  /** Forward secrecy: in every run from a handshake, over any frames whatever, who takes all a
      session holds at some point cannot derive any key that was sealed under or tried before
      it, unless it knows both secrets of the handshake. */
  lemma ForwardSecrecy(s: Session, es: seq<Event>, i: nat, n: nat, base: Term -> bool, k: Term)
    requires Begun(s) && i < n <= |es| && k in Used(StateAt(s, es, i), es[i]) && SafeSeed(base, Seed(s.rootKey))
    ensures !Derives(Held(StateAt(s, es, n)), base, k)
  {
    var now, sealed, tried := StateAt(s, es, n), SealedBefore(s, es, n), TriedBefore(s, es, n);
    SoundAt(s, es, n);
    SeedStays(s, es, n);
    KeysRemembered(s, es, i, n);
    TwigSeed(k, now);
    forall x | x in Held(now) ensures x.Expand? && !OnSpine(x, k) {
      HeldIsExpanded(now, sealed + tried, x);
      NothingHeldBelow(now, sealed, tried, k, x);
    }
    SeedIsSafe(Held(now), base, Seed(s.rootKey).ecc, Seed(s.rootKey).kem);
    if Derives(Held(now), base, k) { ChainIsCut(Held(now), base, k); }
  }

  /** Both primitives must be broken: in every run, who knows every X25519 secret but not the
      Kyber secret of the handshake, or the reverse, derives nothing the session holds at any
      point and no key it uses. */
  lemma HybridSecrecy(s: Session, es: seq<Event>, n: nat, base: Term -> bool, t: Term)
    requires Begun(s) && n <= |es| && SafeSeed(base, Seed(s.rootKey))
    requires t in Held(StateAt(s, es, n)) || t in UsedBefore(s, es, n)
    ensures !Derives({}, base, t)
  {
    var now := StateAt(s, es, n);
    TreeAt(s, es, n);
    SeedStays(s, es, n);
    SeedIsSafe({}, base, Seed(s.rootKey).ecc, Seed(s.rootKey).kem);
    if t == now.rootKey || t == now.hmacKey || t == now.fileKey {
      if Derives({}, base, t) { SpineIsCut({}, base, t); }
    } else {
      assert Twig(t, now);
      TwigSeed(t, now);
      if Derives({}, base, t) { ChainIsCut({}, base, t); }
    }
  }

  // ---- healing ----

  /** The root and the chain that a send with an owed ratchet begins. */
  function NewRoot(s: Session, drawn: nat): Term { RootBlock(DhSecret(drawn, RemoteBytes(s)), s.rootKey, 1) }

  function NewSendChain(s: Session, drawn: nat): Term { RootBlock(DhSecret(drawn, RemoteBytes(s)), s.rootKey, 2) }

  /** A key that grew out of that turn. */
  predicate After(t: Term, root: Term, chain: Term) {
    Origin(t) == chain || (Origin(t).Expand? && OnSpine(root, Origin(t).salt))
  }

  lemma SendAfter(s: Session, e: Event, root: Term, chain: Term)
    requires e.Send? && OnSpine(root, s.rootKey) && After(s.sendCk, root, chain)
    ensures After(Step(s, e).sendCk, root, chain) && After(KeySealed(s, e).value, root, chain)
  {
    var t := SendRatchet(s, e.drawn);
    if s.pendingDhRatchet { assert Origin(t.sendCk) == t.sendCk; }
    assert Origin(MessageKey(t.sendCk)) == Origin(t.sendCk) == Origin(NextChain(t.sendCk));
  }

  lemma OthersKeepSend(s: Session, e: Event)
    requires !e.Send?
    ensures Step(s, e).sendCk == s.sendCk
  {
    if e.Receive? { StashUntilEffect(Turned(s, e.frame.ratchetKey), e.frame.nonce); }
    if e.SkipTo? { StashUntilEffect(s, e.until); }
  }

  lemma AfterStep(s: Session, e: Event, root: Term, chain: Term)
    requires OnSpine(root, s.rootKey) && After(s.sendCk, root, chain)
    ensures OnSpine(root, Step(s, e).rootKey) && After(Step(s, e).sendCk, root, chain)
  {
    RootRises(s, e);
    SpineTransitive(root, s.rootKey, Step(s, e).rootKey);
    if e.Send? { SendAfter(s, e, root, chain); } else { OthersKeepSend(s, e); }
  }

  lemma {:induction false} AfterAt(s: Session, es: seq<Event>, i: nat, n: nat)
    requires i < n <= |es| && es[i].Send? && StateAt(s, es, i).pendingDhRatchet
    ensures var t := StateAt(s, es, i);
      OnSpine(NewRoot(t, es[i].drawn), StateAt(s, es, n).rootKey) && After(StateAt(s, es, n).sendCk, NewRoot(t, es[i].drawn), NewSendChain(t, es[i].drawn))
    decreases n
  {
    var t, d := StateAt(s, es, i), es[i].drawn;
    if i < n - 1 {
      AfterAt(s, es, i, n - 1);
      AfterStep(StateAt(s, es, n - 1), es[n - 1], NewRoot(t, d), NewSendChain(t, d));
    } else {
      var u := SendRatchet(t, d);
      assert Origin(NextChain(u.sendCk)) == Origin(u.sendCk) == u.sendCk;
    }
  }

  /** Nothing held reaches above the root it was cut from. */
  lemma {:induction false} RootStaysSafe(held: set<Term>, base: Term -> bool, root: Term, t: Term)
    requires RootLike(t) && OnSpine(root, t) && RootLike(root) && (forall x <- held :: Depth(x) < Depth(root)) && !Derives(held, base, root)
    ensures !Derives(held, base, t)
  {
    RootSpine(root, t);
    if t != root && t.info == RatchetRoot { RootStaysSafe(held, base, root, t.salt); }
  }

  lemma {:induction false} ChainStaysSafe(held: set<Term>, base: Term -> bool, t: Term)
    requires (forall x <- held :: Depth(x) < Depth(t)) && !Derives(held, base, Origin(t))
    ensures !Derives(held, base, t)
  {
    if t.Expand? && t.info == RatchetStep { ChainStaysSafe(held, base, t.ikm); }
  }

  lemma {:induction false} HeldIsShallow(s: Session, used: set<Term>, x: Term)
    requires Tree(s, used) && x in Held(s)
    ensures x.Expand? && Depth(x) <= Depth(s.rootKey)
  {
    HeldIsExpanded(s, used, x);
    DepthOfOrigin(x);
    if x in s.skipped.Values { var c :| c in s.skipped && s.skipped[c] == x; }
  }

  lemma BlockIsSafe(held: set<Term>, base: Term -> bool, dh: Term, root: Term, n: nat)
    requires dh.Shared? && !base(dh) && forall x <- held :: x.Expand? && Depth(x) <= Depth(root)
    ensures !Derives(held, base, RootBlock(dh, root, n))
  {
    assert Depth(RootBlock(dh, root, n)) == Depth(root) + 1;
    assert !Derives(held, base, dh);
  }

  /** A key that grew out of the turn is safe from who held everything before it. */
  lemma SafeAfter(held: set<Term>, base: Term -> bool, s: Session, drawn: nat, k: Term)
    requires RootLike(s.rootKey) && After(k, NewRoot(s, drawn), NewSendChain(s, drawn))
    requires Origin(k).Expand? ==> Origin(k).info == RatchetRoot && RootLike(Origin(k).salt)
    requires (forall x <- held :: x.Expand? && Depth(x) <= Depth(s.rootKey)) && RemoteBytes(s).Point? && !base(DhSecret(drawn, RemoteBytes(s)))
    ensures !Derives(held, base, k)
  {
    var root, o := NewRoot(s, drawn), Origin(k);
    assert Depth(root) == Depth(s.rootKey) + 1 == Depth(NewSendChain(s, drawn));
    BlockIsSafe(held, base, DhSecret(drawn, RemoteBytes(s)), s.rootKey, 1);
    BlockIsSafe(held, base, DhSecret(drawn, RemoteBytes(s)), s.rootKey, 2);
    DepthOfOrigin(k);
    if o != NewSendChain(s, drawn) {
      RootSpine(root, o.salt);
      RootStaysSafe(held, base, root, o.salt);
    }
    ChainStaysSafe(held, base, k);
  }

  lemma SealedAfter(s: Session, es: seq<Event>, i: nat, j: nat)
    requires i <= j < |es| && es[i].Send? && es[j].Send? && StateAt(s, es, i).pendingDhRatchet
    ensures var t, d := StateAt(s, es, i), es[i].drawn;
      After(KeySealed(StateAt(s, es, j), es[j]).value, NewRoot(t, d), NewSendChain(t, d))
  {
    var t, d := StateAt(s, es, i), es[i].drawn;
    if i < j {
      AfterAt(s, es, i, j);
      SendAfter(StateAt(s, es, j), es[j], NewRoot(t, d), NewSendChain(t, d));
    } else {
      var r := SendRatchet(t, d);
      assert Origin(MessageKey(r.sendCk)) == Origin(r.sendCk) == r.sendCk;
    }
  }

  lemma SealedIsTwig(s: Session, es: seq<Event>, j: nat)
    requires Begun(s) && j < |es| && es[j].Send?
    ensures Twig(KeySealed(StateAt(s, es, j), es[j]).value, StateAt(s, es, j + 1))
  {
    TreeAt(s, es, j + 1);
    KeysRemembered(s, es, j, j + 1);
    UsedIsSealedOrTried(s, es, j + 1);
  }

  /** Healing: in every run, once a send turns the ratchet on a scalar drawn afresh, who took
      everything the session held before it derives no key sealed from then on, if the X25519
      secret of that turn is unknown to it; later turns need not be secret. */
  lemma Heals(s: Session, es: seq<Event>, i: nat, j: nat, base: Term -> bool)
    requires Begun(s) && i <= j < |es| && es[i].Send? && es[j].Send? && StateAt(s, es, i).pendingDhRatchet
    requires var t := StateAt(s, es, i); RemoteBytes(t).Point? && !base(DhSecret(es[i].drawn, RemoteBytes(t)))
    ensures !Derives(Held(StateAt(s, es, i)), base, KeySealed(StateAt(s, es, j), es[j]).value)
  {
    var t := StateAt(s, es, i);
    SealedAfter(s, es, i, j);
    SealedIsTwig(s, es, j);
    TreeAt(s, es, i);
    forall x | x in Held(t) ensures x.Expand? && Depth(x) <= Depth(t.rootKey) { HeldIsShallow(t, UsedBefore(s, es, i), x); }
    SafeAfter(Held(t), base, t, es[i].drawn, KeySealed(StateAt(s, es, j), es[j]).value);
  }

  /** The condition is exact: the very next key is derived if and only if that secret is known,
      or there is none because the remote key is no curve point. */
  lemma HealsIff(s: Session, es: seq<Event>, i: nat, base: Term -> bool)
    requires Begun(s) && i < |es| && es[i].Send? && StateAt(s, es, i).pendingDhRatchet
    ensures var t := StateAt(s, es, i);
      Derives(Held(t), base, KeySealed(t, es[i]).value) <==> RemoteBytes(t).Point? ==> base(DhSecret(es[i].drawn, RemoteBytes(t)))
  {
    var t, d := StateAt(s, es, i), es[i].drawn;
    if RemoteBytes(t).Point? && !base(DhSecret(d, RemoteBytes(t))) {
      Heals(s, es, i, i, base);
    } else {
      assert Derives(Held(t), base, t.rootKey) && Derives(Held(t), base, DhSecret(d, RemoteBytes(t)));
      assert Derives(Held(t), base, NewSendChain(t, d));
    }
  }

  lemma OwedStays(s: Session, e: Event)
    requires s.pendingDhRatchet && !e.Send? && !e.Restarted?
    ensures Step(s, e).pendingDhRatchet
  {
    if e.Receive? { StashUntilEffect(Turned(s, e.frame.ratchetKey), e.frame.nonce); }
    if e.SkipTo? { StashUntilEffect(s, e.until); }
  }

  /** A turn is owed once a frame under a new remote key has been taken up, until the next send
      makes it or a restart forgets it. */
  lemma {:induction false} TurnIsOwed(s: Session, es: seq<Event>, i: nat, j: nat)
    requires i < j <= |es| && es[i].Receive? && (forall k :: i < k < j ==> !es[k].Send? && !es[k].Restarted?)
    requires var t, f := StateAt(s, es, i), es[i].frame;
      TriedKey(t, f).Some? && Slot(f.ratchetKey, f.nonce) !in t.skipped && t.remoteDhPublic != Some(f.ratchetKey)
    ensures StateAt(s, es, j).pendingDhRatchet
    decreases j
  {
    if i < j - 1 {
      TurnIsOwed(s, es, i, j - 1);
      OwedStays(StateAt(s, es, j - 1), es[j - 1]);
    } else {
      StashUntilEffect(Turned(StateAt(s, es, i), es[i].frame.ratchetKey), es[i].frame.nonce);
    }
  }

  // ---- what a handshake leaves ----

  /** The blocks of one expansion stand beside each other on the handshake's secret. */
  lemma BlocksApart(dh: Term, initial: Term, m: nat, n: nat)
    requires initial.Expand? && initial.info == InitialRoot && initial.ikm.Hybrid? && m != n
    ensures !OnSpine(RootBlock(dh, initial, m), RootBlock(dh, initial, n)) && OnSpine(initial, RootBlock(dh, initial, n))
    ensures RootLike(initial) && RootLike(RootBlock(dh, initial, n)) && Seed(RootBlock(dh, initial, n)) == initial.ikm
    ensures Depth(RootBlock(dh, initial, n)) == 1 && Origin(RootBlock(dh, initial, n)) == RootBlock(dh, initial, n)
  {
    var x := RootBlock(dh, initial, m);
    assert !OnSpine(x, initial.ikm);
    assert !OnSpine(x, initial);
    assert OnSpine(initial, initial);
  }

  lemma KeyedBegins(s: Session, ecc: Term, kem: Term, transcript: Term, peerDh: Point, initiator: bool)
    requires s.skipped == map[] && ecc.Shared? && (kem.KemSecret? || kem.KemReject?) && transcript.Transcript?
    ensures var t := Handshakes.Keyed(s, Handshakes.InitialRootKey(ecc, kem, transcript), peerDh, initiator);
      Begun(t) && Seed(t.rootKey) == Hybrid(ecc, kem)
  {
    var initial := Handshakes.InitialRootKey(ecc, kem, transcript);
    var t := Handshakes.Keyed(s, initial, peerDh, initiator);
    KeyedIsSeparated(s, ecc, kem, transcript, peerDh, initiator);
    var dh := DhSecret(s.dhPrivate, peerDh);
    forall m: nat | m in [1, 2, 4, 5] ensures !OnSpine(RootBlock(dh, initial, m), t.rootKey) { BlocksApart(dh, initial, m, 3); }
    forall n: nat | n != 0 ensures RootLike(RootBlock(dh, initial, n)) && Origin(RootBlock(dh, initial, n)) == RootBlock(dh, initial, n)
      && Depth(RootBlock(dh, initial, n)) == 1 && Seed(RootBlock(dh, initial, n)) == Hybrid(ecc, kem)
    {
      BlocksApart(dh, initial, 0, n);
    }
    BlocksApart(dh, initial, 1, 3);
    assert Twig(t.sendCk, t) && Twig(t.recvCk, t) && Side(t.hmacKey, t) && Side(t.fileKey, t);
  }

  /** Every session from an accepted offer or a completed one begins such runs, with the two
      secrets agreed in that handshake at its foot. */
  lemma AcceptedBegins(h: Handshakes.Hashes, me: Handshakes.Identity, d: Handshakes.Draw, coins: nat,
                       known: map<Handshakes.PeerId, Handshakes.Peer>, o: Handshakes.Offer)
    requires Handshakes.AcceptOffer(h, me, d, coins, known, o).Success?
    ensures var s := Handshakes.AcceptOffer(h, me, d, coins, known, o).value.1.session;
      Begun(s) && Seed(s.rootKey) == Hybrid(DhSecret(d.x, o.pub), KemSecret(o.kyberPub.kyberSecret, coins))
  {
    var p := Handshakes.NewPeer(me, d);
    KeyedBegins(p.session, DhSecret(d.x, o.pub), KemSecret(o.kyberPub.kyberSecret, coins),
                Handshakes.GetTranscript(h, Handshakes.PublicsOf(p), (o.idPub, o.pub, o.dhPub, o.kyberPub)), o.dhPub,
                Handshakes.AmInitiator(h, Handshakes.Ed(me.edSecret), o.idPub));
  }

  lemma FinishedBegins(h: Handshakes.Hashes, me: Handshakes.Identity, d: Handshakes.Draw, a: Handshakes.Answer)
    requires Handshakes.FinishHandshake(h, me, Handshakes.NewPeer(me, d), a).Success?
    ensures var s := Handshakes.FinishHandshake(h, me, Handshakes.NewPeer(me, d), a).value.1.session;
      Begun(s) && Seed(s.rootKey) == Hybrid(DhSecret(d.x, a.pub), Handshakes.Decapsulate(d.kyber, a.kyberCiphertext).value)
  {
    var p := Handshakes.NewPeer(me, d);
    KeyedBegins(p.session, DhSecret(d.x, a.pub), Handshakes.Decapsulate(d.kyber, a.kyberCiphertext).value,
                Handshakes.GetTranscript(h, Handshakes.PublicsOf(p), (a.idPub, a.pub, a.dhPub, a.kyberPub)), a.dhPub,
                Handshakes.AmInitiator(h, Handshakes.Ed(me.edSecret), a.idPub));
  }
}
