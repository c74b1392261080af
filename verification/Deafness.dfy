/** What an untimely delivery does for good. It turns the receiver's ratchet on a key left
    behind, and every root and receive chain the receiver derives from then on descends from
    that turn. Nothing the other side ever derives does. */
module Deafness {
  import opened Terms
  import opened Ratchet
  import opened Duplex
  import OneUse

  /** `t` descends from the root derivation that mixes secret `d` into root `r`. */
  predicate Forked(t: Term, d: Term, r: Term) {
    match t
    case Expand(ikm, salt, RatchetRoot, _) => (ikm == d && salt == r) || Forked(salt, d, r)
    case Expand(ck, _, RatchetStep, _) => Forked(ck, d, r)
    case _ => false
  }

  lemma {:induction false} ForkedDepth(t: Term, d: Term, r: Term)
    requires Forked(t, d, r)
    ensures Depth(t) > Depth(r)
  {
    if t.info == RatchetRoot {
      if !(t.ikm == d && t.salt == r) { ForkedDepth(t.salt, d, r); }
    } else {
      ForkedDepth(t.ikm, d, r);
    }
  }

  lemma {:induction false} ChainForked(c: Term, n: nat, d: Term, r: Term)
    ensures Forked(ChainAt(c, n), d, r) <==> Forked(c, d, r)
    decreases n
  {
    if n > 0 { ChainForked(c, n - 1, d, r); }
  }

  // ---- the receiver ----

  /** The root and the receive chain are forked, and so is every cached key except those
      cached in `kept` already. */
  ghost predicate Astray(s: Session, kept: map<Slot, Term>, d: Term, r: Term) {
    && Forked(s.rootKey, d, r) && Forked(s.recvCk, d, r)
    && (forall x :: x in s.skipped ==> (x in kept && s.skipped[x] == kept[x]) || Forked(s.skipped[x], d, r))
  }

  lemma {:induction false} StashAstray(s: Session, n: int, kept: map<Slot, Term>, d: Term, r: Term)
    requires Astray(s, kept, d, r)
    ensures Astray(StashUntil(s, n), kept, d, r)
    decreases n - s.recvNonce
  {
    if s.recvNonce < n { StashAstray(StashOne(s), n, kept, d, r); }
  }

  lemma ReceiveAstray(s: Session, f: Frame, kept: map<Slot, Term>, d: Term, r: Term)
    requires Astray(s, kept, d, r)
    ensures Astray(Decrypt(s, f).0, kept, d, r)
  {
    StashAstray(Turned(s, f.ratchetKey), f.nonce, kept, d, r);
    AdvanceAstray(StashUntil(Turned(s, f.ratchetKey), f.nonce), kept, d, r);
    ForgetAstray(s, Slot(f.ratchetKey, f.nonce), kept, d, r);
  }

  lemma AdvanceAstray(s: Session, kept: map<Slot, Term>, d: Term, r: Term)
    requires Astray(s, kept, d, r)
    ensures Astray(AdvanceRecv(s), kept, d, r)
  {}

  lemma ForgetAstray(s: Session, x: Slot, kept: map<Slot, Term>, d: Term, r: Term)
    requires Astray(s, kept, d, r)
    ensures Astray(s.(skipped := s.skipped - {x}), kept, d, r)
  {}

  lemma StepAstray(s: Session, e: OneUse.Event, kept: map<Slot, Term>, d: Term, r: Term)
    requires Astray(s, kept, d, r)
    ensures Astray(OneUse.Step(s, e), kept, d, r)
  {
    match e
    case Send(_, _, _) =>
    case Receive(f) => ReceiveAstray(s, f, kept, d, r);
    case SkipTo(until) => StashAstray(s, until, kept, d, r);
    case Restarted =>
  }

  lemma {:induction false} AstrayAt(s: Session, es: seq<OneUse.Event>, n: nat, kept: map<Slot, Term>, d: Term, r: Term)
    requires Astray(s, kept, d, r) && n <= |es|
    ensures Astray(OneUse.StateAt(s, es, n), kept, d, r)
  {
    if n > 0 {
      AstrayAt(s, es, n - 1, kept, d, r);
      StepAstray(OneUse.StateAt(s, es, n - 1), es[n - 1], kept, d, r);
    }
  }

  /** A frame sealed under a key that is not forked opens only from the cache kept before. */
  lemma AstrayCannotOpen(s: Session, f: Frame, kept: map<Slot, Term>, d: Term, r: Term)
    requires Astray(s, kept, d, r) && Slot(f.ratchetKey, f.nonce) !in kept
    requires f.cipher.Seal? && !Forked(f.cipher.key, d, r)
    ensures Decrypt(s, f).1.Err?
  {
    StashAstray(Turned(s, f.ratchetKey), f.nonce, kept, d, r);
  }

  // ---- the other side ----

  /** Nothing the session holds or will derive is forked: its scalar is neither of the two
      behind the secret, and neither is any it draws. */
  predicate Clear(s: Session, a: nat, b: nat, r: Term) {
    var d := DhSecret(a, Point(b));
    !Forked(s.rootKey, d, r) && !Forked(s.sendCk, d, r) && s.dhPrivate != a && s.dhPrivate != b
  }

  predicate Draws(e: OneUse.Event, a: nat, b: nat) { e.Send? ==> e.drawn != a && e.drawn != b }

  lemma OtherSecret(x: nat, pub: Point, a: nat, b: nat)
    requires x != a && x != b
    ensures DhSecret(x, pub) != DhSecret(a, Point(b))
  {}

  lemma StepClear(s: Session, e: OneUse.Event, a: nat, b: nat, r: Term)
    requires Clear(s, a, b, r) && Draws(e, a, b)
    ensures Clear(OneUse.Step(s, e), a, b, r)
  {
    match e
    case Send(_, _, drawn) => SendClear(s, drawn, a, b, r);
    case Receive(f) =>
      OtherSecret(s.dhPrivate, f.ratchetKey, a, b);
      StashUntilEffect(Turned(s, f.ratchetKey), f.nonce);
    case SkipTo(until) => StashUntilEffect(s, until);
    case Restarted =>
  }

  lemma SendClear(s: Session, drawn: nat, a: nat, b: nat, r: Term)
    requires Clear(s, a, b, r) && drawn != a && drawn != b
    ensures Clear(SendRatchet(s, drawn), a, b, r) && Clear(AdvanceSend(SendRatchet(s, drawn)), a, b, r)
  {
    OtherSecret(drawn, RemoteBytes(s), a, b);
  }

  lemma {:induction false} ClearAt(s: Session, es: seq<OneUse.Event>, n: nat, a: nat, b: nat, r: Term)
    requires Clear(s, a, b, r) && n <= |es| && forall i :: 0 <= i < |es| ==> Draws(es[i], a, b)
    ensures Clear(OneUse.StateAt(s, es, n), a, b, r)
  {
    if n > 0 {
      ClearAt(s, es, n - 1, a, b, r);
      StepClear(OneUse.StateAt(s, es, n - 1), es[n - 1], a, b, r);
    }
  }

  // ---- the fork ----

  /** The two scalars the untimely delivery of chain `j` mixes, and the root it mixes them into. */
  lemma ReceiverGoesAstray(sch: Schedule, e: End, j: nat, n: nat, sender: Bytes, plaintext: Bytes)
    requires EndOk(sch, e) && j < |sch.keys| && n < MAX_WIRE_NONCE
    requires Slot(Point(sch.keys[j]), n) !in e.me.skipped && e.me.remoteDhPublic != Some(Point(sch.keys[j]))
    ensures var d := DhSecret(sch.keys[e.send], Point(sch.keys[j]));
      Astray(Receiving(e, j, n, FrameOf(sch, j, n, sender, plaintext)).0.me, e.me.skipped, d, e.me.rootKey)
  {
    var d, t := DhSecret(sch.keys[e.send], Point(sch.keys[j])), DhRatchet(e.me, Point(sch.keys[j]));
    assert Astray(t, e.me.skipped, d, e.me.rootKey);
    StashAstray(t, n, e.me.skipped, d, e.me.rootKey);
  }

  lemma RootClear(sch: Schedule, p: nat, e: End, j: nat, i: nat)
    requires Derived(sch) && p < 2 && Side(sch, p, e) && j < e.recv && j % 2 != p && i < |sch.keys|
    ensures !Forked(sch.roots[i], DhSecret(sch.keys[e.send], Point(sch.keys[j])), e.me.rootKey)
  {
    var top := if e.send < e.recv then e.recv else e.send;
    var d, r := DhSecret(sch.keys[e.send], Point(sch.keys[j])), e.me.rootKey;
    RootDepth(sch, top);
    if i == 0 {
      assert sch.roots[0] == sch.roots[..2][0] && sch.roots[1] == sch.roots[..2][1];
      RootDepth(sch, 1);
    } else {
      RootDepth(sch, i);
    }
    if i <= top {
      if Forked(sch.roots[i], d, r) { ForkedDepth(sch.roots[i], d, r); }
    } else {
      assert i == top + 1 && Turn(sch, i);
      NextSecretDiffers(sch, e.send, j, top);
      if Forked(r, d, r) { ForkedDepth(r, d, r); }
    }
  }

  lemma NextSecretDiffers(sch: Schedule, send: nat, j: nat, top: nat)
    requires Derived(sch) && top + 1 < |sch.keys| && send < |sch.keys| && j < top
    ensures DhSecret(sch.keys[top], Point(sch.keys[top + 1])) != DhSecret(sch.keys[send], Point(sch.keys[j]))
  {
    DistinctAt(sch.keys, j, top);
    DistinctAt(sch.keys, j, top + 1);
  }

  lemma StartClear(sch: Schedule, p: nat, e: End, j: nat, i: nat)
    requires Derived(sch) && p < 2 && Side(sch, p, e) && j < e.recv && j % 2 != p && i < |sch.keys|
    ensures !Forked(sch.starts[i], DhSecret(sch.keys[e.send], Point(sch.keys[j])), e.me.rootKey)
  {
    var d, r := DhSecret(sch.keys[e.send], Point(sch.keys[j])), e.me.rootKey;
    RootClear(sch, p, e, j, i);
    if i < 2 {
      RootClear(sch, p, e, j, 1);
      assert sch.starts[i] == sch.starts[..2][i] && sch.roots[1] == sch.roots[..2][1];
    } else {
      assert Turn(sch, i);
    }
  }

  // ---- both sides, for ever ----

  ghost predicate UntimelyAt(w: World, p: nat, j: nat, n: nat) {
    && InStep(w) && p < 2 && CanDeliver(w, p, j, n)
    && !Timely(w.ends[p].me, w.ends[1 - p].me.dhPublic, w.sent[j][n].frame)
  }

  /** The secret of the fork. */
  function ForkSecret(w: World, p: nat, j: nat): Term
    requires p < |w.ends| && j < |w.sch.keys| && w.ends[p].send < |w.sch.keys|
  {
    DhSecret(w.sch.keys[w.ends[p].send], Point(w.sch.keys[j]))
  }

  lemma Fork(w: World, p: nat, j: nat, n: nat)
    requires UntimelyAt(w, p, j, n)
    ensures j < |w.sch.keys| && w.ends[p].send < |w.sch.keys|
    ensures Astray(Deliver(w, p, j, n).ends[p].me, w.ends[p].me.skipped, ForkSecret(w, p, j), w.ends[p].me.rootKey)
    ensures Clear(w.ends[1 - p].me, w.sch.keys[w.ends[p].send], w.sch.keys[j], w.ends[p].me.rootKey)
  {
    InStepMeets(w, p, j, n);
    var sch, e, o, entry := w.sch, w.ends[p], w.ends[1 - p], w.sent[j][n];
    UntimelyEnd(sch, p, e, o, j, n, entry.sender, entry.plaintext);
    ReceiverGoesAstray(sch, e, j, n, entry.sender, entry.plaintext);
    PeerIsClear(sch, p, e, o, j);
  }

  lemma PeerIsClear(sch: Schedule, p: nat, e: End, o: End, j: nat)
    requires Derived(sch) && p < 2 && Side(sch, p, e) && Side(sch, 1 - p, o) && j < e.recv && j % 2 != p
    requires Point(sch.keys[j]) != o.me.dhPublic
    ensures Clear(o.me, sch.keys[e.send], sch.keys[j], e.me.rootKey)
  {
    var d, r := DhSecret(sch.keys[e.send], Point(sch.keys[j])), e.me.rootKey;
    var top := if o.send < o.recv then o.recv else o.send;
    RootClear(sch, p, e, j, top);
    StartClear(sch, p, e, j, o.send);
    ChainForked(sch.starts[o.send], o.me.sendNonce, d, r);
    DistinctAt(sch.keys, e.send, o.send);
  }

  /** Fresh scalars: none that the two peers have used so far. */
  predicate FreshDraws(w: World, os: seq<OneUse.Event>) {
    forall i :: 0 <= i < |os| && os[i].Send? ==> os[i].drawn !in w.sch.keys
  }

  /** After an untimely delivery the two root keys never agree again, whatever frames either
      side is given and whatever else it does. */
  lemma RootsPartForever(w: World, p: nat, j: nat, n: nat, es: seq<OneUse.Event>, k: nat, os: seq<OneUse.Event>, m: nat)
    requires UntimelyAt(w, p, j, n) && FreshDraws(w, os) && k <= |es| && m <= |os|
    ensures OneUse.StateAt(Deliver(w, p, j, n).ends[p].me, es, k).rootKey != OneUse.StateAt(w.ends[1 - p].me, os, m).rootKey
  {
    Fork(w, p, j, n);
    var a, b, r := w.sch.keys[w.ends[p].send], w.sch.keys[j], w.ends[p].me.rootKey;
    AstrayAt(Deliver(w, p, j, n).ends[p].me, es, k, w.ends[p].me.skipped, ForkSecret(w, p, j), r);
    ClearAt(w.ends[1 - p].me, os, m, a, b, r);
  }

  /** The receiver never again opens a frame that was in flight to it and not cached, whatever
      happens at its end in between. */
  lemma DeafToSent(w: World, p: nat, j: nat, n: nat, es: seq<OneUse.Event>, k: nat, i: nat, m: nat)
    requires UntimelyAt(w, p, j, n) && k <= |es| && CanDeliver(w, p, i, m)
    requires Slot(w.sent[i][m].frame.ratchetKey, w.sent[i][m].frame.nonce) !in w.ends[p].me.skipped
    ensures Decrypt(OneUse.StateAt(Deliver(w, p, j, n).ends[p].me, es, k), w.sent[i][m].frame).1.Err?
  {
    Fork(w, p, j, n);
    InStepMeets(w, p, j, n);
    InStepMeets(w, p, i, m);
    var sch, e, d, r := w.sch, w.ends[p], ForkSecret(w, p, j), w.ends[p].me.rootKey;
    UntimelyEnd(sch, p, e, w.ends[1 - p], j, n, w.sent[j][n].sender, w.sent[j][n].plaintext);
    AstrayAt(Deliver(w, p, j, n).ends[p].me, es, k, e.me.skipped, d, r);
    StartClear(sch, p, e, j, i);
    ChainForked(sch.starts[i], m, d, r);
    AstrayCannotOpen(OneUse.StateAt(Deliver(w, p, j, n).ends[p].me, es, k), w.sent[i][m].frame, e.me.skipped, d, r);
  }

  /** Nor does it ever open a frame the other side seals later, in any run of both sides. */
  lemma DeafToLater(w: World, p: nat, j: nat, n: nat, es: seq<OneUse.Event>, k: nat, os: seq<OneUse.Event>, m: nat, f: Frame)
    requires UntimelyAt(w, p, j, n) && FreshDraws(w, os) && k <= |es| && m < |os| && os[m].Send?
    requires f == Encrypt(OneUse.StateAt(w.ends[1 - p].me, os, m), os[m].sender, os[m].plaintext, os[m].drawn).1
    requires Slot(f.ratchetKey, f.nonce) !in w.ends[p].me.skipped
    ensures Decrypt(OneUse.StateAt(Deliver(w, p, j, n).ends[p].me, es, k), f).1.Err?
  {
    Fork(w, p, j, n);
    var a, b, r := w.sch.keys[w.ends[p].send], w.sch.keys[j], w.ends[p].me.rootKey;
    AstrayAt(Deliver(w, p, j, n).ends[p].me, es, k, w.ends[p].me.skipped, ForkSecret(w, p, j), r);
    ClearAt(w.ends[1 - p].me, os, m, a, b, r);
    SendClear(OneUse.StateAt(w.ends[1 - p].me, os, m), os[m].drawn, a, b, r);
    AstrayCannotOpen(OneUse.StateAt(Deliver(w, p, j, n).ends[p].me, es, k), f, w.ends[p].me.skipped, ForkSecret(w, p, j), r);
  }
}
