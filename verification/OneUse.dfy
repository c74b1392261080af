/** Message keys are used once. A run is any sequence of sends, restarts, key skips and
    arrivals of any frames whatever on one established session. */
module OneUse {
  import opened Terms
  import opened Ratchet

  datatype Event =
    | Send(sender: Bytes, plaintext: Bytes, drawn: nat)
    | Receive(frame: Frame)
    | SkipTo(until: int)
    | Restarted

  function Step(s: Session, e: Event): Session {
    match e
    case Send(sender, plaintext, drawn) => Encrypt(s, sender, plaintext, drawn).0
    case Receive(f) => Decrypt(s, f).0
    case SkipTo(until) => var r := SkipMessageKeys(s, until); if r.Some? then r.value else s
    case Restarted => Restart(s)
  }

  /** The session after the first `n` events. */
  function StateAt(s: Session, es: seq<Event>, n: nat): Session
    requires n <= |es|
  {
    if n == 0 then s else Step(StateAt(s, es, n - 1), es[n - 1])
  }

  /** The key the AEAD seals under at this event. */
  function KeySealed(s: Session, e: Event): Option<Term> {
    if e.Send? then Some(SealNext(SendRatchet(s, e.drawn), e.sender, e.plaintext).cipher.key) else None
  }

  /** The key the AEAD tries to open with at this event, whether or not it opens. */
  function KeyTried(s: Session, e: Event): Option<Term> {
    if e.Receive? then TriedKey(s, e.frame) else None
  }

  predicate Accepted(s: Session, e: Event) {
    e.Receive? && Decrypt(s, e.frame).1.Ok?
  }

  /** What a handshake leaves behind: two different chains, neither deeper than the root. */
  predicate Established(s: Session) {
    && Depth(s.sendCk) <= Depth(s.rootKey)
    && Depth(s.recvCk) <= Depth(s.rootKey)
    && Origin(s.sendCk) != Origin(s.recvCk)
    && s.skipped == map[]
  }

  /** `k` was derived before the next message key of chain key `ck`. */
  predicate Below(k: Term, ck: Term) {
    Depth(k) < Depth(ck) || (Depth(k) == Depth(ck) && Index(k) <= Index(ck))
  }

  ghost predicate SendInv(s: Session, sealed: set<Term>) {
    && Depth(s.sendCk) <= Depth(s.rootKey)
    && (forall k <- sealed :: Below(k, s.sendCk))
  }

  ghost predicate RecvInv(s: Session, tried: set<Term>) {
    && Depth(s.recvCk) <= Depth(s.rootKey)
    && (forall k <- tried :: Below(k, s.recvCk))
    && (forall x <- s.skipped :: Below(s.skipped[x], s.recvCk) && s.skipped[x] !in tried)
    && (forall x, y :: x in s.skipped && y in s.skipped && x != y ==> s.skipped[x] != s.skipped[y])
  }

  /** No key of a send chain lies on a receive chain. */
  ghost predicate Apart(s: Session, sealed: set<Term>, tried: set<Term>) {
    && Origin(s.sendCk) != Origin(s.recvCk)
    && (forall k <- sealed :: Origin(k) != Origin(s.recvCk))
    && (forall t <- tried :: Origin(t) != Origin(s.sendCk))
    && (forall x <- s.skipped :: Origin(s.skipped[x]) != Origin(s.sendCk))
    && (forall k, t :: k in sealed && t in tried ==> Origin(k) != Origin(t))
    && (forall k, x :: k in sealed && x in s.skipped ==> Origin(k) != Origin(s.skipped[x]))
  }

  ghost predicate Inv(s: Session, sealed: set<Term>, tried: set<Term>) {
    SendInv(s, sealed) && RecvInv(s, tried) && Apart(s, sealed, tried)
  }

  lemma {:induction false} DepthOfOrigin(t: Term)
    ensures Depth(Origin(t)) == Depth(t)
  {
    if t.Expand? && t.info == RatchetStep { DepthOfOrigin(t.ikm); }
  }

  lemma DifferentDepth(a: Term, b: Term)
    requires Depth(a) != Depth(b)
    ensures Origin(a) != Origin(b)
  {
    DepthOfOrigin(a);
    DepthOfOrigin(b);
  }

  function Entry(k: Option<Term>): set<Term> {
    if k.Some? then {k.value} else {}
  }

  // ---- one step ----

  lemma SendRatchetKeepsInv(s: Session, drawn: nat, sealed: set<Term>, tried: set<Term>)
    requires Inv(s, sealed, tried)
    ensures Inv(SendRatchet(s, drawn), sealed, tried)
  {
    if s.pendingDhRatchet {
      var r := SendRatchet(s, drawn);
      assert Depth(r.sendCk) == Depth(s.rootKey) + 1;
      DifferentDepth(r.sendCk, s.recvCk);
      forall t | t in tried ensures Origin(t) != Origin(r.sendCk) { DifferentDepth(r.sendCk, t); }
      forall x | x in s.skipped ensures Origin(s.skipped[x]) != Origin(r.sendCk) {
        DifferentDepth(r.sendCk, s.skipped[x]);
      }
    }
  }

  lemma SealKeepsInv(s: Session, sealed: set<Term>, tried: set<Term>)
    requires Inv(s, sealed, tried)
    ensures MessageKey(s.sendCk) !in sealed && MessageKey(s.sendCk) !in tried
    ensures Inv(AdvanceSend(s), sealed + {MessageKey(s.sendCk)}, tried)
  {
    assert Origin(MessageKey(s.sendCk)) == Origin(s.sendCk);
    assert Origin(NextChain(s.sendCk)) == Origin(s.sendCk);
  }

  lemma TurnKeepsInv(s: Session, key: Point, sealed: set<Term>, tried: set<Term>)
    requires Inv(s, sealed, tried)
    ensures Inv(Turned(s, key), sealed, tried)
    ensures Turned(s, key).skipped == s.skipped
  {
    if s.remoteDhPublic != Some(key) {
      var r := DhRatchet(s, key);
      assert Depth(r.recvCk) == Depth(s.rootKey) + 1;
      DifferentDepth(r.sendCk, r.recvCk);
      forall k | k in sealed ensures Origin(k) != Origin(r.recvCk) { DifferentDepth(r.recvCk, k); }
    }
  }

  lemma StashOneKeepsInv(s: Session, sealed: set<Term>, tried: set<Term>)
    requires Inv(s, sealed, tried)
    ensures Inv(StashOne(s), sealed, tried)
  {
    var r := StashOne(s);
    assert Origin(MessageKey(s.recvCk)) == Origin(s.recvCk) == Origin(r.recvCk);
    assert RecvInv(r, tried);
  }

  lemma {:induction false} StashKeepsInv(s: Session, n: int, sealed: set<Term>, tried: set<Term>)
    requires Inv(s, sealed, tried)
    ensures Inv(StashUntil(s, n), sealed, tried)
    decreases n - s.recvNonce
  {
    if s.recvNonce < n {
      StashOneKeepsInv(s, sealed, tried);
      StashKeepsInv(StashOne(s), n, sealed, tried);
    }
  }

  lemma AdvanceRecvKeepsInv(s: Session, sealed: set<Term>, tried: set<Term>)
    requires Inv(s, sealed, tried)
    ensures MessageKey(s.recvCk) !in sealed && MessageKey(s.recvCk) !in tried
    ensures Inv(AdvanceRecv(s), sealed, tried + {MessageKey(s.recvCk)})
  {
    var r := AdvanceRecv(s);
    assert Origin(MessageKey(s.recvCk)) == Origin(s.recvCk) == Origin(r.recvCk);
  }

  lemma ReceiveKeepsInv(s: Session, f: Frame, sealed: set<Term>, tried: set<Term>)
    requires Inv(s, sealed, tried)
    ensures TriedKey(s, f).Some? ==> TriedKey(s, f).value !in tried && TriedKey(s, f).value !in sealed
    ensures Inv(Decrypt(s, f).0, sealed, tried + Entry(TriedKey(s, f)))
  {
    var slot := Slot(f.ratchetKey, f.nonce);
    if f.nonce >= MAX_WIRE_NONCE || !Authentic(s.hmacKey, f) {
      assert tried + Entry(TriedKey(s, f)) == tried;
    } else if slot in s.skipped {
      assert Decrypt(s, f).0.skipped == s.skipped - {slot};
    } else {
      TurnKeepsInv(s, f.ratchetKey, sealed, tried);
      var t := Turned(s, f.ratchetKey);
      if f.nonce < t.recvNonce {
        assert tried + Entry(TriedKey(s, f)) == tried;
      } else {
        StashKeepsInv(t, f.nonce, sealed, tried);
        AdvanceRecvKeepsInv(StashUntil(t, f.nonce), sealed, tried);
      }
    }
  }

  lemma StepKeepsInv(s: Session, e: Event, sealed: set<Term>, tried: set<Term>)
    requires Inv(s, sealed, tried)
    ensures KeySealed(s, e).Some? ==> KeySealed(s, e).value !in sealed && KeySealed(s, e).value !in tried
    ensures KeyTried(s, e).Some? ==> KeyTried(s, e).value !in sealed && KeyTried(s, e).value !in tried
    ensures Inv(Step(s, e), sealed + Entry(KeySealed(s, e)), tried + Entry(KeyTried(s, e)))
  {
    match e
    case Send(sender, plaintext, drawn) =>
      SendRatchetKeepsInv(s, drawn, sealed, tried);
      SealKeepsInv(SendRatchet(s, drawn), sealed, tried);
      assert tried + Entry(KeyTried(s, e)) == tried;
    case Receive(f) =>
      ReceiveKeepsInv(s, f, sealed, tried);
      assert sealed + Entry(KeySealed(s, e)) == sealed;
    case SkipTo(until) =>
      StashKeepsInv(s, until, sealed, tried);
      assert sealed + {} == sealed && tried + {} == tried;
    case Restarted =>
      assert sealed + {} == sealed && tried + {} == tried;
  }

  // ---- whole runs ----

  function SealedBefore(s: Session, es: seq<Event>, n: nat): set<Term>
    requires n <= |es|
  {
    if n == 0 then {} else SealedBefore(s, es, n - 1) + Entry(KeySealed(StateAt(s, es, n - 1), es[n - 1]))
  }

  function TriedBefore(s: Session, es: seq<Event>, n: nat): set<Term>
    requires n <= |es|
  {
    if n == 0 then {} else TriedBefore(s, es, n - 1) + Entry(KeyTried(StateAt(s, es, n - 1), es[n - 1]))
  }

  lemma {:induction false} InvAt(s: Session, es: seq<Event>, n: nat)
    requires Established(s) && n <= |es|
    ensures Inv(StateAt(s, es, n), SealedBefore(s, es, n), TriedBefore(s, es, n))
  {
    if n > 0 {
      InvAt(s, es, n - 1);
      StepKeepsInv(StateAt(s, es, n - 1), es[n - 1], SealedBefore(s, es, n - 1), TriedBefore(s, es, n - 1));
    }
  }

  lemma {:induction false} KeysRemembered(s: Session, es: seq<Event>, i: nat, n: nat)
    requires i < n <= |es|
    ensures Entry(KeySealed(StateAt(s, es, i), es[i])) <= SealedBefore(s, es, n)
    ensures Entry(KeyTried(StateAt(s, es, i), es[i])) <= TriedBefore(s, es, n)
  {
    if i < n - 1 { KeysRemembered(s, es, i, n - 1); }
  }

  /** In every run, the keys sealed under and the keys tried are all different: no two
      sends share a key, no two arrivals try the same key, and no key is used both ways. */
  lemma MessageKeysUsedOnce(s: Session, es: seq<Event>, i: nat, j: nat)
    requires Established(s) && i < j < |es|
    ensures var si, sj := StateAt(s, es, i), StateAt(s, es, j);
      Entry(KeySealed(si, es[i])) + Entry(KeyTried(si, es[i])) !!
      Entry(KeySealed(sj, es[j])) + Entry(KeyTried(sj, es[j]))
  {
    InvAt(s, es, j);
    KeysRemembered(s, es, i, j);
    StepKeepsInv(StateAt(s, es, j), es[j], SealedBefore(s, es, j), TriedBefore(s, es, j));
  }

  /** No frame is accepted twice, in any run and whatever else arrives in between; more
      than that, two accepted frames never carry ciphertexts sealed under one key. */
  lemma NoFrameAcceptedTwice(s: Session, es: seq<Event>, i: nat, j: nat)
    requires Established(s) && i < j < |es|
    requires Accepted(StateAt(s, es, i), es[i]) && Accepted(StateAt(s, es, j), es[j])
    ensures es[i].frame != es[j].frame
    ensures es[i].frame.cipher.key != es[j].frame.cipher.key
  {
    MessageKeysUsedOnce(s, es, i, j);
  }

  /** A peer never accepts a frame it sealed itself. */
  lemma OwnFrameNeverAccepted(s: Session, es: seq<Event>, i: nat, j: nat)
    requires Established(s) && i < j < |es| && es[i].Send?
    requires es[j] == Receive(Encrypt(StateAt(s, es, i), es[i].sender, es[i].plaintext, es[i].drawn).1)
    ensures !Accepted(StateAt(s, es, j), es[j])
  {
    MessageKeysUsedOnce(s, es, i, j);
  }
}
