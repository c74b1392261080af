/** Two peers and the frames between them. Chains are numbered in the order their ratchet
    keys were created: chain 0 belongs to the peer that is not the initiator, chain 1 to the
    initiator, and from then on the owners alternate, so chain j belongs to peer j % 2. */
module Duplex {
  import opened Terms
  import opened Ratchet

  /** The key schedule both sides should follow: for each chain the scalar of its ratchet key,
      its first chain key, and the root key once the chain exists. */
  datatype Schedule = Schedule(base: Term, hmacKey: Term, keys: seq<nat>, starts: seq<Term>, roots: seq<Term>)

  /** One peer: its session, the chain it sends on, the chain whose key it holds as the remote
      key, and the (chain, nonce) pairs of the frames it has decrypted. */
  datatype End = End(me: Session, send: nat, recv: nat, got: set<(nat, nat)>)

  datatype Sent = Sent(sender: Bytes, plaintext: Bytes, frame: Frame)

  /** `sent[j]` holds the frames sent on chain j. The network may lose, repeat and reorder:
      any frame ever sent may be delivered at any time. */
  datatype World = World(ends: seq<End>, sch: Schedule, sent: seq<seq<Sent>>)

  /** Chains 0 and 1 and their root come from the handshake's 160-byte expansion. */
  function Opening(base: Term, hmacKey: Term, k0: nat, k1: nat): Schedule {
    var dh := DhSecret(k0, Point(k1));
    Schedule(base, hmacKey, [k0, k1], [RootBlock(dh, base, 2), RootBlock(dh, base, 1)],
             [RootBlock(dh, base, 3), RootBlock(dh, base, 3)])
  }

  /** A ratchet turn adds a chain derived from the root and the two newest ratchet keys. */
  function Extended(sch: Schedule, k: nat): Schedule
    requires 2 <= |sch.keys| == |sch.starts| == |sch.roots|
  {
    var n := |sch.keys|;
    var dh := DhSecret(sch.keys[n - 1], Point(k));
    sch.(keys := sch.keys + [k], starts := sch.starts + [RootBlock(dh, sch.roots[n - 1], 2)],
         roots := sch.roots + [RootBlock(dh, sch.roots[n - 1], 1)])
  }

  predicate Turn(sch: Schedule, j: nat)
    requires 2 <= j < |sch.keys| == |sch.starts| == |sch.roots|
  {
    var dh := DhSecret(sch.keys[j - 1], Point(sch.keys[j]));
    sch.starts[j] == RootBlock(dh, sch.roots[j - 1], 2) && sch.roots[j] == RootBlock(dh, sch.roots[j - 1], 1)
  }

  predicate Sized(sch: Schedule) {
    2 <= |sch.keys| == |sch.starts| == |sch.roots|
  }

  predicate Derived(sch: Schedule) {
    && Sized(sch) && Distinct(sch.keys)
    && Opening(sch.base, sch.hmacKey, sch.keys[0], sch.keys[1]) ==
         Schedule(sch.base, sch.hmacKey, sch.keys[..2], sch.starts[..2], sch.roots[..2])
    && (forall j: nat :: 2 <= j < |sch.keys| ==> Turn(sch, j))
  }

  /** The message key of frame n of chain j. */
  function KeyOf(sch: Schedule, j: nat, n: nat): Term
    requires j < |sch.starts|
  {
    MessageKey(ChainAt(sch.starts[j], n))
  }

  /** Frame n of chain j, as its owner should seal it. */
  function FrameOf(sch: Schedule, j: nat, n: nat, sender: Bytes, plaintext: Bytes): Frame
    requires j < |sch.keys| && Sized(sch)
  {
    Tagged(sch.hmacKey, sender, Point(sch.keys[j]), n,
           Seal(KeyOf(sch, j, n), n, Point(sch.keys[j]), n, plaintext))
  }

  // ---- the invariant ----

  /** The owner of the newest chain sends on it and receives on the one before; the other
      peer sends on the one before and receives on the newest, or does not know it yet. */
  predicate Linked(top: nat, p: nat, send: nat, recv: nat) {
    if top % 2 == p then send == top && recv + 1 == top
    else send + 1 == top && (recv == top || recv + 2 == top)
  }

  predicate Distinct(keys: seq<nat>) {
    |keys| == 0 || (keys[|keys| - 1] !in keys[..|keys| - 1] && Distinct(keys[..|keys| - 1]))
  }

  lemma {:induction false} DistinctAt(keys: seq<nat>, i: nat, j: nat)
    requires Distinct(keys) && i < |keys| && j < |keys| && i != j
    ensures keys[i] != keys[j]
  {
    var n := |keys| - 1;
    if i < n && j < n {
      DistinctAt(keys[..n], i, j);
    } else {
      var k := if i < n then i else j;
      assert keys[k] == keys[..n][k];
    }
  }

  predicate Fits(sch: Schedule, e: End) {
    Sized(sch) && e.send < |sch.keys| && e.recv < |sch.keys|
  }

  predicate KeysOk(sch: Schedule, e: End)
    requires Fits(sch, e)
  {
    var me, top := e.me, if e.send < e.recv then e.recv else e.send;
    && 1 <= top
    && me.hmacKey == sch.hmacKey
    && me.dhPrivate == sch.keys[e.send] && me.dhPublic == Point(sch.keys[e.send])
    && me.remoteDhPublic == Some(Point(sch.keys[e.recv]))
    && me.rootKey == sch.roots[top]
    && me.sendCk == ChainAt(sch.starts[e.send], me.sendNonce)
    && me.recvCk == ChainAt(sch.starts[e.recv], me.recvNonce)
    && (me.pendingDhRatchet ==> e.send < e.recv)
  }

  /** Slot (j, n), if cached: a chain already taken up, the right key, not yet decrypted. */
  predicate SlotOk(sch: Schedule, e: End, j: nat, n: nat)
    requires Fits(sch, e) && j < |sch.keys|
  {
    var x := Slot(Point(sch.keys[j]), n);
    x in e.me.skipped ==>
      && j <= e.recv && (j == e.recv ==> n < e.me.recvNonce)
      && e.me.skipped[x] == KeyOf(sch, j, n) && (j, n) !in e.got
  }

  /** The cache holds the right key, and only for frames not yet decrypted; on the current
      receive chain every index below `recvNonce` is either cached or already decrypted, and
      the last of them is decrypted. */
  ghost predicate CacheOk(sch: Schedule, e: End)
    requires Fits(sch, e)
  {
    && (forall x <- e.me.skipped :: x.ratchetKey.Point? && x.ratchetKey.scalar in sch.keys)
    && (forall j: nat, n: nat :: j < |sch.keys| ==> SlotOk(sch, e, j, n))
    && (forall n: nat :: n < e.me.recvNonce ==> (e.recv, n) in e.got || Slot(Point(sch.keys[e.recv]), n) in e.me.skipped)
    && (forall g <- e.got :: g.0 <= e.recv && (g.0 == e.recv ==> g.1 < e.me.recvNonce))
    && (e.me.recvNonce > 0 ==> (e.recv, e.me.recvNonce - 1) in e.got)
  }

  ghost predicate Side(sch: Schedule, p: nat, e: End) {
    && Fits(sch, e) && Linked(|sch.keys| - 1, p, e.send, e.recv)
    && KeysOk(sch, e) && CacheOk(sch, e)
  }

  ghost predicate SentOk(sch: Schedule, sent: seq<seq<Sent>>)
    requires Sized(sch) && |sch.keys| == |sent|
  {
    forall j, n :: 0 <= j < |sent| && 0 <= n < |sent[j]| ==>
      sent[j][n].frame == FrameOf(sch, j, n, sent[j][n].sender, sent[j][n].plaintext)
  }

  predicate WorldShape(w: World) {
    && Sized(w.sch) && |w.sch.keys| == |w.sent| && |w.ends| == 2
    && (forall p :: 0 <= p < 2 ==> w.ends[p].send < |w.sent|)
  }

  ghost predicate EndInStep(w: World, p: nat)
    requires WorldShape(w) && p < 2
  {
    && Side(w.sch, p, w.ends[p])
    && w.ends[p].me.sendNonce == |w.sent[w.ends[p].send]|
  }

  ghost predicate Consistent(w: World)
    requires WorldShape(w)
  {
    Derived(w.sch) && SentOk(w.sch, w.sent) && EndInStep(w, 0) && EndInStep(w, 1)
  }

  predicate Unfold(k: nat) { true }

  /** The two peers agree on the schedule. The guard `Unfold` is always true: it only keeps
      the verifier from opening the definition where a proof does not call for it. */
  ghost predicate InStep(w: World) {
    WorldShape(w) && forall k: nat {:trigger Unfold(k)} :: Unfold(k) ==> Consistent(w)
  }

  lemma Consult(w: World)
    requires InStep(w)
    ensures Consistent(w)
  {
    assert Unfold(0);
  }

  lemma Conclude(w: World)
    requires WorldShape(w) && Consistent(w)
    ensures InStep(w)
  {}

  // ---- the moves ----

  function Sending(e: End, newest: nat, sender: Bytes, plaintext: Bytes, drawn: nat): (End, Sent) {
    var (me, f) := Encrypt(e.me, sender, plaintext, drawn);
    (e.(me := me, send := if e.me.pendingDhRatchet then newest else e.send), Sent(sender, plaintext, f))
  }

  function Send(w: World, p: nat, sender: Bytes, plaintext: Bytes, drawn: nat): World
    requires p < |w.ends| && w.ends[p].send < |w.sent| == |w.sch.keys| && Sized(w.sch)
  {
    var (e, entry) := Sending(w.ends[p], |w.sch.keys|, sender, plaintext, drawn);
    if w.ends[p].me.pendingDhRatchet then
      World(w.ends[p := e], Extended(w.sch, drawn), w.sent + [[entry]])
    else
      World(w.ends[p := e], w.sch, w.sent[e.send := w.sent[e.send] + [entry]])
  }

  function Receiving(e: End, j: nat, n: nat, f: Frame): (End, Result) {
    var (me, r) := Decrypt(e.me, f);
    (End(me, e.send, if me.remoteDhPublic == e.me.remoteDhPublic then e.recv else j,
         if r.Ok? then e.got + {(j, n)} else e.got), r)
  }

  predicate CanDeliver(w: World, p: nat, j: nat, n: nat) {
    p < |w.ends| && j < |w.sent| && j % 2 != p && n < |w.sent[j]|
  }

  function Arrival(w: World, p: nat, j: nat, n: nat): Result
    requires CanDeliver(w, p, j, n)
  {
    Receiving(w.ends[p], j, n, w.sent[j][n].frame).1
  }

  function Deliver(w: World, p: nat, j: nat, n: nat): World
    requires CanDeliver(w, p, j, n)
  {
    w.(ends := w.ends[p := Receiving(w.ends[p], j, n, w.sent[j][n].frame).0])
  }

  /** The side condition on a delivery, checkable on the receiver, the sender's present key and
      the frame: the frame is refused by its nonce, has a cached key, or is of the receiver's
      current ratchet key or of the key its sender is using now. What it shuts out is an
      uncached frame of an epoch the receiver has already left. */
  predicate Timely(me: Session, senderKey: Point, f: Frame) {
    || f.nonce >= MAX_WIRE_NONCE
    || Slot(f.ratchetKey, f.nonce) in me.skipped
    || me.remoteDhPublic == Some(f.ratchetKey)
    || f.ratchetKey == senderKey
  }

  function Restarted(w: World, p: nat): World
    requires p < |w.ends|
  {
    w.(ends := w.ends[p := w.ends[p].(me := Restart(w.ends[p].me))])
  }

  // ---- facts about the schedule ----

  lemma {:induction false} ExtendedDerived(sch: Schedule, k: nat)
    requires Derived(sch) && k !in sch.keys
    ensures Derived(Extended(sch, k))
  {
    var sch' := Extended(sch, k);
    forall j: nat | 2 <= j < |sch'.keys| ensures Turn(sch', j) {
      if j < |sch.keys| { assert Turn(sch, j); }
    }
    assert sch'.keys[..2] == sch.keys[..2] && sch'.starts[..2] == sch.starts[..2] && sch'.roots[..2] == sch.roots[..2];
  }

  lemma {:induction false} RootDepth(sch: Schedule, j: nat)
    requires Derived(sch) && 1 <= j < |sch.keys|
    ensures Depth(sch.roots[j]) == Depth(sch.base) + j
    decreases j
  {
    if j == 1 {
      assert sch.roots[1] == sch.roots[..2][1];
    } else {
      RootDepth(sch, j - 1);
      assert Turn(sch, j);
    }
  }

  lemma {:induction false} ChainAtPlus(c: Term, a: nat, b: nat)
    ensures ChainAt(ChainAt(c, a), b) == ChainAt(c, a + b)
    decreases b
  {
    if b > 0 { ChainAtPlus(c, a, b - 1); }
  }

  lemma {:induction false} ChainRank(c: Term, n: nat)
    ensures Depth(ChainAt(c, n)) == Depth(c) && Index(ChainAt(c, n)) == Index(c) + n
    decreases n
  {
    if n > 0 { ChainRank(c, n - 1); }
  }

  // ---- one end, receiving ----

  ghost predicate EndOk(sch: Schedule, e: End) {
    Fits(sch, e) && Derived(sch) && KeysOk(sch, e) && CacheOk(sch, e)
  }

  /** The end once frame n of its current chain has been decrypted. */
  function Advanced(e: End, n: nat): End {
    End(AdvanceRecv(StashUntil(e.me, n)), e.send, e.recv, e.got + {(e.recv, n)})
  }

  lemma AheadChain(sch: Schedule, e: End, n: nat)
    requires Fits(sch, e) && KeysOk(sch, e) && e.me.recvNonce <= n
    ensures var u := StashUntil(e.me, n);
      u == e.me.(recvCk := ChainAt(sch.starts[e.recv], n), recvNonce := n, skipped := u.skipped)
  {
    StashUntilEffect(e.me, n);
    ChainAtPlus(sch.starts[e.recv], e.me.recvNonce, n - e.me.recvNonce);
  }

  lemma AheadKeys(sch: Schedule, e: End, n: nat)
    requires Fits(sch, e) && KeysOk(sch, e) && e.me.recvNonce <= n
    ensures KeysOk(sch, Advanced(e, n)) && Advanced(e, n).me.recvNonce == n + 1 && Advanced(e, n).me.sendNonce == e.me.sendNonce
  {
    AheadChain(sch, e, n);
    assert NextChain(ChainAt(sch.starts[e.recv], n)) == ChainAt(sch.starts[e.recv], n + 1);
  }

  lemma AheadOpens(sch: Schedule, e: End, n: nat, sender: Bytes, plaintext: Bytes)
    requires EndOk(sch, e) && e.me.recvNonce <= n < MAX_WIRE_NONCE
    ensures Receiving(e, e.recv, n, FrameOf(sch, e.recv, n, sender, plaintext)) == (Advanced(e, n), Ok(sender, plaintext))
  {
    assert SlotOk(sch, e, e.recv, n);
    AheadChain(sch, e, n);
  }

  /** An uncached frame of the current receive chain, not below `recvNonce`, is decrypted. */
  lemma ReceiveAhead(sch: Schedule, e: End, n: nat, sender: Bytes, plaintext: Bytes)
    requires EndOk(sch, e) && e.me.recvNonce <= n < MAX_WIRE_NONCE
    ensures var (e', r) := Receiving(e, e.recv, n, FrameOf(sch, e.recv, n, sender, plaintext));
      && r == Ok(sender, plaintext) && EndOk(sch, e')
      && e'.send == e.send && e'.recv == e.recv && e'.got == e.got + {(e.recv, n)}
      && e'.me.sendNonce == e.me.sendNonce && e'.me.recvNonce == n + 1
  {
    AheadOpens(sch, e, n, sender, plaintext);
    AheadKeys(sch, e, n);
    AheadCache(sch, e, n, Advanced(e, n));
  }

  lemma AheadCache(sch: Schedule, e: End, n: nat, e': End)
    requires EndOk(sch, e) && e.me.recvNonce <= n && e' == Advanced(e, n)
    ensures CacheOk(sch, e')
  {
    StashUntilEffect(e.me, n);
    forall x | x in e'.me.skipped ensures x.ratchetKey.Point? && x.ratchetKey.scalar in sch.keys {
      StashUntilSlot(e.me, n, x);
    }
    forall j: nat, i: nat | j < |sch.keys| ensures SlotOk(sch, e', j, i) { AheadSlot(sch, e, n, j, i); }
    forall i: nat | i < e'.me.recvNonce
      ensures (e.recv, i) in e'.got || Slot(Point(sch.keys[e.recv]), i) in e'.me.skipped
    {
      AheadBelow(sch, e, n, i);
    }
  }

  lemma AheadSlot(sch: Schedule, e: End, n: nat, j: nat, i: nat)
    requires EndOk(sch, e) && e.me.recvNonce <= n && j < |sch.keys|
    ensures SlotOk(sch, Advanced(e, n), j, i)
  {
    var v := e.recv;
    StashUntilEffect(e.me, n);
    StashUntilSlot(e.me, n, Slot(Point(sch.keys[j]), i));
    if j != v { DistinctAt(sch.keys, j, v); }
    if j == v && e.me.recvNonce <= i < n {
      ChainAtPlus(sch.starts[v], e.me.recvNonce, i - e.me.recvNonce);
    }
    assert SlotOk(sch, e, j, i);
  }

  lemma AheadBelow(sch: Schedule, e: End, n: nat, i: nat)
    requires EndOk(sch, e) && e.me.recvNonce <= n && i <= n
    ensures (e.recv, i) in Advanced(e, n).got || Slot(Point(sch.keys[e.recv]), i) in Advanced(e, n).me.skipped
  {
    var x := Slot(Point(sch.keys[e.recv]), i);
    StashUntilSlot(e.me, n, x);
    if i < e.me.recvNonce { assert (e.recv, i) in e.got || x in e.me.skipped; }
  }

  /** A cached frame of any epoch is decrypted, and only its cache entry goes. */
  lemma ReceiveCached(sch: Schedule, e: End, j: nat, n: nat, sender: Bytes, plaintext: Bytes)
    requires EndOk(sch, e) && j < |sch.keys| && n < MAX_WIRE_NONCE
    requires Slot(Point(sch.keys[j]), n) in e.me.skipped
    ensures (j, n) !in e.got
    ensures var (e', r) := Receiving(e, j, n, FrameOf(sch, j, n, sender, plaintext));
      && r == Ok(sender, plaintext) && EndOk(sch, e')
      && e'.send == e.send && e'.recv == e.recv && e'.got == e.got + {(j, n)}
      && e'.me == e.me.(skipped := e.me.skipped - {Slot(Point(sch.keys[j]), n)})
  {
    assert SlotOk(sch, e, j, n);
    var (e', r) := Receiving(e, j, n, FrameOf(sch, j, n, sender, plaintext));
    assert KeysOk(sch, e');
    CachedCache(sch, e, j, n, e');
  }

  lemma CachedCache(sch: Schedule, e: End, j: nat, n: nat, e': End)
    requires EndOk(sch, e) && j < |sch.keys| && Slot(Point(sch.keys[j]), n) in e.me.skipped
    requires e' == e.(me := e.me.(skipped := e.me.skipped - {Slot(Point(sch.keys[j]), n)}), got := e.got + {(j, n)})
    ensures CacheOk(sch, e')
  {
    assert SlotOk(sch, e, j, n);
    forall i: nat, m: nat | i < |sch.keys| ensures SlotOk(sch, e', i, m) {
      assert SlotOk(sch, e, i, m);
      if i != j { DistinctAt(sch.keys, i, j); }
    }
    forall m: nat | m < e'.me.recvNonce
      ensures (e.recv, m) in e'.got || Slot(Point(sch.keys[e.recv]), m) in e'.me.skipped
    {
      assert (e.recv, m) in e.got || Slot(Point(sch.keys[e.recv]), m) in e.me.skipped;
      if j != e.recv { DistinctAt(sch.keys, j, e.recv); }
    }
  }

  /** Taking up the next chain: the receiver's root becomes the root its sender derived. */
  lemma TurnEnd(sch: Schedule, e: End, j: nat)
    requires EndOk(sch, e) && e.recv < e.send && j == e.send + 1 < |sch.keys|
    ensures EndOk(sch, e.(me := DhRatchet(e.me, Point(sch.keys[j])), recv := j))
    ensures forall n: nat :: Slot(Point(sch.keys[j]), n) !in e.me.skipped
  {
    var e' := e.(me := DhRatchet(e.me, Point(sch.keys[j])), recv := j);
    assert Turn(sch, j);
    forall n: nat ensures Slot(Point(sch.keys[j]), n) !in e.me.skipped {
      assert SlotOk(sch, e, j, n);
    }
    forall i: nat, m: nat | i < |sch.keys|
      ensures SlotOk(sch, e', i, m)
    {
      assert SlotOk(sch, e, i, m);
    }
  }

  lemma ReceiveNext(sch: Schedule, e: End, j: nat, n: nat, sender: Bytes, plaintext: Bytes)
    requires EndOk(sch, e) && e.recv < e.send && j == e.send + 1 < |sch.keys| && n < MAX_WIRE_NONCE
    ensures (j, n) !in e.got
    ensures var (e', r) := Receiving(e, j, n, FrameOf(sch, j, n, sender, plaintext));
      && r == Ok(sender, plaintext) && EndOk(sch, e')
      && e'.send == e.send && e'.recv == j && e'.got == e.got + {(j, n)}
      && e'.me.sendNonce == e.me.sendNonce
  {
    var f := FrameOf(sch, j, n, sender, plaintext);
    TurnEnd(sch, e, j);
    var t := e.(me := DhRatchet(e.me, Point(sch.keys[j])), recv := j);
    assert Slot(Point(sch.keys[j]), n) !in e.me.skipped;
    DistinctAt(sch.keys, e.recv, j);
    assert Decrypt(e.me, f) == Decrypt(t.me, f);
    ReceiveAhead(sch, t, n, sender, plaintext);
  }

  /** A frame below `recvNonce` of the current chain, not cached, is refused and nothing moves. */
  lemma ReceiveReplay(sch: Schedule, e: End, n: nat, sender: Bytes, plaintext: Bytes)
    requires EndOk(sch, e) && n < e.me.recvNonce && n < MAX_WIRE_NONCE
    requires Slot(Point(sch.keys[e.recv]), n) !in e.me.skipped
    ensures (e.recv, n) in e.got
    ensures Receiving(e, e.recv, n, FrameOf(sch, e.recv, n, sender, plaintext)) == (e, Err(Replay))
  {}

  // ---- one end, sending ----

  lemma SendOnChain(sch: Schedule, e: End, sender: Bytes, plaintext: Bytes, drawn: nat)
    requires EndOk(sch, e) && !e.me.pendingDhRatchet
    ensures var (e', entry) := Sending(e, |sch.keys|, sender, plaintext, drawn);
      && EndOk(sch, e') && e' == e.(me := AdvanceSend(e.me))
      && entry == Sent(sender, plaintext, FrameOf(sch, e.send, e.me.sendNonce, sender, plaintext))
  {
    var (e', entry) := Sending(e, |sch.keys|, sender, plaintext, drawn);
    assert KeysOk(sch, e');
    SameCache(sch, e, e');
  }

  /** What the cache holds does not depend on the sending side. */
  lemma SameCache(sch: Schedule, e: End, e': End)
    requires Fits(sch, e) && Fits(sch, e') && CacheOk(sch, e) && e'.recv == e.recv && e'.got == e.got
    requires e'.me.skipped == e.me.skipped && e'.me.recvNonce == e.me.recvNonce
    ensures CacheOk(sch, e')
  {
    forall i: nat, m: nat | i < |sch.keys| ensures SlotOk(sch, e', i, m) { assert SlotOk(sch, e, i, m); }
  }

  /** A longer schedule changes nothing for an end that knows none of the new key. */
  lemma EndPrefix(sch: Schedule, e: End, k: nat)
    requires EndOk(sch, e) && k !in sch.keys
    ensures EndOk(Extended(sch, k), e)
  {
    var sch' := Extended(sch, k);
    ExtendedDerived(sch, k);
    assert KeysOk(sch', e);
    forall i: nat, m: nat | i < |sch'.keys|
      ensures SlotOk(sch', e, i, m)
    {
      if i < |sch.keys| { assert SlotOk(sch, e, i, m); }
    }
  }

  lemma SendTurns(sch: Schedule, e: End, sender: Bytes, plaintext: Bytes, drawn: nat)
    requires EndOk(sch, e) && e.me.pendingDhRatchet && drawn !in sch.keys && e.recv == |sch.keys| - 1
    ensures var (e', entry) := Sending(e, |sch.keys|, sender, plaintext, drawn);
      && EndOk(Extended(sch, drawn), e') && e'.send == |sch.keys| && e'.recv == e.recv && e'.me.sendNonce == 1
      && entry == Sent(sender, plaintext, FrameOf(Extended(sch, drawn), |sch.keys|, 0, sender, plaintext))
  {
    var n := |sch.keys|;
    var sch' := Extended(sch, drawn);
    EndPrefix(sch, e, drawn);
    DhCommutes(drawn, sch.keys[n - 1]);
    var r := SendRatchet(e.me, drawn);
    assert r.rootKey == sch'.roots[n] && r.sendCk == sch'.starts[n] == ChainAt(sch'.starts[n], 0);
    var (e', entry) := Sending(e, n, sender, plaintext, drawn);
    assert e'.me.sendCk == ChainAt(sch'.starts[n], 1);
    assert KeysOk(sch', e');
    SameCache(sch', e, e');
  }

  // ---- the pair ----

  lemma Assembled(w: World, p: nat)
    requires WorldShape(w) && Derived(w.sch) && SentOk(w.sch, w.sent)
    requires p < 2 && EndInStep(w, p) && EndInStep(w, 1 - p)
    ensures InStep(w)
  {
    if p == 0 { assert EndInStep(w, 1); } else { assert EndInStep(w, 0); }
    Conclude(w);
  }

  /** Both ends, whichever of them `p` is. */
  lemma Ends(w: World, p: nat)
    requires InStep(w) && p < 2
    ensures Derived(w.sch) && SentOk(w.sch, w.sent) && EndInStep(w, p) && EndInStep(w, 1 - p)
  {
    Consult(w);
    if p == 0 { assert EndInStep(w, 1 - p); } else { assert EndInStep(w, 1 - p); }
  }

  /** The world after a ratchet turn, given what the turning end did. */
  lemma TurnJoins(w: World, p: nat, drawn: nat, e': End, entry: Sent)
    requires InStep(w) && p < 2 && drawn !in w.sch.keys && w.ends[p].me.pendingDhRatchet
    requires EndOk(Extended(w.sch, drawn), e') && e'.send == |w.sch.keys| && e'.recv == w.ends[p].recv
    requires e'.me.sendNonce == 1
    requires entry.frame == FrameOf(Extended(w.sch, drawn), |w.sch.keys|, 0, entry.sender, entry.plaintext)
    ensures InStep(World(w.ends[p := e'], Extended(w.sch, drawn), w.sent + [[entry]]))
  {
    var w' := World(w.ends[p := e'], Extended(w.sch, drawn), w.sent + [[entry]]);
    Ends(w, p);
    TurnFar(w, w', p, drawn);
    SentPrefix(w.sch, w.sent, drawn, entry);
    Assembled(w', p);
  }

  /** A new chain does not disturb the peer it is addressed to. */
  lemma TurnFar(w: World, w': World, p: nat, drawn: nat)
    requires InStep(w) && p < 2 && drawn !in w.sch.keys && |w.sch.keys| % 2 == p
    requires WorldShape(w') && w'.sch == Extended(w.sch, drawn) && w'.ends[1 - p] == w.ends[1 - p]
    requires |w'.sent| == |w.sent| + 1 && (forall j :: 0 <= j < |w.sent| ==> w'.sent[j] == w.sent[j])
    ensures EndInStep(w', 1 - p)
  {
    Ends(w, p);
    FarSide(w.sch, p, w.ends[1 - p], drawn);
  }

  lemma FarSide(sch: Schedule, p: nat, e: End, drawn: nat)
    requires p < 2 && Side(sch, 1 - p, e) && Derived(sch) && drawn !in sch.keys && |sch.keys| % 2 == p
    ensures Side(Extended(sch, drawn), 1 - p, e) && e.send < |sch.keys|
  {
    EndPrefix(sch, e, drawn);
  }

  /** A peer that owes a turn receives on the newest chain. */
  lemma TurnIsDue(w: World, p: nat)
    requires InStep(w) && p < 2 && w.ends[p].me.pendingDhRatchet
    ensures EndOk(w.sch, w.ends[p]) && w.ends[p].recv == |w.sch.keys| - 1 && |w.sch.keys| % 2 == p
  {
    Ends(w, p);
  }

  lemma TurnKeepsStep(w: World, p: nat, sender: Bytes, plaintext: Bytes, drawn: nat)
    requires InStep(w) && p < 2 && drawn !in w.sch.keys && w.ends[p].me.pendingDhRatchet
    ensures InStep(Send(w, p, sender, plaintext, drawn)) && |w.sch.keys| % 2 == p
  {
    TurnIsDue(w, p);
    SendTurns(w.sch, w.ends[p], sender, plaintext, drawn);
    var (e', entry) := Sending(w.ends[p], |w.sch.keys|, sender, plaintext, drawn);
    TurnJoins(w, p, drawn, e', entry);
  }

  lemma SameChainKeepsStep(w: World, p: nat, sender: Bytes, plaintext: Bytes, drawn: nat)
    requires InStep(w) && p < 2 && !w.ends[p].me.pendingDhRatchet
    ensures InStep(Send(w, p, sender, plaintext, drawn))
  {
    var e, q := w.ends[p], 1 - p;
    Ends(w, p);
    SendOnChain(w.sch, e, sender, plaintext, drawn);
    var (e', entry) := Sending(e, |w.sch.keys|, sender, plaintext, drawn);
    SentOneMore(w.sch, w.sent, e.send, entry);
    var w' := World(w.ends[p := e'], w.sch, w.sent[e.send := w.sent[e.send] + [entry]]);
    Assembled(w', p);
  }

  /** Sending keeps the pair in step; a new ratchet key is only ever created by the peer that
      does not own the newest one, so the turns alternate strictly. */
  lemma SendKeepsStep(w: World, p: nat, sender: Bytes, plaintext: Bytes, drawn: nat)
    requires InStep(w) && p < 2 && drawn !in w.sch.keys
    ensures var w' := Send(w, p, sender, plaintext, drawn);
      && InStep(w')
      && (w'.sch == w.sch || (w'.sch == Extended(w.sch, drawn) && |w.sch.keys| % 2 == p))
  {
    if w.ends[p].me.pendingDhRatchet {
      TurnKeepsStep(w, p, sender, plaintext, drawn);
    } else {
      SameChainKeepsStep(w, p, sender, plaintext, drawn);
    }
  }

  lemma SentOneMore(sch: Schedule, sent: seq<seq<Sent>>, j: nat, entry: Sent)
    requires Sized(sch) && |sch.keys| == |sent| && SentOk(sch, sent) && j < |sent|
    requires entry.frame == FrameOf(sch, j, |sent[j]|, entry.sender, entry.plaintext)
    ensures SentOk(sch, sent[j := sent[j] + [entry]])
  {}

  lemma SentPrefix(sch: Schedule, sent: seq<seq<Sent>>, k: nat, entry: Sent)
    requires Sized(sch) && |sch.keys| == |sent| && SentOk(sch, sent)
    requires entry.frame == FrameOf(Extended(sch, k), |sch.keys|, 0, entry.sender, entry.plaintext)
    ensures SentOk(Extended(sch, k), sent + [[entry]])
  {}

  lemma {:induction false} RestartKeepsStep(w: World, p: nat)
    requires InStep(w) && p < 2
    ensures InStep(Restarted(w, p))
  {
    var w' := Restarted(w, p);
    var e, e' := w.ends[p], w'.ends[p];
    Ends(w, p);
    SameCache(w.sch, e, e');
    Assembled(w', p);
  }

  /** What a timely delivery does to the receiving end. */
  lemma TimelyEnd(sch: Schedule, p: nat, e: End, senderChain: nat, j: nat, n: nat, sender: Bytes, plaintext: Bytes)
    requires p < 2 && Side(sch, p, e) && Derived(sch)
    requires senderChain < |sch.keys| && senderChain % 2 != p && senderChain + 2 >= |sch.keys|
    requires j < |sch.keys| && j % 2 != p
    requires Timely(e.me, Point(sch.keys[senderChain]), FrameOf(sch, j, n, sender, plaintext))
    ensures var (e', r) := Receiving(e, j, n, FrameOf(sch, j, n, sender, plaintext));
      && Side(sch, p, e') && e'.send == e.send && e'.me.sendNonce == e.me.sendNonce
      && r == (if n >= MAX_WIRE_NONCE then Err(NonceOutOfRange)
               else if (j, n) in e.got then Err(Replay) else Ok(sender, plaintext))
      && e'.got == (if r.Ok? then e.got + {(j, n)} else e.got)
      && (r.Err? ==> e' == e)
  {
    if n >= MAX_WIRE_NONCE {
    } else if Slot(Point(sch.keys[j]), n) in e.me.skipped {
      ReceiveCached(sch, e, j, n, sender, plaintext);
    } else if j == e.recv {
      if e.me.recvNonce <= n {
        ReceiveAhead(sch, e, n, sender, plaintext);
      } else {
        ReceiveReplay(sch, e, n, sender, plaintext);
      }
    } else {
      if j != senderChain { DistinctAt(sch.keys, j, senderChain); }
      DistinctAt(sch.keys, j, e.recv);
      assert j == e.send + 1;
      ReceiveNext(sch, e, j, n, sender, plaintext);
    }
  }

  lemma EndKept(w: World, p: nat, e: End)
    requires WorldShape(w) && p < 2 && EndInStep(w, 1 - p)
    requires WorldShape(w.(ends := w.ends[p := e]))
    ensures EndInStep(w.(ends := w.ends[p := e]), 1 - p)
  {}

  lemma EndPlaced(w: World, p: nat, e: End)
    requires WorldShape(w) && p < 2 && EndInStep(w, p) && Side(w.sch, p, e)
    requires e.send == w.ends[p].send && e.me.sendNonce == w.ends[p].me.sendNonce
    requires WorldShape(w.(ends := w.ends[p := e]))
    ensures EndInStep(w.(ends := w.ends[p := e]), p)
  {}

  lemma EndReplaced(w: World, p: nat, e: End)
    requires InStep(w) && p < 2 && Side(w.sch, p, e)
    requires e.send == w.ends[p].send && e.me.sendNonce == w.ends[p].me.sendNonce
    ensures InStep(w.(ends := w.ends[p := e]))
    ensures e == w.ends[p] ==> w.(ends := w.ends[p := e]) == w
  {
    Ends(w, p);
    EndPlaced(w, p, e);
    EndKept(w, p, e);
    Assembled(w.(ends := w.ends[p := e]), p);
    assert w.ends[p := w.ends[p]] == w.ends;
  }

  ghost predicate Meeting(w: World, p: nat, j: nat, n: nat) {
    && p < 2 == |w.ends| && Derived(w.sch) && j < |w.sch.keys| == |w.sent| && n < |w.sent[j]| && j % 2 != p
    && Side(w.sch, p, w.ends[p]) && Side(w.sch, 1 - p, w.ends[1 - p])
    && w.sent[j][n].frame == FrameOf(w.sch, j, n, w.sent[j][n].sender, w.sent[j][n].plaintext)
  }

  lemma InStepMeets(w: World, p: nat, j: nat, n: nat)
    requires InStep(w) && p < 2 && CanDeliver(w, p, j, n)
    ensures Meeting(w, p, j, n)
  {
    Ends(w, p);
  }

  lemma TimelyArrival(w: World, p: nat, j: nat, n: nat) returns (e': End)
    requires Meeting(w, p, j, n)
    requires Timely(w.ends[p].me, w.ends[1 - p].me.dhPublic, w.sent[j][n].frame)
    ensures e' == Receiving(w.ends[p], j, n, w.sent[j][n].frame).0
    ensures Side(w.sch, p, e') && e'.send == w.ends[p].send && e'.me.sendNonce == w.ends[p].me.sendNonce
    ensures var r := Arrival(w, p, j, n);
      && r == (if n >= MAX_WIRE_NONCE then Err(NonceOutOfRange)
               else if (j, n) in w.ends[p].got then Err(Replay)
               else Ok(w.sent[j][n].sender, w.sent[j][n].plaintext))
      && e'.got == (if r.Ok? then w.ends[p].got + {(j, n)} else w.ends[p].got)
      && (r.Err? ==> e' == w.ends[p])
  {
    var e, entry := w.ends[p], w.sent[j][n];
    e' := Receiving(e, j, n, entry.frame).0;
    SenderChain(w.sch, p, w.ends[1 - p]);
    TimelyEnd(w.sch, p, e, w.ends[1 - p].send, j, n, entry.sender, entry.plaintext);
  }

  /** The other peer sends on one of the two newest chains, under that chain's key. */
  lemma SenderChain(sch: Schedule, p: nat, o: End)
    requires p < 2 && Side(sch, 1 - p, o)
    ensures o.send < |sch.keys| && o.send % 2 != p && o.send + 2 >= |sch.keys| && o.me.dhPublic == Point(sch.keys[o.send])
  {}

  /** Every timely delivery: an out-of-range nonce is refused, a frame already decrypted is a
      replay, and neither changes anything; every other frame yields its sender's plaintext.
      The pair stays in step in all cases. */
  lemma TimelyDelivery(w: World, p: nat, j: nat, n: nat)
    requires InStep(w) && p < 2 && CanDeliver(w, p, j, n)
    requires Timely(w.ends[p].me, w.ends[1 - p].me.dhPublic, w.sent[j][n].frame)
    ensures InStep(Deliver(w, p, j, n))
    ensures Arrival(w, p, j, n) ==
      if n >= MAX_WIRE_NONCE then Err(NonceOutOfRange)
      else if (j, n) in w.ends[p].got then Err(Replay)
      else Ok(w.sent[j][n].sender, w.sent[j][n].plaintext)
    ensures Arrival(w, p, j, n).Err? ==> Deliver(w, p, j, n) == w
    ensures Deliver(w, p, j, n).ends[p].got ==
      w.ends[p].got + if Arrival(w, p, j, n).Ok? then {(j, n)} else {}
  {
    InStepMeets(w, p, j, n);
    var e' := TimelyArrival(w, p, j, n);
    EndReplaced(w, p, e');
  }

  /** An untimely delivery re-enters DhRatchet with a key already left behind. */
  lemma UntimelyEnd(sch: Schedule, p: nat, e: End, o: End, j: nat, n: nat, sender: Bytes, plaintext: Bytes)
    requires Derived(sch) && p < 2 && Side(sch, p, e) && Side(sch, 1 - p, o) && j < |sch.keys| && j % 2 != p
    requires !Timely(e.me, o.me.dhPublic, FrameOf(sch, j, n, sender, plaintext))
    ensures j < e.recv
    ensures var e' := Receiving(e, j, n, FrameOf(sch, j, n, sender, plaintext)).0;
      && e'.send == e.send && e'.recv == j && e'.me.remoteDhPublic == Some(Point(sch.keys[j]))
      && Depth(e'.me.rootKey) == Depth(e'.me.recvCk) == Depth(e.me.rootKey) + 1
  {
    ReceiveStale(e.me, FrameOf(sch, j, n, sender, plaintext));
  }

  /** Any authentic frame of another ratchet key, uncached, moves the root on by one. */
  lemma ReceiveStale(me: Session, f: Frame)
    requires f.nonce < MAX_WIRE_NONCE && Authentic(me.hmacKey, f)
    requires Slot(f.ratchetKey, f.nonce) !in me.skipped && me.remoteDhPublic != Some(f.ratchetKey)
    ensures var me' := Decrypt(me, f).0;
      me'.remoteDhPublic == Some(f.ratchetKey) && Depth(me'.rootKey) == Depth(me'.recvCk) == Depth(me.rootKey) + 1
  {
    StaleTurns(me, f);
    StashKeepsDepth(DhRatchet(me, f.ratchetKey), f.nonce);
  }

  lemma StaleTurns(me: Session, f: Frame)
    requires f.nonce < MAX_WIRE_NONCE && Authentic(me.hmacKey, f)
    requires Slot(f.ratchetKey, f.nonce) !in me.skipped && me.remoteDhPublic != Some(f.ratchetKey)
    ensures Decrypt(me, f).0 == AdvanceRecv(StashUntil(DhRatchet(me, f.ratchetKey), f.nonce))
  {}

  lemma StashKeepsDepth(t: Session, n: nat)
    requires t.recvNonce <= n
    ensures var u := AdvanceRecv(StashUntil(t, n));
      u.remoteDhPublic == t.remoteDhPublic && u.rootKey == t.rootKey && Depth(u.recvCk) == Depth(t.recvCk)
  {
    StashUntilEffect(t, n);
    ChainRank(t.recvCk, n - t.recvNonce);
  }

  lemma LeftBehind(sch: Schedule, p: nat, e: End, j: nat)
    requires Derived(sch) && p < 2 && Side(sch, p, e) && j < e.recv && j % 2 != p
    ensures j + 2 < |sch.keys| && Depth(e.me.rootKey) + 2 >= Depth(sch.base) + |sch.keys|
    ensures Linked(|sch.keys| - 1, p, e.send, j) ==> Depth(e.me.rootKey) + 1 >= Depth(sch.base) + |sch.keys|
  {
    RootDepth(sch, if e.send < e.recv then e.recv else e.send);
  }

  /** The receiver after an untimely delivery: its root lies off the schedule. */
  lemma UntimelyArrival(w: World, p: nat, j: nat, n: nat) returns (e': End)
    requires Meeting(w, p, j, n)
    requires !Timely(w.ends[p].me, w.ends[1 - p].me.dhPublic, w.sent[j][n].frame)
    ensures e' == Receiving(w.ends[p], j, n, w.sent[j][n].frame).0
    ensures j + 2 < |w.sch.keys| && e'.recv == j && e'.me.remoteDhPublic == Some(Point(w.sch.keys[j]))
    ensures Depth(e'.me.rootKey) == Depth(e'.me.recvCk) >= Depth(w.sch.base) + |w.sch.keys| - 1
    ensures Linked(|w.sch.keys| - 1, p, e'.send, j) ==> Depth(e'.me.rootKey) >= Depth(w.sch.base) + |w.sch.keys|
  {
    var e, entry := w.ends[p], w.sent[j][n];
    e' := Receiving(e, j, n, entry.frame).0;
    UntimelyEnd(w.sch, p, e, w.ends[1 - p], j, n, entry.sender, entry.plaintext);
    LeftBehind(w.sch, p, e, j);
  }

  /** A root deeper than the two chains account for is not in step. */
  lemma OffSchedule(w: World, p: nat)
    requires p < 2 && WorldShape(w)
    requires Linked(|w.sch.keys| - 1, p, w.ends[p].send, w.ends[p].recv) ==>
      Depth(w.ends[p].me.rootKey) >= Depth(w.sch.base) + |w.sch.keys|
    ensures !InStep(w)
  {
    var e := w.ends[p];
    if InStep(w) {
      Ends(w, p);
      RootDepth(w.sch, if e.send < e.recv then e.recv else e.send);
      assert false;
    }
  }

  /** Any other delivery ends the agreement on the schedule. */
  lemma UntimelyBreaksStep(w: World, p: nat, j: nat, n: nat)
    requires InStep(w) && p < 2 && CanDeliver(w, p, j, n)
    requires !Timely(w.ends[p].me, w.ends[1 - p].me.dhPublic, w.sent[j][n].frame)
    ensures !InStep(Deliver(w, p, j, n))
  {
    InStepMeets(w, p, j, n);
    var e' := UntimelyArrival(w, p, j, n);
    var w' := w.(ends := w.ends[p := e']);
    if InStep(w') { OffSchedule(w', p); }
  }

  /** The side condition is exact: a delivery keeps the pair in step if and only if it is timely. */
  lemma InStepIffTimely(w: World, p: nat, j: nat, n: nat)
    requires InStep(w) && p < 2 && CanDeliver(w, p, j, n)
    ensures InStep(Deliver(w, p, j, n)) <==> Timely(w.ends[p].me, w.ends[1 - p].me.dhPublic, w.sent[j][n].frame)
  {
    if Timely(w.ends[p].me, w.ends[1 - p].me.dhPublic, w.sent[j][n].frame) {
      TimelyDelivery(w, p, j, n);
    } else {
      UntimelyBreaksStep(w, p, j, n);
    }
  }

  predicate Adjacent(a: Term, b: Term) {
    || a == b
    || (a.Expand? && a == RootBlock(a.ikm, b, 1))
    || (b.Expand? && b == RootBlock(b.ikm, a, 1))
  }

  /** The two root keys are equal, or one is the other's next derivation. */
  lemma InStepRoots(w: World)
    requires InStep(w)
    ensures Adjacent(w.ends[0].me.rootKey, w.ends[1].me.rootKey)
  {
    Ends(w, 0);
    var top := |w.sch.keys| - 1;
    if top >= 2 { assert Turn(w.sch, top); }
  }
}
