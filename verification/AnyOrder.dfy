/** One chain delivered in any order at all. */
module AnyOrder {
  import opened Terms
  import opened Ratchet
  import opened Duplex

  /** Chain `j` is one that peer `p` may be handed frames of: the one its peer sends on now,
      taken up or not, or the one it is receiving on. */
  predicate Open(w: World, p: nat, j: nat) {
    && p < 2 && WorldShape(w) && j < |w.sent| && j % 2 != p
    && (j == w.ends[1 - p].send || j == w.ends[p].recv)
  }

  predicate Deliverable(w: World, p: nat, j: nat, order: seq<nat>) {
    Open(w, p, j) && forall i :: 0 <= i < |order| ==> order[i] < |w.sent[j]| && order[i] < MAX_WIRE_NONCE
  }

  /** The world once the first `k` frames of `order`, all of chain `j`, have been handed to `p`. */
  function Dealt(w: World, p: nat, j: nat, order: seq<nat>, k: nat): (w': World)
    requires Deliverable(w, p, j, order) && k <= |order|
    ensures w'.sch == w.sch && w'.sent == w.sent && |w'.ends| == 2 && w'.ends[1 - p] == w.ends[1 - p]
  {
    if k == 0 then w else Deliver(Dealt(w, p, j, order, k - 1), p, j, order[k - 1])
  }

  function Outcome(w: World, p: nat, j: nat, order: seq<nat>, k: nat): Result
    requires Deliverable(w, p, j, order) && k < |order|
  {
    Arrival(Dealt(w, p, j, order, k), p, j, order[k])
  }

  /** A frame decrypted before, or dealt before, is a replay; any other gives its plaintext. */
  function Expected(w: World, p: nat, j: nat, order: seq<nat>, k: nat): Result
    requires Deliverable(w, p, j, order) && k < |order|
  {
    var n := order[k];
    if (j, n) in w.ends[p].got || n in order[..k] then Err(Replay)
    else Ok(w.sent[j][n].sender, w.sent[j][n].plaintext)
  }

  /** What holds on the way: the chain is still open, what has been decrypted on it is what
      was decrypted before plus what `order` has dealt, and its counter has not run past it. */
  ghost predicate Along(w: World, p: nat, j: nat, order: seq<nat>, k: nat)
    requires Deliverable(w, p, j, order) && k <= |order|
  {
    var u := Dealt(w, p, j, order, k);
    && InStep(u) && Open(u, p, j)
    && (forall n: nat :: (j, n) in u.ends[p].got <==> (j, n) in w.ends[p].got || n in order[..k])
    && (Within(w, p, j) ==> Within(u, p, j))
  }

  predicate Within(w: World, p: nat, j: nat)
    requires p < |w.ends| && j < |w.sent|
  {
    w.ends[p].recv == j ==> w.ends[p].me.recvNonce <= |w.sent[j]|
  }

  lemma ReceivedEnd(e: End, j: nat, n: nat, f: Frame)
    requires f.nonce == n < MAX_WIRE_NONCE
    ensures var e' := Receiving(e, j, n, f).0;
      && (e.recv == j ==> e'.recv == j)
      && (e.me.remoteDhPublic == Some(f.ratchetKey) ==>
            e'.recv == e.recv && (e'.me.recvNonce == e.me.recvNonce || e'.me.recvNonce == n + 1))
      && (e'.recv != e.recv ==> e'.me.recvNonce == n + 1)
  {
    StashUntilEffect(Turned(e.me, f.ratchetKey), n);
  }

  /** Delivering one frame of an open chain, whether or not it turns the ratchet. */
  lemma OpenFrame(u: World, p: nat, j: nat, n: nat)
    requires InStep(u) && Open(u, p, j) && n < |u.sent[j]| && n < MAX_WIRE_NONCE
    ensures var u' := Deliver(u, p, j, n);
      && InStep(u') && Open(u', p, j) && u'.ends[p].got == u.ends[p].got + {(j, n)}
      && (Within(u, p, j) ==> Within(u', p, j))
      && Arrival(u, p, j, n) == if (j, n) in u.ends[p].got then Err(Replay) else Ok(u.sent[j][n].sender, u.sent[j][n].plaintext)
  {
    InStepMeets(u, p, j, n);
    TimelyDelivery(u, p, j, n);
    ReceivedEnd(u.ends[p], j, n, u.sent[j][n].frame);
  }

  /** At every point of every order, with repeats: each frame gives its plaintext once. */
  lemma {:induction false} AlongAt(w: World, p: nat, j: nat, order: seq<nat>, k: nat)
    requires InStep(w) && Deliverable(w, p, j, order) && k <= |order|
    ensures Along(w, p, j, order, k)
    ensures k < |order| ==> Outcome(w, p, j, order, k) == Expected(w, p, j, order, k)
  {
    if k > 0 {
      AlongAt(w, p, j, order, k - 1);
      AlongNext(w, p, j, order, k - 1);
    }
    if k < |order| { OpenFrame(Dealt(w, p, j, order, k), p, j, order[k]); }
  }

  lemma AlongNext(w: World, p: nat, j: nat, order: seq<nat>, k: nat)
    requires Deliverable(w, p, j, order) && k < |order| && Along(w, p, j, order, k)
    ensures Along(w, p, j, order, k + 1)
  {
    OpenFrame(Dealt(w, p, j, order, k), p, j, order[k]);
    assert order[..k + 1] == order[..k] + [order[k]];
  }

  // ---- permutations ----

  predicate NoRepeats(s: seq<nat>) { forall i, j :: 0 <= i < j < |s| ==> s[i] != s[j] }

  predicate Permutation(order: seq<nat>) {
    (forall i :: 0 <= i < |order| ==> order[i] < |order|) && NoRepeats(order)
  }

  function Below(n: nat): (r: set<nat>)
    ensures |r| == n && forall i: nat :: i in r <==> i < n
  {
    if n == 0 then {} else Below(n - 1) + {n - 1}
  }

  function Elements(s: seq<nat>): (r: set<nat>)
    ensures forall x :: x in r <==> x in s
  {
    if s == [] then {} else Elements(s[..|s| - 1]) + {s[|s| - 1]}
  }

  lemma {:induction false} DistinctSize(s: seq<nat>)
    requires NoRepeats(s)
    ensures |Elements(s)| == |s|
  {
    if s != [] {
      DistinctSize(s[..|s| - 1]);
    }
  }

  lemma PermutationCovers(order: seq<nat>, n: nat)
    requires Permutation(order) && n < |order|
    ensures n in order
  {
    DistinctSize(order);
    var rest := Below(|order|) - Elements(order);
    assert Elements(order) <= Below(|order|);
    assert |rest| == 0;
    assert n in Below(|order|) && n !in rest;
  }

  /** Every permutation of the frames of a chain none of which has been decrypted yet, be it
      a chain of the handshake or one whose first frame to arrive turns the ratchet: every
      frame decrypts, each to its own plaintext, and no key of the chain stays in the cache. */
  lemma EveryPermutation(w: World, p: nat, j: nat, order: seq<nat>)
    requires InStep(w) && Deliverable(w, p, j, order) && Permutation(order) && |order| == |w.sent[j]|
    requires forall n: nat :: (j, n) !in w.ends[p].got
    ensures forall k: nat :: k < |order| ==>
      Outcome(w, p, j, order, k) == Ok(w.sent[j][order[k]].sender, w.sent[j][order[k]].plaintext)
    ensures var e := Dealt(w, p, j, order, |order|).ends[p];
      && (order != [] ==> e.recv == j && e.me.recvNonce == |order|)
      && (forall n: nat :: Slot(Point(w.sch.keys[j]), n) !in e.me.skipped)
  {
    Ends(w, p);
    forall k: nat | k < |order|
      ensures Outcome(w, p, j, order, k) == Ok(w.sent[j][order[k]].sender, w.sent[j][order[k]].plaintext)
    {
      AlongAt(w, p, j, order, k);
    }
    AlongAt(w, p, j, order, |order|);
    AllDelivered(w, p, j, order);
  }

  lemma AllDelivered(w: World, p: nat, j: nat, order: seq<nat>)
    requires Deliverable(w, p, j, order) && Permutation(order) && Along(w, p, j, order, |order|)
    requires |order| == |w.sent[j]| && Within(w, p, j)
    ensures var e := Dealt(w, p, j, order, |order|).ends[p];
      && (order != [] ==> e.recv == j && e.me.recvNonce == |order|)
      && (forall n: nat :: Slot(Point(w.sch.keys[j]), n) !in e.me.skipped)
  {
    var u := Dealt(w, p, j, order, |order|);
    forall n: nat | n < |order| ensures (j, n) in u.ends[p].got {
      PermutationCovers(order, n);
      assert order[..|order|] == order;
    }
    NothingLeft(u, p, j);
  }

  /** Once every frame of an open chain is decrypted, nothing of it is cached. */
  lemma NothingLeft(u: World, p: nat, j: nat)
    requires InStep(u) && Open(u, p, j) && Within(u, p, j)
    requires forall n: nat :: n < |u.sent[j]| ==> (j, n) in u.ends[p].got
    ensures u.sent[j] != [] ==> u.ends[p].recv == j && u.ends[p].me.recvNonce == |u.sent[j]|
    ensures forall n: nat :: Slot(Point(u.sch.keys[j]), n) !in u.ends[p].me.skipped
  {
    Ends(u, p);
    var e, count := u.ends[p], |u.sent[j]|;
    if count > 0 {
      assert (j, count - 1) in e.got;
      assert j <= e.recv;
    }
    forall n: nat ensures Slot(Point(u.sch.keys[j]), n) !in e.me.skipped {
      assert SlotOk(u.sch, e, j, n);
    }
  }

  /** At every point the cache under the current ratchet key holds exactly the keys of the
      indices below `recvNonce` that have not been decrypted, each the sender's own key. */
  lemma CacheIsExact(w: World, p: nat, n: nat)
    requires InStep(w) && p < 2
    ensures var e := w.ends[p];
      && e.recv < |w.sch.keys|
      && (Slot(Point(w.sch.keys[e.recv]), n) in e.me.skipped <==> n < e.me.recvNonce && (e.recv, n) !in e.got)
      && (Slot(Point(w.sch.keys[e.recv]), n) in e.me.skipped ==>
            e.me.skipped[Slot(Point(w.sch.keys[e.recv]), n)] == KeyOf(w.sch, e.recv, n))
  {
    Ends(w, p);
    var e := w.ends[p];
    assert SlotOk(w.sch, e, e.recv, n);
  }
}
