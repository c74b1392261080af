/** Whole conversations: every run of sends, deliveries and restarts after a handshake. */
module Conversation {
  import opened Terms
  import opened Ratchet
  import opened Duplex

  datatype Move =
    | Say(p: nat, sender: Bytes, plaintext: Bytes, drawn: nat)
    | Hand(p: nat, chain: nat, nonce: nat)
    | Reload(p: nat)

  /** A scalar is never drawn twice, and a delivery is timely. Nothing else is asked: frames
      may be lost, repeated and reordered, and either process may restart at any time. */
  predicate Legal(w: World, m: Move) {
    && |w.ends| == 2 && m.p < 2 && Sized(w.sch)
    && match m
       case Say(p, _, _, drawn) => drawn !in w.sch.keys && w.ends[p].send < |w.sent| == |w.sch.keys|
       case Hand(p, j, n) => CanDeliver(w, p, j, n) && Timely(w.ends[p].me, w.ends[1 - p].me.dhPublic, w.sent[j][n].frame)
       case Reload(_) => true
  }

  function Apply(w: World, m: Move): World {
    if !Legal(w, m) then w else
      match m
      case Say(p, sender, plaintext, drawn) => Send(w, p, sender, plaintext, drawn)
      case Hand(p, j, n) => Deliver(w, p, j, n)
      case Reload(p) => Restarted(w, p)
  }

  /** The world after the first `n` moves. */
  function At(w: World, ms: seq<Move>, n: nat): World
    requires n <= |ms|
  {
    if n == 0 then w else Apply(At(w, ms, n - 1), ms[n - 1])
  }

  predicate LegalAt(w: World, ms: seq<Move>, i: nat)
    requires i < |ms|
  {
    Legal(At(w, ms, i), ms[i])
  }

  ghost predicate Run(w: World, ms: seq<Move>) {
    && InStep(w) && w.ends[0].got == {} && w.ends[1].got == {}
    && (forall i: nat :: i < |ms| ==> LegalAt(w, ms, i))
  }

  lemma ApplyKeepsStep(w: World, m: Move)
    requires InStep(w) && Legal(w, m)
    ensures InStep(Apply(w, m))
  {
    match m
    case Say(p, sender, plaintext, drawn) => SendKeepsStep(w, p, sender, plaintext, drawn);
    case Hand(p, j, n) => TimelyDelivery(w, p, j, n);
    case Reload(p) => RestartKeepsStep(w, p);
  }

  /** Two peers stay in step for ever: the invariant holds after every prefix of every run. */
  lemma {:induction false} StaysInStep(w: World, ms: seq<Move>, n: nat)
    requires Run(w, ms) && n <= |ms|
    ensures InStep(At(w, ms, n))
  {
    if n > 0 {
      StaysInStep(w, ms, n - 1);
      assert LegalAt(w, ms, n - 1);
      ApplyKeepsStep(At(w, ms, n - 1), ms[n - 1]);
    }
  }

  // ---- each frame is decrypted exactly once ----

  lemma GotAfter(w: World, m: Move, p: nat)
    requires InStep(w) && Legal(w, m) && p < 2
    ensures |Apply(w, m).ends| == 2
    ensures Apply(w, m).ends[p].got == w.ends[p].got +
      if m.Hand? && m.p == p && m.nonce < MAX_WIRE_NONCE then {(m.chain, m.nonce)} else {}
  {
    match m
    case Say(q, sender, plaintext, drawn) =>
    case Hand(q, j, n) => TimelyDelivery(w, q, j, n);
    case Reload(q) =>
  }

  lemma {:induction false} GotIffHanded(w: World, ms: seq<Move>, n: nat, p: nat, j: nat, k: nat)
    requires Run(w, ms) && n <= |ms| && p < 2
    ensures |At(w, ms, n).ends| == 2
    ensures (j, k) in At(w, ms, n).ends[p].got <==> k < MAX_WIRE_NONCE && Hand(p, j, k) in ms[..n]
  {
    StaysInStep(w, ms, n);
    if n > 0 {
      StaysInStep(w, ms, n - 1);
      GotIffHanded(w, ms, n - 1, p, j, k);
      assert LegalAt(w, ms, n - 1);
      GotAfter(At(w, ms, n - 1), ms[n - 1], p);
      assert ms[..n] == ms[..n - 1] + [ms[n - 1]];
    } else {
      assert p == 0 || p == 1;
    }
  }

  /** In every run each delivered frame gives exactly its sender's name and plaintext the first
      time it arrives and `Replay` every later time; a nonce out of range is always refused. */
  lemma EachFrameOnce(w: World, ms: seq<Move>, i: nat)
    requires Run(w, ms) && i < |ms| && ms[i].Hand?
    ensures var v, m := At(w, ms, i), ms[i];
      && CanDeliver(v, m.p, m.chain, m.nonce)
      && Arrival(v, m.p, m.chain, m.nonce) ==
           if m.nonce >= MAX_WIRE_NONCE then Err(NonceOutOfRange)
           else if m in ms[..i] then Err(Replay)
           else Ok(v.sent[m.chain][m.nonce].sender, v.sent[m.chain][m.nonce].plaintext)
  {
    var v, m := At(w, ms, i), ms[i];
    StaysInStep(w, ms, i);
    assert LegalAt(w, ms, i);
    TimelyDelivery(v, m.p, m.chain, m.nonce);
    GotIffHanded(w, ms, i, m.p, m.chain, m.nonce);
  }

  // ---- turns and roots ----

  predicate TurnsAt(w: World, ms: seq<Move>, i: nat)
    requires i < |ms|
  {
    |At(w, ms, i + 1).sch.keys| != |At(w, ms, i).sch.keys|
  }

  /** A turn adds one key, and is made by the peer whose turn it is. */
  lemma TurnIsOwners(w: World, ms: seq<Move>, i: nat)
    requires Run(w, ms) && i < |ms| && TurnsAt(w, ms, i)
    ensures |At(w, ms, i + 1).sch.keys| == |At(w, ms, i).sch.keys| + 1
    ensures |At(w, ms, i).sch.keys| % 2 == ms[i].p
  {
    var v, m := At(w, ms, i), ms[i];
    StaysInStep(w, ms, i);
    assert LegalAt(w, ms, i);
    if m.Say? { SendKeepsStep(v, m.p, m.sender, m.plaintext, m.drawn); }
  }

  lemma {:induction false} NoTurnBetween(w: World, ms: seq<Move>, i: nat, k: nat)
    requires i <= k <= |ms| && forall x :: i <= x < k ==> !TurnsAt(w, ms, x)
    ensures |At(w, ms, k).sch.keys| == |At(w, ms, i).sch.keys|
    decreases k - i
  {
    if i < k {
      NoTurnBetween(w, ms, i, k - 1);
      assert !TurnsAt(w, ms, k - 1);
    }
  }

  /** Ratchet turns alternate strictly: between two turns of one peer lies one of the other. */
  lemma TurnsAlternate(w: World, ms: seq<Move>, i: nat, k: nat)
    requires Run(w, ms) && i < k < |ms| && TurnsAt(w, ms, i) && TurnsAt(w, ms, k)
    requires forall x :: i < x < k ==> !TurnsAt(w, ms, x)
    ensures ms[i].p != ms[k].p
  {
    TurnIsOwners(w, ms, i);
    NoTurnBetween(w, ms, i + 1, k);
    TurnIsOwners(w, ms, k);
    OtherParity(KeysAt(w, ms, i), KeysAt(w, ms, k), ms[i].p, ms[k].p);
  }

  lemma OtherParity(m: nat, n: nat, p: nat, q: nat)
    requires n == m + 1 && m % 2 == p && n % 2 == q
    ensures p != q
  {}

  function KeysAt(w: World, ms: seq<Move>, n: nat): nat
    requires n <= |ms|
  {
    |At(w, ms, n).sch.keys|
  }

  /** The two root keys are equal, or one is the other's next derivation. */
  lemma RootsAdjacent(w: World, ms: seq<Move>, n: nat)
    requires Run(w, ms) && n <= |ms|
    ensures |At(w, ms, n).ends| == 2
    ensures Adjacent(At(w, ms, n).ends[0].me.rootKey, At(w, ms, n).ends[1].me.rootKey)
  {
    StaysInStep(w, ms, n);
    InStepRoots(At(w, ms, n));
  }

  predicate SaidAfterRestart(ms: seq<Move>, i: nat)
    requires i < |ms|
  {
    ms[i].Say? ==> 0 < i && ms[i - 1] == Reload(ms[i].p)
  }

  /** A process that restarts before each send never turns the ratchet: its session stays in
      the epoch it was saved in, and by EachFrameOnce still delivers every frame. */
  lemma {:induction false} RestartsFreezeEpoch(w: World, ms: seq<Move>, n: nat)
    requires Run(w, ms) && n <= |ms|
    requires forall i: nat :: i < |ms| ==> SaidAfterRestart(ms, i)
    ensures At(w, ms, n).sch == w.sch
  {
    if n > 0 {
      RestartsFreezeEpoch(w, ms, n - 1);
      assert LegalAt(w, ms, n - 1) && SaidAfterRestart(ms, n - 1);
      if ms[n - 1].Say? {
        assert LegalAt(w, ms, n - 2);
        assert At(w, ms, n - 1) == Restarted(At(w, ms, n - 2), ms[n - 2].p);
      }
    }
  }

  // ---- from a send to its delivery ----

  lemma SentOneMove(w: World, m: Move, j: nat, n: nat)
    requires j < |w.sent| && n < |w.sent[j]|
    ensures var w' := Apply(w, m); j < |w'.sent| && n < |w'.sent[j]| && w'.sent[j][n] == w.sent[j][n]
  {}

  /** A frame once sent stays what it was. */
  lemma {:induction false} SentStays(w: World, ms: seq<Move>, a: nat, b: nat, j: nat, n: nat)
    requires a <= b <= |ms| && j < |At(w, ms, a).sent| && n < |At(w, ms, a).sent[j]|
    ensures j < |At(w, ms, b).sent| && n < |At(w, ms, b).sent[j]| && At(w, ms, b).sent[j][n] == At(w, ms, a).sent[j][n]
    decreases b - a
  {
    if a < b {
      SentStays(w, ms, a, b - 1, j, n);
      SentOneMove(At(w, ms, b - 1), ms[b - 1], j, n);
    }
  }

  /** Where the frame of send `a` stands: its chain and its nonce. */
  function PlaceOf(w: World, ms: seq<Move>, a: nat): (nat, nat)
    requires a < |ms| && ms[a].p < |At(w, ms, a + 1).ends|
  {
    var v := At(w, ms, a + 1);
    var j := v.ends[ms[a].p].send;
    (j, if j < |v.sent| && v.sent[j] != [] then |v.sent[j]| - 1 else 0)
  }

  /** A send leaves the frame its session sealed at that place, for the other peer. */
  lemma SaidFrame(w: World, ms: seq<Move>, a: nat)
    requires Run(w, ms) && a < |ms| && ms[a].Say?
    ensures ms[a].p < |At(w, ms, a).ends| && ms[a].p < |At(w, ms, a + 1).ends|
    ensures var v, v', m := At(w, ms, a), At(w, ms, a + 1), ms[a];
      var (j, n) := PlaceOf(w, ms, a);
      && j % 2 == m.p < 2 && j < |v'.sent| && n < |v'.sent[j]|
      && v'.sent[j][n] == Sent(m.sender, m.plaintext, Encrypt(v.ends[m.p].me, m.sender, m.plaintext, m.drawn).1)
      && v'.ends[m.p].me == Encrypt(v.ends[m.p].me, m.sender, m.plaintext, m.drawn).0
  {
    StaysInStep(w, ms, a);
    assert LegalAt(w, ms, a);
    SendLeaves(At(w, ms, a), ms[a]);
  }

  lemma SendLeaves(v: World, m: Move)
    requires InStep(v) && m.Say? && Legal(v, m)
    ensures m.p < |v.ends| && m.p < |Apply(v, m).ends|
    ensures var v' := Apply(v, m);
      var j := v'.ends[m.p].send;
      && j % 2 == m.p < 2 && j < |v'.sent| && v'.sent[j] != []
      && v'.sent[j][|v'.sent[j]| - 1] == Sent(m.sender, m.plaintext, Encrypt(v.ends[m.p].me, m.sender, m.plaintext, m.drawn).1)
      && v'.ends[m.p].me == Encrypt(v.ends[m.p].me, m.sender, m.plaintext, m.drawn).0
  {
    Ends(v, m.p);
    if v.ends[m.p].me.pendingDhRatchet { TurnKeepsStep(v, m.p, m.sender, m.plaintext, m.drawn); }
  }

  /** So a later delivery of that place hands over that very frame, with the outcome known. */
  lemma SaidThenHanded(w: World, ms: seq<Move>, a: nat, b: nat)
    requires Run(w, ms) && a < b < |ms| && ms[a].Say? && ms[a].p < |At(w, ms, a + 1).ends|
    requires ms[b].Hand? && (ms[b].chain, ms[b].nonce) == PlaceOf(w, ms, a)
    ensures var v, m, h := At(w, ms, b), ms[a], ms[b];
      && m.p < |At(w, ms, a).ends| && CanDeliver(v, h.p, h.chain, h.nonce)
      && v.sent[h.chain][h.nonce] == Sent(m.sender, m.plaintext, Encrypt(At(w, ms, a).ends[m.p].me, m.sender, m.plaintext, m.drawn).1)
      && Arrival(v, h.p, h.chain, h.nonce) ==
           if h.nonce >= MAX_WIRE_NONCE then Err(NonceOutOfRange)
           else if h in ms[..b] then Err(Replay) else Ok(m.sender, m.plaintext)
  {
    SaidFrame(w, ms, a);
    SentStays(w, ms, a + 1, b, ms[b].chain, ms[b].nonce);
    EachFrameOnce(w, ms, b);
  }
}
