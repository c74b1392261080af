/** Reachable runs on which an expected property of the code fails. */
module Counterexamples {
  import opened Terms
  import opened Ratchet
  import opened Duplex
  import opened Conversation
  import Handshakes
  import Deafness

  // ---- a frame of an epoch left behind ----

  /** As a handshake leaves a pair: nothing sent, and peer 0 owes the first ratchet. */
  ghost predicate JustOpened(w: World) {
    && InStep(w) && |w.sch.keys| == 2 && w.sent == [[], []]
    && w.ends[0].me.pendingDhRatchet && !w.ends[1].me.pendingDhRatchet
    && w.ends[0].send == 0 && w.ends[0].recv == 1 && w.ends[1].send == 1 && w.ends[1].recv == 0
    && w.ends[0].me.skipped == map[] && w.ends[1].me.skipped == map[]
    && w.ends[0].got == {} && w.ends[1].got == {}
  }

  /** Peer 1 speaks, peer 0 turns the ratchet, peer 1 turns it back, and both turns arrive
      before the first frame does. */
  function LateFrame(d0: nat, d2: nat, d3: nat): seq<Move> {
    [Say(1, [], [], d0), Say(0, [], [], d2), Hand(1, 2, 0), Say(1, [], [], d3), Hand(0, 3, 0)]
  }

  lemma SayTurns(w: World, p: nat, drawn: nat)
    requires InStep(w) && p < 2 && drawn !in w.sch.keys && w.ends[p].me.pendingDhRatchet
    ensures Legal(w, Say(p, [], [], drawn))
    ensures var w' := Apply(w, Say(p, [], [], drawn));
      && InStep(w') && w'.sch.keys == w.sch.keys + [drawn] && |w'.sent| == |w.sent| + 1 && |w'.sent[|w.sent|]| == 1
      && (forall j :: 0 <= j < |w.sent| ==> w'.sent[j] == w.sent[j])
      && w'.ends[1 - p] == w.ends[1 - p] && w'.ends[p].recv == w.ends[p].recv && w'.ends[p].send == |w.sch.keys|
      && w'.ends[p].me.skipped == w.ends[p].me.skipped && w'.ends[p].me.remoteDhPublic == w.ends[p].me.remoteDhPublic
  {
    Ends(w, p);
    SendKeepsStep(w, p, [], [], drawn);
  }

  lemma HandTurns(w: World, p: nat, j: nat)
    requires InStep(w) && p < 2 && CanDeliver(w, p, j, 0) && j == w.ends[1 - p].send != w.ends[p].recv && w.ends[p].me.skipped == map[]
    ensures Legal(w, Hand(p, j, 0))
    ensures var w' := Apply(w, Hand(p, j, 0));
      && InStep(w') && w'.sch == w.sch && w'.sent == w.sent && w'.ends[1 - p] == w.ends[1 - p]
      && w'.ends[p].send == w.ends[p].send && w'.ends[p].recv == j
      && w'.ends[p].me.skipped == map[] && w'.ends[p].me.pendingDhRatchet
      && w'.ends[p].me.remoteDhPublic == Some(Point(w.sch.keys[j]))
  {
    InStepMeets(w, p, j, 0);
    TimelyDelivery(w, p, j, 0);
    DistinctAt(w.sch.keys, w.ends[p].recv, j);
    ReceivesAtZero(w.ends[p], j, w.sent[j][0].frame);
  }

  lemma ReceivesAtZero(e: End, j: nat, f: Frame)
    requires f.nonce == 0 && Authentic(e.me.hmacKey, f) && e.me.skipped == map[] && e.me.remoteDhPublic != Some(f.ratchetKey)
    ensures var e' := Receiving(e, j, 0, f).0;
      && e'.send == e.send && e'.recv == j && e'.me.skipped == map[] && e'.me.pendingDhRatchet
      && e'.me.remoteDhPublic == Some(f.ratchetKey)
  {
  }

  lemma LateSteps(w: World, d0: nat, d2: nat, d3: nat) returns (w1: World, w2: World, w3: World, w4: World, w5: World)
    requires JustOpened(w) && d0 !in w.sch.keys && d2 !in w.sch.keys && d3 !in w.sch.keys && d2 != d3
    ensures Leads(w, Say(1, [], [], d0), w1) && Leads(w1, Say(0, [], [], d2), w2) && Leads(w2, Hand(1, 2, 0), w3)
    ensures Leads(w3, Say(1, [], [], d3), w4) && Leads(w4, Hand(0, 3, 0), w5) && Deafness.UntimelyAt(w5, 0, 1, 0)
  {
    FirstWords(w, d0);
    w1 := Apply(w, Say(1, [], [], d0));
    SayTurns(w1, 0, d2);
    w2 := Apply(w1, Say(0, [], [], d2));
    HandTurns(w2, 1, 2);
    w3 := Apply(w2, Hand(1, 2, 0));
    SayTurns(w3, 1, d3);
    w4 := Apply(w3, Say(1, [], [], d3));
    HandTurns(w4, 0, 3);
    w5 := Apply(w4, Hand(0, 3, 0));
    LeftBehindNow(w5);
  }

  predicate Leads(w: World, m: Move, w': World) { Legal(w, m) && w' == Apply(w, m) }

  predicate LeadsAt(ms: seq<Move>, ws: seq<World>, i: nat) { i < |ms| && i + 1 < |ws| && Leads(ws[i], ms[i], ws[i + 1]) }

  ghost predicate Stepping(ms: seq<Move>, ws: seq<World>) {
    |ws| == |ms| + 1 && forall i: nat :: i < |ms| ==> LeadsAt(ms, ws, i)
  }

  lemma {:induction false} SteppedTo(ms: seq<Move>, ws: seq<World>, n: nat)
    requires Stepping(ms, ws) && n <= |ms|
    ensures At(ws[0], ms, n) == ws[n] && (n < |ms| ==> LegalAt(ws[0], ms, n))
  {
    if n > 0 {
      SteppedTo(ms, ws, n - 1);
      assert LeadsAt(ms, ws, n - 1);
    }
    if n < |ms| { assert LeadsAt(ms, ws, n); }
  }

  lemma SteppingRun(ms: seq<Move>, ws: seq<World>)
    requires Stepping(ms, ws) && InStep(ws[0]) && ws[0].ends[0].got == {} && ws[0].ends[1].got == {}
    ensures Run(ws[0], ms) && At(ws[0], ms, |ms|) == ws[|ms|]
  {
    forall i: nat | i < |ms| ensures LegalAt(ws[0], ms, i) { SteppedTo(ms, ws, i); }
    SteppedTo(ms, ws, |ms|);
  }

  /** The frame that waited is then of an epoch its receiver has left, and not cached. */
  lemma LateFrameIsUntimely(w: World, d0: nat, d2: nat, d3: nat)
    requires JustOpened(w) && d0 !in w.sch.keys && d2 !in w.sch.keys && d3 !in w.sch.keys && d2 != d3
    ensures var ms := LateFrame(d0, d2, d3); Run(w, ms) && Deafness.UntimelyAt(At(w, ms, |ms|), 0, 1, 0)
  {
    var ms := LateFrame(d0, d2, d3);
    var w1, w2, w3, w4, w5 := LateSteps(w, d0, d2, d3);
    FiveSteps(w, Say(1, [], [], d0), w1, Say(0, [], [], d2), w2, Hand(1, 2, 0), w3, Say(1, [], [], d3), w4, Hand(0, 3, 0), w5);
    SteppingRun(ms, [w, w1, w2, w3, w4, w5]);
  }

  lemma FiveSteps(a: World, m: Move, b: World, n: Move, c: World, k: Move, d: World, l: Move, e: World, o: Move, f: World)
    requires Leads(a, m, b) && Leads(b, n, c) && Leads(c, k, d) && Leads(d, l, e) && Leads(e, o, f)
    ensures Stepping([m, n, k, l, o], [a, b, c, d, e, f])
  {
    var ms, ws := [m, n, k, l, o], [a, b, c, d, e, f];
    forall i: nat | i < 5 ensures LeadsAt(ms, ws, i) {
      assert i == 0 || i == 1 || i == 2 || i == 3 || i == 4;
    }
  }

  lemma FirstWords(w: World, drawn: nat)
    requires JustOpened(w) && drawn !in w.sch.keys
    ensures Legal(w, Say(1, [], [], drawn))
    ensures var w' := Apply(w, Say(1, [], [], drawn));
      && InStep(w') && w'.sch == w.sch && |w'.sent| == 2 && |w'.sent[0]| == 0 && |w'.sent[1]| == 1
      && w'.ends[0] == w.ends[0] && w'.ends[1].send == 1 && w'.ends[1].recv == 0
      && w'.ends[1].me.skipped == map[]
  {
    SendKeepsStep(w, 1, [], [], drawn);
  }

  lemma LeftBehindNow(w: World)
    requires InStep(w) && |w.sch.keys| == 4 && |w.sent[1]| == 1 && w.ends[0].recv == 3 && w.ends[1].send == 3
    requires w.ends[0].me.skipped == map[]
    ensures Deafness.UntimelyAt(w, 0, 1, 0)
  {
    Ends(w, 0);
    InStepMeets(w, 0, 1, 0);
    DistinctAt(w.sch.keys, 1, 3);
  }

  /** Every honest handshake leads there: a lost race of two frames parts the peers for good. */
  lemma HonestPeersCanPart(h: Handshakes.Hashes, r: Handshakes.Honest, d0: nat, d2: nat, d3: nat)
    requires Handshakes.HonestRun(h, r) && h.sha256(Handshakes.Ed(r.a.edSecret)) != h.sha256(Handshakes.Ed(r.b.edSecret))
    requires r.da.dh != r.db.dh && d0 !in {r.da.dh, r.db.dh} && d2 !in {r.da.dh, r.db.dh} && d3 !in {r.da.dh, r.db.dh} && d2 != d3
    ensures var w := Handshakes.FirstWorld(h, r);
      var ms := LateFrame(d0, d2, d3);
      && Run(w, ms) && Deafness.UntimelyAt(At(w, ms, |ms|), 0, 1, 0) && !InStep(Deliver(At(w, ms, |ms|), 0, 1, 0))
  {
    var w, ms := Handshakes.FirstWorld(h, r), LateFrame(d0, d2, d3);
    Handshakes.HandshakePutsInStep(h, r);
    Handshakes.HonestSessionsMirror(h, r);
    LateFrameIsUntimely(w, d0, d2, d3);
    UntimelyBreaksStep(At(w, ms, |ms|), 0, 1, 0);
  }
}
