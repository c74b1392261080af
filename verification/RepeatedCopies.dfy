/** A reachable run on which a recipient that restarts is brought one group message twice. */
module RepeatedCopies {
  import opened Terms
  import opened Ratchet
  import opened Duplex
  import opened Conversation
  import opened Counterexamples
  import Contexts
  import Delivery
  import Fanouts
  import FanoutRuns

  /** Peer 1 is the sender, peer 0 the recipient, on the chains of the handshake. */
  ghost predicate Talking(w: World) {
    && InStep(w) && |w.sch.keys| == 2 && |w.sent| == 2
    && w.ends[1].send == 1 && !w.ends[1].me.pendingDhRatchet
  }

  lemma SaysOn(w: World, sender: Bytes, plaintext: Bytes, drawn: nat)
    requires Talking(w) && drawn !in w.sch.keys
    ensures var m := Say(1, sender, plaintext, drawn);
      var w' := Apply(w, m);
      && Leads(w, m, w') && Talking(w') && w'.sch == w.sch && |w'.sent[1]| == |w.sent[1]| + 1
      && w'.sent[1][..|w.sent[1]|] == w.sent[1]
      && w'.sent[1][|w.sent[1]|].sender == sender && w'.sent[1][|w.sent[1]|].plaintext == plaintext
  {
    SendKeepsStep(w, 1, sender, plaintext, drawn);
  }

  lemma HandedOn(w: World, n: nat)
    requires Talking(w) && n < |w.sent[1]|
    ensures var w' := Apply(w, Hand(0, 1, n)); Leads(w, Hand(0, 1, n), w') && Talking(w') && w'.sent == w.sent
  {
    InStepMeets(w, 0, 1, n);
    TimelyDelivery(w, 0, 1, n);
  }

  lemma Reloaded(w: World)
    requires Talking(w)
    ensures var w' := Apply(w, Reload(0)); Leads(w, Reload(0), w') && Talking(w') && w'.sent == w.sent
  {
    RestartKeepsStep(w, 0);
  }

  /** Two copies are sent; one arrives, the recipient restarts, and the other arrives. */
  function TwoCopies(sender: Bytes, payload: Bytes, d0: nat, d1: nat): seq<Move> {
    [Say(1, sender, payload, d0), Say(1, sender, payload, d1), Hand(0, 1, 0), Reload(0), Hand(0, 1, 1)]
  }

  lemma TwoCopiesRun(w: World, sender: Bytes, payload: Bytes, d0: nat, d1: nat) returns (ws: seq<World>)
    requires JustOpened(w) && d0 !in w.sch.keys && d1 !in w.sch.keys
    ensures var ms := TwoCopies(sender, payload, d0, d1);
      && Stepping(ms, ws) && ws[0] == w && Run(w, ms)
      && HoldsCopy(ws[|ms| - 3], 0, sender, payload) && HoldsCopy(ws[|ms| - 1], 1, sender, payload)
  {
    SaysOn(w, sender, payload, d0);
    var w1 := Apply(w, Say(1, sender, payload, d0));
    SaysOn(w1, sender, payload, d1);
    var w2 := Apply(w1, Say(1, sender, payload, d1));
    HandedOn(w2, 0);
    var w3 := Apply(w2, Hand(0, 1, 0));
    Reloaded(w3);
    var w4 := Apply(w3, Reload(0));
    HandedOn(w4, 1);
    var w5 := Apply(w4, Hand(0, 1, 1));
    assert w2.sent[1][0] == w2.sent[1][..1][0];
    FiveSteps(w, Say(1, sender, payload, d0), w1, Say(1, sender, payload, d1), w2, Hand(0, 1, 0), w3, Reload(0), w4, Hand(0, 1, 1), w5);
    ws := [w, w1, w2, w3, w4, w5];
    SteppingRun(TwoCopies(sender, payload, d0, d1), ws);
  }

  predicate HoldsCopy(w: World, n: nat, sender: Bytes, payload: Bytes) {
    CanDeliver(w, 0, 1, n) && w.sent[1][n].sender == sender && w.sent[1][n].plaintext == payload
  }

  /** Both deliveries go to the Fanout, and nothing arrives on other sessions. */
  function StoryOf(w: World, ms: seq<Move>): FanoutRuns.Story
    requires |ms| >= 3
  {
    FanoutRuns.Story(w, ms, 0, {|ms| - 3, |ms| - 1}, seq(|ms|, _ => []))
  }

  lemma CopyAt(t: FanoutRuns.Story, ws: seq<World>, i: nat, n: nat, m: Fanouts.Message, self: Bytes)
    requires Stepping(t.ms, ws) && ws[0] == t.w && i < |t.ms| && t.ms[i] == Hand(0, 1, n) && t.p == 0 && i in t.group
    requires n < MAX_WIRE_NONCE && Fanouts.Payload(m, self).Some? && HoldsCopy(ws[i], n, m.sender, Fanouts.Payload(m, self).value)
    ensures FanoutRuns.HandsCopy(t, i, m, self)
  {
    SteppedTo(t.ms, ws, i);
  }

  lemma {:induction false} NothingBrought(f: FanoutRuns.Feed, n: nat)
    requires n <= |f.brought| == |f.restarts| && (forall i :: 0 <= i < n ==> f.brought[i] == [])
    ensures FanoutRuns.Log(f, n) == []
  {
    if n > 0 { NothingBrought(f, n - 1); }
  }

  /** Neither copy finds anything brought before it to the Fanout it reaches. */
  lemma NothingEarlier(t: FanoutRuns.Story, i: nat, j: nat)
    requires i < j < |t.ms| == |t.others| && FanoutRuns.RestartsAt(t, j - 1)
    requires (forall k :: 0 <= k < |t.others| ==> t.others[k] == []) && (forall k :: 0 <= k < i ==> !t.ms[k].Hand?)
    ensures FanoutRuns.Earlier(t, i) == [] && FanoutRuns.Earlier(t, j) == []
  {
    NothingBrought(FanoutRuns.FeedOf(t), i);
    FanoutRuns.RestartEmpties(t, j);
  }

  /** After every opening there is a run on which both copies of one message, sent to a
      recipient listed twice, bring it: the first to the Fanout before the restart, the second
      to the one after. */
  lemma BroughtAgainAfterRestart(verify: Delivery.Context -> bool, rc: Fanouts.Receiver, m: Fanouts.Message, self: Bytes,
                                 w: World, d0: nat, d1: nat)
    requires JustOpened(w) && d0 !in w.sch.keys && d1 !in w.sch.keys
    requires Fanouts.GoodMessage(verify, m, self) && Contexts.Keyed(rc.store) && rc.seen == {}
    ensures var t := StoryOf(w, TwoCopies(m.sender, Fanouts.Payload(m, self).value, d0, d1));
      var i, j := |t.ms| - 3, |t.ms| - 1;
      && FanoutRuns.Told(t) && FanoutRuns.HandsCopy(t, i, m, self) && FanoutRuns.HandsCopy(t, j, m, self)
      && FanoutRuns.Brings(FanoutRuns.Outcome(verify, rc, self, t, i), m, self)
      && FanoutRuns.Brings(FanoutRuns.Outcome(verify, rc, self, t, j), m, self)
  {
    var ms := TwoCopies(m.sender, Fanouts.Payload(m, self).value, d0, d1);
    var t := StoryOf(w, ms);
    var ws := TwoCopiesRun(w, m.sender, Fanouts.Payload(m, self).value, d0, d1);
    var i, j := |ms| - 3, |ms| - 1;
    CopyAt(t, ws, i, 0, m, self);
    CopyAt(t, ws, j, 1, m, self);
    NothingEarlier(t, i, j);
    FanoutRuns.FreshFanoutIsBrought(verify, rc, m, self, t, i);
    FanoutRuns.FreshFanoutIsBrought(verify, rc, m, self, t, j);
  }
}
