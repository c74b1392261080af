/** Fan-out from one end to the other: whole runs of the pair of sessions a copy travels on,
    and everything else the recipient's `Fanout` processes meanwhile. */
module FanoutRuns {
  import opened Terms
  import opened Ratchet
  import opened Delivery
  import opened Contexts
  import opened Fanouts
  import Duplex
  import Conversation

  // ---- what a Fanout remembers ----

  /** The (sender, message id) a decrypted delivery is filed under, if it gets that far. This
      does not depend on what the recipient remembers. */
  function KeyCarried(verify: Context -> bool, self: Bytes, r: Result): Option<(Bytes, Bytes)> {
    if r.Err? then None else
      var p := ParseWrapped(verify, r.plaintext);
      if p.None? then None
      else if p.value.meta.sender != [] && p.value.meta.sender != r.sender then None
      else if p.value.meta.recipient != [] && p.value.meta.recipient != self then None
      else Some((r.sender, p.value.meta.messageId))
  }

  /** The recipient after every decryption result of `log`, in order. */
  function After(verify: Context -> bool, rc: Receiver, self: Bytes, log: seq<Result>): Receiver {
    if log == [] then rc else Process(verify, After(verify, rc, self, log[..|log| - 1]), self, log[|log| - 1]).0
  }

  ghost predicate Carried(verify: Context -> bool, self: Bytes, log: seq<Result>, key: (Bytes, Bytes)) {
    exists r :: r in log && KeyCarried(verify, self, r) == Some(key)
  }

  lemma ProcessRemembers(verify: Context -> bool, rc: Receiver, self: Bytes, r: Result)
    requires Keyed(rc.store)
    ensures var rc' := Process(verify, rc, self, r).0;
      && Keyed(rc'.store)
      && rc'.seen == rc.seen + if KeyCarried(verify, self, r).Some? then {KeyCarried(verify, self, r).value} else {}
  {}

  /** What a Fanout has seen is exactly what it has been brought, in every run. */
  lemma {:induction false} SeenExactly(verify: Context -> bool, rc: Receiver, self: Bytes, log: seq<Result>, key: (Bytes, Bytes))
    requires Keyed(rc.store)
    ensures Keyed(After(verify, rc, self, log).store)
    ensures key in After(verify, rc, self, log).seen <==> key in rc.seen || Carried(verify, self, log, key)
  {
    if log != [] {
      var n := |log| - 1;
      SeenExactly(verify, rc, self, log[..n], key);
      ProcessRemembers(verify, After(verify, rc, self, log[..n]), self, log[n]);
      assert log == log[..n] + [log[n]];
    }
  }

  lemma CarriedEither(verify: Context -> bool, self: Bytes, a: seq<Result>, b: seq<Result>, key: (Bytes, Bytes))
    ensures Carried(verify, self, a + b, key) <==> Carried(verify, self, a, key) || Carried(verify, self, b, key)
  {
    if Carried(verify, self, a, key) {
      var r :| r in a && KeyCarried(verify, self, r) == Some(key);
      assert r in a + b;
    }
    if Carried(verify, self, b, key) {
      var r :| r in b && KeyCarried(verify, self, r) == Some(key);
      assert r in a + b;
    }
  }

  // ---- the recipient along a run of one pair ----

  /** What happens to recipient `p`: a run of the pair; which of the moves hand a frame to its
      `Fanout` rather than to the client as a direct message; and before each move the results
      on its other sessions. */
  datatype Story = Story(w: Duplex.World, ms: seq<Conversation.Move>, p: nat, group: set<nat>, others: seq<seq<Result>>)

  ghost predicate Told(t: Story) { Conversation.Run(t.w, t.ms) && |t.others| == |t.ms| }

  /** What move i brings to the recipient's Fanout. */
  function Handed(t: Story, i: nat): seq<Result>
    requires i < |t.ms|
  {
    var m, v := t.ms[i], Conversation.At(t.w, t.ms, i);
    if i in t.group && m.Hand? && m.p == t.p && Duplex.CanDeliver(v, t.p, m.chain, m.nonce)
    then [Duplex.Arrival(v, t.p, m.chain, m.nonce)] else []
  }

  predicate RestartsAt(t: Story, i: nat)
    requires i < |t.ms|
  {
    t.ms[i] == Conversation.Reload(t.p)
  }

  /** The same without the pair: what each move brings, the results on other sessions first,
      and which moves are restarts of the recipient. */
  datatype Feed = Feed(brought: seq<seq<Result>>, restarts: seq<bool>)

  function FeedOf(t: Story): (f: Feed)
    requires |t.others| == |t.ms|
    ensures |f.brought| == |f.restarts| == |t.ms|
  {
    Feed(seq(|t.ms|, i requires 0 <= i < |t.ms| => t.others[i] + Handed(t, i)),
         seq(|t.ms|, i requires 0 <= i < |t.ms| => RestartsAt(t, i)))
  }

  /** Everything brought to the Fanout the recipient has after n moves. A restart begins a new
      Fanout. */
  function Log(f: Feed, n: nat): seq<Result>
    requires n <= |f.brought| == |f.restarts|
  {
    if n == 0 || f.restarts[n - 1] then [] else Log(f, n - 1) + f.brought[n - 1]
  }

  /** The recipient after n moves. What it has seen is not saved and is lost in a restart; its
      contexts are in a file. */
  function ReceiverAt(verify: Context -> bool, rc: Receiver, self: Bytes, f: Feed, n: nat): Receiver
    requires n <= |f.brought| == |f.restarts|
  {
    if n == 0 then rc else
      var before := After(verify, ReceiverAt(verify, rc, self, f, n - 1), self, f.brought[n - 1]);
      if f.restarts[n - 1] then Receiver({}, before.store) else before
  }

  lemma SeenNext(verify: Context -> bool, now: Receiver, self: Bytes, log: seq<Result>, more: seq<Result>, key: (Bytes, Bytes))
    requires Keyed(now.store) && (key in now.seen <==> Carried(verify, self, log, key))
    ensures Keyed(After(verify, now, self, more).store)
    ensures key in After(verify, now, self, more).seen <==> Carried(verify, self, log + more, key)
  {
    SeenExactly(verify, now, self, more, key);
    CarriedEither(verify, self, log, more, key);
  }

  /** At every point the recipient has seen exactly what was brought since its last restart. */
  lemma {:induction false} SeenSinceRestart(verify: Context -> bool, rc: Receiver, self: Bytes, f: Feed, n: nat, key: (Bytes, Bytes))
    requires n <= |f.brought| == |f.restarts| && Keyed(rc.store) && rc.seen == {}
    ensures Keyed(ReceiverAt(verify, rc, self, f, n).store)
    ensures key in ReceiverAt(verify, rc, self, f, n).seen <==> Carried(verify, self, Log(f, n), key)
  {
    if n > 0 {
      SeenSinceRestart(verify, rc, self, f, n - 1, key);
      SeenNext(verify, ReceiverAt(verify, rc, self, f, n - 1), self, Log(f, n - 1), f.brought[n - 1], key);
    }
  }

  /** The entry handed over at move i is a copy of `m`, and goes to this recipient's Fanout. */
  ghost predicate HandsCopy(t: Story, i: nat, m: Message, self: Bytes) {
    && i < |t.ms| && i in t.group && t.ms[i].Hand? && t.ms[i].p == t.p && t.ms[i].nonce < MAX_WIRE_NONCE
    && Duplex.CanDeliver(Conversation.At(t.w, t.ms, i), t.p, t.ms[i].chain, t.ms[i].nonce)
    && var entry := Conversation.At(t.w, t.ms, i).sent[t.ms[i].chain][t.ms[i].nonce];
    entry.sender == m.sender && Some(entry.plaintext) == Payload(m, self)
  }

  /** What was brought to the Fanout that now processes move i. */
  function Earlier(t: Story, i: nat): seq<Result>
    requires i < |t.ms| == |t.others|
  {
    Log(FeedOf(t), i) + t.others[i]
  }

  /** What ProcessDelivery gives for the frame handed over at move i. */
  function Outcome(verify: Context -> bool, rc: Receiver, self: Bytes, t: Story, i: nat): Inbound
    requires i < |t.ms| == |t.others| && t.ms[i].Hand?
    requires Duplex.CanDeliver(Conversation.At(t.w, t.ms, i), t.p, t.ms[i].chain, t.ms[i].nonce)
  {
    Process(verify, After(verify, ReceiverAt(verify, rc, self, FeedOf(t), i), self, t.others[i]), self,
            Duplex.Arrival(Conversation.At(t.w, t.ms, i), t.p, t.ms[i].chain, t.ms[i].nonce)).1
  }

  /** The message itself: its sender, its metadata, its plaintext, and a context at least as
      new as the one it was sent under. */
  predicate Brings(out: Inbound, m: Message, self: Bytes) {
    && out.Inbound? && out.sender == m.sender && out.meta == MetaFor(m, self) && out.plaintext == m.plaintext
    && out.context.Some? && out.context.value.contextId == m.context.contextId && out.context.value.version >= m.context.version
  }

  /** How a delivered copy ends: refused by the ratchet if its frame was handed over before,
      restart or not; a duplicate if something since the last restart carried the same sender
      and message id; and otherwise the message. */
  ghost predicate EndsRight(verify: Context -> bool, t: Story, i: nat, m: Message, self: Bytes, out: Inbound)
    requires i < |t.ms| == |t.others|
  {
    var carried := Carried(verify, self, Earlier(t, i), (m.sender, m.messageId));
    && (t.ms[i] in t.ms[..i] ==> out == Refused(Undecryptable(Replay)))
    && (t.ms[i] !in t.ms[..i] && carried ==> out == Refused(Duplicate))
    && (Brings(out, m, self) <==> t.ms[i] !in t.ms[..i] && !carried)
  }

  /** In every run of a pair, with restarts of either side, whatever else the recipient is given
      on this session and on others, every delivered copy ends that way: the message is brought
      exactly once to each Fanout that any fresh copy of it reaches. */
  lemma DeliveredOnce(verify: Context -> bool, rc: Receiver, m: Message, self: Bytes, t: Story, i: nat)
    requires GoodMessage(verify, m, self) && Keyed(rc.store) && rc.seen == {} && Told(t) && HandsCopy(t, i, m, self)
    ensures EndsRight(verify, t, i, m, self, Outcome(verify, rc, self, t, i))
  {
    var key, now := (m.sender, m.messageId), ReceiverAt(verify, rc, self, FeedOf(t), i);
    Conversation.EachFrameOnce(t.w, t.ms, i);
    SeenSinceRestart(verify, rc, self, FeedOf(t), i, key);
    SeenNext(verify, now, self, Log(FeedOf(t), i), t.others[i], key);
    CopyProcessedOnce(verify, After(verify, now, self, t.others[i]), m, self);
  }

  // ---- two copies ----

  lemma CopyCarriesItsKey(verify: Context -> bool, m: Message, self: Bytes)
    requires GoodMessage(verify, m, self)
    ensures KeyCarried(verify, self, Ok(m.sender, Payload(m, self).value)) == Some((m.sender, m.messageId))
  {
    PayloadParses(verify, m, self);
  }

  predicate NoRestart(t: Story, i: nat, n: nat)
    requires n <= |t.ms|
  {
    forall k: nat :: i <= k < n ==> !RestartsAt(t, k)
  }

  /** What one move brings stays in the log until the recipient restarts. */
  lemma {:induction false} LogKeeps(f: Feed, i: nat, n: nat, r: Result)
    requires i < n <= |f.brought| == |f.restarts| && r in f.brought[i] && (forall k :: i <= k < n ==> !f.restarts[k])
    ensures r in Log(f, n)
  {
    if i < n - 1 { LogKeeps(f, i, n - 1, r); }
  }

  /** Of two copies of one message handed to one Fanout, the first of them a fresh frame, the
      second brings nothing as long as the recipient has not restarted in between. */
  lemma SecondCopyIsRefused(verify: Context -> bool, rc: Receiver, m: Message, self: Bytes, t: Story, i: nat, j: nat)
    requires GoodMessage(verify, m, self) && Keyed(rc.store) && rc.seen == {} && Told(t)
    requires i < j && HandsCopy(t, i, m, self) && HandsCopy(t, j, m, self)
    requires t.ms[i] !in t.ms[..i] && NoRestart(t, i, j)
    ensures Outcome(verify, rc, self, t, j) == if t.ms[j] in t.ms[..j] then Refused(Undecryptable(Replay)) else Refused(Duplicate)
  {
    var brought := Ok(m.sender, Payload(m, self).value);
    Conversation.EachFrameOnce(t.w, t.ms, i);
    assert Handed(t, i) == [brought] && brought in FeedOf(t).brought[i];
    LogKeeps(FeedOf(t), i, j, brought);
    CopyCarriesItsKey(verify, m, self);
    assert brought in Earlier(t, j);
    DeliveredOnce(verify, rc, m, self, t, j);
  }

  /** A copy in a fresh frame that reaches a Fanout nothing was brought to yet brings the
      message, whatever an earlier Fanout was brought. */
  lemma FreshFanoutIsBrought(verify: Context -> bool, rc: Receiver, m: Message, self: Bytes, t: Story, i: nat)
    requires GoodMessage(verify, m, self) && Keyed(rc.store) && rc.seen == {} && Told(t)
    requires HandsCopy(t, i, m, self) && t.ms[i] !in t.ms[..i] && Earlier(t, i) == []
    ensures Brings(Outcome(verify, rc, self, t, i), m, self)
  {
    DeliveredOnce(verify, rc, m, self, t, i);
  }

  lemma RestartEmpties(t: Story, i: nat)
    requires 0 < i < |t.ms| == |t.others| && RestartsAt(t, i - 1) && t.others[i] == []
    ensures Earlier(t, i) == []
  {}

  // ---- from SendMultiMessage ----

  /** Move a of the run is the k-th copy of the message, sealed on the session the sender's
      Fanout then holds for that recipient. */
  ghost predicate SendsCopy(s: Sessions, m: Message, rs: seq<Bytes>, draws: seq<nat>, k: nat, self: Bytes, t: Story, a: nat) {
    && k < |rs| <= |draws| && rs[k] == self && self in Copies(s, m, rs, draws, k).0 && Payload(m, self).Some?
    && a < |t.ms| && t.ms[a].Say?
    && t.ms[a].p < |Conversation.At(t.w, t.ms, a).ends| && t.ms[a].p < |Conversation.At(t.w, t.ms, a + 1).ends|
    && t.ms[a] == Conversation.Say(t.ms[a].p, m.sender, Payload(m, self).value, draws[k])
    && Copies(s, m, rs, draws, k).0[self] == Conversation.At(t.w, t.ms, a).ends[t.ms[a].p].me
  }

  /** End to end: SendMultiMessage returns, for entry k, the very frame that stands at the place
      of that send in the pair's world, and every later delivery of it ends as DeliveredOnce
      says. A recipient listed twice gets two frames. */
  lemma SentCopyArrivesOnce(verify: Context -> bool, s: Sessions, m: Message, rs: seq<Bytes>, draws: seq<nat>, k: nat, self: Bytes,
                            rc: Receiver, t: Story, a: nat, b: nat)
    requires GoodMessage(verify, m, self) && Keyed(rc.store) && rc.seen == {} && Told(t)
    requires SendsCopy(s, m, rs, draws, k, self, t, a) && a < b < |t.ms| && b in t.group && t.ms[b].Hand? && t.ms[b].p == t.p
    requires (t.ms[b].chain, t.ms[b].nonce) == Conversation.PlaceOf(t.w, t.ms, a) && t.ms[b].nonce < MAX_WIRE_NONCE
    ensures HandsCopy(t, b, m, self) && |Copies(s, m, rs, draws, |rs|).1| == |rs|
    ensures Copies(s, m, rs, draws, |rs|).1[k] ==
            DeliveryResult(self, Sent(Conversation.At(t.w, t.ms, b).sent[t.ms[b].chain][t.ms[b].nonce].frame))
    ensures EndsRight(verify, t, b, m, self, Outcome(verify, rc, self, t, b))
  {
    Conversation.SaidThenHanded(t.w, t.ms, a, b);
    ResultAt(s, m, rs, draws, |rs|, k);
    DeliveredOnce(verify, rc, m, self, t, b);
  }
}
