/** One message to many recipients over independent sessions, and its arrival at each. */
module Fanouts {
  import opened Terms
  import opened Ratchet
  import opened Delivery
  import opened Contexts

  datatype Policy = Enabled | Muted | Blocked | Excluded

  datatype Status = Sent(frame: Frame) | Pending | Failed

  datatype DeliveryResult = DeliveryResult(recipient: Bytes, status: Status)

  /** What all copies of one message share. */
  datatype Message = Message(sender: Bytes, messageId: Bytes, context: Context, plaintext: Bytes, skipOffline: bool)

  type Sessions = map<Bytes, Session>

  predicate Allowed(policies: map<Bytes, Policy>, r: Bytes) {
    r in policies ==> policies[r] != Blocked && policies[r] != Excluded
  }

  /** Recipients that are not blocked or excluded, in the order given: each as often as it is
      listed, for the source does not remove repeats. */
  function Effective(policies: map<Bytes, Policy>, rs: seq<Bytes>): (e: seq<Bytes>)
    ensures |e| <= |rs|
  {
    if rs == [] then []
    else Effective(policies, rs[..|rs| - 1]) + if Allowed(policies, rs[|rs| - 1]) then [rs[|rs| - 1]] else []
  }

  lemma {:induction false} EffectiveExactly(policies: map<Bytes, Policy>, rs: seq<Bytes>, r: Bytes)
    ensures multiset(Effective(policies, rs))[r] == if Allowed(policies, r) then multiset(rs)[r] else 0
  {
    if rs != [] {
      EffectiveExactly(policies, rs[..|rs| - 1], r);
      assert rs == rs[..|rs| - 1] + [rs[|rs| - 1]];
    }
  }

  /** Filtering works entry by entry, so the order is kept. */
  lemma {:induction false} EffectiveInOrder(policies: map<Bytes, Policy>, xs: seq<Bytes>, ys: seq<Bytes>)
    ensures Effective(policies, xs + ys) == Effective(policies, xs) + Effective(policies, ys)
    decreases |ys|
  {
    if ys == [] {
      assert xs + ys == xs;
    } else {
      EffectiveInOrder(policies, xs, ys[..|ys| - 1]);
      assert (xs + ys)[..|xs + ys| - 1] == xs + ys[..|ys| - 1];
    }
  }

  function MetaFor(m: Message, recipient: Bytes): Meta {
    Meta(m.messageId, m.context.contextId, m.sender, recipient, m.context.version)
  }

  function Payload(m: Message, recipient: Bytes): Option<Bytes> {
    Wrap(MetaFor(m, recipient), Some(m.context), m.plaintext)
  }

  /** One turn of the loop in SendMultiMessage. */
  function Copy(s: Sessions, m: Message, r: Bytes, drawn: nat): (Sessions, DeliveryResult) {
    if r !in s then (s, DeliveryResult(r, if m.skipOffline then Failed else Pending))
    else if Payload(m, r).None? then (s, DeliveryResult(r, Failed))
    else
      var (next, frame) := Encrypt(s[r], m.sender, Payload(m, r).value, drawn);
      (s[r := next], DeliveryResult(r, Sent(frame)))
  }

  /** Sessions and results after the first `k` recipients. */
  function Copies(s: Sessions, m: Message, rs: seq<Bytes>, draws: seq<nat>, k: nat): (Sessions, seq<DeliveryResult>)
    requires k <= |rs| <= |draws|
  {
    if k == 0 then (s, [])
    else
      var (t, results) := Copies(s, m, rs, draws, k - 1);
      var (u, r) := Copy(t, m, rs[k - 1], draws[k - 1]);
      (u, results + [r])
  }

  // ---- what the loop keeps ----

  /** One result for each recipient, in order, and no session appears or disappears. */
  lemma {:induction false} OneResultEach(s: Sessions, m: Message, rs: seq<Bytes>, draws: seq<nat>, k: nat)
    requires k <= |rs| <= |draws|
    ensures var (t, results) := Copies(s, m, rs, draws, k);
      && t.Keys == s.Keys && |results| == k
      && (forall i :: 0 <= i < k ==> results[i].recipient == rs[i])
  {
    if k > 0 { OneResultEach(s, m, rs, draws, k - 1); }
  }

  lemma ResultsGrow(s: Sessions, m: Message, rs: seq<Bytes>, draws: seq<nat>, k: nat)
    requires k < |rs| <= |draws|
    ensures var before, after := Copies(s, m, rs, draws, k).1, Copies(s, m, rs, draws, k + 1).1;
      && |after| == |before| + 1 && after[..|before|] == before
      && after[|before|] == Copy(Copies(s, m, rs, draws, k).0, m, rs[k], draws[k]).1
  {}

  lemma {:induction false} ResultsKept(s: Sessions, m: Message, rs: seq<Bytes>, draws: seq<nat>, n: nat, k: nat)
    requires k <= n <= |rs| <= |draws|
    ensures |Copies(s, m, rs, draws, n).1| == n && Copies(s, m, rs, draws, n).1[..k] == Copies(s, m, rs, draws, k).1
  {
    OneResultEach(s, m, rs, draws, n);
    if k < n {
      ResultsKept(s, m, rs, draws, n - 1, k);
      ResultsGrow(s, m, rs, draws, n - 1);
      assert Copies(s, m, rs, draws, n).1[..n - 1][..k] == Copies(s, m, rs, draws, n).1[..k];
    }
  }

  /** Later copies do not change an earlier result. */
  lemma ResultAt(s: Sessions, m: Message, rs: seq<Bytes>, draws: seq<nat>, n: nat, k: nat)
    requires k < n <= |rs| <= |draws|
    ensures |Copies(s, m, rs, draws, n).1| == n
    ensures Copies(s, m, rs, draws, n).1[k] == Copy(Copies(s, m, rs, draws, k).0, m, rs[k], draws[k]).1
  {
    OneResultEach(s, m, rs, draws, k);
    ResultsKept(s, m, rs, draws, n, k + 1);
    ResultsGrow(s, m, rs, draws, k);
    assert Copies(s, m, rs, draws, n).1[..k + 1][k] == Copies(s, m, rs, draws, n).1[k];
  }

  /** What becomes of each copy is decided by the sessions at the start and the descriptor. */
  lemma StatusOfEach(s: Sessions, m: Message, rs: seq<Bytes>, draws: seq<nat>, k: nat)
    requires k < |rs| <= |draws|
    ensures |Copies(s, m, rs, draws, |rs|).1| == |rs|
    ensures var status := Copies(s, m, rs, draws, |rs|).1[k].status;
      && (status.Sent? <==> rs[k] in s && |MarshalContext(m.context)| <= 255)
      && (status.Pending? <==> rs[k] !in s && !m.skipOffline)
      && (status.Failed? <==> (rs[k] in s && |MarshalContext(m.context)| > 255) || (rs[k] !in s && m.skipOffline))
  {
    ResultAt(s, m, rs, draws, |rs|, k);
    OneResultEach(s, m, rs, draws, k);
    DescriptorDecidesSize(m, rs[k]);
  }

  /** How many results a recipient has. */
  function Tally(results: seq<DeliveryResult>, x: Bytes): nat {
    if results == [] then 0 else Tally(results[..|results| - 1], x) + if results[|results| - 1].recipient == x then 1 else 0
  }

  lemma {:induction false} TallyIs(results: seq<DeliveryResult>, rs: seq<Bytes>, x: Bytes)
    requires |results| == |rs| && forall i :: 0 <= i < |rs| ==> results[i].recipient == rs[i]
    ensures Tally(results, x) == multiset(rs)[x]
  {
    if rs != [] {
      var n := |rs| - 1;
      TallyIs(results[..n], rs[..n], x);
      assert rs == rs[..n] + [rs[n]];
    }
  }

  /** A recipient gets as many results as it is listed times if it is neither blocked nor
      excluded, and none otherwise: exactly one if and only if it is allowed and listed once. */
  lemma ResultsPerRecipient(s: Sessions, m: Message, policies: map<Bytes, Policy>, recipients: seq<Bytes>, draws: seq<nat>, x: Bytes)
    requires |recipients| <= |draws|
    ensures var rs := Effective(policies, recipients);
      var n := Tally(Copies(s, m, rs, draws, |rs|).1, x);
      && n == (if Allowed(policies, x) then multiset(recipients)[x] else 0)
      && (n == 1 <==> Allowed(policies, x) && multiset(recipients)[x] == 1)
  {
    var rs := Effective(policies, recipients);
    EffectiveExactly(policies, recipients, x);
    OneResultEach(s, m, rs, draws, |rs|);
    TallyIs(Copies(s, m, rs, draws, |rs|).1, rs, x);
  }

  function Count(rs: seq<DeliveryResult>, p: Status -> bool): nat {
    if rs == [] then 0 else Count(rs[..|rs| - 1], p) + if p(rs[|rs| - 1].status) then 1 else 0
  }

  lemma {:induction false} ThreeKinds(rs: seq<DeliveryResult>)
    ensures Count(rs, (x: Status) => x.Sent?) + Count(rs, (x: Status) => x.Pending?) + Count(rs, (x: Status) => x.Failed?) == |rs|
  {
    if rs != [] { ThreeKinds(rs[..|rs| - 1]); }
  }

  /** Of the results of one message, sent, pending and failed add up to the number of listed
      recipients that are neither blocked nor excluded. */
  lemma ResultsAddUp(s: Sessions, m: Message, policies: map<Bytes, Policy>, recipients: seq<Bytes>, draws: seq<nat>)
    requires |recipients| <= |draws|
    ensures var rs := Effective(policies, recipients);
      var results := Copies(s, m, rs, draws, |rs|).1;
      Count(results, (x: Status) => x.Sent?) + Count(results, (x: Status) => x.Pending?) + Count(results, (x: Status) => x.Failed?)
        == |rs| == AllowedCount(policies, recipients)
  {
    var rs := Effective(policies, recipients);
    OneResultEach(s, m, rs, draws, |rs|);
    ThreeKinds(Copies(s, m, rs, draws, |rs|).1);
    EffectiveSize(policies, recipients);
  }

  function AllowedCount(policies: map<Bytes, Policy>, rs: seq<Bytes>): nat {
    if rs == [] then 0 else AllowedCount(policies, rs[1..]) + if Allowed(policies, rs[0]) then 1 else 0
  }

  lemma {:induction false} EffectiveSize(policies: map<Bytes, Policy>, rs: seq<Bytes>)
    ensures |Effective(policies, rs)| == AllowedCount(policies, rs)
  {
    if rs != [] {
      EffectiveSize(policies, rs[1..]);
      EffectiveInOrder(policies, [rs[0]], rs[1..]);
      var first := [rs[0]];
      assert rs == first + rs[1..] && first[..0] == [];
    }
  }

  predicate Receives(results: seq<DeliveryResult>, x: Bytes) {
    exists i :: 0 <= i < |results| && results[i].recipient == x && results[i].status.Sent?
  }

  /** Only a session that was sent a copy moves: not those of other peers, nor that of a
      recipient whose copy is pending or was refused. */
  lemma {:induction false} OtherSessionsStay(s: Sessions, m: Message, rs: seq<Bytes>, draws: seq<nat>, k: nat, x: Bytes)
    requires k <= |rs| <= |draws| && x in s && !Receives(Copies(s, m, rs, draws, k).1, x)
    ensures x in Copies(s, m, rs, draws, k).0 && Copies(s, m, rs, draws, k).0[x] == s[x]
  {
    if k > 0 {
      OneResultEach(s, m, rs, draws, k - 1);
      var (t, results) := Copies(s, m, rs, draws, k - 1);
      var (u, last) := Copy(t, m, rs[k - 1], draws[k - 1]);
      NotLast(results, last, x);
      OtherSessionsStay(s, m, rs, draws, k - 1, x);
    }
  }

  lemma NotLast(results: seq<DeliveryResult>, last: DeliveryResult, x: Bytes)
    requires !Receives(results + [last], x)
    ensures !Receives(results, x) && !(last.recipient == x && last.status.Sent?)
  {
    var all := results + [last];
    assert all[|results|] == last;
    forall i | 0 <= i < |results| ensures !(results[i].recipient == x && results[i].status.Sent?) {
      assert all[i] == results[i];
    }
  }

  lemma DescriptorDecidesSize(m: Message, r: Bytes)
    ensures Payload(m, r).Some? <==> |MarshalContext(m.context)| <= 255
  {}

  /** A descriptor above 255 bytes is refused for every recipient and no session advances. */
  lemma {:induction false} OversizedDescriptorMovesNothing(s: Sessions, m: Message, rs: seq<Bytes>, draws: seq<nat>, k: nat)
    requires k <= |rs| <= |draws| && |MarshalContext(m.context)| > 255
    ensures Copies(s, m, rs, draws, k).0 == s
    ensures forall i :: 0 <= i < |Copies(s, m, rs, draws, k).1| ==> !Copies(s, m, rs, draws, k).1[i].status.Sent?
  {
    if k > 0 {
      OversizedDescriptorMovesNothing(s, m, rs, draws, k - 1);
      DescriptorDecidesSize(m, rs[k - 1]);
    }
  }

  /** A recipient's own session after the copies addressed to it among the first `k`. */
  function OwnSession(s: Session, m: Message, x: Bytes, payload: Bytes, rs: seq<Bytes>, draws: seq<nat>, k: nat): Session
    requires k <= |rs| <= |draws|
  {
    if k == 0 then s else
      var t := OwnSession(s, m, x, payload, rs, draws, k - 1);
      if rs[k - 1] == x then Encrypt(t, m.sender, payload, draws[k - 1]).0 else t
  }

  lemma {:induction false} SessionAfter(s: Sessions, m: Message, rs: seq<Bytes>, draws: seq<nat>, k: nat, x: Bytes)
    requires k <= |rs| <= |draws| && x in s && Payload(m, x).Some?
    ensures x in Copies(s, m, rs, draws, k).0
    ensures Copies(s, m, rs, draws, k).0[x] == OwnSession(s[x], m, x, Payload(m, x).value, rs, draws, k)
  {
    if k > 0 { SessionAfter(s, m, rs, draws, k - 1, x); }
  }

  /** Each entry of the list whose recipient has a session, with a descriptor that fits, is
      sent the frame that recipient's own session seals next, over the payload bound to it;
      the session has moved only for the recipient's own earlier entries. */
  lemma EachCopyFromItsSession(s: Sessions, m: Message, rs: seq<Bytes>, draws: seq<nat>, i: nat)
    requires i < |rs| <= |draws| && rs[i] in s && |MarshalContext(m.context)| <= 255
    ensures var (t, results) := Copies(s, m, rs, draws, |rs|);
      && |results| == |rs| && rs[i] in t && Payload(m, rs[i]).Some?
      && var payload := Payload(m, rs[i]).value;
      var own := OwnSession(s[rs[i]], m, rs[i], payload, rs, draws, i);
      && results[i] == DeliveryResult(rs[i], Sent(Encrypt(own, m.sender, payload, draws[i]).1))
      && t[rs[i]] == OwnSession(s[rs[i]], m, rs[i], payload, rs, draws, |rs|)
  {
    DescriptorDecidesSize(m, rs[i]);
    ResultAt(s, m, rs, draws, |rs|, i);
    SessionAfter(s, m, rs, draws, i, rs[i]);
    SessionAfter(s, m, rs, draws, |rs|, rs[i]);
  }

  // ---- arrival ----

  /** What a recipient remembers: the (sender, message id) pairs seen, and its store. */
  datatype Receiver = Receiver(seen: set<(Bytes, Bytes)>, store: Store)

  datatype Reason = Undecryptable(error: Error) | NoSession | Unparsable | SenderMismatch | RecipientMismatch | Duplicate

  datatype Inbound = Inbound(sender: Bytes, meta: Meta, context: Option<Context>, plaintext: Bytes) | Refused(reason: Reason)

  /** ProcessDelivery once the payload is parsed: the binding checks, the duplicate check,
      and the context. */
  function Accept(verify: Context -> bool, rc: Receiver, self: Bytes, frameSender: Bytes, p: Parsed): (Receiver, Inbound) {
    if p.meta.sender != [] && p.meta.sender != frameSender then (rc, Refused(SenderMismatch))
    else if p.meta.recipient != [] && p.meta.recipient != self then (rc, Refused(RecipientMismatch))
    else
      var meta := if p.meta.sender == [] then p.meta.(sender := frameSender) else p.meta;
      var key := (frameSender, meta.messageId);
      if key in rc.seen then (rc, Refused(Duplicate)) else
        var news := p.context.Some? && Applies(verify, rc.store, p.context.value);
        var store := if news then Apply(verify, rc.store, p.context.value) else rc.store;
        var context := if news then p.context else if meta.contextId in store then Some(store[meta.contextId]) else None;
        (Receiver(rc.seen + {key}, store), Inbound(frameSender, meta, context, p.plaintext))
  }

  /** ProcessDelivery after the session has tried to decrypt the frame. */
  function Process(verify: Context -> bool, rc: Receiver, self: Bytes, r: Result): (Receiver, Inbound) {
    if r.Err? then (rc, Refused(Undecryptable(r.error))) else
      var p := ParseWrapped(verify, r.plaintext);
      if p.None? then (rc, Refused(Unparsable)) else Accept(verify, rc, self, r.sender, p.value)
  }

  /** Whatever was decrypted: what is brought is bound to the peer it came from and to this
      recipient, is new, and carries a validly signed descriptor or a stored one; anything
      refused leaves no trace. */
  lemma BroughtIsBound(verify: Context -> bool, rc: Receiver, self: Bytes, r: Result)
    requires Keyed(rc.store)
    ensures var (rc', out) := Process(verify, rc, self, r);
      && (out.Refused? ==> rc' == rc)
      && (out.Inbound? ==>
            && r.Ok? && out.sender == r.sender && out.meta.sender == r.sender && out.meta.recipient in [[], self]
            && (r.sender, out.meta.messageId) !in rc.seen && (r.sender, out.meta.messageId) in rc'.seen
            && (out.context.Some? ==> out.context.value.contextId in rc'.store && rc'.store[out.context.value.contextId] == out.context.value)
            && (rc'.store != rc.store ==> out.context.Some? && Counts(verify, out.context.value)))
  {
    if r.Ok? { ParsedContextIsSigned(verify, r.plaintext); }
  }

  predicate GoodMessage(verify: Context -> bool, m: Message, self: Bytes) {
    ShortIds(MetaFor(m, self)) && m.sender != [] && Payload(m, self).Some? && Counts(verify, m.context)
  }

  /** A copy that decrypts gives the recipient the sender, the plaintext and the context at
      least as new as the one sent, the first time; any re-encryption of the same message by
      the same sender is then a duplicate. */
  lemma CopyProcessedOnce(verify: Context -> bool, rc: Receiver, m: Message, self: Bytes)
    requires GoodMessage(verify, m, self) && Keyed(rc.store)
    ensures var (rc', out) := Process(verify, rc, self, Ok(m.sender, Payload(m, self).value));
      && Keyed(rc'.store)
      && (if (m.sender, m.messageId) in rc.seen then out == Refused(Duplicate) && rc' == rc
          else
            && out.Inbound? && out.sender == m.sender && out.plaintext == m.plaintext
            && out.meta == Meta(m.messageId, m.context.contextId, m.sender, self, m.context.version)
            && out.context.Some? && out.context.value.contextId == m.context.contextId
            && out.context.value.version >= m.context.version
            && (Applies(verify, rc.store, m.context) ==> out.context == Some(m.context))
            && rc'.seen == rc.seen + {(m.sender, m.messageId)})
  {
    PayloadParses(verify, m, self);
    AcceptedOnce(verify, rc, m, self);
  }

  lemma AcceptedOnce(verify: Context -> bool, rc: Receiver, m: Message, self: Bytes)
    requires m.sender != [] && Counts(verify, m.context) && Keyed(rc.store)
    ensures var (rc', out) := Accept(verify, rc, self, m.sender, Parsed(MetaFor(m, self), Some(m.context), m.plaintext));
      && Keyed(rc'.store)
      && (if (m.sender, m.messageId) in rc.seen then out == Refused(Duplicate) && rc' == rc
          else
            && out.Inbound? && out.sender == m.sender && out.plaintext == m.plaintext
            && out.meta == Meta(m.messageId, m.context.contextId, m.sender, self, m.context.version)
            && out.context.Some? && out.context.value.contextId == m.context.contextId
            && out.context.value.version >= m.context.version
            && (Applies(verify, rc.store, m.context) ==> out.context == Some(m.context))
            && rc'.seen == rc.seen + {(m.sender, m.messageId)})
  {}

  lemma PayloadParses(verify: Context -> bool, m: Message, self: Bytes)
    requires GoodMessage(verify, m, self)
    ensures ParseWrapped(verify, Payload(m, self).value) == Some(Parsed(MetaFor(m, self), Some(m.context), m.plaintext))
  {
    WrappedParsesBack(verify, MetaFor(m, self), Some(m.context), m.plaintext);
  }

  /** A copy addressed to one recipient is refused by every other, whatever session carried it. */
  lemma TransplantRefused(verify: Context -> bool, rc: Receiver, m: Message, self: Bytes, other: Bytes, frameSender: Bytes)
    requires GoodMessage(verify, m, self) && self != [] && other != self
    ensures Process(verify, rc, other, Ok(frameSender, Payload(m, self).value)).1.Refused?
    ensures Process(verify, rc, other, Ok(frameSender, Payload(m, self).value)).0 == rc
  {
    PayloadParses(verify, m, self);
  }

  // ---- the objects ----

  datatype SendError = UnknownContext | ZeroVersion | BadSignature | NobodyToSendTo

  class Fanout {
    const id: Bytes
    const skipOffline: bool
    const ctxStore: FileContextStore
    var sessions: Sessions
    var policies: map<Bytes, map<Bytes, Policy>>
    var seenMessages: set<(Bytes, Bytes)>

    constructor (id: Bytes, skipOffline: bool, ctxStore: FileContextStore, sessions: Sessions)
      ensures this.id == id && this.skipOffline == skipOffline && this.ctxStore == ctxStore
      ensures this.sessions == sessions && policies == map[] && seenMessages == {}
    {
      this.id, this.skipOffline, this.ctxStore := id, skipOffline, ctxStore;
      this.sessions, policies, seenMessages := sessions, map[], {};
    }

    function PoliciesOf(contextId: Bytes): map<Bytes, Policy>
      reads this
    {
      if contextId in policies then policies[contextId] else map[]
    }

    /** GetEffectiveRecipients, as the loop it is. */
    method GetEffectiveRecipients(contextId: Bytes, all: seq<Bytes>) returns (effective: seq<Bytes>)
      ensures effective == Effective(PoliciesOf(contextId), all)
      ensures forall r :: r in effective <==> r in all && (r in PoliciesOf(contextId) ==> PoliciesOf(contextId)[r] in {Enabled, Muted})
    {
      effective := [];
      for i := 0 to |all|
        invariant effective == Effective(PoliciesOf(contextId), all[..i])
      {
        assert all[..i + 1][..i] == all[..i];
        if Allowed(PoliciesOf(contextId), all[i]) { effective := effective + [all[i]]; }
      }
      assert all[..|all|] == all;
      forall r ensures r in effective <==> r in all && Allowed(PoliciesOf(contextId), r) { EffectiveExactly(PoliciesOf(contextId), all, r); }
    }

    /** SendMultiMessage: refuse an unknown, unversioned or badly signed context or an empty
        list; otherwise one copy per effective recipient, each on its own session. */
    method SendMultiMessage(verify: Context -> bool, contextId: Bytes, messageId: Bytes, plaintext: Bytes,
                            recipients: seq<Bytes>, draws: seq<nat>)
      returns (error: Option<SendError>, results: seq<DeliveryResult>)
      requires |recipients| <= |draws|
      modifies `sessions
      ensures error.Some? ==> sessions == old(sessions) && results == []
      ensures error.None? <==>
        && contextId in ctxStore.contexts && ctxStore.contexts[contextId].version != 0
        && verify(ctxStore.contexts[contextId]) && Effective(PoliciesOf(contextId), recipients) != []
      ensures error.None? ==>
        var m := Message(id, messageId, ctxStore.contexts[contextId], plaintext, skipOffline);
        var rs := Effective(PoliciesOf(contextId), recipients);
        (sessions, results) == Copies(old(sessions), m, rs, draws, |rs|)
    {
      results := [];
      var c := ctxStore.LoadContext(contextId);
      if c.None? { return Some(UnknownContext), []; }
      if c.value.version == 0 { return Some(ZeroVersion), []; }
      if !verify(c.value) { return Some(BadSignature), []; }
      var rs := GetEffectiveRecipients(contextId, recipients);
      if rs == [] { return Some(NobodyToSendTo), []; }
      results := SendCopies(Message(id, messageId, c.value, plaintext, skipOffline), rs, draws);
      error := None;
    }

    /** The loop of SendMultiMessage. */
    method SendCopies(m: Message, rs: seq<Bytes>, draws: seq<nat>) returns (results: seq<DeliveryResult>)
      requires |rs| <= |draws| && m.sender == id && m.skipOffline == skipOffline
      modifies `sessions
      ensures (sessions, results) == Copies(old(sessions), m, rs, draws, |rs|)
    {
      results := [];
      for k := 0 to |rs|
        invariant (sessions, results) == Copies(old(sessions), m, rs, draws, k)
      {
        var r := rs[k];
        if r !in sessions {
          results := results + [DeliveryResult(r, if skipOffline then Failed else Pending)];
        } else {
          var wrapped := Payload(m, r);
          if wrapped.None? {
            results := results + [DeliveryResult(r, Failed)];
          } else {
            var (next, frame) := Encrypt(sessions[r], id, wrapped.value, draws[k]);
            sessions := sessions[r := next];
            results := results + [DeliveryResult(r, Sent(frame))];
          }
        }
      }
    }

    /** ProcessDelivery: decrypt on the session of the claimed sender, then bind, deduplicate
        and learn the context. The session moves even when the delivery is refused later. */
    method ProcessDelivery(verify: Context -> bool, f: Frame) returns (out: Inbound)
      modifies `sessions, `seenMessages, ctxStore
      ensures f.sender !in old(sessions) ==>
        out == Refused(NoSession) && sessions == old(sessions) && seenMessages == old(seenMessages) && ctxStore.contexts == old(ctxStore.contexts)
      ensures f.sender in old(sessions) ==>
        var (s, r) := Decrypt(old(sessions)[f.sender], f);
        var (rc, inbound) := Process(verify, Receiver(old(seenMessages), old(ctxStore.contexts)), id, r);
        && sessions == old(sessions)[f.sender := s]
        && seenMessages == rc.seen && ctxStore.contexts == rc.store && out == inbound
    {
      if f.sender !in sessions { return Refused(NoSession); }
      var (s, r) := Decrypt(sessions[f.sender], f);
      sessions := sessions[f.sender := s];
      if r.Err? { return Refused(Undecryptable(r.error)); }
      var parsed := ParseWrapped(verify, r.plaintext);
      if parsed.None? { return Refused(Unparsable); }
      var meta, context := parsed.value.meta, parsed.value.context;
      if meta.sender != [] && meta.sender != r.sender { return Refused(SenderMismatch); }
      if meta.recipient != [] && meta.recipient != id { return Refused(RecipientMismatch); }
      if meta.sender == [] { meta := meta.(sender := r.sender); }
      var key := (r.sender, meta.messageId);
      if key in seenMessages { return Refused(Duplicate); }
      seenMessages := seenMessages + {key};
      if context.Some? {
        var ok := ctxStore.ApplyRemoteContext(verify, context.value);
        if !ok { context := None; }
      }
      if context.None? { context := ctxStore.LoadContext(meta.contextId); }
      out := Inbound(r.sender, meta, context, parsed.value.plaintext);
    }
  }
}
