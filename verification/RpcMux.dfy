/** The request/response multiplexer of a transport process: callers, the read loop and the
    death of the process, interleaved in any way. Every event is one step taken under the
    mutex or one channel operation. */
module RpcMux {

  const ID_SPACE: nat := 0x1_0000_0000

  datatype Envelope = Envelope(op: nat, reqId: nat, payload: seq<int>)

  datatype Reply = Got(env: Envelope) | Broken

  /** Registered: in the table, request not yet written. Waiting: in the second select. */
  datatype Phase = Registered | Waiting | Answered(reply: Reply) | GaveUp | SawExit

  /** One `Call`: its request id, where it is, its result channel (capacity one) and how many
      values were ever sent on that channel. */
  datatype Call = Call(id: nat, phase: Phase, chan: seq<Reply>, sends: nat)

  datatype Reader =
    | Reading
    | Holding(target: nat, env: Envelope)
    | Closing
    | Ended

  /** `pend` maps a request id to the call whose channel is registered under it. */
  datatype Mux = Mux(calls: seq<Call>, pend: map<nat, nat>, reader: Reader, dying: bool)

  datatype Event =
    | Register
    | Wrote(call: nat)
    | GiveUp(call: nat)
    | Take(call: nat)
    | SeeExit(call: nat)
    | Read(env: Envelope)
    | Push
    | FailAll
    | Close

  function Start(): Mux { Mux([], map[], Reading, false) }

  /** The id of the next call: a 32-bit counter stepped before use. */
  function NextId(m: Mux): nat { (|m.calls| + 1) % ID_SPACE }

  predicate Active(c: Call) { c.phase.Registered? || c.phase.Waiting? }

  predicate Enabled(m: Mux, e: Event) {
    match e
    case Register => true
    case Wrote(c) => c < |m.calls| && m.calls[c].phase.Registered?
    case GiveUp(c) => c < |m.calls| && Active(m.calls[c])
    case Take(c) => c < |m.calls| && m.calls[c].phase.Waiting? && m.calls[c].chan != []
    case SeeExit(c) => c < |m.calls| && m.calls[c].phase.Waiting? && m.dying
    case Read(_) => m.reader.Reading?
    case Push => m.reader.Holding? && m.reader.target < |m.calls| && m.calls[m.reader.target].chan == []
    case FailAll => m.reader.Reading?
    case Close => m.reader.Closing?
  }

  function Sent(c: Call, r: Reply): Call { c.(chan := c.chan + [r], sends := c.sends + 1) }

  /** FailAll offers the error to every registered channel and drops it where one is full. */
  function Failed(m: Mux): seq<Call> {
    seq(|m.calls|, i requires 0 <= i < |m.calls| =>
      if m.calls[i].id in m.pend && m.pend[m.calls[i].id] == i && m.calls[i].chan == []
      then Sent(m.calls[i], Broken) else m.calls[i])
  }

  function Step(m: Mux, e: Event): Mux
    requires Enabled(m, e)
  {
    match e
    case Register => m.(calls := m.calls + [Call(NextId(m), Registered, [], 0)], pend := m.pend[NextId(m) := |m.calls|])
    case Wrote(c) => m.(calls := m.calls[c := m.calls[c].(phase := Waiting)])
    case GiveUp(c) => m.(calls := m.calls[c := m.calls[c].(phase := GaveUp)])
    case Take(c) => m.(calls := m.calls[c := m.calls[c].(phase := Answered(m.calls[c].chan[0]), chan := m.calls[c].chan[1..])])
    case SeeExit(c) => m.(calls := m.calls[c := m.calls[c].(phase := SawExit)])
    case Read(env) =>
      if env.reqId in m.pend then m.(reader := Holding(m.pend[env.reqId], env), pend := m.pend - {env.reqId}) else m
    case Push => m.(calls := m.calls[m.reader.target := Sent(m.calls[m.reader.target], Got(m.reader.env))], reader := Reading)
    case FailAll => m.(calls := Failed(m), pend := map[], reader := Closing)
    case Close => m.(reader := Ended, dying := true)
  }

  // ---- the invariant ----

  predicate Mine(c: Call, r: Reply) { r.Got? ==> r.env.reqId == c.id }

  predicate Held(m: Mux, i: nat) { m.reader.Holding? && m.reader.target == i }

  predicate Listed(m: Mux, i: nat)
    requires i < |m.calls|
  {
    m.calls[i].id in m.pend && m.pend[m.calls[i].id] == i
  }

  /** A channel has seen no value while its call is listed or held, and one value otherwise;
      whatever is or was on it carries the call's own id. */
  predicate CallOk(m: Mux, i: nat)
    requires i < |m.calls|
  {
    var c := m.calls[i];
    && c.sends == (if Listed(m, i) || Held(m, i) then 0 else 1)
    && !(Listed(m, i) && Held(m, i))
    && |c.chan| <= c.sends
    && (Active(c) ==> |c.chan| == c.sends)
    && (forall r <- c.chan :: Mine(c, r))
    && (c.phase.Answered? ==> c.sends == 1 && Mine(c, c.phase.reply))
  }

  ghost predicate Inv(m: Mux) {
    && (forall i: nat :: i < |m.calls| ==> CallOk(m, i))
    && (forall id <- m.pend :: m.pend[id] < |m.calls| && m.calls[m.pend[id]].id == id)
    && (m.reader.Holding? ==> m.reader.target < |m.calls| && m.calls[m.reader.target].id == m.reader.env.reqId)
    && (m.dying <==> m.reader.Ended?)
  }

  /** The one side condition: a new call's id is not still in the table. */
  predicate Fresh(m: Mux, e: Event) { e.Register? ==> NextId(m) !in m.pend }

  lemma RegisterKeepsInv(m: Mux)
    requires Inv(m) && NextId(m) !in m.pend
    ensures Inv(Step(m, Register))
  {
    var m' := Step(m, Register);
    forall i: nat | i < |m'.calls| ensures CallOk(m', i) {
      if i < |m.calls| { assert CallOk(m, i); }
    }
  }

  /** A step of one caller changes nothing but that caller's phase and channel. */
  lemma CallerKeepsInv(m: Mux, e: Event)
    requires Inv(m) && Enabled(m, e) && (e.Wrote? || e.GiveUp? || e.Take? || e.SeeExit?)
    ensures Inv(Step(m, e))
  {
    var m' := Step(m, e);
    assert CallOk(m, e.call);
    assert e.Take? ==> m.calls[e.call].chan[0] in m.calls[e.call].chan;
    forall i: nat | i < |m'.calls| ensures CallOk(m', i) {
      assert CallOk(m, i);
    }
  }

  lemma ReadKeepsInv(m: Mux, env: Envelope)
    requires Inv(m) && m.reader.Reading?
    ensures Inv(Step(m, Read(env)))
  {
    var m' := Step(m, Read(env));
    forall i: nat | i < |m'.calls| ensures CallOk(m', i) { assert CallOk(m, i); }
  }

  lemma PushKeepsInv(m: Mux)
    requires Inv(m) && Enabled(m, Push)
    ensures Inv(Step(m, Push))
  {
    var m' := Step(m, Push);
    forall i: nat | i < |m'.calls| ensures CallOk(m', i) { assert CallOk(m, i); }
  }

  lemma FailAllKeepsInv(m: Mux)
    requires Inv(m) && m.reader.Reading?
    ensures Inv(Step(m, FailAll))
  {
    var m' := Step(m, FailAll);
    forall i: nat | i < |m'.calls| ensures CallOk(m', i) { assert CallOk(m, i); }
  }

  lemma StepKeepsInv(m: Mux, e: Event)
    requires Inv(m) && Enabled(m, e) && Fresh(m, e)
    ensures Inv(Step(m, e))
  {
    match e
    case Register => RegisterKeepsInv(m);
    case Read(env) => ReadKeepsInv(m, env);
    case Push => PushKeepsInv(m);
    case FailAll => FailAllKeepsInv(m);
    case Close =>
      forall i: nat | i < |m.calls| ensures CallOk(Step(m, Close), i) { assert CallOk(m, i); }
    case _ => CallerKeepsInv(m, e);
  }

  // ---- runs ----

  function At(es: seq<Event>, n: nat): Mux
    requires n <= |es|
  {
    if n == 0 then Start() else
      var m := At(es, n - 1);
      if Enabled(m, es[n - 1]) then Step(m, es[n - 1]) else m
  }

  predicate FreshAt(es: seq<Event>, n: nat)
    requires n < |es|
  {
    Fresh(At(es, n), es[n])
  }

  lemma {:induction false} InvAt(es: seq<Event>, n: nat)
    requires n <= |es| && forall k: nat :: k < n ==> FreshAt(es, k)
    ensures Inv(At(es, n))
  {
    if n > 0 {
      InvAt(es, n - 1);
      assert FreshAt(es, n - 1);
      var m := At(es, n - 1);
      if Enabled(m, es[n - 1]) { StepKeepsInv(m, es[n - 1]); }
    }
  }

  /** A call's id is its number plus one, modulo the id space. */
  lemma {:induction false} IdsAt(es: seq<Event>, n: nat)
    requires n <= |es|
    ensures var m := At(es, n);
      && |m.calls| <= n
      && (forall i: nat :: i < |m.calls| ==> m.calls[i].id == (i + 1) % ID_SPACE)
      && (forall id <- m.pend :: exists i: nat :: i < |m.calls| && id == m.calls[i].id)
  {
    if n > 0 {
      IdsAt(es, n - 1);
      var m, e := At(es, n - 1), es[n - 1];
      if Enabled(m, e) { IdsAfter(m, e); }
    }
  }

  lemma IdsAfter(m: Mux, e: Event)
    requires Enabled(m, e)
    requires forall i: nat :: i < |m.calls| ==> m.calls[i].id == (i + 1) % ID_SPACE
    requires forall id <- m.pend :: exists i: nat :: i < |m.calls| && id == m.calls[i].id
    ensures var m' := Step(m, e);
      && |m'.calls| <= |m.calls| + 1
      && (forall i: nat :: i < |m'.calls| ==> m'.calls[i].id == (i + 1) % ID_SPACE)
      && (forall id <- m'.pend :: exists i: nat :: i < |m'.calls| && id == m'.calls[i].id)
  {
    var m' := Step(m, e);
    assert |m.calls| <= |m'.calls|;
    assert forall i: nat :: i < |m.calls| ==> m'.calls[i].id == m.calls[i].id;
    forall id | id in m'.pend ensures exists i: nat :: i < |m'.calls| && id == m'.calls[i].id {
      if id in m.pend {
        var i: nat :| i < |m.calls| && id == m.calls[i].id;
        assert id == m'.calls[i].id;
      } else {
        assert id == m'.calls[|m.calls|].id;
      }
    }
  }

  /** Up to 2^32 calls no id is ever reused, so the side condition always holds. */
  lemma FewCallsAreFresh(es: seq<Event>, n: nat)
    requires n < |es| && |At(es, n).calls| < ID_SPACE
    ensures FreshAt(es, n)
  {
    IdsAt(es, n);
    var m := At(es, n);
    if NextId(m) in m.pend {
      var i: nat :| i < |m.calls| && NextId(m) == m.calls[i].id;
      SmallModsDiffer(i + 1, |m.calls| + 1);
      assert false;
    }
  }

  lemma SmallModsDiffer(x: nat, y: nat)
    requires 0 < x < y <= ID_SPACE
    ensures x % ID_SPACE != y % ID_SPACE
  {}

  lemma {:induction false} CallsGrow(es: seq<Event>, k: nat, n: nat)
    requires k <= n <= |es|
    ensures |At(es, k).calls| <= |At(es, n).calls|
    decreases n - k
  {
    if k < n { CallsGrow(es, k, n - 1); }
  }

  /** In every interleaving of at most 2^32 calls, at every point: what a call received or has
      queued carries its own request id, its channel got at most one value and never holds
      more than its capacity, and the read loop's pending send never blocks. */
  lemma RepliesReachTheirCaller(es: seq<Event>, n: nat, i: nat)
    requires n <= |es| && |At(es, n).calls| <= ID_SPACE && i < |At(es, n).calls|
    ensures var m := At(es, n);
      var c := m.calls[i];
      && (c.phase.Answered? && c.phase.reply.Got? ==> c.phase.reply.env.reqId == c.id)
      && (forall r <- c.chan :: r.Got? ==> r.env.reqId == c.id)
      && c.sends <= 1 && |c.chan| <= 1
      && (m.reader.Holding? ==> Enabled(m, Push))
  {
    FewCallsInv(es, n);
    var m := At(es, n);
    assert CallOk(m, i);
    if m.reader.Holding? { assert CallOk(m, m.reader.target); }
  }

  lemma FewCallsInv(es: seq<Event>, n: nat)
    requires n <= |es| && |At(es, n).calls| <= ID_SPACE
    ensures Inv(At(es, n))
  {
    forall k: nat | k < n ensures FreshAt(es, k) {
      CallsGrow(es, k + 1, n);
      if |At(es, k).calls| < ID_SPACE {
        FewCallsAreFresh(es, k);
      }
    }
    InvAt(es, n);
  }

  /** No wake-up is lost: an active call is listed, is held by the read loop, or has its value
      queued; and once the loop has ended every waiting call can leave its select. */
  lemma NoWaiterStranded(es: seq<Event>, n: nat, i: nat)
    requires n <= |es| && |At(es, n).calls| <= ID_SPACE && i < |At(es, n).calls|
    requires Active(At(es, n).calls[i])
    ensures var m := At(es, n);
      && (Listed(m, i) || Held(m, i) || m.calls[i].chan != [])
      && (m.reader.Ended? && m.calls[i].phase.Waiting? ==> Enabled(m, SeeExit(i)))
  {
    FewCallsInv(es, n);
    assert CallOk(At(es, n), i);
  }

  // ---- replies arrive ----

  /** The state after the first `n` events of a continuation. */
  function Later(m: Mux, es: seq<Event>, n: nat): Mux
    requires n <= |es|
  {
    if n == 0 then m else
      var m' := Later(m, es, n - 1);
      if Enabled(m', es[n - 1]) then Step(m', es[n - 1]) else m'
  }

  /** Reply `r` is on its way to call `i`, or there: in the read loop's hand, on the channel, or
      taken from it; unless the call left its select another way. Nothing else leads to `i`. */
  predicate Served(m: Mux, i: nat, r: Reply) {
    && i < |m.calls| && (forall id <- m.pend :: m.pend[id] != i)
    && var c := m.calls[i];
       || (Held(m, i) && Got(m.reader.env) == r && c.chan == [] && Active(c))
       || (c.chan == [r] && Active(c))
       || c.phase == Answered(r) || c.phase.GaveUp? || c.phase.SawExit?
  }

  lemma ServedStep(m: Mux, e: Event, i: nat, r: Reply)
    requires Served(m, i, r) && Enabled(m, e)
    ensures Served(Step(m, e), i, r)
  {}

  lemma {:induction false} ServedForEver(es: seq<Event>, n: nat, k: nat, i: nat, r: Reply)
    requires n <= k <= |es| && Served(At(es, n), i, r)
    ensures Served(At(es, k), i, r)
    decreases k
  {
    if n < k {
      ServedForEver(es, n, k - 1, i, r);
      if Enabled(At(es, k - 1), es[k - 1]) { ServedStep(At(es, k - 1), es[k - 1], i, r); }
    }
  }

  /** What reading a reply does: one whose id is not listed changes nothing; any other is held
      for the call listed, whole, and that call alone leaves the table. */
  lemma ReadExactly(m: Mux, env: Envelope)
    requires Inv(m) && m.reader.Reading?
    ensures var m' := Step(m, Read(env));
      if env.reqId !in m.pend then m' == m
      else Served(m', m.pend[env.reqId], Got(env)) && m'.reader == Holding(m.pend[env.reqId], env) && m'.calls == m.calls
           && forall i: nat :: i < |m.calls| ==> (Listed(m', i) <==> Listed(m, i) && i != m.pend[env.reqId])
  {
    if env.reqId in m.pend { assert CallOk(m, m.pend[env.reqId]); }
  }

  /** In every run of at most 2^32 calls: once a reply is read while call `i` is listed under
      its id, at every later point that very reply, with its op and payload, is held for `i`,
      queued for it or returned to it, unless `i` gave up or saw the process exit. */
  lemma ReplyArrives(es: seq<Event>, n: nat, k: nat)
    requires n < k <= |es| && |At(es, n).calls| <= ID_SPACE
    requires es[n].Read? && Enabled(At(es, n), es[n]) && es[n].env.reqId in At(es, n).pend
    ensures Served(At(es, k), At(es, n).pend[es[n].env.reqId], Got(es[n].env))
  {
    FewCallsInv(es, n);
    ReadExactly(At(es, n), es[n].env);
    ServedForEver(es, n + 1, k, At(es, n).pend[es[n].env.reqId], Got(es[n].env));
  }

  /** Nothing stands in the way: from any state in which call `i` waits and is listed, its
      reply can be read, pushed and taken at once; `i` returns exactly that reply and leaves
      the table, and nothing else changes. */
  lemma ThreeSteps(m: Mux, i: nat, op: nat, payload: seq<int>)
    requires Inv(m) && m.reader.Reading? && i < |m.calls| && m.calls[i].phase.Waiting? && Listed(m, i)
    ensures var env := Envelope(op, m.calls[i].id, payload);
      && Enabled(m, Read(env))
      && var m1 := Step(m, Read(env));
      && Enabled(m1, Push)
      && var m2 := Step(m1, Push);
      && Enabled(m2, Take(i))
      && Step(m2, Take(i)) == m.(calls := m.calls[i := Call(env.reqId, Answered(Got(env)), [], 1)], pend := m.pend - {env.reqId})
  {
    assert CallOk(m, i);
    var env := Envelope(op, m.calls[i].id, payload);
    var m2 := Step(Step(m, Read(env)), Push);
    assert m.calls[i].chan + [Got(env)] == [Got(env)] && [Got(env)][1..] == [];
    assert m2.calls == m.calls[i := Call(env.reqId, Waiting, [Got(env)], 1)];
    assert Step(m2, Take(i)).calls == m.calls[i := Call(env.reqId, Answered(Got(env)), [], 1)];
  }

  /** A new call that is written waits, and is listed under an id of its own. */
  lemma TwoSteps(m: Mux)
    requires Inv(m) && NextId(m) !in m.pend
    ensures var i, m1 := |m.calls|, Step(m, Register);
      && Enabled(m1, Wrote(i))
      && var m2 := Step(m1, Wrote(i));
      && Inv(m2) && m2.calls == m.calls + [Call(NextId(m), Waiting, [], 0)] && Listed(m2, i)
      && m2.pend - {NextId(m)} == m.pend && m2.reader == m.reader && m2.dying == m.dying
  {
    RegisterKeepsInv(m);
    CallerKeepsInv(Step(m, Register), Wrote(|m.calls|));
  }

  /** A call's phase moves only by its own steps, and once it has ended it stays as it ended. */
  lemma PhaseMoves(m: Mux, e: Event, i: nat)
    requires Enabled(m, e) && i < |m.calls|
    ensures var before, after := m.calls[i].phase, Step(m, e).calls[i].phase;
      && (before != after ==> e in [Wrote(i), GiveUp(i), Take(i), SeeExit(i)])
      && (!Active(m.calls[i]) ==> after == before)
      && (e == GiveUp(i) ==> after == GaveUp) && (e == SeeExit(i) ==> m.dying && after == SawExit)
  {}

  lemma ServedAfter(es: seq<Event>, n: nat, k: nat, i: nat, r: Reply)
    requires n < k <= |es| && Enabled(At(es, n), es[n]) && Served(Step(At(es, n), es[n]), i, r)
    ensures Served(At(es, k), i, r)
  {
    ServedForEver(es, n + 1, k, i, r);
  }

  /** What the loop's failure does to one call: it gets the error if and only if it is listed. */
  lemma FailAllExactly(m: Mux, i: nat)
    requires Inv(m) && m.reader.Reading? && i < |m.calls|
    ensures var m' := Step(m, FailAll);
      && m'.pend == map[] && m'.reader == Closing && |m'.calls| == |m.calls|
      && (if Listed(m, i) then Served(m', i, Broken) else m'.calls[i] == m.calls[i])
  {
    assert CallOk(m, i);
  }

  /** The error reaches every caller: when the read loop fails, every call still listed finds
      Broken on its channel, at every later point, unless it left another way. */
  lemma FailureReachesAll(es: seq<Event>, n: nat, k: nat, i: nat)
    requires n < k <= |es| && |At(es, n).calls| <= ID_SPACE && es[n] == FailAll && Enabled(At(es, n), FailAll)
    requires i < |At(es, n).calls| && Listed(At(es, n), i)
    ensures Served(At(es, k), i, Broken)
  {
    FewCallsInv(es, n);
    var m := At(es, n);
    FailAllExactly(m, i);
    ServedAfter(es, n, k, i, Broken);
  }

  /** Where a reply can be seen: in the read loop's hand, on a channel, or returned. */
  predicate Seen(m: Mux, r: Reply) {
    || (m.reader.Holding? && Got(m.reader.env) == r)
    || exists i: nat :: i < |m.calls| && (r in m.calls[i].chan || m.calls[i].phase == Answered(r))
  }

  lemma SeenStep(m: Mux, e: Event, r: Reply)
    requires Enabled(m, e) && Seen(Step(m, e), r)
    ensures Seen(m, r) || (e.Read? && r == Got(e.env)) || (e.FailAll? && r == Broken)
  {
    var m' := Step(m, e);
    if !(m'.reader.Holding? && Got(m'.reader.env) == r) {
      var i: nat :| i < |m'.calls| && (r in m'.calls[i].chan || m'.calls[i].phase == Answered(r));
      if i < |m.calls| && (r in m.calls[i].chan || m.calls[i].phase == Answered(r)) {}
    }
  }

  /** No reply is made up: what is held, queued or returned was read as it stands; and Broken
      is seen only after the read loop failed. */
  lemma {:induction false} NothingInvented(es: seq<Event>, n: nat, r: Reply)
    requires n <= |es| && Seen(At(es, n), r)
    ensures exists k :: 0 <= k < n && (if r.Got? then es[k] == Read(r.env) else es[k] == FailAll)
  {
    var m := At(es, n - 1);
    if Enabled(m, es[n - 1]) { SeenStep(m, es[n - 1], r); }
    if Seen(m, r) { NothingInvented(es, n - 1, r); }
  }

  // ---- an id that is reused ----

  /** Call `i` can no longer be given a value: nothing in the table or in the read loop's hand
      leads to its channel, and the channel is empty. */
  predicate Stranded(m: Mux, i: nat) {
    && i < |m.calls| && m.calls[i].chan == [] && m.calls[i].sends == 0 && !m.calls[i].phase.Answered?
    && !Held(m, i) && forall id <- m.pend :: m.pend[id] != i
  }

  lemma StrandedStep(m: Mux, e: Event, i: nat)
    requires Stranded(m, i) && Enabled(m, e)
    ensures Stranded(Step(m, e), i)
  {}

  lemma {:induction false} StrandedForEver(m: Mux, es: seq<Event>, n: nat, i: nat)
    requires Stranded(m, i) && n <= |es|
    ensures Stranded(Later(m, es, n), i)
  {
    if n > 0 {
      StrandedForEver(m, es, n - 1, i);
      if Enabled(Later(m, es, n - 1), es[n - 1]) { StrandedStep(Later(m, es, n - 1), es[n - 1], i); }
    }
  }

  /** The side condition is exact: registering a call under an id that is still listed strands
      the call listed there before. In every continuation its channel is never given a value
      and it never gets an answer: it can only give up or see the process exit. */
  lemma ReusedIdStrandsCaller(m: Mux, es: seq<Event>, n: nat)
    requires Inv(m) && NextId(m) in m.pend && n <= |es|
    ensures !Inv(Step(m, Register)) && Stranded(Later(Step(m, Register), es, n), m.pend[NextId(m)])
  {
    var i, m' := m.pend[NextId(m)], Step(m, Register);
    assert CallOk(m, i);
    assert !CallOk(m', i);
    assert Stranded(m', i);
    StrandedForEver(m', es, n, i);
  }

  function Registers(n: nat): (es: seq<Event>)
    ensures |es| == n && forall i :: 0 <= i < n ==> es[i] == Register
  {
    if n == 0 then [] else Registers(n - 1) + [Register]
  }

  lemma {:induction false} FirstStaysListed(es: seq<Event>, n: nat)
    requires n <= |es| && n <= ID_SPACE && forall i :: 0 <= i < |es| ==> es[i] == Register
    ensures var m := At(es, n);
      |m.calls| == n && m.reader == Reading && (n > 0 ==> 1 in m.pend && m.pend[1] == 0)
  {
    if n > 0 {
      FirstStaysListed(es, n - 1);
      var m := At(es, n - 1);
      assert At(es, n) == Step(m, Register);
      if n > 1 { SmallModsDiffer(1, n); }
    }
  }

  /** It is reachable: if none of 2^32 callers is answered, the next one takes over the id of
      the first, which is still listed. */
  lemma IdReusedWhileListed()
    ensures var es := Registers(ID_SPACE);
      && |es| == ID_SPACE && Inv(At(es, |es|)) && NextId(At(es, |es|)) == 1
      && 1 in At(es, |es|).pend && At(es, |es|).pend[1] == 0
  {
    var es := Registers(ID_SPACE);
    FirstStaysListed(es, |es|);
    FewCallsInv(es, |es|);
  }
}
