/** Restarts from the last saved state. A client saves all its sessions after every send and
    after every frame that opens, but not after a frame that fails: what that frame moved is
    lost if the process stops before the next save. */
module Crashes {
  import opened Terms
  import opened Ratchet
  import opened OneUse

  /** One step of a process: an event of the session, a save prompted by another session, or
      a stop and a load of what was saved last. */
  datatype Step = Do(event: Event) | Saved | Crashed

  /** The events behind the session as it is now, and how many of them are behind the saved one. */
  datatype Record = Record(events: seq<Event>, saved: nat)

  function Now(s: Session, r: Record): Session { StateAt(s, r.events, |r.events|) }

  /** The client saves after this event. */
  predicate Saves(s: Session, e: Event) { e.Send? || Accepted(s, e) }

  function Advance(s: Session, r: Record, step: Step): Record {
    match step
    case Do(e) => Record(r.events + [e], if Saves(Now(s, r), e) then |r.events| + 1 else r.saved)
    case Saved => r.(saved := |r.events|)
    case Crashed => if r.saved > |r.events| then r else Record(r.events[..r.saved] + [Restarted], r.saved + 1)
  }

  /** The record after the first `n` steps. */
  function RecordAt(s: Session, steps: seq<Step>, n: nat): (r: Record)
    requires n <= |steps|
    ensures r.saved <= |r.events|
  {
    if n == 0 then Record([], 0) else Advance(s, RecordAt(s, steps, n - 1), steps[n - 1])
  }

  lemma {:induction false} StatePrefix(s: Session, es: seq<Event>, ds: seq<Event>, k: nat)
    requires k <= |es| && k <= |ds| && es[..k] == ds[..k]
    ensures StateAt(s, es, k) == StateAt(s, ds, k)
  {
    if k > 0 {
      assert es[k - 1] == es[..k][k - 1] && ds[k - 1] == ds[..k][k - 1];
      assert es[..k - 1] == es[..k][..k - 1] && ds[..k - 1] == ds[..k][..k - 1];
      StatePrefix(s, es, ds, k - 1);
    }
  }

  /** What is saved is never lost. */
  lemma {:induction false} SavedStays(s: Session, steps: seq<Step>, i: nat, n: nat)
    requires i <= n <= |steps|
    ensures var a, b := RecordAt(s, steps, i), RecordAt(s, steps, n); a.saved <= b.saved && b.events[..a.saved] == a.events[..a.saved]
    decreases n - i
  {
    if i < n {
      SavedStays(s, steps, i, n - 1);
      SavedNext(s, RecordAt(s, steps, n - 1), steps[n - 1]);
      var a, b, c := RecordAt(s, steps, i), RecordAt(s, steps, n - 1), RecordAt(s, steps, n);
      assert c.events[..b.saved][..a.saved] == c.events[..a.saved] && b.events[..b.saved][..a.saved] == b.events[..a.saved];
    }
  }

  lemma SavedNext(s: Session, r: Record, step: Step)
    requires r.saved <= |r.events|
    ensures var q := Advance(s, r, step); r.saved <= q.saved <= |q.events| && q.events[..r.saved] == r.events[..r.saved]
  {}

  /** Step i is an event after which the client saves. */
  predicate SavesAt(s: Session, steps: seq<Step>, i: nat) {
    i < |steps| && steps[i].Do? && Saves(Now(s, RecordAt(s, steps, i)), steps[i].event)
  }

  /** History `es` has event `e` at place k, and the session was `at` there. */
  predicate Stands(s: Session, es: seq<Event>, k: nat, at: Session, e: Event) {
    k < |es| && es[k] == e && StateAt(s, es, k) == at
  }

  /** Such an event stands at its own place in every later history, with the same past. */
  lemma StandsAt(s: Session, steps: seq<Step>, i: nat, n: nat)
    requires SavesAt(s, steps, i) && i < n <= |steps|
    ensures var r, q := RecordAt(s, steps, i), RecordAt(s, steps, n);
      |r.events| < |q.events| && Stands(s, q.events, |r.events|, Now(s, r), steps[i].event)
  {
    var r, q, c := RecordAt(s, steps, i), RecordAt(s, steps, i + 1), RecordAt(s, steps, n);
    var k := |r.events|;
    SavedStays(s, steps, i + 1, n);
    assert q.events == r.events + [steps[i].event] && q.saved == k + 1;
    assert c.events[..k + 1] == q.events;
    assert c.events[k] == c.events[..k + 1][k] && c.events[..k] == c.events[..k + 1][..k] == r.events[..k];
    StatePrefix(s, c.events, r.events, k);
  }

  /** Step i sends a frame or opens one. */
  predicate UsesAt(s: Session, steps: seq<Step>, i: nat) {
    i < |steps| && steps[i].Do? && (steps[i].event.Send? || Accepted(Now(s, RecordAt(s, steps, i)), steps[i].event))
  }

  function KeysOf(s: Session, e: Event): set<Term> { Entry(KeySealed(s, e)) + Entry(KeyTried(s, e)) }

  /** Over every run with stops at any point: no two sends, no two frames that open, and no send
      and frame that opens use the same key. */
  lemma SavedKeysUsedOnce(s: Session, steps: seq<Step>, i: nat, j: nat)
    requires Established(s) && i < j && UsesAt(s, steps, i) && UsesAt(s, steps, j)
    ensures KeysOf(Now(s, RecordAt(s, steps, i)), steps[i].event) !! KeysOf(Now(s, RecordAt(s, steps, j)), steps[j].event)
  {
    Ordered(s, steps, i, j);
    var a, b, c := RecordAt(s, steps, i), RecordAt(s, steps, j), RecordAt(s, steps, |steps|);
    KeysApart(s, c.events, |a.events|, |b.events|, Now(s, a), steps[i].event, Now(s, b), steps[j].event);
  }

  /** Both stand in the last history, in their order. */
  lemma Ordered(s: Session, steps: seq<Step>, i: nat, j: nat)
    requires i < j && SavesAt(s, steps, i) && SavesAt(s, steps, j)
    ensures var a, b, c := RecordAt(s, steps, i), RecordAt(s, steps, j), RecordAt(s, steps, |steps|);
      && |a.events| < |b.events|
      && Stands(s, c.events, |a.events|, Now(s, a), steps[i].event) && Stands(s, c.events, |b.events|, Now(s, b), steps[j].event)
  {
    StandsAt(s, steps, i, |steps|);
    StandsAt(s, steps, j, |steps|);
    StandsAt(s, steps, i, j);
  }

  lemma KeysApart(s: Session, es: seq<Event>, k: nat, l: nat, sk: Session, ek: Event, sl: Session, el: Event)
    requires Established(s) && k < l && Stands(s, es, k, sk, ek) && Stands(s, es, l, sl, el)
    ensures KeysOf(sk, ek) !! KeysOf(sl, el)
  {
    MessageKeysUsedOnce(s, es, k, l);
  }

  /** And no frame is accepted twice. */
  lemma NoFrameAcceptedTwiceOverCrashes(s: Session, steps: seq<Step>, i: nat, j: nat)
    requires Established(s) && i < j < |steps| && steps[i].Do? && steps[j].Do?
    requires Accepted(Now(s, RecordAt(s, steps, i)), steps[i].event) && Accepted(Now(s, RecordAt(s, steps, j)), steps[j].event)
    ensures steps[i].event.frame != steps[j].event.frame
  {
    SavedKeysUsedOnce(s, steps, i, j);
  }

  /** A stop right after an unsaved event takes the record back to before it. */
  lemma FailureIsForgotten(s: Session, r: Record, e: Event)
    requires r.saved == |r.events| && !Saves(Now(s, r), e)
    ensures Advance(s, Advance(s, r, Do(e)), Crashed).events == r.events + [Restarted]
  {
    assert (r.events + [e])[..|r.events|] == r.events;
  }

  /** A key tried in vain is not used up: a frame that fails on a saved session tries the same
      key again after a stop. */
  lemma FailedTryRepeats(s: Session, steps: seq<Step>, i: nat, f: Frame)
    requires i + 2 < |steps| && steps[i] == Do(Receive(f)) && steps[i + 1] == Crashed && steps[i + 2] == Do(Receive(f))
    requires RecordAt(s, steps, i).saved == |RecordAt(s, steps, i).events| && !Accepted(Now(s, RecordAt(s, steps, i)), Receive(f))
    ensures Now(s, RecordAt(s, steps, i + 2)) == Restart(Now(s, RecordAt(s, steps, i)))
    ensures TriedKey(Now(s, RecordAt(s, steps, i + 2)), f) == TriedKey(Now(s, RecordAt(s, steps, i)), f)
  {
    var r := RecordAt(s, steps, i);
    TwoMore(s, steps, i);
    FailureIsForgotten(s, r, Receive(f));
    RestartedState(s, r.events);
    RestartKeepsKeys(Now(s, r), f);
  }

  lemma TwoMore(s: Session, steps: seq<Step>, i: nat)
    requires i + 2 <= |steps|
    ensures RecordAt(s, steps, i + 2) == Advance(s, Advance(s, RecordAt(s, steps, i), steps[i]), steps[i + 1])
  {
    assert RecordAt(s, steps, i + 1) == Advance(s, RecordAt(s, steps, i), steps[i]);
  }

  lemma RestartedState(s: Session, es: seq<Event>)
    ensures StateAt(s, es + [Restarted], |es| + 1) == Restart(StateAt(s, es, |es|))
  {
    StatePrefix(s, es + [Restarted], es, |es|);
  }

  lemma RestartKeepsKeys(s: Session, f: Frame)
    ensures TriedKey(Restart(s), f) == TriedKey(s, f)
  {
    var t, u := Turned(s, f.ratchetKey), Turned(Restart(s), f.ratchetKey);
    StashUntilEffect(t, f.nonce);
    StashUntilEffect(u, f.nonce);
  }
}
