/** What each operation of the registry is for: how long a transport stays off, gone or
    replaced, whatever other goroutines do, and what comes back from an export. */
module HostEffects {
  import opened Terms
  import opened HostLifecycle

  function RecordOf(h: Host, id: string): Option<Record> {
    if id in h.recs && h.recs[id] < |h.heap| then Some(h.heap[h.recs[id]]) else None
  }

  // ---- disabled ----

  /** Nothing is filed under `id`, or a record that is disabled and not live. */
  predicate Off(h: Host, id: string) {
    var rec := RecordOf(h, id);
    rec.Some? ==> !rec.value.enabled && rec.value.live.None?
  }

  /** The document is good and has an enabled entry for `id`. */
  predicate Restores(entries: seq<Entry>, id: string) {
    Checked(entries).Some? && exists i :: 0 <= i < |entries| && entries[i].id == id && entries[i].enabled
  }

  /** The steps by which a user turns a transport on. */
  predicate TurnsOn(e: Event, id: string) {
    || e == Enable(id)
    || (e.Install? && e.pkg.id == id && e.enable)
    || (e.Import? && Restores(e.entries, id))
  }

  lemma {:induction false} ImportedHas(entries: seq<Entry>, base: nat, i: nat)
    requires i < |entries|
    ensures entries[i].id in Imported(entries, base).1
  {
    var n := |entries| - 1;
    if i < n { ImportedHas(entries[..n], base, i); }
  }

  /** A good document replaces the registry: each entry comes back with its package, its pin and
      its flag, not live, and no other id is filed. A bad one changes nothing. */
  lemma ImportExactly(h: Host, entries: seq<Entry>)
    ensures Checked(entries).None? ==> DoImport(h, entries) == h
    ensures Checked(entries).Some? ==>
      && (forall i :: 0 <= i < |entries| ==>
            RecordOf(DoImport(h, entries), entries[i].id) == Some(Record(entries[i].pkg, entries[i].hash, entries[i].enabled, None)))
      && (forall id <- DoImport(h, entries).recs :: exists i :: 0 <= i < |entries| && entries[i].id == id)
  {
    if Checked(entries).Some? {
      var h', n := DoImport(h, entries), |h.heap|;
      forall i | 0 <= i < |entries|
        ensures RecordOf(h', entries[i].id) == Some(Record(entries[i].pkg, entries[i].hash, entries[i].enabled, None))
      {
        ImportedHas(entries, n, i);
        ImportedAt(entries, n, entries[i].id);
        assert entries[h'.recs[entries[i].id] - n].id == entries[i].id;
      }
      forall id | id in h'.recs ensures exists i :: 0 <= i < |entries| && entries[i].id == id {
        ImportedAt(entries, n, id);
        assert entries[h'.recs[id] - n].id == id;
      }
    }
  }

  lemma ImportOffIff(h: Host, entries: seq<Entry>, id: string)
    requires Off(h, id)
    ensures Off(DoImport(h, entries), id) <==> !Restores(entries, id)
  {
    ImportExactly(h, entries);
  }

  /** What the other steps do to the record of one id. */
  lemma FinishOff(h: Host, id: string)
    requires Inv(h) && Off(h, id) && Enabled(h, Finish)
    ensures Off(Step(h, Finish), id)
    ensures h.ensuring.value.id == id ==> h.ensuring.value.runtime.value in Step(h, Finish).doomed
  {
    var s := h.ensuring.value;
    if id in h.recs && s.id in h.recs && h.recs[s.id] == h.recs[id] { OneIdEach(h, s.id, id); }
  }

  lemma RegistryOffIff(h: Host, e: Event, id: string)
    requires Inv(h) && Off(h, id) && Enabled(h, e) && (e.Install? || e.Enable? || e.Disable? || e.Remove?)
    ensures Off(Step(h, e), id) <==> !TurnsOn(e, id)
  {
    var key := if e.Install? then e.pkg.id else e.id;
    if id in h.recs { assert Filed(h, id); }
    if key in h.recs {
      assert Filed(h, key);
      if id in h.recs && h.recs[key] == h.recs[id] { OneIdEach(h, key, id); }
    }
  }

  /** One step keeps a transport off if and only if it does not turn it on. */
  lemma OffIff(h: Host, e: Event, id: string)
    requires Inv(h) && Off(h, id) && Enabled(h, e)
    ensures Off(Step(h, e), id) <==> !TurnsOn(e, id)
  {
    match e
    case Install(_, _) => RegistryOffIff(h, e, id);
    case Enable(_) => RegistryOffIff(h, e, id);
    case Disable(_) => RegistryOffIff(h, e, id);
    case Remove(_) => RegistryOffIff(h, e, id);
    case Import(entries) => ImportOffIff(h, entries, id);
    case Finish => FinishOff(h, id);
    case _ =>
  }

  /** What is off cannot be started, and nothing runs under it. */
  lemma OffMeans(h: Host, id: string, t: nat)
    requires Inv(h) && Off(h, id)
    ensures DoBegin(h, id) == h && !LiveUnder(h, id, t)
  {
    if id in h.recs { assert Filed(h, id); }
  }

  lemma {:induction false} OffUntil(es: seq<Event>, n: nat, k: nat, id: string)
    requires n <= k <= |es| && Off(At(es, n), id) && forall i :: n <= i < k ==> !TurnsOn(es[i], id)
    ensures Off(At(es, k), id)
    decreases k
  {
    if n < k {
      OffUntil(es, n, k - 1, id);
      InvAt(es, k - 1);
      if Enabled(At(es, k - 1), es[k - 1]) { OffIff(At(es, k - 1), es[k - 1], id); }
    }
  }

  predicate TurnsOff(e: Event, id: string) { e == Disable(id) || e == Remove(id) }

  lemma SwitchedOff(h: Host, e: Event, id: string)
    requires Inv(h) && Enabled(h, e) && TurnsOff(e, id)
    ensures Off(Step(h, e), id)
    ensures if e.Remove? then id !in Step(h, e).recs else RecordOf(Step(h, e), id) == Some(h.heap[h.recs[id]].(enabled := false, live := None))
    ensures forall t: nat :: LiveUnder(h, id, t) ==> t in Step(h, e).doomed
  {
    assert Filed(h, id);
  }

  /** In every interleaving: after Disable(id) or Remove(id), and until a step turns `id` on,
      nothing is live under it, every attempt to start it leaves the host as it is, and an
      ensure that was under way for it has its runtime stopped. */
  lemma StaysOff(es: seq<Event>, n: nat, k: nat, id: string, t: nat)
    requires n < k <= |es| && TurnsOff(es[n], id) && Enabled(At(es, n), es[n])
    requires forall i :: n < i < k ==> !TurnsOn(es[i], id)
    ensures Off(At(es, k), id) && !LiveUnder(At(es, k), id, t) && DoBegin(At(es, k), id) == At(es, k)
    ensures var h := At(es, k);
      Enabled(h, Finish) && h.ensuring.value.id == id ==> h.ensuring.value.runtime.value in Step(h, Finish).doomed
  {
    InvAt(es, n);
    SwitchedOff(At(es, n), es[n], id);
    OffUntil(es, n + 1, k, id);
    InvAt(es, k);
    OffMeans(At(es, k), id, t);
    if Enabled(At(es, k), Finish) { FinishOff(At(es, k), id); }
  }

  // ---- removed ----

  /** The steps that file something under `id`. */
  predicate Files(e: Event, id: string) {
    || (e.Install? && e.pkg.id == id)
    || (e.Import? && Checked(e.entries).Some? && exists i :: 0 <= i < |e.entries| && e.entries[i].id == id)
  }

  lemma UnfiledIff(h: Host, e: Event, id: string)
    requires id !in h.recs && Enabled(h, e)
    ensures id !in Step(h, e).recs <==> !Files(e, id)
  {
    if e.Import? { ImportExactly(h, e.entries); }
  }

  /** In every interleaving: after Remove(id) nothing is filed under `id` until it is installed
      again or an import has it. */
  lemma {:induction false} StaysRemoved(es: seq<Event>, n: nat, k: nat, id: string)
    requires n < k <= |es| && es[n] == Remove(id) && Enabled(At(es, n), es[n])
    requires forall i :: n < i < k ==> !Files(es[i], id)
    ensures id !in At(es, k).recs
    decreases k
  {
    if n + 1 < k {
      StaysRemoved(es, n, k - 1, id);
      if Enabled(At(es, k - 1), es[k - 1]) { UnfiledIff(At(es, k - 1), es[k - 1], id); }
    }
  }

  // ---- the runtimes left behind ----

  predicate Orphaned(h: Host, r: nat, t: nat) { r in h.orphans && HoldsLive(h, r, t) }

  /** Runtime t is stopped, about to be, or held by a record an import still has to sweep. */
  ghost predicate Leaving(h: Host, t: nat) {
    t in h.doomed || t in h.stopped || exists r: nat :: Orphaned(h, r, t)
  }

  lemma OrphanKept(h: Host, e: Event, r: nat, t: nat)
    requires Inv(h) && Enabled(h, e) && Orphaned(h, r, t)
    ensures Leaving(Step(h, e), t)
  {
    var h' := Step(h, e);
    if e.Finish? || e.Install? || e.Enable? || e.Disable? {
      var key := if e.Finish? then h.ensuring.value.id else if e.Install? then e.pkg.id else e.id;
      assert key in h.recs ==> h.recs[key] in h.recs.Values;
    }
    if e != Sweep(r) { assert Orphaned(h', r, t); }
  }

  lemma LeavingStep(h: Host, e: Event, t: nat)
    requires Inv(h) && Enabled(h, e) && Leaving(h, t)
    ensures Leaving(Step(h, e), t)
  {
    if t !in h.doomed && t !in h.stopped {
      var r: nat :| Orphaned(h, r, t);
      OrphanKept(h, e, r, t);
    }
  }

  lemma {:induction false} LeavingUntil(es: seq<Event>, n: nat, k: nat, t: nat)
    requires n <= k <= |es| && Leaving(At(es, n), t)
    ensures Leaving(At(es, k), t)
    decreases k
  {
    if n < k {
      LeavingUntil(es, n, k - 1, t);
      InvAt(es, k - 1);
      if Enabled(At(es, k - 1), es[k - 1]) { LeavingStep(At(es, k - 1), es[k - 1], t); }
    }
  }

  /** A runtime that is leaving is live under no id. */
  lemma LeavingIsNotLive(h: Host, id: string, t: nat)
    requires Inv(h) && Leaving(h, t)
    ensures !LiveUnder(h, id, t)
  {
    if id in h.recs {
      assert h.recs[id] in h.recs.Values;
      assert Apart(h, h.recs[id], t);
    }
  }

  /** Disable and Remove take the runtime of their transport out of service; a good Import takes
      out every one. */
  predicate Ends(e: Event, id: string) { TurnsOff(e, id) || (e.Import? && Checked(e.entries).Some?) }

  /** In every interleaving: the runtime that was live under `id` when it was disabled, removed
      or replaced by an import is from then on stopped or waiting to be stopped, and is never
      again live under any id. */
  lemma RuntimeNeverReturns(es: seq<Event>, n: nat, k: nat, id: string, t: nat, other: string)
    requires n < k <= |es| && Ends(es[n], id) && Enabled(At(es, n), es[n]) && LiveUnder(At(es, n), id, t)
    ensures Leaving(At(es, k), t) && !LiveUnder(At(es, k), other, t)
  {
    InvAt(es, n);
    EndsRuntime(At(es, n), es[n], id, t);
    LeavingUntil(es, n + 1, k, t);
    InvAt(es, k);
    LeavingIsNotLive(At(es, k), other, t);
  }

  lemma EndsRuntime(h: Host, e: Event, id: string, t: nat)
    requires Inv(h) && Ends(e, id) && Enabled(h, e) && LiveUnder(h, id, t)
    ensures Leaving(Step(h, e), t)
  {
    if e.Import? {
      assert h.recs[id] in h.recs.Values;
      assert Orphaned(Step(h, e), h.recs[id], t);
    } else {
      SwitchedOff(h, e, id);
    }
  }

  /** What is leaving can be stopped: by Stop, after the sweep if an import left it behind. */
  lemma LeavingCanStop(h: Host, t: nat)
    requires Inv(h) && Leaving(h, t) && t !in h.stopped
    ensures Enabled(h, Stop(t)) || exists r: nat :: Enabled(h, Sweep(r)) && t in Step(h, Sweep(r)).doomed
  {
    if t !in h.doomed {
      var r: nat :| Orphaned(h, r, t);
      assert Enabled(h, Sweep(r)) && t in Step(h, Sweep(r)).doomed;
    }
  }

  // ---- installed, enabled, started ----

  /** Installing over a live transport changes nothing. Otherwise the package is stored and
      pinned, and is enabled exactly when asked, or when the same hash was enabled before; no
      other id's record moves. */
  lemma InstallExactly(h: Host, pkg: Package, enable: bool, other: string)
    requires Inv(h)
    ensures var was, h' := RecordOf(h, pkg.id), DoInstall(h, pkg, enable);
      if was.Some? && was.value.live.Some? then h' == h
      else
        && RecordOf(h', pkg.id) == Some(Record(pkg, HashOf(pkg), enable || (was.Some? && was.value.pinned == HashOf(pkg) && was.value.enabled), None))
        && (other != pkg.id ==> RecordOf(h', other) == RecordOf(h, other))
  {
    if pkg.id in h.recs { assert Filed(h, pkg.id); }
    if other in h.recs {
      assert Filed(h, other);
      if pkg.id in h.recs && h.recs[pkg.id] == h.recs[other] { OneIdEach(h, pkg.id, other); }
    }
  }

  /** Enabling a filed transport always succeeds, since its pin is its hash, and touches nothing
      but the flag. */
  lemma EnableExactly(h: Host, id: string, other: string)
    requires Inv(h) && Enabled(h, Enable(id))
    ensures RecordOf(Step(h, Enable(id)), id) == Some(h.heap[h.recs[id]].(enabled := true))
    ensures other != id ==> RecordOf(Step(h, Enable(id)), other) == RecordOf(h, other)
  {
    assert Filed(h, id);
    if other in h.recs && h.recs[other] == h.recs[id] { OneIdEach(h, other, id); }
  }

  /** On any host at all, reachable or not, a package that is not the one pinned is neither
      enabled nor started. */
  lemma BadPinNeverRuns(h: Host, id: string)
    requires Enabled(h, Enable(id)) && h.heap[h.recs[id]].pinned != HashOf(h.heap[h.recs[id]].pkg)
    ensures !Step(h, Enable(id)).heap[h.recs[id]].enabled
    ensures h.ensuring.None? && DoBegin(h, id) != h ==> !Enabled(DoBegin(h, id), Spawn)
  {}

  /** An undisturbed ensure starts what is enabled: the stored package runs, live under its id,
      and the record is otherwise as it was. */
  lemma EnsureStarts(h: Host, id: string)
    requires Inv(h) && h.ensuring.None? && id in h.recs && h.heap[h.recs[id]].enabled && h.heap[h.recs[id]].live.None?
    ensures var h1 := Step(h, Begin(id));
      && Enabled(h1, Spawn)
      && var h2 := Step(h1, Spawn);
      && Enabled(h2, Finish)
      && var h3 := Step(h2, Finish);
      && RecordOf(h3, id) == Some(h.heap[h.recs[id]].(live := Some(|h.runtimes|))) && h3.ensuring.None?
      && h3.runtimes == h.runtimes + [h.heap[h.recs[id]].pkg] && h3.recs == h.recs && h3.doomed == h.doomed
  {
    assert Filed(h, id);
  }

  // ---- export and import ----

  /** What Export writes: every filed record once, in any order. */
  predicate Exports(h: Host, entries: seq<Entry>) {
    && (forall i :: 0 <= i < |entries| ==>
          var rec := RecordOf(h, entries[i].id);
          rec.Some? && entries[i] == Entry(entries[i].id, rec.value.pkg, rec.value.pinned, rec.value.enabled))
    && (forall i, j :: 0 <= j < i < |entries| ==> entries[j].id != entries[i].id)
    && (forall id <- h.recs :: exists i :: 0 <= i < |entries| && entries[i].id == id)
  }

  /** Importing an export on any host at all is never refused and gives back the registry it was
      taken from, with nothing live. */
  lemma ImportRestores(h: Host, entries: seq<Entry>, g: Host, id: string)
    requires Inv(h) && Exports(h, entries)
    ensures Checked(entries).Some?
    ensures RecordOf(DoImport(g, entries), id) ==
            if id in h.recs then Some(RecordOf(h, id).value.(live := None)) else None
  {
    forall i | 0 <= i < |entries| ensures Verify(entries[i].pkg, entries[i].hash) && entries[i].pkg.id == entries[i].id {
      assert Filed(h, entries[i].id);
    }
    ImportExactly(g, entries);
    if id in h.recs {
      var i :| 0 <= i < |entries| && entries[i].id == id;
    }
  }
}
