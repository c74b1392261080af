/** The in-memory transport registry and its two locks. Every event is what one goroutine does
    while it holds `mu`, or one step it takes outside it; `ensure` holds `startMu` from
    Begin to its end, so at most one is in progress. Records are addressed by number, because
    the source compares them by identity. */
module HostLifecycle {

  import opened Terms

  datatype Hash = NoHash | Sha(raw: seq<int>)

  /** A package as Inspect returns it: its id and its raw bytes. */
  datatype Package = Package(id: string, raw: seq<int>)

  function HashOf(p: Package): Hash { Sha(p.raw) }

  predicate Verify(p: Package, pinned: Hash) { pinned != NoHash && HashOf(p) == pinned }

  datatype Record = Record(pkg: Package, pinned: Hash, enabled: bool, live: Option<nat>)

  /** An `ensure` past its first critical section, with what it copied there. */
  datatype Starting = Starting(id: string, ref: nat, pkg: Package, pinned: Hash, runtime: Option<nat>)

  /** `runtimes[t]` is the package runtime t was spawned from; `doomed` are those some goroutine
      is about to stop; `orphans` are the records an Import has swapped out and not yet swept. */
  datatype Host = Host(
    heap: seq<Record>, recs: map<string, nat>, ensuring: Option<Starting>,
    runtimes: seq<Package>, doomed: set<nat>, stopped: set<nat>, orphans: set<nat>)

  datatype Entry = Entry(id: string, pkg: Package, hash: Hash, enabled: bool)

  datatype Event =
    | Install(pkg: Package, enable: bool)
    | Enable(id: string)
    | Disable(id: string)
    | Remove(id: string)
    | Import(entries: seq<Entry>)
    | Sweep(ref: nat)
    | Begin(id: string)
    | Spawn
    | Abandon
    | Finish
    | Stop(runtime: nat)

  function Fresh(): Host { Host([], map[], None, [], {}, {}, {}) }

  function Doom(h: Host, t: Option<nat>): set<nat> { h.doomed + if t.Some? then {t.value} else {} }

  function DoInstall(h: Host, pkg: Package, enable: bool): Host {
    if pkg.id !in h.recs then
      h.(heap := h.heap + [Record(pkg, HashOf(pkg), enable, None)], recs := h.recs[pkg.id := |h.heap|])
    else
      var r := h.recs[pkg.id];
      if r >= |h.heap| || h.heap[r].live.Some? then h else
        var kept := h.heap[r].pinned == HashOf(pkg) && h.heap[r].enabled;
        h.(heap := h.heap[r := h.heap[r].(pkg := pkg, pinned := HashOf(pkg), enabled := enable || kept)])
  }

  function DoEnable(h: Host, id: string): Host
    requires id in h.recs && h.recs[id] < |h.heap|
  {
    var r := h.recs[id];
    h.(heap := h.heap[r := h.heap[r].(enabled := Verify(h.heap[r].pkg, h.heap[r].pinned))])
  }

  /** The whole document is checked before anything changes: None if any entry fails. */
  function Checked(entries: seq<Entry>): Option<seq<Entry>> {
    if forall i :: 0 <= i < |entries| ==>
         && Verify(entries[i].pkg, entries[i].hash) && entries[i].pkg.id == entries[i].id
         && (forall j :: 0 <= j < i ==> entries[j].id != entries[i].id)
    then Some(entries) else None
  }

  /** The records of an import are appended to the heap in order. */
  function Imported(entries: seq<Entry>, base: nat): (r: (seq<Record>, map<string, nat>))
    ensures |r.0| == |entries|
  {
    if entries == [] then ([], map[])
    else
      var n := |entries| - 1;
      var (recs, m) := Imported(entries[..n], base);
      var e := entries[n];
      (recs + [Record(e.pkg, e.hash, e.enabled, None)], m[e.id := base + n])
  }

  function DoImport(h: Host, entries: seq<Entry>): Host {
    if Checked(entries).None? then h else
      var (records, m) := Imported(entries, |h.heap|);
      h.(heap := h.heap + records, recs := m, orphans := h.orphans + h.recs.Values)
  }

  function DoBegin(h: Host, id: string): Host {
    if id !in h.recs || h.recs[id] >= |h.heap| then h else
      var r := h.recs[id];
      var rec := h.heap[r];
      if !rec.enabled || rec.live.Some? then h
      else h.(ensuring := Some(Starting(id, r, rec.pkg, rec.pinned, None)))
  }

  /** The last critical section of `ensure`. */
  function DoFinish(h: Host, s: Starting): Host
    requires s.runtime.Some?
  {
    if s.id in h.recs && h.recs[s.id] == s.ref && s.ref < |h.heap| && h.heap[s.ref].enabled then
      h.(heap := h.heap[s.ref := h.heap[s.ref].(live := s.runtime)], ensuring := None)
    else h.(doomed := Doom(h, s.runtime), ensuring := None)
  }

  predicate Enabled(h: Host, e: Event) {
    match e
    case Enable(id) => id in h.recs && h.recs[id] < |h.heap|
    case Disable(id) => id in h.recs && h.recs[id] < |h.heap|
    case Remove(id) => id in h.recs && h.recs[id] < |h.heap|
    case Sweep(r) => r in h.orphans && r < |h.heap|
    case Begin(_) => h.ensuring.None?
    case Spawn => h.ensuring.Some? && h.ensuring.value.runtime.None? && Verify(h.ensuring.value.pkg, h.ensuring.value.pinned)
    case Abandon => h.ensuring.Some?
    case Finish => h.ensuring.Some? && h.ensuring.value.runtime.Some?
    case Stop(t) => t in h.doomed
    case _ => true
  }

  function Step(h: Host, e: Event): Host
    requires Enabled(h, e)
  {
    match e
    case Install(pkg, enable) => DoInstall(h, pkg, enable)
    case Enable(id) => DoEnable(h, id)
    case Disable(id) =>
      var r := h.recs[id];
      h.(heap := h.heap[r := h.heap[r].(live := None, enabled := false)], doomed := Doom(h, h.heap[r].live))
    case Remove(id) => h.(recs := h.recs - {id}, doomed := Doom(h, h.heap[h.recs[id]].live))
    case Import(entries) => DoImport(h, entries)
    case Sweep(r) => h.(orphans := h.orphans - {r}, doomed := Doom(h, h.heap[r].live))
    case Begin(id) => DoBegin(h, id)
    case Spawn =>
      var s := h.ensuring.value;
      h.(runtimes := h.runtimes + [s.pkg], ensuring := Some(s.(runtime := Some(|h.runtimes|))))
    case Abandon => h.(doomed := Doom(h, h.ensuring.value.runtime), ensuring := None)
    case Finish => DoFinish(h, h.ensuring.value)
    case Stop(t) => h.(doomed := h.doomed - {t}, stopped := h.stopped + {t})
  }

  // ---- the invariant ----

  /** The record filed under `id`. */
  predicate Filed(h: Host, id: string) {
    && id in h.recs && h.recs[id] < |h.heap|
    && h.heap[h.recs[id]].pkg.id == id
    && h.heap[h.recs[id]].pinned == HashOf(h.heap[h.recs[id]].pkg)
    && (h.heap[h.recs[id]].live.Some? ==> h.heap[h.recs[id]].enabled)
  }

  predicate HoldsLive(h: Host, r: nat, t: nat) { r < |h.heap| && h.heap[r].live == Some(t) }

  /** Runtime t is the live handle of a filed record. */
  predicate LiveUnder(h: Host, id: string, t: nat) { id in h.recs && HoldsLive(h, h.recs[id], t) }

  predicate InFlight(h: Host, t: nat) { h.ensuring.Some? && h.ensuring.value.runtime == Some(t) }

  /** A spawned runtime is live under some id, held by an ensure, stopped, or on its way out. */
  ghost predicate Accounted(h: Host, t: nat) {
    || InFlight(h, t) || t in h.doomed || t in h.stopped
    || (exists id :: LiveUnder(h, id, t))
    || (exists r :: r in h.orphans && HoldsLive(h, r, t))
  }

  predicate Apart(h: Host, r: nat, t: nat) {
    HoldsLive(h, r, t) ==>
      && t < |h.runtimes| && !InFlight(h, t)
      && (r in h.recs.Values || r in h.orphans ==> t !in h.doomed && t !in h.stopped)
  }

  ghost predicate Inv(h: Host) {
    && (forall id <- h.recs :: Filed(h, id))
    && (forall t: nat :: t < |h.runtimes| ==> Accounted(h, t))
    && (forall r: nat, t: nat :: Apart(h, r, t))
    && (forall r: nat, q: nat, t: nat :: HoldsLive(h, r, t) && HoldsLive(h, q, t) ==> r == q)
    && (forall r <- h.orphans :: r < |h.heap| && r !in h.recs.Values)
    && (forall t <- h.doomed :: t < |h.runtimes| && !InFlight(h, t))
    && (forall t <- h.stopped :: t < |h.runtimes| && !InFlight(h, t))
    && (h.ensuring.Some? ==> StartOk(h, h.ensuring.value))
  }

  /** While an ensure is in progress its record has no live handle, so Finish overwrites none. */
  predicate StartOk(h: Host, s: Starting) {
    && s.ref < |h.heap| && h.heap[s.ref].live.None? && s.pinned == HashOf(s.pkg)
    && (s.runtime.Some? ==> s.runtime.value < |h.runtimes| && h.runtimes[s.runtime.value] == s.pkg)
  }

  /** Distinct ids are filed under distinct records. */
  lemma OneIdEach(h: Host, id: string, other: string)
    requires Inv(h) && id in h.recs && other in h.recs && h.recs[id] == h.recs[other]
    ensures id == other
  {
    assert Filed(h, id) && Filed(h, other);
  }

  /** Where a runtime is accounted for stays the same when neither its holder nor the sets
      it may be in lose anything. */
  lemma StillAccounted(h: Host, h': Host, t: nat)
    requires Accounted(h, t)
    requires InFlight(h, t) ==> InFlight(h', t) || t in h'.doomed
    requires h.doomed <= h'.doomed + h'.stopped && h.stopped <= h'.stopped
    requires forall id :: LiveUnder(h, id, t) ==> Accounted(h', t)
    requires forall r :: r in h.orphans && HoldsLive(h, r, t) ==> Accounted(h', t)
    ensures Accounted(h', t)
  {}

  lemma InstallFiles(h: Host, pkg: Package, enable: bool)
    requires Inv(h)
    ensures forall id <- DoInstall(h, pkg, enable).recs :: Filed(DoInstall(h, pkg, enable), id)
  {
    var h' := DoInstall(h, pkg, enable);
    if pkg.id in h.recs {
      assert Filed(h, pkg.id);
      forall id | id in h'.recs ensures Filed(h', id) {
        assert Filed(h, id);
        if h.recs[id] == h.recs[pkg.id] { OneIdEach(h, id, pkg.id); }
      }
    } else {
      forall id | id in h'.recs ensures Filed(h', id) { if id != pkg.id { assert Filed(h, id); } }
    }
  }

  lemma InstallKeepsInv(h: Host, pkg: Package, enable: bool)
    requires Inv(h)
    ensures Inv(DoInstall(h, pkg, enable))
  {
    var h' := DoInstall(h, pkg, enable);
    InstallFiles(h, pkg, enable);
    assert forall r: nat, t: nat :: HoldsLive(h', r, t) <==> HoldsLive(h, r, t);
    assert forall r: nat :: r < |h.heap| ==> (r in h'.recs.Values ==> r in h.recs.Values);
    forall t: nat | t < |h'.runtimes| ensures Accounted(h', t) {
      assert Accounted(h, t);
      forall id | LiveUnder(h, id, t) ensures Accounted(h', t) { assert LiveUnder(h', id, t); }
      StillAccounted(h, h', t);
    }
    forall r: nat, t: nat ensures Apart(h', r, t) { assert Apart(h, r, t); }
  }

  lemma EnableKeepsInv(h: Host, id: string)
    requires Inv(h) && id in h.recs
    ensures h.recs[id] < |h.heap| && DoEnable(h, id).heap[h.recs[id]].enabled
    ensures Inv(DoEnable(h, id))
  {
    assert Filed(h, id);
    var h' := DoEnable(h, id);
    forall i | i in h'.recs ensures Filed(h', i) {
      assert Filed(h, i);
      if h.recs[i] == h.recs[id] { OneIdEach(h, i, id); }
    }
    assert forall r: nat, t: nat :: HoldsLive(h', r, t) <==> HoldsLive(h, r, t);
    forall t: nat | t < |h'.runtimes| ensures Accounted(h', t) {
      assert Accounted(h, t);
      forall i | LiveUnder(h, i, t) ensures Accounted(h', t) { assert LiveUnder(h', i, t); }
      StillAccounted(h, h', t);
    }
    forall r: nat, t: nat ensures Apart(h', r, t) { assert Apart(h, r, t); }
  }

  lemma DisableKeepsInv(h: Host, id: string)
    requires Inv(h) && Enabled(h, Disable(id))
    ensures Inv(Step(h, Disable(id)))
  {
    assert Filed(h, id);
    var h', q := Step(h, Disable(id)), h.recs[id];
    forall i | i in h'.recs ensures Filed(h', i) {
      assert Filed(h, i);
      if h.recs[i] == q { OneIdEach(h, i, id); }
    }
    assert forall r: nat, t: nat :: HoldsLive(h', r, t) <==> HoldsLive(h, r, t) && r != q;
    forall t: nat | t < |h'.runtimes| ensures Accounted(h', t) {
      assert Accounted(h, t);
      forall i | LiveUnder(h, i, t) ensures Accounted(h', t) { if h.recs[i] != q { assert LiveUnder(h', i, t); } }
      StillAccounted(h, h', t);
    }
    forall r: nat, t: nat ensures Apart(h', r, t) {
      assert Apart(h, r, t) && Apart(h, q, t);
      assert t in h'.doomed && t !in h.doomed ==> HoldsLive(h, q, t);
    }
    forall t | t in h'.doomed ensures t < |h'.runtimes| && !InFlight(h', t) {
      if t !in h.doomed { assert HoldsLive(h, q, t) && Apart(h, q, t); }
    }
  }

  lemma RemoveKeepsInv(h: Host, id: string)
    requires Inv(h) && Enabled(h, Remove(id))
    ensures Inv(Step(h, Remove(id)))
  {
    assert Filed(h, id);
    var h', q := Step(h, Remove(id)), h.recs[id];
    forall i | i in h'.recs ensures Filed(h', i) && h'.recs[i] != q {
      assert Filed(h, i);
      if h.recs[i] == q { OneIdEach(h, i, id); }
    }
    assert q !in h'.recs.Values && h'.recs.Values <= h.recs.Values;
    assert forall r: nat, t: nat :: HoldsLive(h', r, t) <==> HoldsLive(h, r, t);
    forall t: nat | t < |h'.runtimes| ensures Accounted(h', t) {
      assert Accounted(h, t);
      forall i | LiveUnder(h, i, t) ensures Accounted(h', t) { if i != id { assert LiveUnder(h', i, t); } }
      StillAccounted(h, h', t);
    }
    forall r: nat, t: nat ensures Apart(h', r, t) {
      assert Apart(h, r, t) && Apart(h, q, t);
      assert t in h'.doomed && t !in h.doomed ==> HoldsLive(h, q, t);
    }
    forall t | t in h'.doomed ensures t < |h'.runtimes| && !InFlight(h', t) {
      if t !in h.doomed { assert HoldsLive(h, q, t) && Apart(h, q, t); }
    }
  }

  lemma {:induction false} ImportedAt(entries: seq<Entry>, base: nat, id: string)
    ensures var (recs, m) := Imported(entries, base);
      && (forall i :: 0 <= i < |entries| ==> recs[i] == Record(entries[i].pkg, entries[i].hash, entries[i].enabled, None))
      && (id in m ==> base <= m[id] < base + |entries| && entries[m[id] - base].id == id)
  {
    if entries != [] {
      ImportedAt(entries[..|entries| - 1], base, id);
    }
  }

  lemma ImportKeepsInv(h: Host, entries: seq<Entry>)
    requires Inv(h)
    ensures Inv(DoImport(h, entries))
  {
    if Checked(entries).Some? {
      var h' := DoImport(h, entries);
      var n := |h.heap|;
      forall id | id in h'.recs ensures Filed(h', id) && h'.recs[id] >= n { ImportedAt(entries, n, id); }
      ImportedAt(entries, n, "");
      assert forall r: nat, t: nat :: HoldsLive(h', r, t) <==> HoldsLive(h, r, t);
      assert forall r :: r in h.recs.Values ==> r < n by {
        forall r | r in h.recs.Values ensures r < n {
          var id :| id in h.recs && h.recs[id] == r;
          assert Filed(h, id);
        }
      }
      forall t: nat | t < |h'.runtimes| ensures Accounted(h', t) {
        assert Accounted(h, t);
        forall id | LiveUnder(h, id, t) ensures Accounted(h', t) {
          assert h.recs[id] in h'.orphans && HoldsLive(h', h.recs[id], t);
        }
        StillAccounted(h, h', t);
      }
      forall r: nat, t: nat ensures Apart(h', r, t) { assert Apart(h, r, t); }
    }
  }

  lemma SweepKeepsInv(h: Host, q: nat)
    requires Inv(h) && Enabled(h, Sweep(q))
    ensures Inv(Step(h, Sweep(q)))
  {
    var h' := Step(h, Sweep(q));
    forall id | id in h'.recs ensures Filed(h', id) { assert Filed(h, id); }
    assert forall r: nat, t: nat :: HoldsLive(h', r, t) <==> HoldsLive(h, r, t);
    forall t: nat | t < |h'.runtimes| ensures Accounted(h', t) {
      assert Accounted(h, t);
      forall id | LiveUnder(h, id, t) ensures Accounted(h', t) { assert LiveUnder(h', id, t); }
      StillAccounted(h, h', t);
    }
    forall r: nat, t: nat ensures Apart(h', r, t) {
      assert Apart(h, r, t) && Apart(h, q, t);
      assert t in h'.doomed && t !in h.doomed ==> HoldsLive(h, q, t);
    }
    forall t | t in h'.doomed ensures t < |h'.runtimes| && !InFlight(h', t) {
      if t !in h.doomed { assert HoldsLive(h, q, t) && Apart(h, q, t); }
    }
  }

  /** Events that leave the records alone. */
  lemma BeginKeepsInv(h: Host, id: string)
    requires Inv(h) && h.ensuring.None?
    ensures Inv(DoBegin(h, id))
  {
    var h' := DoBegin(h, id);
    forall i | i in h'.recs ensures Filed(h', i) { assert Filed(h, i); }
    assert id in h.recs ==> Filed(h, id);
    assert forall r: nat, t: nat :: HoldsLive(h', r, t) <==> HoldsLive(h, r, t);
    forall t: nat | t < |h'.runtimes| ensures Accounted(h', t) {
      assert Accounted(h, t);
      forall i | LiveUnder(h, i, t) ensures Accounted(h', t) { assert LiveUnder(h', i, t); }
      StillAccounted(h, h', t);
    }
    forall r: nat, t: nat ensures Apart(h', r, t) { assert Apart(h, r, t); }
  }

  lemma SpawnKeepsInv(h: Host)
    requires Inv(h) && Enabled(h, Spawn)
    ensures Inv(Step(h, Spawn))
  {
    var h' := Step(h, Spawn);
    forall i | i in h'.recs ensures Filed(h', i) { assert Filed(h, i); }
    assert forall r: nat, t: nat :: HoldsLive(h', r, t) <==> HoldsLive(h, r, t);
    forall t: nat | t < |h'.runtimes| ensures Accounted(h', t) {
      if t < |h.runtimes| {
        assert Accounted(h, t);
        forall i | LiveUnder(h, i, t) ensures Accounted(h', t) { assert LiveUnder(h', i, t); }
        StillAccounted(h, h', t);
      } else {
        assert InFlight(h', t);
      }
    }
    forall r: nat, t: nat ensures Apart(h', r, t) { assert Apart(h, r, t); }
  }

  lemma AbandonKeepsInv(h: Host)
    requires Inv(h) && Enabled(h, Abandon)
    ensures Inv(Step(h, Abandon))
  {
    var h' := Step(h, Abandon);
    forall i | i in h'.recs ensures Filed(h', i) { assert Filed(h, i); }
    assert forall r: nat, t: nat :: HoldsLive(h', r, t) <==> HoldsLive(h, r, t);
    forall t: nat | t < |h'.runtimes| ensures Accounted(h', t) {
      assert Accounted(h, t);
      forall i | LiveUnder(h, i, t) ensures Accounted(h', t) { assert LiveUnder(h', i, t); }
      StillAccounted(h, h', t);
    }
    forall r: nat, t: nat ensures Apart(h', r, t) { assert Apart(h, r, t); }
  }

  lemma StopKeepsInv(h: Host, s: nat)
    requires Inv(h) && Enabled(h, Stop(s))
    ensures Inv(Step(h, Stop(s)))
  {
    var h' := Step(h, Stop(s));
    forall i | i in h'.recs ensures Filed(h', i) { assert Filed(h, i); }
    assert forall r: nat, t: nat :: HoldsLive(h', r, t) <==> HoldsLive(h, r, t);
    forall t: nat | t < |h'.runtimes| ensures Accounted(h', t) {
      assert Accounted(h, t);
      forall i | LiveUnder(h, i, t) ensures Accounted(h', t) { assert LiveUnder(h', i, t); }
      StillAccounted(h, h', t);
    }
    forall r: nat, t: nat ensures Apart(h', r, t) { assert Apart(h, r, t); }
  }

  lemma FinishKeepsInv(h: Host)
    requires Inv(h) && Enabled(h, Finish)
    ensures Inv(Step(h, Finish))
  {
    var s, h' := h.ensuring.value, Step(h, Finish);
    var mine := s.runtime.value;
    if s.id in h.recs && h.recs[s.id] == s.ref && h.heap[s.ref].enabled {
      forall i | i in h'.recs ensures Filed(h', i) { assert Filed(h, i); }
      assert forall r: nat, t: nat :: HoldsLive(h', r, t) <==> HoldsLive(h, r, t) || (r == s.ref && t == mine);
      forall t: nat | t < |h'.runtimes| ensures Accounted(h', t) {
        if t == mine {
          assert LiveUnder(h', s.id, t);
        } else {
          assert Accounted(h, t);
          forall i | LiveUnder(h, i, t) ensures Accounted(h', t) { assert LiveUnder(h', i, t); }
          StillAccounted(h, h', t);
        }
      }
      forall r: nat, t: nat ensures Apart(h', r, t) { assert Apart(h, r, t); }
      forall r: nat, q: nat, t: nat | HoldsLive(h', r, t) && HoldsLive(h', q, t) ensures r == q {
        assert Apart(h, r, t) && Apart(h, q, t);
      }
    } else {
      AbandonKeepsInv(h);
    }
  }

  lemma StepKeepsInv(h: Host, e: Event)
    requires Inv(h) && Enabled(h, e)
    ensures Inv(Step(h, e))
  {
    match e
    case Install(pkg, enable) => InstallKeepsInv(h, pkg, enable);
    case Enable(id) => EnableKeepsInv(h, id);
    case Disable(id) => DisableKeepsInv(h, id);
    case Remove(id) => RemoveKeepsInv(h, id);
    case Import(entries) => ImportKeepsInv(h, entries);
    case Sweep(r) => SweepKeepsInv(h, r);
    case Begin(id) => BeginKeepsInv(h, id);
    case Spawn => SpawnKeepsInv(h);
    case Abandon => AbandonKeepsInv(h);
    case Finish => FinishKeepsInv(h);
    case Stop(t) => StopKeepsInv(h, t);
  }

  // ---- every interleaving ----

  function At(es: seq<Event>, n: nat): Host
    requires n <= |es|
  {
    if n == 0 then Fresh() else
      var h := At(es, n - 1);
      if Enabled(h, es[n - 1]) then Step(h, es[n - 1]) else h
  }

  lemma {:induction false} InvAt(es: seq<Event>, n: nat)
    requires n <= |es|
    ensures Inv(At(es, n))
  {
    if n > 0 {
      InvAt(es, n - 1);
      if Enabled(At(es, n - 1), es[n - 1]) { StepKeepsInv(At(es, n - 1), es[n - 1]); }
    }
  }

  /** In every interleaving a filed record keeps its id, its pin is the hash of its package, so
      Enable's re-check never refuses, and a live handle means the record is enabled. */
  lemma RecordsStaySound(es: seq<Event>, n: nat, id: string)
    requires n <= |es| && id in At(es, n).recs
    ensures var h := At(es, n);
      && Filed(h, id) && Verify(h.heap[h.recs[id]].pkg, h.heap[h.recs[id]].pinned)
      && DoEnable(h, id).heap[h.recs[id]].enabled
  {
    InvAt(es, n);
    EnableKeepsInv(At(es, n), id);
  }

  /** No runtime is leaked: each one ever spawned is live under an id, held by the ensure in
      progress, stopped, or about to be; and a live handle has not been stopped. */
  lemma NoRuntimeLeaked(es: seq<Event>, n: nat, t: nat)
    requires n <= |es| && t < |At(es, n).runtimes|
    ensures Accounted(At(es, n), t)
    ensures forall id :: LiveUnder(At(es, n), id, t) ==>
      t !in At(es, n).doomed && t !in At(es, n).stopped && !InFlight(At(es, n), t)
  {
    InvAt(es, n);
    var h := At(es, n);
    forall id | LiveUnder(h, id, t) ensures t !in h.doomed && t !in h.stopped && !InFlight(h, t) {
      assert Apart(h, h.recs[id], t);
    }
  }

  /** No live handle is overwritten: when an ensure files its runtime, the slot is empty. */
  lemma {:induction false} NoHandleOverwritten(es: seq<Event>, n: nat)
    requires n <= |es| && At(es, n).ensuring.Some?
    ensures var h := At(es, n);
      h.ensuring.value.ref < |h.heap| && h.heap[h.ensuring.value.ref].live.None?
  {
    InvAt(es, n);
  }

  // ---- does a live runtime run the stored package? ----

  /** Every live handle of a filed record was spawned from the package now stored there. */
  ghost predicate RunsStored(h: Host) {
    forall id, t: nat :: LiveUnder(h, id, t) && t < |h.runtimes| ==> h.runtimes[t] == h.heap[h.recs[id]].pkg
  }

  /** The ensure in progress would file its runtime now. */
  predicate WouldFile(h: Host, s: Starting) {
    s.id in h.recs && h.recs[s.id] == s.ref && s.ref < |h.heap| && h.heap[s.ref].enabled
  }

  /** What Finish would have to check besides: the package copied at Begin is still stored. */
  predicate Unchanged(h: Host, e: Event) {
    e.Finish? && h.ensuring.Some? && WouldFile(h, h.ensuring.value) ==>
      h.heap[h.ensuring.value.ref].pkg == h.ensuring.value.pkg
  }

  /** Only Finish can break it, and Finish keeps it if and only if the stored package is
      unchanged since Begin. */
  lemma RunsStoredIffUnchanged(h: Host, e: Event)
    requires Inv(h) && RunsStored(h) && Enabled(h, e)
    ensures RunsStored(Step(h, e)) <==> Unchanged(h, e)
  {
    var h' := Step(h, e);
    if e.Finish? {
      var s := h.ensuring.value;
      if WouldFile(h, s) {
        assert LiveUnder(h', s.id, s.runtime.value);
        assert forall id <- h.recs :: Filed(h, id);
      }
      assert forall id, t: nat :: LiveUnder(h', id, t) ==> LiveUnder(h, id, t) || (id == s.id && Some(t) == s.runtime);
    } else {
      forall id, t: nat | LiveUnder(h', id, t) && t < |h'.runtimes|
        ensures h'.runtimes[t] == h'.heap[h'.recs[id]].pkg
      {
        LiveBefore(h, e, id, t);
      }
    }
  }

  lemma LiveBefore(h: Host, e: Event, id: string, t: nat)
    requires Inv(h) && Enabled(h, e) && !e.Finish? && LiveUnder(Step(h, e), id, t)
    ensures LiveUnder(h, id, t) && t < |h.runtimes| && Step(h, e).recs[id] == h.recs[id]
    ensures Step(h, e).heap[h.recs[id]].pkg == h.heap[h.recs[id]].pkg
  {
    if e.Import? && Checked(e.entries).Some? {
      ImportedAt(e.entries, |h.heap|, id);
      assert false;
    } else {
      assert Apart(h, h.recs[id], t);
    }
  }

  predicate UnchangedAt(es: seq<Event>, n: nat)
    requires n < |es|
  {
    Unchanged(At(es, n), es[n])
  }

  /** Over whole runs: if no Finish files a runtime of a replaced package, live handles always
      run what is stored. */
  lemma {:induction false} RunsStoredAt(es: seq<Event>, n: nat)
    requires n <= |es| && forall k: nat :: k < n ==> UnchangedAt(es, k)
    ensures RunsStored(At(es, n))
  {
    if n > 0 {
      RunsStoredAt(es, n - 1);
      InvAt(es, n - 1);
      assert UnchangedAt(es, n - 1);
      var h := At(es, n - 1);
      if Enabled(h, es[n - 1]) { RunsStoredIffUnchanged(h, es[n - 1]); }
    }
  }

  /** It is not always so: re-installing a different package, enabled, while the runtime of
      the old one is starting leaves the old one live under the new pin. */
  lemma ReplacedWhileStarting()
    ensures var a, b := Package("t", [1]), Package("t", [2]);
      var h := At([Install(a, true), Begin("t"), Spawn, Install(b, true), Finish], 5);
      LiveUnder(h, "t", 0) && h.runtimes == [a] && h.heap[h.recs["t"]].pkg == b && h.heap[h.recs["t"]].pinned == HashOf(b)
  {
    var a, b := Package("t", [1]), Package("t", [2]);
    var es := [Install(a, true), Begin("t"), Spawn, Install(b, true), Finish];
    assert At(es, 1) == Host([Record(a, HashOf(a), true, None)], map["t" := 0], None, [], {}, {}, {});
    assert At(es, 2) == At(es, 1).(ensuring := Some(Starting("t", 0, a, HashOf(a), None)));
    assert At(es, 3) == At(es, 2).(runtimes := [a], ensuring := Some(Starting("t", 0, a, HashOf(a), Some(0))));
    assert At(es, 4) == At(es, 3).(heap := [Record(b, HashOf(b), true, None)]);
    assert At(es, 5) == At(es, 4).(heap := [Record(b, HashOf(b), true, Some(0))], ensuring := None);
  }
}
