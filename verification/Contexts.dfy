/** Group metadata: the file-backed context store, remote descriptors and their convergence.
    `verify` stands for VerifyContextSignature throughout. */
module Contexts {
  import opened Terms
  import opened Delivery

  type Store = map<Bytes, Context>

  /** SaveContext refuses a version not above the stored one. */
  predicate Newer(s: Store, c: Context) {
    c.contextId in s ==> s[c.contextId].version < c.version
  }

  predicate Applies(verify: Context -> bool, s: Store, c: Context) {
    c.version != 0 && Newer(s, c) && verify(c)
  }

  function Apply(verify: Context -> bool, s: Store, c: Context): Store {
    if Applies(verify, s, c) then s[c.contextId := c] else s
  }

  function ApplyAll(verify: Context -> bool, s: Store, cs: seq<Context>): Store
    decreases |cs|
  {
    if cs == [] then s else Apply(verify, ApplyAll(verify, s, cs[..|cs| - 1]), cs[|cs| - 1])
  }

  /** Every descriptor is stored under its own context id. */
  predicate Keyed(s: Store) { forall id <- s :: s[id].contextId == id }

  /** The next version of a descriptor, renamed; the last 64-bit version has none. */
  function Renamed(c: Context, name: Bytes, sign: Context -> Bytes): Option<Context> {
    var version := (c.version + 1) % 0x1_0000_0000_0000_0000;
    if version <= c.version then None else
      var unsigned := Context(c.contextId, name, version, c.creatorId, []);
      Some(unsigned.(signature := sign(unsigned)))
  }

  const MAX_VERSION: nat := 0xffff_ffff_ffff_ffff

  /** `d` carries the new name and the next version, is of the same context and creator, and is
      signed as exactly that. */
  predicate IsRenamed(c: Context, name: Bytes, sign: Context -> Bytes, d: Context) {
    && d.displayName == name && d.version == c.version + 1 && d.contextId == c.contextId && d.creatorId == c.creatorId
    && d.signature == sign(d.(signature := []))
  }

  /** A descriptor is renamed as it should be, unless its version is the last of 64 bits. */
  lemma RenamedHolds(c: Context, name: Bytes, sign: Context -> Bytes)
    ensures Renamed(c, name, sign).Some? <==> c.version < MAX_VERSION
    ensures Renamed(c, name, sign).Some? ==> IsRenamed(c, name, sign, Renamed(c, name, sign).value)
  {}

  /** A rename that verifies is taken by exactly the stores that have not got a version above
      the renamed one, and gives them the new name. */
  lemma RenameSpreads(verify: Context -> bool, s: Store, c: Context, name: Bytes, sign: Context -> Bytes)
    requires Renamed(c, name, sign).Some? && verify(Renamed(c, name, sign).value)
    ensures var d := Renamed(c, name, sign).value;
      if c.contextId in s && s[c.contextId].version > c.version then Apply(verify, s, d) == s
      else Apply(verify, s, d) == s[c.contextId := d] && Apply(verify, s, d)[c.contextId].displayName == name
  {
    RenamedHolds(c, name, sign);
  }

  class FileContextStore {
    var contexts: Store

    constructor ()
      ensures contexts == map[]
    {
      contexts := map[];
    }

    /** Store a copy unless an equal or newer version is stored. */
    method SaveContext(c: Context) returns (ok: bool)
      modifies this
      ensures ok == Newer(old(contexts), c)
      ensures contexts == if ok then old(contexts)[c.contextId := c] else old(contexts)
      ensures forall verify :: contexts == Changed(verify, old(contexts), Save(c))
    {
      if c.contextId in contexts {
        if c.version <= contexts[c.contextId].version { return false; }
      }
      contexts := contexts[c.contextId := c];
      ok := true;
    }

    method LoadContext(id: Bytes) returns (c: Option<Context>)
      ensures c == if id in contexts then Some(contexts[id]) else None
    {
      c := if id in contexts then Some(contexts[id]) else None;
    }

    /** ApplyRemoteContext: refuse version 0, a stale version or a bad signature. */
    method ApplyRemoteContext(verify: Context -> bool, c: Context) returns (ok: bool)
      modifies this
      ensures ok == Applies(verify, old(contexts), c)
      ensures contexts == Apply(verify, old(contexts), c)
    {
      if c.version == 0 { return false; }
      var stored := LoadContext(c.contextId);
      if stored.Some? && c.version <= stored.value.version { return false; }
      if !verify(c) { return false; }
      ok := SaveContext(c);
    }

    /** UpdateContext: only the creator may rename, always under the next version. `sign` is
        the creator's signature over the descriptor without one. */
    method UpdateContext(me: Bytes, id: Bytes, name: Bytes, sign: Context -> Bytes) returns (r: Option<Context>)
      requires Keyed(contexts)
      modifies this
      ensures Keyed(contexts)
      ensures r == if id in old(contexts) && old(contexts)[id].creatorId == me then Renamed(old(contexts)[id], name, sign) else None
      ensures contexts == if r.Some? then old(contexts)[id := r.value] else old(contexts)
      ensures r.Some? <==> id in old(contexts) && old(contexts)[id].creatorId == me && old(contexts)[id].version < MAX_VERSION
      ensures r.Some? ==> IsRenamed(old(contexts)[id], name, sign, r.value)
      ensures forall verify :: contexts == Changed(verify, old(contexts), Rename(me, id, name, sign))
    {
      if id !in contexts || contexts[id].creatorId != me { return None; }
      RenamedHolds(contexts[id], name, sign);
      r := Renamed(contexts[id], name, sign);
      if r.Some? {
        var ok := SaveContext(r.value);
        assert ok;
      }
    }
  }

  // ---- versions only rise ----

  /** What may happen to a store: a descriptor arrives, one is saved, or the owner renames. */
  datatype Change = Remote(context: Context) | Save(context: Context) | Rename(me: Bytes, id: Bytes, name: Bytes, sign: Context -> Bytes)

  /** The descriptor a change would file. */
  function Filed(verify: Context -> bool, s: Store, ch: Change): Option<Context> {
    match ch
    case Remote(c) => if Applies(verify, s, c) then Some(c) else None
    case Save(c) => if Newer(s, c) then Some(c) else None
    case Rename(me, id, name, sign) => if id in s && s[id].creatorId == me then Renamed(s[id], name, sign) else None
  }

  function Changed(verify: Context -> bool, s: Store, ch: Change): Store {
    var c := Filed(verify, s, ch);
    if c.Some? then s[c.value.contextId := c.value] else s
  }

  function ChangedAll(verify: Context -> bool, s: Store, chs: seq<Change>): Store {
    if chs == [] then s else Changed(verify, ChangedAll(verify, s, chs[..|chs| - 1]), chs[|chs| - 1])
  }

  /** Without deletion, whatever arrives, is saved or renamed in whatever order, every stored
      version only rises, a descriptor is only ever replaced by one of a higher version, and
      the store keeps every context under its own id. */
  lemma {:induction false} VersionNeverFalls(verify: Context -> bool, s: Store, chs: seq<Change>, id: Bytes)
    requires Keyed(s) && id in s
    ensures var t := ChangedAll(verify, s, chs);
      Keyed(t) && id in t && (t[id] == s[id] || s[id].version < t[id].version)
  {
    if chs != [] { VersionNeverFalls(verify, s, chs[..|chs| - 1], id); }
  }

  /** A store fed remote descriptors only keeps one it holds or takes a newer valid one fed. */
  lemma {:induction false} FedVersionNeverFalls(verify: Context -> bool, s: Store, cs: seq<Context>, id: Bytes)
    requires id in s
    ensures var t := ApplyAll(verify, s, cs);
      id in t && s[id].version <= t[id].version && (t[id] == s[id] || (t[id] in cs && verify(t[id]) && s[id].version < t[id].version))
  {
    if cs != [] { FedVersionNeverFalls(verify, s, cs[..|cs| - 1], id); }
  }

  // ---- convergence ----

  /** A descriptor that counts: signed, and of a version other than 0. */
  predicate Counts(verify: Context -> bool, c: Context) { c.version != 0 && verify(c) }

  /** `s` holds, for each context, the descriptor of highest version among those of `cs`. */
  ghost predicate HoldsHighest(verify: Context -> bool, s: Store, cs: seq<Context>) {
    && Keyed(s)
    && (forall id <- s :: s[id] in cs && Counts(verify, s[id]))
    && (forall c <- cs :: Counts(verify, c) ==> c.contextId in s && c.version <= s[c.contextId].version)
  }

  lemma {:induction false} FedStoreHoldsHighest(verify: Context -> bool, cs: seq<Context>)
    ensures HoldsHighest(verify, ApplyAll(verify, map[], cs), cs)
  {
    if cs != [] {
      var n := |cs| - 1;
      FedStoreHoldsHighest(verify, cs[..n]);
      assert cs == cs[..n] + [cs[n]];
    }
  }

  /** No other descriptor of `cs` that counts has a higher version for the same context. */
  ghost predicate Top(verify: Context -> bool, cs: seq<Context>, c: Context) {
    && c in cs && Counts(verify, c)
    && (forall e <- cs :: Counts(verify, e) && e.contextId == c.contextId ==> e.version <= c.version)
  }

  /** No two validly signed descriptors share the highest version of a context. */
  ghost predicate Unambiguous(verify: Context -> bool, cs: seq<Context>) {
    forall c, d ::
      Top(verify, cs, c) && Top(verify, cs, d) && c.contextId == d.contextId && c.version == d.version ==> c == d
  }

  ghost predicate SameElements(cs: seq<Context>, ds: seq<Context>) { forall c :: c in cs <==> c in ds }

  lemma StoredIsTop(verify: Context -> bool, cs: seq<Context>, ds: seq<Context>, id: Bytes)
    requires SameElements(cs, ds) && id in ApplyAll(verify, map[], ds)
    ensures Top(verify, cs, ApplyAll(verify, map[], ds)[id]) && ApplyAll(verify, map[], ds)[id].contextId == id
  {
    FedStoreHoldsHighest(verify, ds);
    assert ApplyAll(verify, map[], ds)[id] in ds;
  }

  /** Two stores fed the same descriptors, in any order and with any repeats, are equal. */
  lemma StoresConverge(verify: Context -> bool, cs: seq<Context>, ds: seq<Context>)
    requires Unambiguous(verify, cs) && SameElements(cs, ds)
    ensures ApplyAll(verify, map[], cs) == ApplyAll(verify, map[], ds)
  {
    FedStoreHoldsHighest(verify, cs);
    FedStoreHoldsHighest(verify, ds);
    var s, t := ApplyAll(verify, map[], cs), ApplyAll(verify, map[], ds);
    forall id | id in s ensures id in t && s[id] == t[id] {
      StoredIsTop(verify, cs, cs, id);
      assert s[id] in ds;
      StoredIsTop(verify, cs, ds, id);
    }
    forall id | id in t ensures id in s { StoredIsTop(verify, cs, ds, id); }
  }

  // ---- the side condition is exact ----

  lemma {:induction false} ApplyFirst(verify: Context -> bool, s: Store, c: Context, cs: seq<Context>)
    ensures ApplyAll(verify, s, [c] + cs) == ApplyAll(verify, Apply(verify, s, c), cs)
    decreases |cs|
  {
    var all := [c] + cs;
    if cs == [] {
      assert all[..0] == [] && all == [c];
    } else {
      ApplyFirst(verify, s, c, cs[..|cs| - 1]);
      assert all[..|all| - 1] == [c] + cs[..|cs| - 1];
    }
  }

  /** Of the descriptors of highest version, a store keeps the one that arrives first. */
  lemma FirstTopStays(verify: Context -> bool, cs: seq<Context>, c: Context)
    requires Top(verify, cs, c)
    ensures SameElements(cs, [c] + cs)
    ensures var t := ApplyAll(verify, map[], [c] + cs); c.contextId in t && t[c.contextId] == c
  {
    ApplyFirst(verify, map[], c, cs);
    FedVersionNeverFalls(verify, map[c.contextId := c], cs, c.contextId);
    assert Apply(verify, map[], c) == map[c.contextId := c];
    FedStoreHoldsHighest(verify, [c] + cs);
  }

  /** Stores fed a set of descriptors in whatever order agree if and only if no two valid
      descriptors share the highest version of a context. */
  lemma ConvergesIff(verify: Context -> bool, cs: seq<Context>)
    ensures (forall ds :: SameElements(cs, ds) ==> ApplyAll(verify, map[], ds) == ApplyAll(verify, map[], cs))
            <==> Unambiguous(verify, cs)
  {
    if Unambiguous(verify, cs) {
      forall ds | SameElements(cs, ds) ensures ApplyAll(verify, map[], ds) == ApplyAll(verify, map[], cs) {
        StoresConverge(verify, cs, ds);
      }
    } else {
      var c, d :| Top(verify, cs, c) && Top(verify, cs, d) && c.contextId == d.contextId && c.version == d.version && c != d;
      FirstTopStays(verify, cs, c);
      FirstTopStays(verify, cs, d);
      assert ApplyAll(verify, map[], [c] + cs) != ApplyAll(verify, map[], [d] + cs);
    }
  }
}
