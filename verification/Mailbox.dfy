/** The mailbox: threads of messages, their order, and saving and reloading them. */
module Mailboxes {
  import opened Terms
  import opened MailRecords
  import ByteOrder

  datatype Thread = Thread(title: Bytes, messages: seq<Message>)

  type Threads = map<Bytes, Thread>

  const GROUP_PREFIX: Bytes := [99, 116, 120, 58]

  predicate IsGroupKey(key: Bytes) { GROUP_PREFIX <= key }

  function LastActivity(t: Thread): int {
    if t.messages == [] then 0 else t.messages[|t.messages| - 1].timestamp
  }

  // ---- the order of threads ----

  /** Most recent activity first; threads of the same moment by key. */
  predicate Before(ts: Threads, a: Bytes, b: Bytes)
    requires a in ts && b in ts
  {
    if LastActivity(ts[a]) != LastActivity(ts[b]) then LastActivity(ts[a]) > LastActivity(ts[b]) else ByteOrder.Less(a, b)
  }

  lemma BeforeAsymmetric(ts: Threads, a: Bytes, b: Bytes)
    requires a in ts && b in ts && Before(ts, a, b)
    ensures a != b && !Before(ts, b, a)
  {
    ByteOrder.LeqTotal(a, b);
  }

  lemma BeforeTotal(ts: Threads, a: Bytes, b: Bytes)
    requires a in ts && b in ts && a != b && !Before(ts, a, b)
    ensures Before(ts, b, a)
  {
    if ByteOrder.Leq(a, b) && ByteOrder.Leq(b, a) { ByteOrder.LeqAntisymmetric(a, b); }
  }

  lemma BeforeTransitive(ts: Threads, a: Bytes, b: Bytes, c: Bytes)
    requires a in ts && b in ts && c in ts && Before(ts, a, b) && Before(ts, b, c)
    ensures Before(ts, a, c)
  {
    ByteOrder.LeqTotal(a, b);
    ByteOrder.LeqTotal(b, c);
    if ByteOrder.Leq(c, a) && ByteOrder.Leq(a, b) { ByteOrder.LeqTransitive(c, a, b); }
  }

  predicate Ordered(ts: Threads, s: seq<Bytes>) {
    && (forall i :: 0 <= i < |s| ==> s[i] in ts)
    && (forall i, j :: 0 <= i < j < |s| ==> Before(ts, s[i], s[j]))
  }

  function InsertKey(ts: Threads, k: Bytes, s: seq<Bytes>): seq<Bytes>
    requires k in ts && forall x :: x in s ==> x in ts
  {
    if s == [] then [k] else if Before(ts, k, s[0]) then [k] + s else [s[0]] + InsertKey(ts, k, s[1..])
  }

  lemma {:induction false} InsertKeyElements(ts: Threads, k: Bytes, s: seq<Bytes>)
    requires k in ts && forall x :: x in s ==> x in ts
    ensures forall x :: x in InsertKey(ts, k, s) <==> x == k || x in s
  {
    if s != [] && !Before(ts, k, s[0]) {
      InsertKeyElements(ts, k, s[1..]);
      assert s == [s[0]] + s[1..];
    }
  }

  lemma {:induction false} InsertKeyOrdered(ts: Threads, k: Bytes, s: seq<Bytes>)
    requires k in ts && Ordered(ts, s) && k !in s
    ensures Ordered(ts, InsertKey(ts, k, s))
  {
    if s != [] {
      if Before(ts, k, s[0]) {
        forall j | 0 <= j < |s| ensures Before(ts, k, s[j]) {
          if j > 0 { BeforeTransitive(ts, k, s[0], s[j]); }
        }
      } else {
        BeforeTotal(ts, k, s[0]);
        InsertKeyOrdered(ts, k, s[1..]);
        InsertKeyElements(ts, k, s[1..]);
        var r := InsertKey(ts, k, s[1..]);
        forall j | 0 <= j < |r| ensures Before(ts, s[0], r[j]) {
          assert r[j] in r;
          if r[j] != k { var i :| 0 <= i < |s[1..]| && s[1..][i] == r[j]; assert s[1 + i] == r[j]; }
        }
      }
    }
  }

  /** What sort.Slice makes of the keys in the order the map yields them. */
  function SortKeys(ts: Threads, keys: seq<Bytes>): (r: seq<Bytes>)
    requires forall x :: x in keys ==> x in ts
    ensures forall x :: x in r <==> x in keys
  {
    if keys == [] then [] else
      var r := SortKeys(ts, keys[1..]);
      InsertKeyElements(ts, keys[0], r);
      assert keys == [keys[0]] + keys[1..];
      InsertKey(ts, keys[0], r)
  }

  predicate NoRepeats(s: seq<Bytes>) {
    s == [] || (s[0] !in s[1..] && NoRepeats(s[1..]))
  }

  lemma {:induction false} SortKeysOrdered(ts: Threads, keys: seq<Bytes>)
    requires (forall x :: x in keys ==> x in ts) && NoRepeats(keys)
    ensures Ordered(ts, SortKeys(ts, keys))
  {
    if keys != [] {
      SortKeysOrdered(ts, keys[1..]);
      InsertKeyOrdered(ts, keys[0], SortKeys(ts, keys[1..]));
    }
  }

  /** There is only one order: two ordered lists of the same keys are equal. */
  lemma {:induction false} OrderUnique(ts: Threads, s: seq<Bytes>, t: seq<Bytes>)
    requires Ordered(ts, s) && Ordered(ts, t) && (forall x :: x in s <==> x in t)
    ensures s == t
  {
    if s == [] {
      if t != [] { SameHead(ts, t, s); }
    } else {
      SameHead(ts, s, t);
      TailElements(ts, s);
      TailElements(ts, t);
      OrderUnique(ts, s[1..], t[1..]);
      assert s == [s[0]] + s[1..] && t == [t[0]] + t[1..];
    }
  }

  lemma SameHead(ts: Threads, s: seq<Bytes>, t: seq<Bytes>)
    requires Ordered(ts, s) && Ordered(ts, t) && (forall x :: x in s <==> x in t) && s != []
    ensures t != [] && s[0] == t[0]
  {
    assert s[0] in t;
    assert t[0] in s;
    var i :| 0 <= i < |t| && t[i] == s[0];
    var j :| 0 <= j < |s| && s[j] == t[0];
    if i > 0 && j > 0 { BeforeAsymmetric(ts, t[0], t[i]); }
  }

  lemma TailElements(ts: Threads, s: seq<Bytes>)
    requires Ordered(ts, s) && s != []
    ensures forall x :: x in s[1..] <==> x in s && x != s[0]
  {
    assert s == [s[0]] + s[1..];
    forall i | 0 < i < |s| ensures s[i] != s[0] { BeforeAsymmetric(ts, s[0], s[i]); }
  }

  /** A way the map may be iterated: each key once. */
  ghost predicate Iterates(ts: Threads, keys: seq<Bytes>) { NoRepeats(keys) && forall x :: x in keys <==> x in ts }

  /** List and the file order depend on the contents alone, not on map iteration. */
  lemma ListIgnoresIteration(ts: Threads, keys: seq<Bytes>, others: seq<Bytes>)
    requires Iterates(ts, keys) && Iterates(ts, others)
    ensures SortKeys(ts, keys) == SortKeys(ts, others)
  {
    SortKeysOrdered(ts, keys);
    SortKeysOrdered(ts, others);
    OrderUnique(ts, SortKeys(ts, keys), SortKeys(ts, others));
  }

  /** The list has every thread, the most recently active first, those of one moment by key. */
  lemma ListNewestFirst(ts: Threads, keys: seq<Bytes>, i: nat, j: nat)
    requires Iterates(ts, keys)
    ensures forall x :: x in SortKeys(ts, keys) <==> x in ts
    ensures i < j < |SortKeys(ts, keys)| ==>
      var a, b := SortKeys(ts, keys)[i], SortKeys(ts, keys)[j];
      LastActivity(ts[a]) > LastActivity(ts[b]) || (LastActivity(ts[a]) == LastActivity(ts[b]) && a != b && ByteOrder.Leq(a, b))
  {
    SortKeysOrdered(ts, keys);
    if i < j < |SortKeys(ts, keys)| {
      var a, b := SortKeys(ts, keys)[i], SortKeys(ts, keys)[j];
      BeforeAsymmetric(ts, a, b);
      ByteOrder.LeqTotal(a, b);
    }
  }

  // ---- saving and reloading ----

  type Entry = (Bytes, Message)

  function Entries(key: Bytes, ms: seq<Message>): seq<Entry> {
    if ms == [] then [] else Entries(key, ms[..|ms| - 1]) + [(key, ms[|ms| - 1])]
  }

  /** The flat stream of messages: thread by thread in the order given. */
  function Stream(ts: Threads, order: seq<Bytes>): seq<Entry>
    requires forall x :: x in order ==> x in ts
  {
    if order == [] then [] else Stream(ts, order[..|order| - 1]) + Entries(order[|order| - 1], ts[order[|order| - 1]].messages)
  }

  function Encoded(es: seq<Entry>): seq<Bytes> {
    if es == [] then [] else [EncodeRecord(es[0].0, es[0].1)] + Encoded(es[1..])
  }

  function SavedBody(ts: Threads, keys: seq<Bytes>): Bytes
    requires forall x :: x in keys ==> x in ts
  {
    Body(Encoded(Stream(ts, SortKeys(ts, keys))))
  }

  /** The title after a message, as insert decides it. */
  function TitleAfter(key: Bytes, title: Bytes, m: Message): Bytes {
    if title == [] && m.contextName != [] && IsGroupKey(key) then m.contextName else title
  }

  /** insert: append a record to its thread, adopting the first display name a group shows. */
  function Insert(ts: Threads, key: Bytes, m: Message): Threads {
    var t := if key in ts then ts[key] else Thread([], []);
    ts[key := Thread(TitleAfter(key, t.title, m), t.messages + [m])]
  }

  function Restore(ts: Threads, records: seq<Bytes>): Threads
    decreases |records|
  {
    if records == [] then ts else
      var r := DecodeRecord(records[0]);
      Restore(if r.None? then ts else Insert(ts, r.value.0, r.value.1), records[1..])
  }

  function LoadedFrom(body: Bytes): Option<Threads> {
    var records := Unlist(body);
    if records.None? then None else Some(Restore(map[], records.value))
  }

  /** The title a reload gives: the first display name among a group's messages. */
  function FirstName(key: Bytes, ms: seq<Message>): Bytes {
    if ms == [] then [] else TitleAfter(key, FirstName(key, ms[..|ms| - 1]), ms[|ms| - 1])
  }

  /** A reloaded title is the first display name a group's messages carry, if one does; threads
      that are not groups have none. */
  lemma {:induction false} FirstNameIsFirst(key: Bytes, ms: seq<Message>, i: nat)
    requires forall j :: 0 <= j < i && j < |ms| ==> ms[j].contextName == []
    ensures !IsGroupKey(key) || i >= |ms| ==> FirstName(key, ms) == []
    ensures IsGroupKey(key) && i < |ms| && ms[i].contextName != [] ==> FirstName(key, ms) == ms[i].contextName
  {
    if ms != [] { FirstNameIsFirst(key, ms[..|ms| - 1], i); }
  }

  /** What a reload keeps of a mailbox: threads with a key and a message, under the names
      their messages carry. */
  function Kept(ts: Threads): Threads {
    map k | k in ts && k != [] && ts[k].messages != [] :: Thread(FirstName(k, ts[k].messages), ts[k].messages)
  }

  /** Load on messages already decoded. */
  function InsertAll(ts: Threads, es: seq<Entry>): Threads
    decreases |es|
  {
    if es == [] then ts else InsertAll(if es[0].0 == [] then ts else Insert(ts, es[0].0, es[0].1), es[1..])
  }

  lemma {:induction false} RestoreEncoded(ts: Threads, es: seq<Entry>)
    ensures Restore(ts, Encoded(es)) == InsertAll(ts, es)
    decreases |es|
  {
    if es != [] {
      RecordRoundTrip(es[0].0, es[0].1);
      assert Encoded(es)[1..] == Encoded(es[1..]);
      RestoreEncoded(if es[0].0 == [] then ts else Insert(ts, es[0].0, es[0].1), es[1..]);
    }
  }

  lemma {:induction false} InsertAllConcat(ts: Threads, a: seq<Entry>, b: seq<Entry>)
    ensures InsertAll(ts, a + b) == InsertAll(InsertAll(ts, a), b)
    decreases |a|
  {
    if a == [] {
      assert a + b == b;
    } else {
      assert (a + b)[1..] == a[1..] + b;
      InsertAllConcat(if a[0].0 == [] then ts else Insert(ts, a[0].0, a[0].1), a[1..], b);
    }
  }

  lemma InsertAllLast(ts: Threads, a: seq<Entry>, key: Bytes, m: Message)
    ensures InsertAll(ts, a + [(key, m)]) == if key == [] then InsertAll(ts, a) else Insert(InsertAll(ts, a), key, m)
  {
    InsertAllConcat(ts, a, [(key, m)]);
    var one := [(key, m)];
    assert one[1..] == [];
  }

  /** A mailbox with one more thread, as a reload names it. */
  function With(ts: Threads, key: Bytes, ms: seq<Message>): Threads {
    if key == [] || ms == [] then ts else ts[key := Thread(FirstName(key, ms), ms)]
  }

  lemma InsertLast(ts: Threads, key: Bytes, init: seq<Message>, m: Message)
    requires key !in ts && key != []
    ensures Insert(With(ts, key, init), key, m) == With(ts, key, init + [m])
  {
    var last := Thread(FirstName(key, init + [m]), init + [m]);
    if init == [] {
      assert Insert(ts, key, m) == ts[key := last];
    } else {
      var before := Thread(FirstName(key, init), init);
      assert Insert(ts[key := before], key, m) == ts[key := before][key := last] == ts[key := last];
    }
  }

  /** The records of one thread restore that thread and touch no other. */
  lemma {:induction false} RestoreThread(ts: Threads, key: Bytes, ms: seq<Message>)
    requires key !in ts
    ensures InsertAll(ts, Entries(key, ms)) == With(ts, key, ms)
    decreases |ms|
  {
    if ms != [] {
      RestoreThread(ts, key, ms[..|ms| - 1]);
      InsertAllLast(ts, Entries(key, ms[..|ms| - 1]), key, ms[|ms| - 1]);
      if key != [] { InsertLast(ts, key, ms[..|ms| - 1], ms[|ms| - 1]); }
      assert ms == ms[..|ms| - 1] + [ms[|ms| - 1]];
    }
  }

  function Among(ts: Threads, keys: seq<Bytes>): Threads { map k | k in ts && k in keys :: ts[k] }

  lemma {:induction false} RestoreStream(ts: Threads, order: seq<Bytes>)
    requires Ordered(ts, order)
    ensures InsertAll(map[], Stream(ts, order)) == Kept(Among(ts, order))
    decreases |order|
  {
    if order != [] {
      var n := |order| - 1;
      RestoreStream(ts, order[..n]);
      LastIsNew(ts, order);
      RestoreLast(ts, order[..n], order[n]);
      assert order == order[..n] + [order[n]];
    }
  }

  lemma LastIsNew(ts: Threads, order: seq<Bytes>)
    requires Ordered(ts, order) && order != []
    ensures order[|order| - 1] !in order[..|order| - 1]
  {
    var n := |order| - 1;
    forall i | 0 <= i < n ensures order[i] != order[n] { BeforeAsymmetric(ts, order[i], order[n]); }
  }

  lemma RestoreLast(ts: Threads, init: seq<Bytes>, k: Bytes)
    requires (forall x :: x in init ==> x in ts) && k in ts && k !in init
    requires InsertAll(map[], Stream(ts, init)) == Kept(Among(ts, init))
    ensures InsertAll(map[], Stream(ts, init) + Entries(k, ts[k].messages)) == Kept(Among(ts, init + [k]))
  {
    InsertAllConcat(map[], Stream(ts, init), Entries(k, ts[k].messages));
    RestoreThread(Kept(Among(ts, init)), k, ts[k].messages);
    KeptOneMore(ts, init, k);
  }

  lemma KeptOneMore(ts: Threads, init: seq<Bytes>, k: Bytes)
    requires k in ts && k !in init
    ensures Kept(Among(ts, init + [k])) == With(Kept(Among(ts, init)), k, ts[k].messages)
  {}

  /** Reloading what was saved gives exactly the threads that have a key and a message, with
      every message as it was, whatever order the map was iterated in. */
  lemma ReloadExact(ts: Threads, keys: seq<Bytes>)
    requires Iterates(ts, keys)
    ensures LoadedFrom(SavedBody(ts, keys)) == Some(Kept(ts))
  {
    var order := SortKeys(ts, keys);
    SortKeysOrdered(ts, keys);
    BodyRoundTrip(Encoded(Stream(ts, order)));
    RestoreEncoded(map[], Stream(ts, order));
    RestoreStream(ts, order);
    assert Among(ts, order) == ts;
  }

  // ---- runs ----

  /** What the clock gives an append: an id from the nanoseconds and a time in milliseconds. */
  datatype Clock = Clock(id: Bytes, now: Int64)

  datatype Event = Append(key: Bytes, title: Bytes, message: Message, clock: Clock) | Open(key: Bytes)

  /** appendDefaults: an empty id and a zero time are filled in, and outgoing messages count as
      read. */
  function Filled(m: Message, c: Clock): Message {
    m.(id := if m.id == [] then c.id else m.id, timestamp := if m.timestamp == 0 then c.now else m.timestamp,
       isRead := m.isRead || m.outgoing)
  }

  function Appended(ts: Threads, key: Bytes, title: Bytes, m: Message, c: Clock): Threads {
    var t := if key in ts then ts[key] else Thread([], []);
    ts[key := Thread(if title != [] then title else t.title, t.messages + [Filled(m, c)])]
  }

  function MarkAll(ms: seq<Message>): (r: seq<Message>)
    ensures |r| == |ms| && forall i :: 0 <= i < |ms| ==> r[i] == ms[i].(isRead := true)
  {
    if ms == [] then [] else MarkAll(ms[..|ms| - 1]) + [ms[|ms| - 1].(isRead := true)]
  }

  function Opened(ts: Threads, key: Bytes): Threads {
    if key !in ts then ts else ts[key := ts[key].(messages := MarkAll(ts[key].messages))]
  }

  function After(es: seq<Event>): Threads {
    if es == [] then map[] else
      var ts := After(es[..|es| - 1]);
      match es[|es| - 1]
      case Append(key, title, m, c) => Appended(ts, key, title, m, c)
      case Open(key) => Opened(ts, key)
  }

  function Messages(ts: Threads): map<Bytes, seq<Message>> { map k | k in ts :: ts[k].messages }

  predicate NamesThread(es: seq<Event>, key: Bytes) { exists i :: 0 <= i < |es| && es[i].Append? && es[i].key == key }

  /** A thread exists exactly when something was appended to it, and then it has a message. */
  lemma {:induction false} ThreadsAfter(es: seq<Event>, key: Bytes)
    ensures key in After(es) <==> NamesThread(es, key)
    ensures key in After(es) ==> After(es)[key].messages != []
  {
    if es != [] {
      var n := |es| - 1;
      ThreadsAfter(es[..n], key);
    }
  }

  /** One thread on its own: what was appended to it, in order, and read when it was opened. */
  function History(es: seq<Event>, key: Bytes): seq<Message> {
    if es == [] then [] else
      var ms, e := History(es[..|es| - 1], key), es[|es| - 1];
      if e.key != key then ms else if e.Append? then ms + [Filled(e.message, e.clock)] else MarkAll(ms)
  }

  /** In every run each thread holds exactly its own history: nothing is lost, repeated, moved
      or filed under another key. */
  lemma {:induction false} ThreadIsItsHistory(es: seq<Event>, key: Bytes)
    ensures (if key in After(es) then After(es)[key].messages else []) == History(es, key)
  {
    if es != [] { ThreadIsItsHistory(es[..|es| - 1], key); }
  }

  /** A thread shows the last non-empty title given with a message; opening it changes nothing. */
  lemma {:induction false} TitleIsLastGiven(es: seq<Event>, i: nat)
    requires i < |es| && es[i].Append? && es[i].title != []
    requires forall j :: i < j < |es| && es[j].Append? && es[j].key == es[i].key ==> es[j].title == []
    ensures es[i].key in After(es) && After(es)[es[i].key].title == es[i].title
    decreases |es|
  {
    if i < |es| - 1 { TitleIsLastGiven(es[..|es| - 1], i); }
  }

  /** How often something was appended to a thread. */
  function Appends(es: seq<Event>, key: Bytes): nat {
    if es == [] then 0 else Appends(es[..|es| - 1], key) + if es[|es| - 1].Append? && es[|es| - 1].key == key then 1 else 0
  }

  /** Every append stays: the message of event i is in its thread in every later state, in its
      place, as it was given but for the defaults; it is read exactly when it was given as
      read, is outgoing, or its thread was opened since. */
  lemma {:induction false} MessageStays(es: seq<Event>, i: nat)
    requires i < |es| && es[i].Append?
    ensures var e, at := es[i], Appends(es[..i], es[i].key);
      && at < |History(es, e.key)|
      && var m, x := e.message, History(es, e.key)[at];
      && x.body == m.body && x.sender == m.sender && x.outgoing == m.outgoing && x.group == m.group
      && x.contextId == m.contextId && x.contextName == m.contextName
      && x.id == (if m.id == [] then e.clock.id else m.id) && x.timestamp == (if m.timestamp == 0 then e.clock.now else m.timestamp)
      && (x.isRead <==> m.isRead || m.outgoing || Open(e.key) in es[i + 1..])
    decreases |es|
  {
    var n := |es| - 1;
    if i < n {
      MessageStays(es[..n], i);
      assert es[..n][..i] == es[..i] && es[i + 1..] == es[..n][i + 1..] + [es[n]];
    } else {
      HistoryLength(es[..n], es[i].key);
    }
  }

  lemma {:induction false} HistoryLength(es: seq<Event>, key: Bytes)
    ensures |History(es, key)| == Appends(es, key)
  {
    if es != [] { HistoryLength(es[..|es| - 1], key); }
  }

  /** In every run of appends and reads, saving and reloading restores the message sequence
      of every thread if and only if nothing was appended under the empty key. */
  lemma ReloadRestoresIff(es: seq<Event>, keys: seq<Bytes>)
    requires Iterates(After(es), keys)
    ensures LoadedFrom(SavedBody(After(es), keys)).Some?
    ensures Messages(LoadedFrom(SavedBody(After(es), keys)).value) == Messages(After(es)) <==> !NamesThread(es, [])
  {
    var ts := After(es);
    ReloadExact(ts, keys);
    ThreadsAfter(es, []);
    forall k | k in ts ensures ts[k].messages != [] { ThreadsAfter(es, k); }
    if [] in ts { assert [] in Messages(ts) && [] !in Messages(Kept(ts)); }
  }

  // ---- the object ----

  class Store {
    var threads: Threads

    constructor ()
      ensures threads == map[]
    {
      threads := map[];
    }

    method AppendMessage(key: Bytes, title: Bytes, m: Message, clock: Clock)
      modifies this
      ensures threads == Appended(old(threads), key, title, m, clock)
    {
      var t := if key in threads then threads[key] else Thread([], []);
      if title != [] { t := t.(title := title); }
      var msg := m;
      if msg.id == [] { msg := msg.(id := clock.id); }
      if msg.timestamp == 0 { msg := msg.(timestamp := clock.now); }
      if msg.outgoing { msg := msg.(isRead := true); }
      threads := threads[key := t.(messages := t.messages + [msg])];
    }

    /** The messages as they were, oldest first; all of them are read afterwards. */
    method ReadThread(key: Bytes) returns (out: Option<seq<Message>>)
      modifies this
      ensures threads == Opened(old(threads), key)
      ensures out == if key in old(threads) then Some(old(threads)[key].messages) else None
    {
      if key !in threads { return None; }
      var ms := threads[key].messages;
      out := Some(ms);
      for i := 0 to |ms|
        invariant |ms| == |out.value|
        invariant forall j :: 0 <= j < |ms| ==> ms[j] == if j < i then out.value[j].(isRead := true) else out.value[j]
      {
        if !ms[i].isRead { ms := ms[i := ms[i].(isRead := true)]; }
      }
      assert ms == MarkAll(out.value);
      threads := threads[key := threads[key].(messages := ms)];
    }

    /** The loop of Load over the records of the file. */
    method LoadRecords(records: seq<Bytes>)
      modifies this
      ensures threads == Restore(old(threads), records)
    {
      assert records[0..] == records;
      for i := 0 to |records|
        invariant Restore(threads, records[i..]) == Restore(old(threads), records)
      {
        var r := DecodeRecord(records[i]);
        assert records[i..][0] == records[i] && records[i..][1..] == records[i + 1..];
        if r.Some? { threads := Insert(threads, r.value.0, r.value.1); }
      }
    }
  }
}
