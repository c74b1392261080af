/** One mailbox message as a stored record, and the record list of a store file. */
module MailRecords {
  import opened Terms
  import BigEndian
  import Nanopack

  type Int64 = t: int | -0x8000_0000_0000_0000 <= t < 0x8000_0000_0000_0000

  type Uint64 = t: nat | t < 0x1_0000_0000_0000_0000

  datatype Message = Message(
    id: Bytes, outgoing: bool, group: bool, body: Bytes, timestamp: Int64, isRead: bool,
    sender: Bytes, contextId: Bytes, contextName: Bytes)

  /** messageBin: the message as it is stored, with the key of its thread. */
  datatype Bin = Bin(
    threadKey: Bytes, id: Bytes, direction: Byte, kind: Byte, isRead: Byte, body: Bytes,
    sender: Bytes, contextId: Bytes, contextName: Bytes, timestamp: Uint64)

  function Flag(b: bool): Byte { if b then 1 else 0 }

  function ToBin(key: Bytes, m: Message): Bin {
    Bin(key, m.id, Flag(m.outgoing), Flag(m.group), Flag(m.isRead), m.body, m.sender, m.contextId, m.contextName,
        if m.timestamp >= 0 then m.timestamp else m.timestamp + 0x1_0000_0000_0000_0000)
  }

  function FromBin(b: Bin): Message {
    Message(b.id, b.direction == 1, b.kind == 1, b.body,
            if b.timestamp < 0x8000_0000_0000_0000 then b.timestamp else b.timestamp - 0x1_0000_0000_0000_0000,
            b.isRead == 1, b.sender, b.contextId, b.contextName)
  }

  function Fields(b: Bin): seq<Nanopack.Field> {
    [Nanopack.Field(1, b.threadKey), Nanopack.Field(2, b.id), Nanopack.Field(3, [b.direction]), Nanopack.Field(4, [b.kind]),
     Nanopack.Field(5, [b.isRead]), Nanopack.Field(6, b.body), Nanopack.Field(7, b.sender), Nanopack.Field(8, b.contextId),
     Nanopack.Field(9, b.contextName), Nanopack.Field(10, BigEndian.Put(b.timestamp, 8))]
  }

  function Number(data: Bytes): Uint64
    requires |data| == 8
  {
    BigEndian.PutGet(data);
    BigEndian.Pow256Of8();
    BigEndian.Get(data)
  }

  /** One turn of UnmarshalBinID; a field of the wrong length is ignored. */
  function Assign(b: Bin, f: Nanopack.Field): Bin {
    match f.id
    case 1 => b.(threadKey := f.data)
    case 2 => b.(id := f.data)
    case 3 => if |f.data| == 1 then b.(direction := f.data[0]) else b
    case 4 => if |f.data| == 1 then b.(kind := f.data[0]) else b
    case 5 => if |f.data| == 1 then b.(isRead := f.data[0]) else b
    case 6 => b.(body := f.data)
    case 7 => b.(sender := f.data)
    case 8 => b.(contextId := f.data)
    case 9 => b.(contextName := f.data)
    case 10 => if |f.data| == 8 then b.(timestamp := Number(f.data)) else b
    case _ => b
  }

  function AssignAll(b: Bin, fs: seq<Nanopack.Field>): Bin
    decreases |fs|
  {
    if fs == [] then b else AssignAll(Assign(b, fs[0]), fs[1..])
  }

  const BLANK: Bin := Bin([], [], 0, 0, 0, [], [], [], [], 0)

  function EncodeRecord(key: Bytes, m: Message): Bytes { Nanopack.Encode(Fields(ToBin(key, m))) }

  /** A record is skipped when it does not decode or names no thread. */
  function DecodeRecord(r: Bytes): Option<(Bytes, Message)> {
    var fs := Nanopack.Decode(r);
    if fs.None? then None else
      var b := AssignAll(BLANK, fs.value);
      if b.threadKey == [] then None else Some((b.threadKey, FromBin(b)))
  }

  lemma AssignStep(b: Bin, fs: seq<Nanopack.Field>, i: nat, c: Bin, r: Bin)
    requires i < |fs| && Assign(b, fs[i]) == c && AssignAll(c, fs[i + 1..]) == r
    ensures AssignAll(b, fs[i..]) == r
  {
    assert fs[i..][0] == fs[i] && fs[i..][1..] == fs[i + 1..];
  }

  lemma TimestampBack(t: Uint64)
    ensures Number(BigEndian.Put(t, 8)) == t
  {
    BigEndian.Pow256Of8();
    BigEndian.RoundTrip(t, 8);
  }

  lemma AssignTail(b: Bin)
    ensures AssignAll(b.(body := [], sender := [], contextId := [], contextName := [], timestamp := 0), Fields(b)[5..]) == b
  {
    var fs := Fields(b);
    TimestampBack(b.timestamp);
    var b9 := b.(timestamp := 0);
    var b8 := b9.(contextName := []);
    var b7 := b8.(contextId := []);
    var b6 := b7.(sender := []);
    assert fs[10..] == [];
    AssignStep(b9, fs, 9, b, b);
    AssignStep(b8, fs, 8, b9, b);
    AssignStep(b7, fs, 7, b8, b);
    AssignStep(b6, fs, 6, b7, b);
    AssignStep(b6.(body := []), fs, 5, b6, b);
  }

  lemma AssignRecord(b: Bin)
    ensures AssignAll(BLANK, Fields(b)) == b
  {
    var fs := Fields(b);
    AssignTail(b);
    var b5 := b.(body := [], sender := [], contextId := [], contextName := [], timestamp := 0);
    var b4 := b5.(isRead := 0);
    var b3 := b4.(kind := 0);
    var b2 := b3.(direction := 0);
    var b1 := b2.(id := []);
    assert fs[0..] == fs;
    AssignStep(b4, fs, 4, b5, b);
    AssignStep(b3, fs, 3, b4, b);
    AssignStep(b2, fs, 2, b3, b);
    AssignStep(b1, fs, 1, b2, b);
    AssignStep(BLANK, fs, 0, b1, b);
  }

  /** A stored message reads back as itself under its key, unless the key is empty. */
  lemma RecordRoundTrip(key: Bytes, m: Message)
    ensures DecodeRecord(EncodeRecord(key, m)) == if key == [] then None else Some((key, m))
  {
    Nanopack.RoundTrip(Fields(ToBin(key, m)));
    AssignRecord(ToBin(key, m));
  }

  // ---- the record list ----

  function Listed(rs: seq<Bytes>): Bytes {
    if rs == [] then [] else Nanopack.Varint(|rs[0]|) + (rs[0] + Listed(rs[1..]))
  }

  /** The body of a store file: how many records, then each with its length. */
  function Body(rs: seq<Bytes>): Bytes { Nanopack.Varint(|rs|) + Listed(rs) }

  function Take(b: Bytes, count: nat): Option<seq<Bytes>> {
    if count == 0 then Some([]) else
      var v := Nanopack.ReadVarint(b);
      if v.None? || |b| < v.value.1 + v.value.0 then None else
        Prepend([b[v.value.1..v.value.1 + v.value.0]], Take(b[v.value.1 + v.value.0..], count - 1))
  }

  function Unlist(body: Bytes): Option<seq<Bytes>> {
    var v := Nanopack.ReadVarint(body);
    if v.None? || |body| < v.value.1 then None else Take(body[v.value.1..], v.value.0)
  }

  lemma TakeFirst(r: Bytes, rest: Bytes, count: nat)
    requires Take(rest, count).Some?
    ensures Take(Nanopack.Varint(|r|) + (r + rest), count + 1) == Some([r] + Take(rest, count).value)
  {
    var n := |Nanopack.Varint(|r|)|;
    var b := Nanopack.Varint(|r|) + (r + rest);
    Nanopack.VarintRoundTrip(|r|, r + rest);
    assert b[n..n + |r|] == r && b[n + |r|..] == rest;
  }

  lemma {:induction false} TakeListed(rs: seq<Bytes>)
    ensures Take(Listed(rs), |rs|) == Some(rs)
  {
    if rs != [] {
      TakeListed(rs[1..]);
      TakeFirst(rs[0], Listed(rs[1..]), |rs| - 1);
      assert rs == [rs[0]] + rs[1..];
    }
  }

  /** Loading a body gives back the records saved. */
  lemma BodyRoundTrip(rs: seq<Bytes>)
    ensures Unlist(Body(rs)) == Some(rs)
  {
    Nanopack.VarintRoundTrip(|rs|, Listed(rs));
    assert Body(rs)[|Nanopack.Varint(|rs|)|..] == Listed(rs);
    TakeListed(rs);
  }

  /** The writing loop of Save. */
  method SaveBody(rs: seq<Bytes>) returns (body: Bytes)
    ensures body == Body(rs)
  {
    body := Nanopack.AppendVarint([], |rs|);
    assert rs[0..] == rs;
    for i := 0 to |rs|
      invariant body + Listed(rs[i..]) == Body(rs)
    {
      body := Nanopack.AppendVarint(body, |rs[i]|);
      body := body + rs[i];
    }
    assert body + [] == body;
  }

  /** Load, once the envelope is off: the count, then the loop. */
  method LoadBody(body: Bytes) returns (r: Option<seq<Bytes>>)
    ensures r == Unlist(body)
  {
    var count := Nanopack.ReadVarint(body);
    Nanopack.ReadVarintBound(body);
    if count.None? { return None; }
    r := TakeRecords(body[count.value.1..], count.value.0);
  }

  /** `rest` is what follows the position the loop has reached. */
  method TakeRecords(records: Bytes, count: nat) returns (r: Option<seq<Bytes>>)
    ensures r == Take(records, count)
  {
    var rest, out: seq<Bytes>, left: nat := records, [], count;
    NothingDone(Take(records, count));
    while left > 0
      invariant Prepend(out, Take(rest, left)) == Take(records, count)
    {
      var v := Nanopack.ReadVarint(rest);
      Nanopack.ReadVarintBound(rest);
      if v.None? || v.value.1 + v.value.0 > |rest| { return None; }
      TakeNext(out, rest, left);
      out := out + [rest[v.value.1..v.value.1 + v.value.0]];
      rest := rest[v.value.1 + v.value.0..];
      left := left - 1;
    }
    assert out + [] == out;
    r := Some(out);
  }

  lemma TakeNext(out: seq<Bytes>, b: Bytes, count: nat)
    requires count > 0 && Nanopack.ReadVarint(b).Some?
    requires |b| >= Nanopack.ReadVarint(b).value.1 + Nanopack.ReadVarint(b).value.0
    ensures var (n, k) := Nanopack.ReadVarint(b).value;
      Prepend(out, Take(b, count)) == Prepend(out + [b[k..k + n]], Take(b[k + n..], count - 1))
  {
    var (n, k) := Nanopack.ReadVarint(b).value;
    PrependOne(out, b[k..k + n], Take(b[k + n..], count - 1));
  }
}
