/** The nanopack payload: a field count, then the id and varint length of every field, then
    the field data one after the other. */
module Nanopack {
  import opened Terms

  datatype Field = Field(id: Byte, data: Bytes)

  // ---- varints ----

  function Varint(v: nat): Bytes {
    if v < 128 then [v] else [128 + v % 128] + Varint(v / 128)
  }

  /** The number at the front of `b` and how many bytes it takes. */
  function ReadVarint(b: Bytes): Option<(nat, nat)> {
    if b == [] then None
    else if b[0] < 128 then Some((b[0], 1))
    else Carry(b[0] - 128, ReadVarint(b[1..]))
  }

  /** Seven low bits in front of what follows them. */
  function Carry(low: nat, r: Option<(nat, nat)>): Option<(nat, nat)> {
    if r.None? then None else Some((low + 128 * r.value.0, 1 + r.value.1))
  }

  lemma {:induction false} VarintRoundTrip(v: nat, rest: Bytes)
    ensures ReadVarint(Varint(v) + rest) == Some((v, |Varint(v)|))
  {
    var b := Varint(v) + rest;
    if v >= 128 {
      VarintRoundTrip(v / 128, rest);
      assert b[1..] == Varint(v / 128) + rest;
    }
  }

  lemma {:induction false} ReadVarintBound(b: Bytes)
    ensures ReadVarint(b).Some? ==> 1 <= ReadVarint(b).value.1 <= |b|
  {
    if b != [] && b[0] >= 128 { ReadVarintBound(b[1..]); }
  }

  /** The writer's loop: seven bits at a time, low bits first. */
  method AppendVarint(out: Bytes, v: nat) returns (r: Bytes)
    ensures r == out + Varint(v)
  {
    r := out;
    var w := v;
    while w >= 128
      invariant r + Varint(w) == out + Varint(v)
    {
      assert r + Varint(w) == (r + [128 + w % 128]) + Varint(w / 128);
      r := r + [w % 128 + 128];
      w := w / 128;
    }
    r := r + [w];
  }

  /** What a scan that has `value` so far and stands at index `i` returns in the end. */
  function Continued(value: nat, scale: nat, i: nat, rest: Option<(nat, nat)>): Option<(nat, nat)> {
    if rest.None? then None else Some((value + scale * rest.value.0, i + rest.value.1))
  }

  lemma ContinuedStep(rest: Bytes, value: nat, scale: nat, i: nat)
    requires rest != [] && rest[0] >= 128
    ensures Continued(value, scale, i, ReadVarint(rest)) ==
      Continued(value + scale * (rest[0] - 128), scale * 128, i + 1, ReadVarint(rest[1..]))
  {
    ContinuedCarry(value, scale, i, rest[0] - 128, ReadVarint(rest[1..]));
  }

  lemma ContinuedCarry(value: nat, scale: nat, i: nat, low: nat, r: Option<(nat, nat)>)
    ensures Continued(value, scale, i, Carry(low, r)) == Continued(value + scale * low, scale * 128, i + 1, r)
  {
    if r.Some? { Rescale(value, scale, low, r.value.0); }
  }

  lemma Rescale(value: nat, scale: nat, low: nat, high: nat)
    ensures value + scale * (low + 128 * high) == (value + scale * low) + (scale * 128) * high
  {
    assert scale * (low + 128 * high) == scale * low + scale * (128 * high);
    assert scale * (128 * high) == (scale * 128) * high;
  }

  /** The reader's loop: `scale` is 2^shift and `rest` what follows index `i`. A buffer that
      ends inside the number is refused. */
  method ScanVarint(buf: Bytes, start: nat) returns (r: Option<(nat, nat)>)
    requires start <= |buf|
    ensures r == Continued(0, 1, start, ReadVarint(buf[start..]))
  {
    var value: nat, scale: nat, i: nat, rest := 0, 1, start, buf[start..];
    while rest != [] && rest[0] >= 128
      invariant Continued(value, scale, i, ReadVarint(rest)) == Continued(0, 1, start, ReadVarint(buf[start..]))
      decreases |rest|
    {
      ContinuedStep(rest, value, scale, i);
      var digit: nat := rest[0] - 128;
      value, scale := value + scale * digit, scale * 128;
      i, rest := i + 1, rest[1..];
    }
    if rest == [] { return None; }
    var last: nat := rest[0];
    r := Some((value + scale * last, i + 1));
  }

  // ---- fields ----

  function Headers(fs: seq<Field>): Bytes {
    if fs == [] then [] else [fs[0].id] + Varint(|fs[0].data|) + Headers(fs[1..])
  }

  function Bodies(fs: seq<Field>): Bytes {
    if fs == [] then [] else fs[0].data + Bodies(fs[1..])
  }

  function Encode(fs: seq<Field>): Bytes
    requires |fs| < 256
  {
    [|fs|] + Headers(fs) + Bodies(fs)
  }

  /** First pass: ids and lengths, and how many bytes the headers take. */
  function ReadHeaders(b: Bytes, count: nat): Option<(seq<(Byte, nat)>, nat)> {
    if count == 0 then Some(([], 0))
    else if b == [] then None
    else
      var v := ReadVarint(b[1..]);
      if v.None? || |b| < 1 + v.value.1 then None
      else
        var r := ReadHeaders(b[1 + v.value.1..], count - 1);
        if r.None? then None else Some(([(b[0], v.value.0)] + r.value.0, 1 + v.value.1 + r.value.1))
  }

  /** Second pass: cut the data at the lengths read. */
  function ReadBodies(heads: seq<(Byte, nat)>, b: Bytes): Option<seq<Field>> {
    if heads == [] then Some([])
    else if |b| < heads[0].1 then None
    else
      var r := ReadBodies(heads[1..], b[heads[0].1..]);
      if r.None? then None else Some([Field(heads[0].0, b[..heads[0].1])] + r.value)
  }

  function Decode(b: Bytes): Option<seq<Field>> {
    if b == [] then None
    else
      var h := ReadHeaders(b[1..], b[0]);
      if h.None? || |b| < 1 + h.value.1 then None else ReadBodies(h.value.0, b[1 + h.value.1..])
  }

  function HeadsOf(fs: seq<Field>): seq<(Byte, nat)> {
    if fs == [] then [] else [(fs[0].id, |fs[0].data|)] + HeadsOf(fs[1..])
  }

  lemma HeaderFirst(id: Byte, v: Bytes, size: nat, tail: Bytes, count: nat)
    requires ReadVarint(v + tail) == Some((size, |v|)) && ReadHeaders(tail, count).Some?
    ensures var (heads, k) := ReadHeaders(tail, count).value;
      ReadHeaders([id] + (v + tail), count + 1) == Some(([(id, size)] + heads, 1 + |v| + k))
  {
    var b := [id] + (v + tail);
    assert b[1..] == v + tail;
    assert b[1 + |v|..] == tail;
  }

  lemma HeaderParts(id: Byte, v: Bytes, hs: Bytes, rest: Bytes)
    ensures [id] + v + hs + rest == [id] + (v + (hs + rest))
  {}

  lemma {:induction false} HeadersRoundTrip(fs: seq<Field>, rest: Bytes)
    ensures ReadHeaders(Headers(fs) + rest, |fs|) == Some((HeadsOf(fs), |Headers(fs)|))
  {
    if fs != [] {
      var v, hs := Varint(|fs[0].data|), Headers(fs[1..]);
      HeadersRoundTrip(fs[1..], rest);
      VarintRoundTrip(|fs[0].data|, hs + rest);
      HeaderFirst(fs[0].id, v, |fs[0].data|, hs + rest, |fs| - 1);
      HeaderParts(fs[0].id, v, hs, rest);
    }
  }

  lemma {:induction false} BodiesRoundTrip(fs: seq<Field>)
    ensures ReadBodies(HeadsOf(fs), Bodies(fs)) == Some(fs)
  {
    if fs != [] {
      BodiesRoundTrip(fs[1..]);
      assert fs == [fs[0]] + fs[1..];
    }
  }

  /** Decoding inverts encoding, over the two-pass layout. */
  lemma RoundTrip(fs: seq<Field>)
    requires |fs| < 256
    ensures Decode(Encode(fs)) == Some(fs)
  {
    var b := Encode(fs);
    assert b[1..] == Headers(fs) + Bodies(fs);
    HeadersRoundTrip(fs, Bodies(fs));
    assert b[1 + |Headers(fs)|..] == Bodies(fs);
    BodiesRoundTrip(fs);
  }

  lemma EncodeInjective(fs: seq<Field>, gs: seq<Field>)
    requires |fs| < 256 && |gs| < 256 && Encode(fs) == Encode(gs)
    ensures fs == gs
  {
    RoundTrip(fs);
    RoundTrip(gs);
  }
}
