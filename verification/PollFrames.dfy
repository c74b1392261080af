/** Poll results: runs of frames with four-byte lengths, and the three places that split them. */
module PollFrames {
  import opened Terms
  import Nanopack

  const MAX_FRAME_BYTES: nat := 40 * 1024
  const MAX_RPC_BYTES: nat := 0x20_0000
  const MAX_POLL_BLOB: nat := MAX_FRAME_BYTES * 33 + 16
  const MAX_FRAMES: nat := 32

  /** putU32: the length of a frame as four bytes. */
  function PutU32(n: nat): (b: Bytes)
    ensures |b| == 4
  {
    [n / 0x100_0000 % 256, n / 0x1_0000 % 256, n / 0x100 % 256, n % 256]
  }

  function GetU32(a: Byte, b: Byte, c: Byte, d: Byte): nat {
    a * 0x100_0000 + b * 0x1_0000 + c * 0x100 + d
  }

  lemma GetPutU32(n: nat)
    requires n < 0x1_0000_0000
    ensures var b := PutU32(n); GetU32(b[0], b[1], b[2], b[3]) == n
  {
    var a, b, c := n / 0x100_0000, n / 0x1_0000, n / 0x100;
    assert a % 256 == a && b == a * 256 + b % 256 && c == b * 256 + c % 256 && n == c * 256 + n % 256;
  }

  lemma PutGetU32(a: Byte, b: Byte, c: Byte, d: Byte)
    ensures PutU32(GetU32(a, b, c, d)) == [a, b, c, d]
  {
    var a': nat, b': nat, c': nat, d': nat := a, b, c, d;
    var n := GetU32(a, b, c, d);
    assert n / 0x100_0000 == a';
    assert n / 0x1_0000 == a' * 256 + b';
    assert n / 0x100 == (a' * 256 + b') * 256 + c';
    assert (a' * 256 + b') % 256 == b' && ((a' * 256 + b') * 256 + c') % 256 == c' && n % 256 == d';
  }

  /** The blob: each frame after its length. */
  function Join(frames: seq<Bytes>): Bytes {
    if frames == [] then [] else PutU32(|frames[0]|) + (frames[0] + Join(frames[1..]))
  }

  /** The frame at the front of a blob, if its length is in bounds and it is all there. */
  function First(b: Bytes): (r: Option<Bytes>)
    ensures r.Some? ==> 0 < |r.value| <= MAX_FRAME_BYTES && 4 + |r.value| <= |b|
  {
    if |b| < 4 then None else
      var n := GetU32(b[0], b[1], b[2], b[3]);
      if n == 0 || n > MAX_FRAME_BYTES || |b| < 4 + n then None else Some(b[4..4 + n])
  }

  /** Split a whole blob, or refuse it. */
  function Split(b: Bytes): Option<seq<Bytes>>
    decreases |b|
  {
    if b == [] then Some([])
    else
      var f := First(b);
      if f.None? then None else
        Prepend([f.value], Split(b[4 + |f.value|..]))
  }

  predicate Legal(frames: seq<Bytes>) {
    forall i :: 0 <= i < |frames| ==> 0 < |frames[i]| <= MAX_FRAME_BYTES
  }

  /** The loop of the browser host's ParsePollBlob, which PollFrames of the WASM host repeats;
      `rest` is what follows the position reached. */
  method ParsePollBlob(blob: Bytes) returns (r: Option<seq<Bytes>>)
    ensures r == Split(blob)
  {
    var out: seq<Bytes>, rest := [], blob;
    NothingDone(Split(blob));
    while rest != []
      invariant Prepend(out, Split(rest)) == Split(blob)
      decreases |rest|
    {
      var f := NextChunk(rest);
      if f.None? { return None; }
      NextFrame(out, rest);
      out := out + [f.value];
      rest := rest[4 + |f.value|..];
    }
    assert out + [] == out;
    r := Some(out);
  }

  /** The bounds checks all three loops make before they take a frame. */
  method NextChunk(rest: Bytes) returns (f: Option<Bytes>)
    ensures f == First(rest)
  {
    if 4 > |rest| { return None; }
    var n := GetU32(rest[0], rest[1], rest[2], rest[3]);
    if n == 0 || n > MAX_FRAME_BYTES || 4 + n > |rest| { return None; }
    f := Some(rest[4..4 + n]);
  }

  lemma NextFrame(out: seq<Bytes>, b: Bytes)
    requires First(b).Some?
    ensures Prepend(out, Split(b)) == Prepend(out + [First(b).value], Split(b[4 + |First(b).value|..]))
  {
    PrependOne(out, First(b).value, Split(b[4 + |First(b).value|..]));
  }

  // ---- UnmarshalPollResult ----

  datatype Seen = Seen(blob: Bytes, count: Option<nat>)

  /** One turn over the decoded fields; a count that is not four bytes long is an error. */
  function Assign(s: Seen, f: Nanopack.Field): Option<Seen> {
    match f.id
    case 1 => Some(s.(blob := f.data))
    case 2 => if |f.data| != 4 then None else Some(s.(count := Some(GetU32(f.data[0], f.data[1], f.data[2], f.data[3]))))
    case _ => Some(s)
  }

  function AssignAll(s: Seen, fs: seq<Nanopack.Field>): Option<Seen>
    decreases |fs|
  {
    if fs == [] then Some(s) else
      var t := Assign(s, fs[0]);
      if t.None? then None else AssignAll(t.value, fs[1..])
  }

  /** The blob and the count a body carries. */
  function Contents(body: Bytes): Option<(Bytes, nat)> {
    var fs := Nanopack.Decode(body);
    if fs.None? then None else
      var s := AssignAll(Seen([], None), fs.value);
      if s.None? || s.value.count.None? then None else Some((s.value.blob, s.value.count.value))
  }

  function Counted(frames: Option<seq<Bytes>>, count: nat): Option<seq<Bytes>> {
    if frames.Some? && |frames.value| == count then frames else None
  }

  /** Nothing remains exactly at the end of the blob. */
  lemma FramesLeft(out: seq<Bytes>, rest: Bytes)
    ensures rest == [] ==> Prepend(out, Split(rest)) == Some(out)
    ensures rest != [] && Split(rest).Some? ==> |Prepend(out, Split(rest)).value| > |out|
  {
    assert out + [] == out;
  }

  /** The counting loop of UnmarshalPollResult: it stops after `count` frames instead of at the
      end, and refuses bytes left over. */
  method TakeFrames(blob: Bytes, count: nat) returns (r: Option<seq<Bytes>>)
    ensures r == Counted(Split(blob), count)
  {
    var out: seq<Bytes>, rest := [], blob;
    NothingDone(Split(blob));
    while |out| < count
      invariant |out| <= count && Prepend(out, Split(rest)) == Split(blob)
      decreases count - |out|
    {
      FramesLeft(out, rest);
      var f := NextChunk(rest);
      if f.None? { return None; }
      NextFrame(out, rest);
      out := out + [f.value];
      rest := rest[4 + |f.value|..];
    }
    FramesLeft(out, rest);
    if rest != [] { return None; }
    r := Some(out);
  }

  /** The third parser agrees with the other two: it accepts exactly the bodies whose blob
      splits into exactly `count` frames, at most 32, and returns those frames. */
  method UnmarshalPollResult(body: Bytes) returns (r: Option<seq<Bytes>>)
    ensures r.Some? <==>
            Contents(body).Some? && Contents(body).value.1 <= MAX_FRAMES &&
            Split(Contents(body).value.0).Some? && |Split(Contents(body).value.0).value| == Contents(body).value.1
    ensures r.Some? ==> r == Split(Contents(body).value.0)
  {
    var contents := Contents(body);
    if contents.None? || contents.value.1 > MAX_FRAMES { return None; }
    r := TakeFrames(contents.value.0, contents.value.1);
  }

  // ---- MarshalPollResult ----

  /** More than 32 frames, an empty frame or an oversized one is refused. */
  function Marshal(frames: seq<Bytes>): Option<Bytes> {
    if |frames| > MAX_FRAMES || !Legal(frames) then None
    else Some(Nanopack.Encode([Nanopack.Field(1, Join(frames)), Nanopack.Field(2, PutU32(|frames|))]))
  }

  lemma {:induction false} JoinLast(frames: seq<Bytes>, f: Bytes)
    ensures Join(frames + [f]) == Join(frames) + (PutU32(|f|) + f)
    decreases |frames|
  {
    var all := frames + [f];
    if frames == [] {
      assert all[1..] == [] && f + [] == f;
    } else {
      assert all[1..] == frames[1..] + [f];
      JoinLast(frames[1..], f);
      var p, g, rest, last := PutU32(|frames[0]|), frames[0], Join(frames[1..]), PutU32(|f|) + f;
      assert p + (g + (rest + last)) == (p + (g + rest)) + last;
    }
  }

  /** The loop of MarshalPollResult: the blob grows frame by frame. */
  method MarshalPollResult(frames: seq<Bytes>) returns (r: Option<Bytes>)
    ensures r == Marshal(frames)
  {
    if |frames| > MAX_FRAMES { return None; }
    var blob: Bytes := [];
    for i := 0 to |frames|
      invariant blob == Join(frames[..i]) && Legal(frames[..i])
    {
      var f := frames[i];
      if |f| == 0 || |f| > MAX_FRAME_BYTES { return None; }
      assert frames[..i + 1] == frames[..i] + [f];
      JoinLast(frames[..i], f);
      blob := blob + (PutU32(|f|) + f);
    }
    assert frames[..|frames|] == frames;
    r := Some(Nanopack.Encode([Nanopack.Field(1, blob), Nanopack.Field(2, PutU32(|frames|))]));
  }

  lemma FirstOfParts(p: Bytes, f: Bytes, rest: Bytes)
    requires 0 < |f| <= MAX_FRAME_BYTES && |p| == 4 && GetU32(p[0], p[1], p[2], p[3]) == |f|
    ensures var b := p + (f + rest); First(b) == Some(f) && b[4 + |f|..] == rest
  {
    var b := p + (f + rest);
    assert b[0] == p[0] && b[1] == p[1] && b[2] == p[2] && b[3] == p[3];
    assert b[4..4 + |f|] == f && b[4 + |f|..] == rest;
  }

  lemma FirstOfJoin(f: Bytes, rest: Bytes)
    requires 0 < |f| <= MAX_FRAME_BYTES
    ensures var b := PutU32(|f|) + (f + rest); First(b) == Some(f) && b[4 + |f|..] == rest
  {
    GetPutU32(|f|);
    FirstOfParts(PutU32(|f|), f, rest);
  }

  lemma JoinOfFirst(b: Bytes)
    requires First(b).Some?
    ensures var f := First(b).value; b == PutU32(|f|) + (f + b[4 + |f|..])
  {
    PutGetU32(b[0], b[1], b[2], b[3]);
  }

  lemma {:induction false} SplitJoin(frames: seq<Bytes>)
    requires Legal(frames)
    ensures Split(Join(frames)) == Some(frames)
  {
    if frames != [] {
      var f, b := frames[0], Join(frames);
      FirstOfJoin(f, Join(frames[1..]));
      SplitJoin(frames[1..]);
      assert frames == [f] + frames[1..];
    }
  }

  lemma {:induction false} SplitIsLegal(b: Bytes)
    ensures Split(b).Some? ==> Legal(Split(b).value) && Join(Split(b).value) == b
    decreases |b|
  {
    if b != [] && First(b).Some? {
      var f := First(b).value;
      SplitIsLegal(b[4 + |f|..]);
      if Split(b).Some? {
        JoinOfFirst(b);
        assert Split(b).value[1..] == Split(b[4 + |f|..]).value;
      }
    }
  }

  /** Splitting inverts joining in both directions: it accepts exactly the joined legal lists. */
  lemma SplitExactly(b: Bytes, frames: seq<Bytes>)
    ensures Split(b) == Some(frames) <==> Legal(frames) && Join(frames) == b
  {
    SplitIsLegal(b);
    if Legal(frames) { SplitJoin(frames); }
  }

  /** Unmarshalling inverts marshalling for every result that may be marshalled. */
  lemma MarshalRoundTrip(frames: seq<Bytes>)
    requires Marshal(frames).Some?
    ensures Contents(Marshal(frames).value) == Some((Join(frames), |frames|)) && Split(Join(frames)) == Some(frames)
  {
    var fs := [Nanopack.Field(1, Join(frames)), Nanopack.Field(2, PutU32(|frames|))];
    Nanopack.RoundTrip(fs);
    SplitJoin(frames);
    BothAssigned(Join(frames), |frames|);
  }

  lemma BothAssigned(blob: Bytes, count: nat)
    requires count < 0x1_0000_0000
    ensures AssignAll(Seen([], None), [Nanopack.Field(1, blob), Nanopack.Field(2, PutU32(count))])
         == Some(Seen(blob, Some(count)))
  {
    GetPutU32(count);
    var f, g := Nanopack.Field(1, blob), Nanopack.Field(2, PutU32(count));
    assert [f, g][1..] == [g] && [g][1..] == [];
    assert AssignAll(Seen(blob, None), [g]) == Some(Seen(blob, Some(count)));
  }

  lemma {:induction false} JoinSize(frames: seq<Bytes>)
    requires Legal(frames)
    ensures |Join(frames)| <= 40964 * |frames|
  {
    if frames != [] {
      JoinSize(frames[1..]);
      assert |Join(frames)| == 4 + |frames[0]| + |Join(frames[1..])|;
    }
  }

  lemma VarintSize(v: nat)
    requires v < 0x20_0000
    ensures |Nanopack.Varint(v)| <= 3
  {
    var w := v / 128;
    if w >= 128 {
      assert |Nanopack.Varint(w / 128)| == 1;
      assert |Nanopack.Varint(w)| == 2;
    }
  }

  /** Every legal result fits both ceilings. */
  lemma LegalResultFits(frames: seq<Bytes>)
    requires Marshal(frames).Some?
    ensures |Join(frames)| <= MAX_POLL_BLOB && |Marshal(frames).value| <= MAX_RPC_BYTES
  {
    JoinSize(frames);
    VarintSize(|Join(frames)|);
    VarintSize(4);
    var fs := [Nanopack.Field(1, Join(frames)), Nanopack.Field(2, PutU32(|frames|))];
    assert fs[1..][1..] == [];
    assert |Nanopack.Headers(fs[1..])| == 1 + |Nanopack.Varint(4)|;
    assert |Nanopack.Bodies(fs[1..])| == 4;
  }
}
