/** Whole-file encryption, cutting into chunks, the manifest, and reassembly. */
module FileTransfer {
  import opened Terms
  import opened Ratchet
  import BigEndian
  import Nanopack
  import Duplex
  import Conversation

  const MAX_FILE_PLAINTEXT: nat := 0x80_0000
  const DEFAULT_CHUNK_SIZE: nat := 0x8000
  const MAX_CHUNK_SIZE: nat := 0x1_0000

  // ---- chunks ----

  function Chunks(c: Bytes, size: nat): seq<Bytes>
    requires size > 0
    decreases |c|
  {
    if c == [] then [] else if |c| <= size then [c] else [c[..size]] + Chunks(c[size..], size)
  }

  function Join(chunks: seq<Bytes>): Bytes {
    if chunks == [] then [] else chunks[0] + Join(chunks[1..])
  }

  /** The chunks put together again are the ciphertext. */
  lemma {:induction false} ChunksJoin(c: Bytes, size: nat)
    requires size > 0
    ensures Join(Chunks(c, size)) == c
    decreases |c|
  {
    if |c| > size {
      ChunksJoin(c[size..], size);
      JoinFirst(c[..size], Chunks(c[size..], size));
    } else if c != [] {
      JoinFirst(c, []);
      assert [c] + [] == [c] && c + [] == c;
    }
  }

  lemma JoinFirst(c: Bytes, rest: seq<Bytes>)
    ensures Join([c] + rest) == c + Join(rest)
  {
    assert ([c] + rest)[1..] == rest;
  }

  /** As many chunks as the ceiling of size over chunk size. */
  lemma {:induction false} ChunkCount(c: Bytes, size: nat)
    requires size > 0
    ensures |c| <= |Chunks(c, size)| * size
    ensures c != [] ==> (|Chunks(c, size)| - 1) * size < |c|
    decreases |c|
  {
    if |c| > size {
      ChunkCount(c[size..], size);
      var n := |Chunks(c[size..], size)|;
      assert (n + 1) * size == n * size + size && n * size == (n - 1) * size + size;
    } else if c != [] {
      assert |Chunks(c, size)| == 1;
    }
  }

  /** Chunk `i` starts at `i` times the chunk size, which is what XferPut claims; it is not
      empty, and only the last may be short. */
  lemma {:induction false} ChunkAt(c: Bytes, size: nat, i: nat)
    requires size > 0 && i < |Chunks(c, size)|
    ensures i * size < |c|
    ensures Chunks(c, size)[i] == c[i * size..if |c| < i * size + size then |c| else i * size + size]
    ensures i + 1 < |Chunks(c, size)| ==> i * size + size < |c|
    decreases |c|
  {
    if |c| > size && i > 0 {
      var d := c[size..];
      ChunkAt(d, size, i - 1);
      assert i * size == (i - 1) * size + size;
      var from := (i - 1) * size;
      var to := if |d| < from + size then |d| else from + size;
      assert d[from..to] == c[from + size..to + size];
    } else if |c| > size {
      assert Chunks(c, size)[0] == c[..size];
    }
  }

  /** The chunks from an offset on. */
  function Rest(c: Bytes, size: nat, off: nat): seq<Bytes>
    requires size > 0
  {
    if off < |c| then Chunks(c[off..], size) else []
  }

  /** The cutting loop of EncryptFile. */
  method CutChunks(cipher: Bytes, size: nat) returns (chunks: seq<Bytes>)
    requires size > 0
    ensures chunks == Chunks(cipher, size)
  {
    chunks := [];
    var off: nat := 0;
    assert cipher[0..] == cipher;
    while off < |cipher|
      invariant chunks + Rest(cipher, size, off) == Chunks(cipher, size)
      decreases |cipher| - off
    {
      var end := off + size;
      if end > |cipher| { end := |cipher|; }
      NextChunk(chunks, cipher, size, off);
      chunks := chunks + [cipher[off..end]];
      off := off + size;
    }
  }

  lemma NextChunk(chunks: seq<Bytes>, c: Bytes, size: nat, off: nat)
    requires size > 0 && off < |c|
    ensures var end := if off + size > |c| then |c| else off + size;
      chunks + Rest(c, size, off) == (chunks + [c[off..end]]) + Rest(c, size, off + size)
  {
    var d := c[off..];
    var end := if off + size > |c| then |c| else off + size;
    if |d| > size { assert d[size..] == c[off + size..] && d[..size] == c[off..end]; } else { assert d == c[off..end]; }
    assert Rest(c, size, off) == [c[off..end]] + Rest(c, size, off + size);
    assert chunks + ([c[off..end]] + Rest(c, size, off + size)) == (chunks + [c[off..end]]) + Rest(c, size, off + size);
  }

  // ---- the manifest ----

  datatype Manifest = Manifest(
    fileName: Bytes, plainSize: int, cipherSize: int, chunkSize: nat, chunkCount: nat, fileHash: Bytes, cipherHash: Bytes)

  predicate Signed64(v: int) { -0x8000_0000_0000_0000 <= v < 0x8000_0000_0000_0000 }

  type Int64 = v: int | Signed64(v)

  /** Conversion between unsigned and signed 64-bit numbers. */
  function ToInt64(v: nat): Int64
    requires v < 0x1_0000_0000_0000_0000
  {
    if v < 0x8000_0000_0000_0000 then v else v - 0x1_0000_0000_0000_0000
  }

  function ToUint64(v: int): nat { v % 0x1_0000_0000_0000_0000 }

  lemma SignedBack(v: Int64)
    ensures ToInt64(ToUint64(v)) == v
  {
    assert Signed64(v);
  }

  function ManifestFields(m: Manifest): seq<Nanopack.Field> {
    [Nanopack.Field(1, m.fileName), Nanopack.Field(2, BigEndian.Put(ToUint64(m.plainSize), 8)),
     Nanopack.Field(3, BigEndian.Put(ToUint64(m.cipherSize), 8)), Nanopack.Field(4, BigEndian.Put(m.chunkSize, 4)),
     Nanopack.Field(5, BigEndian.Put(m.chunkCount, 4)), Nanopack.Field(6, m.fileHash), Nanopack.Field(7, m.cipherHash)]
  }

  function ManifestBytes(m: Manifest): Bytes { Nanopack.Encode(ManifestFields(m)) }

  function Get64(b: Bytes): Int64
    requires |b| == 8
  {
    BigEndian.PutGet(b);
    BigEndian.Pow256Of8();
    ToInt64(BigEndian.Get(b))
  }

  function Assign(m: Manifest, f: Nanopack.Field): Option<Manifest> {
    match f.id
    case 1 => Some(m.(fileName := f.data))
    case 2 => if |f.data| != 8 then None else Some(m.(plainSize := Get64(f.data)))
    case 3 => if |f.data| != 8 then None else Some(m.(cipherSize := Get64(f.data)))
    case 4 => if |f.data| != 4 then None else Some(m.(chunkSize := BigEndian.Get(f.data)))
    case 5 => if |f.data| != 4 then None else Some(m.(chunkCount := BigEndian.Get(f.data)))
    case 6 => Some(m.(fileHash := f.data))
    case 7 => Some(m.(cipherHash := f.data))
    case _ => Some(m)
  }

  function AssignAll(m: Manifest, fs: seq<Nanopack.Field>): Option<Manifest>
    decreases |fs|
  {
    if fs == [] then Some(m) else
      var n := Assign(m, fs[0]);
      if n.None? then None else AssignAll(n.value, fs[1..])
  }

  predicate Sound(m: Manifest) {
    m.chunkCount > 0 && m.chunkSize > 0 && m.cipherSize > 0 && |m.fileHash| == 32 && |m.cipherHash| == 32
  }

  const BLANK: Manifest := Manifest([], 0, 0, 0, 0, [], [])

  function ParseManifest(b: Bytes): Option<Manifest> {
    var fs := Nanopack.Decode(b);
    if fs.None? then None else
      var m := AssignAll(BLANK, fs.value);
      if m.Some? && Sound(m.value) then m else None
  }

  /** A manifest whose numbers fit their fields. */
  predicate Fits(m: Manifest) {
    Signed64(m.plainSize) && Signed64(m.cipherSize) && m.chunkSize < 0x1_0000_0000 && m.chunkCount < 0x1_0000_0000
  }

  lemma SizeBack64(v: Int64)
    ensures Get64(BigEndian.Put(ToUint64(v), 8)) == v
  {
    BigEndian.Pow256Of8();
    BigEndian.RoundTrip(ToUint64(v), 8);
    SignedBack(v);
  }

  lemma SizeBack32(v: nat)
    requires v < 0x1_0000_0000
    ensures BigEndian.Get(BigEndian.Put(v, 4)) == v
  {
    BigEndian.Pow256Of8();
    BigEndian.RoundTrip(v, 4);
  }

  lemma AssignStep(m: Manifest, fs: seq<Nanopack.Field>, i: nat, n: Manifest, r: Option<Manifest>)
    requires i < |fs| && Assign(m, fs[i]) == Some(n) && AssignAll(n, fs[i + 1..]) == r
    ensures AssignAll(m, fs[i..]) == r
  {
    assert fs[i..][0] == fs[i] && fs[i..][1..] == fs[i + 1..];
  }

  lemma AssignTail(m: Manifest)
    requires Fits(m)
    ensures AssignAll(m.(chunkSize := 0, chunkCount := 0, fileHash := [], cipherHash := []), ManifestFields(m)[3..]) == Some(m)
  {
    var fs := ManifestFields(m);
    SizeBack32(m.chunkSize);
    SizeBack32(m.chunkCount);
    var m6 := m.(cipherHash := []);
    var m5 := m6.(fileHash := []);
    var m4 := m5.(chunkCount := 0);
    assert fs[7..] == [];
    AssignStep(m6, fs, 6, m, Some(m));
    AssignStep(m5, fs, 5, m6, Some(m));
    AssignStep(m4, fs, 4, m5, Some(m));
    AssignStep(m4.(chunkSize := 0), fs, 3, m4, Some(m));
  }

  lemma AssignManifest(m: Manifest)
    requires Fits(m)
    ensures AssignAll(BLANK, ManifestFields(m)) == Some(m)
  {
    var fs := ManifestFields(m);
    SizeBack64(m.plainSize);
    SizeBack64(m.cipherSize);
    AssignTail(m);
    var m3 := m.(chunkSize := 0, chunkCount := 0, fileHash := [], cipherHash := []);
    var m2 := m3.(cipherSize := 0);
    var m1 := m2.(plainSize := 0);
    assert fs[0..] == fs;
    AssignStep(m2, fs, 2, m3, Some(m));
    AssignStep(m1, fs, 1, m2, Some(m));
    AssignStep(BLANK, fs, 0, m1, Some(m));
  }

  /** A manifest parses back exactly when its counts and sizes are positive and its hashes have
      32 bytes, and is refused otherwise. */
  lemma ManifestParsesBack(m: Manifest)
    requires Fits(m)
    ensures ParseManifest(ManifestBytes(m)) ==
            if m.chunkCount > 0 && m.chunkSize > 0 && m.cipherSize > 0 && |m.fileHash| == 32 && |m.cipherHash| == 32 then Some(m) else None
  {
    Nanopack.RoundTrip(ManifestFields(m));
    AssignManifest(m);
  }

  // ---- sending and receiving a file ----

  /** What the bytes on the wire are: SHA-256, and the encoding of a frame with its parser. */
  datatype Coding = Coding(sha256: Bytes -> Bytes, wire: Frame -> Bytes, parse: Bytes -> Option<Frame>)

  ghost predicate GoodCoding(k: Coding) {
    (forall b :: |k.sha256(b)| == 32) && (forall f :: k.parse(k.wire(f)) == Some(f) && k.wire(f) != [])
  }

  datatype FileError =
    | FileSize | ChunkSizeRange | WrongCount | EmptyChunk | CipherSizeMismatch | CipherHashMismatch
    | NoFrame | Undecryptable(error: Error) | SenderMismatch | PlainSizeMismatch | FileHashMismatch

  datatype Outcome<+T> = Success(value: T) | Failure(error: FileError)

  datatype Parcel = Parcel(session: Session, frame: Frame, chunks: seq<Bytes>, manifest: Manifest)

  /** The chunk size EncryptFile works with. */
  function EffectiveSize(chunkSize: int): nat { if chunkSize <= 0 then DEFAULT_CHUNK_SIZE else chunkSize }

  function Describe(k: Coding, name: Bytes, plaintext: Bytes, cipher: Bytes, size: nat): Manifest
    requires size > 0
  {
    Manifest(name, |plaintext|, |cipher|, size, |Chunks(cipher, size)|, k.sha256(plaintext), k.sha256(cipher))
  }

  function EncryptFile(k: Coding, s: Session, self: Bytes, name: Bytes, plaintext: Bytes, chunkSize: int, drawn: nat): Outcome<Parcel> {
    if |plaintext| == 0 || |plaintext| > MAX_FILE_PLAINTEXT then Failure(FileSize)
    else if EffectiveSize(chunkSize) > MAX_CHUNK_SIZE then Failure(ChunkSizeRange)
    else
      var (next, frame) := Encrypt(s, self, plaintext, drawn);
      var cipher := k.wire(frame);
      Success(Parcel(next, frame, Chunks(cipher, EffectiveSize(chunkSize)), Describe(k, name, plaintext, cipher, EffectiveSize(chunkSize))))
  }

  /** Everything ReassembleAndDecrypt checks before it touches the session. */
  function Reassemble(k: Coding, chunks: seq<Bytes>, m: Manifest): Outcome<Frame> {
    if |chunks| != m.chunkCount then Failure(WrongCount)
    else if [] in chunks then Failure(EmptyChunk)
    else if |Join(chunks)| != m.cipherSize then Failure(CipherSizeMismatch)
    else if k.sha256(Join(chunks)) != m.cipherHash then Failure(CipherHashMismatch)
    else
      var f := k.parse(Join(chunks));
      if f.None? then Failure(NoFrame) else Success(f.value)
  }

  /** Everything it checks after the session has tried to decrypt. */
  function Receive(k: Coding, from: Bytes, r: Result, m: Manifest): Outcome<Bytes> {
    if r.Err? then Failure(Undecryptable(r.error))
    else if from != [] && r.sender != from then Failure(SenderMismatch)
    else if |r.plaintext| != m.plainSize then Failure(PlainSizeMismatch)
    else if k.sha256(r.plaintext) != m.fileHash then Failure(FileHashMismatch)
    else Success(r.plaintext)
  }

  /** The joining loop of ReassembleAndDecrypt. */
  method JoinChunks(chunks: seq<Bytes>) returns (cipher: Option<Bytes>)
    ensures cipher == if [] in chunks then None else Some(Join(chunks))
  {
    var out: Bytes := [];
    assert chunks[0..] == chunks;
    for i := 0 to |chunks|
      invariant out + Join(chunks[i..]) == Join(chunks) && [] !in chunks[..i]
    {
      if chunks[i] == [] {
        assert chunks[i] in chunks;
        return None;
      }
      assert chunks[i..][1..] == chunks[i + 1..];
      assert out + (chunks[i] + Join(chunks[i + 1..])) == (out + chunks[i]) + Join(chunks[i + 1..]);
      out := out + chunks[i];
    }
    assert chunks[..|chunks|] == chunks && chunks[|chunks|..] == [] && out + [] == out;
    cipher := Some(out);
  }

  /** Any chunking of the ciphertext into the right number of non-empty pieces is accepted and
      gives the sender's frame; where SHA-256 does not collide, nothing else is. */
  lemma ReassembleIff(k: Coding, f: Frame, name: Bytes, plaintext: Bytes, size: nat, chunks: seq<Bytes>)
    requires GoodCoding(k) && size > 0 && (k.sha256(Join(chunks)) == k.sha256(k.wire(f)) ==> Join(chunks) == k.wire(f))
    ensures var m := Describe(k, name, plaintext, k.wire(f), size);
      && (Reassemble(k, chunks, m).Success? <==> |chunks| == m.chunkCount && [] !in chunks && Join(chunks) == k.wire(f))
      && (Reassemble(k, chunks, m).Success? ==> Reassemble(k, chunks, m).value == f)
  {
    assert k.parse(k.wire(f)) == Some(f);
  }

  /** Whatever the manifest says, chunks that pass are as many, as long and hashed as it says,
      and hold the frame returned. */
  lemma ReassembledMatches(k: Coding, chunks: seq<Bytes>, m: Manifest)
    requires Reassemble(k, chunks, m).Success?
    ensures |chunks| == m.chunkCount && [] !in chunks && |Join(chunks)| == m.cipherSize && k.sha256(Join(chunks)) == m.cipherHash
    ensures k.parse(Join(chunks)) == Some(Reassemble(k, chunks, m).value)
  {}

  /** Whatever the manifest says, a file that comes out is as long and hashed as it says, and
      from the peer expected, if one is. */
  lemma ReceivedMatches(k: Coding, from: Bytes, r: Result, m: Manifest)
    requires Receive(k, from, r, m).Success?
    ensures r.Ok? && Receive(k, from, r, m).value == r.plaintext && |r.plaintext| == m.plainSize && k.sha256(r.plaintext) == m.fileHash
    ensures from != [] ==> r.sender == from
  {}

  /** Against the manifest of a file, exactly that file from the right peer comes out; where
      SHA-256 does not collide, nothing else does. */
  lemma ReceiveIff(k: Coding, from: Bytes, r: Result, name: Bytes, plaintext: Bytes, cipher: Bytes, size: nat)
    requires size > 0 && (r.Ok? && k.sha256(r.plaintext) == k.sha256(plaintext) ==> r.plaintext == plaintext)
    ensures Receive(k, from, r, Describe(k, name, plaintext, cipher, size)).Success? <==>
            r.Ok? && r.plaintext == plaintext && (from == [] || r.sender == from)
  {
    if Receive(k, from, r, Describe(k, name, plaintext, cipher, size)).Success? {
      ReceivedMatches(k, from, r, Describe(k, name, plaintext, cipher, size));
    }
  }

  /** A file is sent if and only if it has between one byte and eight mebibytes and the chunk
      size is at most 64 kibibytes; zero or less asks for 32. The file sealed is the one given,
      and the manifest describes it. */
  lemma EncryptFileIff(k: Coding, s: Session, self: Bytes, name: Bytes, plaintext: Bytes, chunkSize: int, drawn: nat)
    ensures EncryptFile(k, s, self, name, plaintext, chunkSize, drawn).Success? <==> 1 <= |plaintext| <= 0x80_0000 && chunkSize <= 0x1_0000
    ensures EncryptFile(k, s, self, name, plaintext, chunkSize, drawn).Success? ==>
      var p := EncryptFile(k, s, self, name, plaintext, chunkSize, drawn).value;
      && p.frame.cipher.Seal? && p.frame.cipher.plaintext == plaintext && p.frame.sender == self
      && p.manifest.fileName == name && p.manifest.plainSize == |plaintext| && p.manifest.fileHash == k.sha256(plaintext)
      && p.manifest.cipherSize == |Join(p.chunks)| && p.manifest.cipherHash == k.sha256(Join(p.chunks)) && p.manifest.chunkCount == |p.chunks|
      && p.manifest.chunkSize == (if chunkSize <= 0 then 0x8000 else chunkSize)
  {
    var r := EncryptFile(k, s, self, name, plaintext, chunkSize, drawn);
    if r.Success? { ChunksJoin(k.wire(r.value.frame), EffectiveSize(chunkSize)); }
  }

  lemma ChunksNotEmpty(c: Bytes, size: nat)
    requires size > 0
    ensures [] !in Chunks(c, size)
  {
    forall i | 0 <= i < |Chunks(c, size)| ensures Chunks(c, size)[i] != [] { ChunkAt(c, size, i); }
  }

  /** What EncryptFile cut is always put together to the frame it sealed, and the manifest
      travels: it parses back to itself. */
  lemma ParcelReassembles(k: Coding, s: Session, self: Bytes, name: Bytes, plaintext: Bytes, chunkSize: int, drawn: nat)
    requires GoodCoding(k) && EncryptFile(k, s, self, name, plaintext, chunkSize, drawn).Success?
    requires |k.wire(Encrypt(s, self, plaintext, drawn).1)| < 0x1_0000_0000
    ensures var p := EncryptFile(k, s, self, name, plaintext, chunkSize, drawn).value;
      && p.session == Encrypt(s, self, plaintext, drawn).0 && p.frame == Encrypt(s, self, plaintext, drawn).1
      && Reassemble(k, p.chunks, p.manifest) == Success(p.frame)
      && ParseManifest(ManifestBytes(p.manifest)) == Some(p.manifest)
  {
    var p := EncryptFile(k, s, self, name, plaintext, chunkSize, drawn).value;
    var cipher, size := k.wire(p.frame), EffectiveSize(chunkSize);
    assert cipher != [] && k.parse(cipher) == Some(p.frame);
    ChunksJoin(cipher, size);
    ChunksNotEmpty(cipher, size);
    FewChunks(cipher, size);
    ManifestParsesBack(p.manifest);
  }

  lemma FewChunks(c: Bytes, size: nat)
    requires size > 0 && c != []
    ensures 0 < |Chunks(c, size)| <= |c|
  {
    ChunkCount(c, size);
    var n := |Chunks(c, size)|;
    assert n != 0;
    assert (n - 1) * size >= (n - 1) * 1;
  }

  /** End to end: in every run of a pair in step, the parcel EncryptFile makes at move a, with
      its manifest carried as bytes, gives the original file the first time its frame is
      handed over at move b; the ratchet refuses it afterwards. */
  lemma FileArrivesOnce(k: Coding, name: Bytes, chunkSize: int, from: Bytes, w: Duplex.World, ms: seq<Conversation.Move>, a: nat, b: nat)
    requires GoodCoding(k) && Conversation.Run(w, ms) && a < b < |ms| && ms[a].Say? && ms[b].Hand? && ms[b].nonce < MAX_WIRE_NONCE
    requires ms[a].p < |Conversation.At(w, ms, a).ends| && ms[a].p < |Conversation.At(w, ms, a + 1).ends|
    requires (ms[b].chain, ms[b].nonce) == Conversation.PlaceOf(w, ms, a) && (from == [] || from == ms[a].sender)
    requires var m, s := ms[a], Conversation.At(w, ms, a).ends[ms[a].p].me;
      && EncryptFile(k, s, m.sender, name, m.plaintext, chunkSize, m.drawn).Success?
      && |k.wire(Encrypt(s, m.sender, m.plaintext, m.drawn).1)| < 0x1_0000_0000
    ensures Duplex.CanDeliver(Conversation.At(w, ms, b), ms[b].p, ms[b].chain, ms[b].nonce)
    ensures var m, s := ms[a], Conversation.At(w, ms, a).ends[ms[a].p].me;
      var parcel := EncryptFile(k, s, m.sender, name, m.plaintext, chunkSize, m.drawn).value;
      var manifest := ParseManifest(ManifestBytes(parcel.manifest));
      && manifest.Some?
      && Reassemble(k, parcel.chunks, manifest.value) == Success(Conversation.At(w, ms, b).sent[ms[b].chain][ms[b].nonce].frame)
      && Receive(k, from, Duplex.Arrival(Conversation.At(w, ms, b), ms[b].p, ms[b].chain, ms[b].nonce), manifest.value) ==
           if ms[b] in ms[..b] then Failure(Undecryptable(Replay)) else Success(m.plaintext)
  {
    Conversation.SaidThenHanded(w, ms, a, b);
    ParcelReassembles(k, Conversation.At(w, ms, a).ends[ms[a].p].me, ms[a].sender, name, ms[a].plaintext, chunkSize, ms[a].drawn);
  }
}
