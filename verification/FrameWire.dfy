/** The wire form of a ratchet frame: the canonical form under the HMAC, the frame with its
    tag, and the parser. */
module FrameWire {
  import opened Terms
  import BigEndian
  import Nanopack
  import Ratchet

  type Uint64 = n: nat | n < 0x1_0000_0000_0000_0000

  datatype SecureMessage = SecureMessage(senderId: Bytes, ratchetKey: Bytes, nonce: Uint64, ciphertext: Bytes)

  datatype Parsed = Parsed(msg: SecureMessage, tag: Bytes)

  datatype ParseResult = Ok(value: Parsed) | Malformed | ShortNonce | NonceOutOfRange

  /** MarshalBinID: the four tagged fields in order. */
  function Fields(m: SecureMessage): seq<Nanopack.Field> {
    [Nanopack.Field(1, m.senderId), Nanopack.Field(2, m.ratchetKey),
     Nanopack.Field(3, BigEndian.Put(m.nonce, 8)), Nanopack.Field(4, m.ciphertext)]
  }

  /** What the HMAC is computed over. */
  function Canonical(m: SecureMessage): Bytes { Nanopack.Encode(Fields(m)) }

  /** The frame Encrypt emits: the same fields and the tag last. */
  function Wire(m: SecureMessage, tag: Bytes): Bytes {
    Nanopack.Encode(Fields(m) + [Nanopack.Field(5, tag)])
  }

  /** One turn of the loop in UnmarshalBinID and of the tag loop after it. */
  function Assign(p: Parsed, f: Nanopack.Field): Option<Parsed> {
    match f.id
    case 1 => Some(p.(msg := p.msg.(senderId := f.data)))
    case 2 => Some(p.(msg := p.msg.(ratchetKey := f.data)))
    case 3 =>
      if |f.data| != 8 then None else
        BigEndian.PutGet(f.data);
        BigEndian.Pow256Of8();
        Some(p.(msg := p.msg.(nonce := BigEndian.Get(f.data))))
    case 4 => Some(p.(msg := p.msg.(ciphertext := f.data)))
    case 5 => Some(p.(tag := f.data))
    case _ => Some(p)
  }

  function AssignAll(p: Parsed, fs: seq<Nanopack.Field>): Option<Parsed>
    decreases |fs|
  {
    if fs == [] then Some(p) else
      var q := Assign(p, fs[0]);
      if q.None? then None else AssignAll(q.value, fs[1..])
  }

  const BLANK: Parsed := Parsed(SecureMessage([], [], 0, []), [])

  function Parse(b: Bytes): ParseResult {
    var fs := Nanopack.Decode(b);
    if fs.None? then Malformed else
      var p := AssignAll(BLANK, fs.value);
      if p.None? then ShortNonce
      else if p.value.msg.nonce >= Ratchet.MAX_WIRE_NONCE then NonceOutOfRange
      else Ok(p.value)
  }

  /** parseSecureMessage: decode, assign the fields in a loop, bound the nonce. */
  method ParseSecureMessage(b: Bytes) returns (r: ParseResult)
    ensures r == Parse(b)
  {
    var fs := Nanopack.Decode(b);
    if fs.None? { return Malformed; }
    var p := BLANK;
    for i := 0 to |fs.value|
      invariant AssignAll(p, fs.value[i..]) == AssignAll(BLANK, fs.value)
    {
      var q := Assign(p, fs.value[i]);
      assert fs.value[i..][1..] == fs.value[i + 1..];
      if q.None? { return ShortNonce; }
      p := q.value;
    }
    if p.msg.nonce >= Ratchet.MAX_WIRE_NONCE { return NonceOutOfRange; }
    r := Ok(p);
  }

  lemma AssignFrame(m: SecureMessage, tag: Bytes)
    ensures AssignAll(BLANK, Fields(m) + [Nanopack.Field(5, tag)]) == Some(Parsed(m, tag))
  {
    var fs := Fields(m) + [Nanopack.Field(5, tag)];
    BigEndian.Pow256Of8();
    BigEndian.RoundTrip(m.nonce, 8);
    var p1 := Parsed(SecureMessage(m.senderId, [], 0, []), []);
    var p2 := Parsed(SecureMessage(m.senderId, m.ratchetKey, 0, []), []);
    var p3 := Parsed(SecureMessage(m.senderId, m.ratchetKey, m.nonce, []), []);
    var p4 := Parsed(m, []);
    assert Assign(p4, fs[4]) == Some(Parsed(m, tag)) && fs[4..][1..] == [];
    assert AssignAll(p4, fs[4..]) == Some(Parsed(m, tag));
    assert fs[3..][1..] == fs[4..] && AssignAll(p3, fs[3..]) == Some(Parsed(m, tag));
    assert fs[2..][1..] == fs[3..] && AssignAll(p2, fs[2..]) == Some(Parsed(m, tag));
    assert fs[1..][1..] == fs[2..] && AssignAll(p1, fs[1..]) == Some(Parsed(m, tag));
  }

  /** Every frame Encrypt emits parses to the same four fields and tag, if and only if its
      nonce is below the wire bound; otherwise it is refused for that reason. The form the
      receiver then re-encodes for the HMAC is byte for byte the one the sender used. */
  lemma FrameParsesBack(m: SecureMessage, tag: Bytes)
    ensures Parse(Wire(m, tag)) == if m.nonce < Ratchet.MAX_WIRE_NONCE then Ok(Parsed(m, tag)) else NonceOutOfRange
    ensures m.nonce < Ratchet.MAX_WIRE_NONCE ==> Canonical(Parse(Wire(m, tag)).value.msg) == Canonical(m)
  {
    Nanopack.RoundTrip(Fields(m) + [Nanopack.Field(5, tag)]);
    AssignFrame(m, tag);
  }

  /** Two messages with the same canonical form are the same message: a tag binds all four
      fields at once, wherever the boundaries between them lie. */
  lemma CanonicalInjective(m: SecureMessage, n: SecureMessage)
    requires Canonical(m) == Canonical(n)
    ensures m == n
  {
    Nanopack.EncodeInjective(Fields(m), Fields(n));
    assert forall i :: 0 <= i < 4 ==> Fields(m)[i] == Fields(n)[i];
    BigEndian.Pow256Of8();
    BigEndian.RoundTrip(m.nonce, 8);
    BigEndian.RoundTrip(n.nonce, 8);
  }
}
