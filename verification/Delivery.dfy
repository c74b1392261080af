/** The plaintext of a group delivery: the canonical binding, the signed context descriptor
    and the message, in the current and the legacy layout. */
module Delivery {
  import opened Terms
  import BigEndian
  import Nanopack

  type Uint64 = n: nat | n < 0x1_0000_0000_0000_0000

  datatype Meta = Meta(messageId: Bytes, contextId: Bytes, sender: Bytes, recipient: Bytes, version: Uint64)

  datatype Context = Context(contextId: Bytes, displayName: Bytes, version: Uint64, creatorId: Bytes, signature: Bytes)

  datatype Parsed = Parsed(meta: Meta, context: Option<Context>, plaintext: Bytes)

  const WIRE_V2: Byte := 2

  // ---- length-prefixed fields ----

  /** One length byte, which silently keeps only the low eight bits of the length. */
  function Prefixed(x: Bytes): Bytes { [|x| % 256] + x }

  function ReadPrefixed(b: Bytes): Option<(Bytes, Bytes)> {
    if |b| < 1 then None else
      var n: nat := b[0];
      if |b| < 1 + n then None else Some((b[1..1 + n], b[1 + n..]))
  }

  lemma PrefixedRoundTrip(x: Bytes, rest: Bytes)
    requires |x| < 256
    ensures ReadPrefixed(Prefixed(x) + rest) == Some((x, rest))
  {
    var b := Prefixed(x) + rest;
    assert b[1..1 + |x|] == x && b[1 + |x|..] == rest;
  }

  // ---- the binding ----

  function BuildAad(m: Meta): Bytes {
    Prefixed(m.messageId) + (Prefixed(m.contextId) + (Prefixed(m.sender) + (Prefixed(m.recipient) + BigEndian.Put(m.version, 8))))
  }

  function ParseAad(b: Bytes): Option<(Meta, Bytes)> {
    var msg := ReadPrefixed(b);
    if msg.None? then None else
      var ctx := ReadPrefixed(msg.value.1);
      if ctx.None? then None else
        var sender := ReadPrefixed(ctx.value.1);
        if sender.None? then None else
          var recipient := ReadPrefixed(sender.value.1);
          if recipient.None? || |recipient.value.1| < 8 then None else
            var rest := recipient.value.1;
            BigEndian.PutGet(rest[..8]);
            BigEndian.Pow256Of8();
            Some((Meta(msg.value.0, ctx.value.0, sender.value.0, recipient.value.0, BigEndian.Get(rest[..8])), rest[8..]))
  }

  predicate ShortIds(m: Meta) {
    |m.messageId| < 256 && |m.contextId| < 256 && |m.sender| < 256 && |m.recipient| < 256
  }

  lemma AadRoundTrip(m: Meta, rest: Bytes)
    requires ShortIds(m)
    ensures ParseAad(BuildAad(m) + rest) == Some((m, rest))
  {
    var v := BigEndian.Put(m.version, 8);
    var r4 := v + rest;
    var r3 := Prefixed(m.recipient) + r4;
    var r2 := Prefixed(m.sender) + r3;
    var r1 := Prefixed(m.contextId) + r2;
    assert BuildAad(m) + rest == Prefixed(m.messageId) + r1;
    PrefixedRoundTrip(m.messageId, r1);
    PrefixedRoundTrip(m.contextId, r2);
    PrefixedRoundTrip(m.sender, r3);
    PrefixedRoundTrip(m.recipient, r4);
    assert r4[..8] == v && r4[8..] == rest;
    BigEndian.Pow256Of8();
    BigEndian.RoundTrip(m.version, 8);
  }

  /** What ParseAad returns never has an identifier above 255 bytes. */
  lemma ParsedIdsAreShort(b: Bytes)
    ensures ParseAad(b).Some? ==> ShortIds(ParseAad(b).value.0)
  {}

  /** The binding is injective and prefix-free: two bindings that begin two equal byte strings
      are the same binding, and what follows them is the same. */
  lemma AadPrefixFree(m: Meta, n: Meta, rest: Bytes, tail: Bytes)
    requires ShortIds(m) && ShortIds(n) && BuildAad(m) + rest == BuildAad(n) + tail
    ensures m == n && rest == tail
  {
    AadRoundTrip(m, rest);
    AadRoundTrip(n, tail);
  }

  // ---- the context descriptor ----

  function ContextFields(c: Context): seq<Nanopack.Field> {
    [Nanopack.Field(1, c.contextId), Nanopack.Field(2, c.displayName), Nanopack.Field(3, BigEndian.Put(c.version, 8)),
     Nanopack.Field(4, c.creatorId), Nanopack.Field(5, c.signature)]
  }

  function MarshalContext(c: Context): Bytes { Nanopack.Encode(ContextFields(c)) }

  /** One turn of UnmarshalBinID; a version that is not eight bytes long is ignored. */
  function Assign(c: Context, f: Nanopack.Field): Context {
    match f.id
    case 1 => c.(contextId := f.data)
    case 2 => c.(displayName := f.data)
    case 3 =>
      if |f.data| != 8 then c else
        BigEndian.PutGet(f.data);
        BigEndian.Pow256Of8();
        c.(version := BigEndian.Get(f.data))
    case 4 => c.(creatorId := f.data)
    case 5 => c.(signature := f.data)
    case _ => c
  }

  function AssignAll(c: Context, fs: seq<Nanopack.Field>): Context
    decreases |fs|
  {
    if fs == [] then c else AssignAll(Assign(c, fs[0]), fs[1..])
  }

  function UnmarshalContext(b: Bytes): Option<Context> {
    var fs := Nanopack.Decode(b);
    if fs.None? then None else Some(AssignAll(Context([], [], 0, [], []), fs.value))
  }

  lemma ContextRoundTrip(c: Context)
    ensures UnmarshalContext(MarshalContext(c)) == Some(c)
  {
    var fs := ContextFields(c);
    Nanopack.RoundTrip(fs);
    BigEndian.Pow256Of8();
    BigEndian.RoundTrip(c.version, 8);
    var c4 := Context(c.contextId, c.displayName, c.version, c.creatorId, []);
    var c3 := Context(c.contextId, c.displayName, c.version, [], []);
    var c2 := Context(c.contextId, c.displayName, 0, [], []);
    var c1 := Context(c.contextId, [], 0, [], []);
    assert fs[4..][1..] == [] && AssignAll(c4, fs[4..]) == c;
    assert fs[3..][1..] == fs[4..] && AssignAll(c3, fs[3..]) == c;
    assert fs[2..][1..] == fs[3..] && AssignAll(c2, fs[2..]) == c;
    assert fs[1..][1..] == fs[2..] && AssignAll(c1, fs[1..]) == c;
  }

  // ---- the wrapped payload ----

  /** wrapPayloadV2: a descriptor above 255 bytes is refused. */
  function Wrap(m: Meta, context: Option<Context>, plaintext: Bytes): Option<Bytes> {
    var bin := if context.Some? then MarshalContext(context.value) else [];
    if |bin| > 255 then None else Some([WIRE_V2] + (BuildAad(m) + (Prefixed(bin) + plaintext)))
  }

  /** The legacy layout: the binding and the message, nothing else. */
  function WrapLegacy(m: Meta, plaintext: Bytes): Bytes { BuildAad(m) + plaintext }

  /** ParseWrapped; `verify` is VerifyContextSignature. */
  function ParseWrapped(verify: Context -> bool, b: Bytes): Option<Parsed> {
    if b == [] then None
    else if b[0] == WIRE_V2 then
      var aad := ParseAad(b[1..]);
      if aad.None? then None else
        var bin := ReadPrefixed(aad.value.1);
        if bin.None? then None
        else if bin.value.0 == [] then Some(Parsed(aad.value.0, None, bin.value.1))
        else
          var c := UnmarshalContext(bin.value.0);
          if c.None? || !verify(c.value) then None else Some(Parsed(aad.value.0, c, bin.value.1))
    else
      var aad := ParseAad(b);
      if aad.None? then None else Some(Parsed(aad.value.0, None, aad.value.1))
  }

  lemma WrappedParts(m: Meta, context: Option<Context>, plaintext: Bytes)
    requires ShortIds(m) && Wrap(m, context, plaintext).Some?
    ensures var b := Wrap(m, context, plaintext).value;
      var bin := if context.Some? then MarshalContext(context.value) else [];
      && b[0] == WIRE_V2
      && ParseAad(b[1..]) == Some((m, Prefixed(bin) + plaintext))
      && ReadPrefixed(Prefixed(bin) + plaintext) == Some((bin, plaintext))
  {
    var bin := if context.Some? then MarshalContext(context.value) else [];
    var b := Wrap(m, context, plaintext).value;
    assert b[1..] == BuildAad(m) + (Prefixed(bin) + plaintext);
    AadRoundTrip(m, Prefixed(bin) + plaintext);
    PrefixedRoundTrip(bin, plaintext);
  }

  lemma ShortParsesBack(verify: Context -> bool, m: Meta, context: Option<Context>, plaintext: Bytes)
    requires Wrap(m, context, plaintext).Some? && (context.Some? ==> verify(context.value)) && ShortIds(m)
    ensures ParseWrapped(verify, Wrap(m, context, plaintext).value) == Some(Parsed(m, context, plaintext))
  {
    var bin := if context.Some? then MarshalContext(context.value) else [];
    WrappedParts(m, context, plaintext);
    if context.Some? { ContextRoundTrip(context.value); }
  }

  lemma ParsedMetaIsShort(verify: Context -> bool, b: Bytes)
    ensures ParseWrapped(verify, b).Some? ==> ShortIds(ParseWrapped(verify, b).value.meta)
  {
    if b != [] {
      ParsedIdsAreShort(b[1..]);
      ParsedIdsAreShort(b);
    }
  }

  /** A wrapped payload parses back to what was wrapped if and only if every identifier is at
      most 255 bytes long, for every version and every plaintext, when the descriptor fits
      and its signature verifies. */
  lemma WrappedParsesBack(verify: Context -> bool, m: Meta, context: Option<Context>, plaintext: Bytes)
    requires Wrap(m, context, plaintext).Some? && (context.Some? ==> verify(context.value))
    ensures ParseWrapped(verify, Wrap(m, context, plaintext).value) == Some(Parsed(m, context, plaintext)) <==> ShortIds(m)
  {
    if ShortIds(m) { ShortParsesBack(verify, m, context, plaintext); }
    ParsedMetaIsShort(verify, Wrap(m, context, plaintext).value);
  }

  /** Whatever bytes arrive, a descriptor that comes out of them is validly signed. */
  lemma ParsedContextIsSigned(verify: Context -> bool, b: Bytes)
    ensures var p := ParseWrapped(verify, b); p.Some? && p.value.context.Some? ==> verify(p.value.context.value)
  {}

  /** A payload with a badly signed descriptor is refused, whatever it says. */
  lemma BadDescriptorRefused(verify: Context -> bool, m: Meta, c: Context, plaintext: Bytes)
    requires ShortIds(m) && Wrap(m, Some(c), plaintext).Some? && !verify(c)
    ensures ParseWrapped(verify, Wrap(m, Some(c), plaintext).value) == None
  {
    WrappedParts(m, Some(c), plaintext);
    ContextRoundTrip(c);
  }

  /** A legacy payload parses back to what it was if and only if its message id is not two
      bytes long; one with a two-byte id is taken for the current layout. */
  lemma LegacyParsesBack(verify: Context -> bool, m: Meta, plaintext: Bytes)
    requires ShortIds(m)
    ensures |m.messageId| != 2 ==> ParseWrapped(verify, WrapLegacy(m, plaintext)) == Some(Parsed(m, None, plaintext))
    ensures WrapLegacy(m, plaintext)[0] == WIRE_V2 <==> |m.messageId| == 2
    ensures |m.messageId| == 2 ==> ParseWrapped(verify, WrapLegacy(m, plaintext)) != Some(Parsed(m, None, plaintext))
  {
    AadRoundTrip(m, plaintext);
    if |m.messageId| == 2 { MisreadLegacy(verify, m, plaintext); }
  }

  /** A payload read in the current layout is longer than its binding and plaintext. */
  lemma CurrentLength(verify: Context -> bool, b: Bytes)
    requires b != [] && b[0] == WIRE_V2 && ParseWrapped(verify, b).Some?
    ensures var p := ParseWrapped(verify, b).value; |b| >= 2 + |BuildAad(p.meta)| + |p.plaintext|
  {
    ParsedLength(b[1..]);
  }

  lemma MisreadLegacy(verify: Context -> bool, m: Meta, plaintext: Bytes)
    requires ShortIds(m) && |m.messageId| == 2
    ensures ParseWrapped(verify, WrapLegacy(m, plaintext)) != Some(Parsed(m, None, plaintext))
  {
    var b := WrapLegacy(m, plaintext);
    assert b[0] == WIRE_V2 && |b| == |BuildAad(m)| + |plaintext|;
    if ParseWrapped(verify, b).Some? { CurrentLength(verify, b); }
  }

  /** A parsed binding takes exactly the bytes its fields need. */
  lemma ParsedLength(b: Bytes)
    requires ParseAad(b).Some?
    ensures |b| == |BuildAad(ParseAad(b).value.0)| + |ParseAad(b).value.1|
  {}
}
