/** Proquints: two bytes as a pronounceable five-letter word, words joined by hyphens. Text is
    what a Go string is: bytes, read as runes where the source does so. */
module Proquints {
  import opened Terms

  /** "bdfghjklmnprstvz" and "aiou". */
  const CONSONANTS: Bytes := [98, 100, 102, 103, 104, 106, 107, 108, 109, 110, 112, 114, 115, 116, 118, 122]
  const VOWELS: Bytes := [97, 105, 111, 117]

  const HYPHEN: Byte := 45

  type Uint16 = v: nat | v < 0x1_0000

  /** The five digits of a 16-bit number, in base 16 and base 4 by turns. */
  datatype Digits = Digits(c1: nat, v1: nat, c2: nat, v2: nat, c3: nat)

  predicate InRange(d: Digits) { d.c1 < 16 && d.v1 < 4 && d.c2 < 16 && d.v2 < 4 && d.c3 < 16 }

  function Unpack(v: nat): (d: Digits)
    ensures InRange(d)
  {
    Digits(v / 4096 % 16, v / 1024 % 4, v / 64 % 16, v / 16 % 4, v % 16)
  }

  function Pack(d: Digits): nat { d.c1 * 4096 + d.v1 * 1024 + d.c2 * 64 + d.v2 * 16 + d.c3 }

  lemma PackUnpack(v: nat)
    requires v < 0x1_0000
    ensures Pack(Unpack(v)) == v
  {
    assert v == v / 16 * 16 + v % 16;
    assert v / 16 == v / 64 * 4 + v / 16 % 4;
    assert v / 64 == v / 1024 * 16 + v / 64 % 16;
    assert v / 1024 == v / 4096 * 4 + v / 1024 % 4;
  }

  lemma UnpackPack(d: Digits)
    requires InRange(d)
    ensures Pack(d) < 0x1_0000 && Unpack(Pack(d)) == d
  {
    var v := Pack(d);
    assert v / 16 == d.c1 * 256 + d.v1 * 64 + d.c2 * 4 + d.v2;
    assert v / 64 == d.c1 * 64 + d.v1 * 16 + d.c2;
    assert v / 1024 == d.c1 * 4 + d.v1;
    assert v / 4096 == d.c1;
  }

  function Spell(d: Digits): (w: Bytes)
    requires InRange(d)
    ensures |w| == 5
  {
    [CONSONANTS[d.c1], VOWELS[d.v1], CONSONANTS[d.c2], VOWELS[d.v2], CONSONANTS[d.c3]]
  }

  function Word(v: Uint16): (w: Bytes)
    ensures |w| == 5
  {
    Spell(Unpack(v))
  }

  /** The place of a letter in an alphabet, as the lookup maps hold it. */
  function Place(alphabet: Bytes, c: Byte): (r: Option<nat>)
    ensures r.Some? ==> r.value < |alphabet| && alphabet[r.value] == c
    ensures r.None? ==> c !in alphabet
  {
    if alphabet == [] then None
    else if alphabet[0] == c then Some(0)
    else
      var r := Place(alphabet[1..], c);
      assert alphabet == [alphabet[0]] + alphabet[1..];
      if r.None? then None else Some(r.value + 1)
  }

  function Unspell(w: Bytes): (r: Option<Digits>)
    requires |w| == 5
    ensures r.Some? ==> InRange(r.value)
  {
    var c1, v1, c2, v2, c3 :=
      Place(CONSONANTS, w[0]), Place(VOWELS, w[1]), Place(CONSONANTS, w[2]), Place(VOWELS, w[3]), Place(CONSONANTS, w[4]);
    if c1.None? || v1.None? || c2.None? || v2.None? || c3.None? then None
    else Some(Digits(c1.value, v1.value, c2.value, v2.value, c3.value))
  }

  function ReadWord(w: Bytes): Option<Uint16> {
    if |w| != 5 then None else
      var d := Unspell(w);
      if d.None? then None else
        UnpackPack(d.value);
        Some(Pack(d.value))
  }

  predicate Different(s: Bytes) { forall i, j :: 0 <= i < j < |s| ==> s[i] != s[j] }

  lemma PlaceOf(alphabet: Bytes, i: nat)
    requires Different(alphabet) && i < |alphabet|
    ensures Place(alphabet, alphabet[i]) == Some(i)
  {}

  lemma AlphabetsDiffer()
    ensures Different(CONSONANTS) && Different(VOWELS)
  {}

  lemma UnspellSpell(d: Digits)
    requires InRange(d)
    ensures Unspell(Spell(d)) == Some(d)
  {
    AlphabetsDiffer();
    PlaceOf(CONSONANTS, d.c1);
    PlaceOf(VOWELS, d.v1);
    PlaceOf(CONSONANTS, d.c2);
    PlaceOf(VOWELS, d.v2);
    PlaceOf(CONSONANTS, d.c3);
  }

  /** Reading a word gives the number back. */
  lemma WordRoundTrip(v: Uint16)
    ensures ReadWord(Word(v)) == Some(v)
  {
    UnspellSpell(Unpack(v));
    PackUnpack(v);
  }

  /** And only that word gives that number. */
  lemma ReadWordRoundTrip(w: Bytes)
    requires ReadWord(w).Some?
    ensures Word(ReadWord(w).value) == w
  {
    SpellUnspell(w);
    UnpackPack(Unspell(w).value);
  }

  lemma SpellUnspell(w: Bytes)
    requires |w| == 5 && Unspell(w).Some?
    ensures Spell(Unspell(w).value) == w
  {}

  // ---- words and hyphens ----

  function JoinWords(ws: seq<Bytes>): Bytes {
    if ws == [] then [] else if |ws| == 1 then ws[0] else ws[0] + [HYPHEN] + JoinWords(ws[1..])
  }

  /** strings.Split on the hyphen: the empty string is one empty word. */
  function SplitWords(s: Bytes): (ws: seq<Bytes>)
    ensures ws != []
  {
    if s == [] then [[]]
    else if s[0] == HYPHEN then [[]] + SplitWords(s[1..])
    else
      var r := SplitWords(s[1..]);
      [[s[0]] + r[0]] + r[1..]
  }

  lemma {:induction false} SplitFirst(w: Bytes, rest: Bytes)
    requires HYPHEN !in w
    ensures SplitWords(w) == [w]
    ensures SplitWords(w + [HYPHEN] + rest) == [w] + SplitWords(rest)
  {
    var s := w + [HYPHEN] + rest;
    if w == [] {
      assert s[1..] == rest;
    } else {
      SplitFirst(w[1..], rest);
      assert s[1..] == w[1..] + [HYPHEN] + rest && w == [w[0]] + w[1..];
    }
  }

  lemma {:induction false} SplitJoin(ws: seq<Bytes>)
    requires ws != [] && forall i :: 0 <= i < |ws| ==> HYPHEN !in ws[i]
    ensures SplitWords(JoinWords(ws)) == ws
  {
    if |ws| == 1 {
      SplitFirst(ws[0], []);
    } else {
      SplitJoin(ws[1..]);
      SplitFirst(ws[0], JoinWords(ws[1..]));
      assert ws == [ws[0]] + ws[1..];
    }
  }

  lemma {:induction false} JoinSplit(s: Bytes)
    ensures JoinWords(SplitWords(s)) == s
  {
    if s != [] {
      JoinSplit(s[1..]);
      var r := SplitWords(s[1..]);
      if s[0] == HYPHEN {
      } else {
      }
      assert s == [s[0]] + s[1..];
    }
  }

  // ---- the codec ----

  /** Byte pairs as numbers; a missing last byte counts as zero. */
  function Values(data: Bytes): seq<Uint16>
    decreases |data|
  {
    if data == [] then []
    else if |data| == 1 then [Pair(data[0], 0)]
    else [Pair(data[0], data[1])] + Values(data[2..])
  }

  function Pair(hi: Byte, lo: Byte): Uint16 {
    var h: nat, l: nat := hi, lo;
    h * 256 + l
  }

  function Unpair(vs: seq<Uint16>): Bytes {
    if vs == [] then [] else [vs[0] / 256, vs[0] % 256] + Unpair(vs[1..])
  }

  function Padded(data: Bytes): Bytes { if |data| % 2 == 0 then data else data + [0] }

  lemma {:induction false} UnpairValues(data: Bytes)
    ensures Unpair(Values(data)) == Padded(data)
    decreases |data|
  {
    if |data| >= 2 {
      UnpairValues(data[2..]);
      assert Values(data)[1..] == Values(data[2..]);
      assert data == [data[0], data[1]] + data[2..];
    } else if |data| == 1 {
      assert Values(data)[1..] == [];
      assert data == [data[0]];
    }
  }

  lemma {:induction false} ValuesUnpair(vs: seq<Uint16>)
    ensures Values(Unpair(vs)) == vs
  {
    if vs != [] {
      ValuesUnpair(vs[1..]);
      var d := Unpair(vs);
      assert d[2..] == Unpair(vs[1..]);
      assert vs == [vs[0]] + vs[1..];
    }
  }

  function Words(vs: seq<Uint16>): seq<Bytes> {
    if vs == [] then [] else [Word(vs[0])] + Words(vs[1..])
  }

  function ReadAll(ws: seq<Bytes>): Option<seq<Uint16>> {
    if ws == [] then Some([]) else
      var v := ReadWord(ws[0]);
      if v.None? then None else Prepend([v.value], ReadAll(ws[1..]))
  }

  function Encode(data: Bytes): Bytes { JoinWords(Words(Values(data))) }

  function Decode(s: Bytes): Option<Bytes> {
    var vs := ReadAll(SplitWords(s));
    if vs.None? then None else Some(Unpair(vs.value))
  }

  lemma {:induction false} ReadWords(vs: seq<Uint16>)
    ensures ReadAll(Words(vs)) == Some(vs)
  {
    if vs != [] {
      WordRoundTrip(vs[0]);
      ReadWords(vs[1..]);
      assert vs == [vs[0]] + vs[1..];
    }
  }

  lemma {:induction false} WordsReread(ws: seq<Bytes>)
    requires ReadAll(ws).Some?
    ensures Words(ReadAll(ws).value) == ws
  {
    if ws != [] {
      ReadWordRoundTrip(ws[0]);
      WordsReread(ws[1..]);
      assert ReadAll(ws).value[1..] == ReadAll(ws[1..]).value && ws == [ws[0]] + ws[1..];
    }
  }

  lemma {:induction false} WordsHaveNoHyphen(vs: seq<Uint16>, i: nat)
    requires i < |Words(vs)|
    ensures HYPHEN !in Words(vs)[i]
  {
    if i > 0 { WordsHaveNoHyphen(vs[1..], i - 1); }
  }

  /** Decoding inverts encoding on every non-empty string of even length, adds a zero byte to
      an odd one, and refuses the encoding of the empty one. */
  lemma DecodeEncode(data: Bytes)
    ensures Decode(Encode(data)) == if data == [] then None else Some(Padded(data))
  {
    var ws := Words(Values(data));
    if data != [] {
      forall i | 0 <= i < |ws| ensures HYPHEN !in ws[i] { WordsHaveNoHyphen(Values(data), i); }
      SplitJoin(ws);
      ReadWords(Values(data));
      UnpairValues(data);
    }
  }

  /** Encoding anything that decodes gives the same text back. */
  lemma EncodeDecode(s: Bytes)
    requires Decode(s).Some?
    ensures Encode(Decode(s).value) == s
  {
    var vs := ReadAll(SplitWords(s)).value;
    WordsReread(SplitWords(s));
    ValuesUnpair(vs);
    JoinSplit(s);
  }

  /** The loop of ToProquint over byte pairs. */
  method ToProquint(data: Bytes) returns (text: Bytes)
    ensures text == Encode(data)
  {
    var vs: seq<Uint16> := [];
    var i: nat := 0;
    assert data[0..] == data;
    while i < |data|
      invariant vs + Rest(data, i) == Values(data)
      decreases |data| - i
    {
      var v := Pair(data[i], if i + 1 < |data| then data[i + 1] else 0);
      NextValue(vs, data, i);
      vs := vs + [v];
      i := i + 2;
    }
    assert vs + [] == vs;
    text := JoinWords(Words(vs));
  }

  function Rest(data: Bytes, i: nat): seq<Uint16> { if i < |data| then Values(data[i..]) else [] }

  lemma NextValue(vs: seq<Uint16>, data: Bytes, i: nat)
    requires i < |data|
    ensures vs + Rest(data, i) == (vs + [Pair(data[i], if i + 1 < |data| then data[i + 1] else 0)]) + Rest(data, i + 2)
  {
    var d := data[i..];
    var v := Pair(data[i], if i + 1 < |data| then data[i + 1] else 0);
    if i + 2 <= |data| { assert d[2..] == data[i + 2..]; }
    assert Rest(data, i) == [v] + Rest(data, i + 2);
    assert vs + ([v] + Rest(data, i + 2)) == (vs + [v]) + Rest(data, i + 2);
  }

  // ---- runes ----

  predicate Follows(b: Bytes, i: nat, lo: nat, hi: nat) { i < |b| && lo <= b[i] <= hi }

  /** How many bytes the rune at the front takes when a string becomes runes (RFC 3629,
      section 4); a byte that begins no valid sequence is a rune of its own. */
  function RuneWidth(b: Bytes): (n: nat)
    requires b != []
    ensures 1 <= n <= |b|
  {
    if 0xC2 <= b[0] <= 0xDF && Follows(b, 1, 0x80, 0xBF) then 2
    else if 0xE0 <= b[0] <= 0xEF && Follows(b, 2, 0x80, 0xBF) &&
            Follows(b, 1, if b[0] == 0xE0 then 0xA0 else 0x80, if b[0] == 0xED then 0x9F else 0xBF) then 3
    else if 0xF0 <= b[0] <= 0xF4 && Follows(b, 2, 0x80, 0xBF) && Follows(b, 3, 0x80, 0xBF) &&
            Follows(b, 1, if b[0] == 0xF0 then 0x90 else 0x80, if b[0] == 0xF4 then 0x8F else 0xBF) then 4
    else 1
  }

  function RuneCount(b: Bytes): nat
    decreases |b|
  {
    if b == [] then 0 else 1 + RuneCount(b[RuneWidth(b)..])
  }

  /** A word of five bytes and fewer runes: the source indexes past the end of its runes. */
  predicate TooFewRunes(w: Bytes) { |w| == 5 && RuneCount(w) < 5 }

  predicate Ascii(b: Bytes) { forall i :: 0 <= i < |b| ==> b[i] < 128 }

  lemma {:induction false} AsciiRunes(b: Bytes)
    requires Ascii(b)
    ensures RuneCount(b) == |b|
  {
    if b != [] { AsciiRunes(b[1..]); }
  }

  lemma GoodWordHasItsRunes(w: Bytes)
    requires ReadWord(w).Some?
    ensures !TooFewRunes(w)
  {
    SpellUnspell(w);
    LettersAreAscii(Unspell(w).value);
    AsciiRunes(w);
  }

  lemma LettersAreAscii(d: Digits)
    requires InRange(d)
    ensures Ascii(Spell(d))
  {
    assert Ascii(CONSONANTS) && Ascii(VOWELS);
  }

  // ---- the whole of FromProquint ----

  datatype Outcome = Decoded(data: Bytes) | Refused | Panics

  function FirstBad(ws: seq<Bytes>): Option<Bytes> {
    if ws == [] then None else if ReadWord(ws[0]).None? then Some(ws[0]) else FirstBad(ws[1..])
  }

  lemma {:induction false} BadOrRead(ws: seq<Bytes>)
    ensures ReadAll(ws).None? <==> FirstBad(ws).Some?
  {
    if ws != [] { BadOrRead(ws[1..]); }
  }

  /** The first word that is not a proquint decides between an error and a panic. */
  function Ends(s: Bytes): Outcome {
    var d, bad := Decode(s), FirstBad(SplitWords(s));
    if d.Some? then Decoded(d.value) else if bad.Some? && TooFewRunes(bad.value) then Panics else Refused
  }

  ghost predicate BadAt(ws: seq<Bytes>, i: nat) {
    i < |ws| && TooFewRunes(ws[i]) && forall j :: 0 <= j < i ==> ReadWord(ws[j]).Some?
  }

  ghost predicate SomeBad(ws: seq<Bytes>) { exists i: nat :: BadAt(ws, i) }

  lemma {:induction false} FirstBadAt(ws: seq<Bytes>)
    ensures FirstBad(ws).Some? && TooFewRunes(FirstBad(ws).value) <==> SomeBad(ws)
  {
    if ws != [] {
      if ReadWord(ws[0]).None? {
        if TooFewRunes(ws[0]) { assert BadAt(ws, 0); }
        forall i: nat | BadAt(ws, i) ensures i == 0 && TooFewRunes(ws[0]) {}
      } else {
        FirstBadAt(ws[1..]);
        GoodWordHasItsRunes(ws[0]);
        forall i: nat | BadAt(ws[1..], i) ensures BadAt(ws, i + 1) { BadShift(ws, i); }
        forall i: nat | BadAt(ws, i) ensures i > 0 && BadAt(ws[1..], i - 1) { if i > 0 { BadShift(ws, i - 1); } }
      }
    }
  }

  lemma BadShift(ws: seq<Bytes>, i: nat)
    requires ws != [] && ReadWord(ws[0]).Some?
    ensures BadAt(ws[1..], i) <==> BadAt(ws, i + 1)
  {
    if BadAt(ws[1..], i) { forall j | 0 <= j < i + 1 ensures ReadWord(ws[j]).Some? { if j > 0 { assert ws[1..][j - 1] == ws[j]; } } }
    if BadAt(ws, i + 1) { forall j | 0 <= j < i ensures ReadWord(ws[1..][j]).Some? { assert ws[1..][j] == ws[j + 1]; } }
  }

  /** Decoding panics if and only if, after words that are all proquints, there is one of five
      bytes and fewer than five runes. */
  lemma PanicsIff(s: Bytes)
    ensures Ends(s) == Panics <==> SomeBad(SplitWords(s))
  {
    var ws := SplitWords(s);
    BadOrRead(ws);
    FirstBadAt(ws);
    assert Decode(s).None? <==> FirstBad(ws).Some?;
    assert Ends(s) == Panics <==> FirstBad(ws).Some? && TooFewRunes(FirstBad(ws).value);
  }

  lemma {:induction false} AsciiWords(s: Bytes, i: nat)
    requires Ascii(s) && i < |SplitWords(s)|
    ensures Ascii(SplitWords(s)[i])
  {
    if s != [] {
      var r := SplitWords(s[1..]);
      if s[0] == HYPHEN {
        if i > 0 { AsciiWords(s[1..], i - 1); }
      } else {
        AsciiWords(s[1..], i);
      }
    }
  }

  /** Text of one-byte letters never makes it panic. */
  lemma AsciiNeverPanics(s: Bytes)
    requires Ascii(s)
    ensures Ends(s) != Panics
  {
    PanicsIff(s);
    var ws := SplitWords(s);
    forall i: nat | i < |ws| ensures !TooFewRunes(ws[i]) {
      AsciiWords(s, i);
      AsciiRunes(ws[i]);
    }
  }

  /** An accented letter and three plain ones are five bytes and four runes. */
  lemma AccentPanics()
    ensures Ends([195, 169, 97, 98, 99]) == Panics
  {
    var s: Bytes := [195, 169, 97, 98, 99];
    assert RuneWidth(s) == 2 && s[2..] == [97, 98, 99];
    AsciiRunes(s[2..]);
    SplitFirst(s, []);
    assert RuneCount(s) == 4;
    if ReadWord(s).Some? { GoodWordHasItsRunes(s); }
    assert BadAt(SplitWords(s), 0);
    PanicsIff(s);
  }

  /** The loop of FromProquint over the words. */
  method FromProquint(input: Bytes) returns (r: Outcome)
    ensures r == Ends(input)
  {
    var words := SplitWords(input);
    var vs: seq<Uint16> := [];
    assert words[0..] == words;
    NothingDone(ReadAll(words));
    for i := 0 to |words|
      invariant Prepend(vs, ReadAll(words[i..])) == ReadAll(words)
      invariant FirstBad(words[i..]) == FirstBad(words)
    {
      var word := words[i];
      assert words[i..][0] == word && words[i..][1..] == words[i + 1..];
      BadOrRead(words);
      if |word| != 5 { return Refused; }
      if RuneCount(word) < 5 {
        if ReadWord(word).Some? { GoodWordHasItsRunes(word); }
        return Panics;
      }
      var v := ReadWord(word);
      if v.None? { return Refused; }
      NextWord(vs, words[i..]);
      vs := vs + [v.value];
    }
    assert words[|words|..] == [] && vs + [] == vs;
    r := Decoded(Unpair(vs));
  }

  lemma NextWord(vs: seq<Uint16>, ws: seq<Bytes>)
    requires ws != [] && ReadWord(ws[0]).Some?
    ensures Prepend(vs, ReadAll(ws)) == Prepend(vs + [ReadWord(ws[0]).value], ReadAll(ws[1..]))
  {
    PrependOne(vs, ReadWord(ws[0]).value, ReadAll(ws[1..]));
  }

}
