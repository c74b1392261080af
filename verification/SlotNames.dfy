/** The text under which a skipped message key is filed: the ratchet key in base64, a colon
    and the nonce in decimal. */
module SlotNames {
  import opened Terms

  /** Standard base64 (section 4 of RFC 4648). */
  function Letter(n: nat): (c: char)
    requires n < 64
    ensures c != ':' && c != '='
  {
    if n < 26 then (n + 65) as char else if n < 52 then (n + 71) as char
    else if n < 62 then (n - 4) as char else if n == 62 then '+' else '/'
  }

  function Quad(a: Byte, b: Byte, c: Byte): (r: string)
    ensures |r| == 4 && ':' !in r
  {
    [Letter(a / 4), Letter(a % 4 * 16 + b / 16), Letter(b % 16 * 4 + c / 64), Letter(c % 64)]
  }

  lemma SameParts(x: nat, y: nat, x': nat, y': nat, k: nat)
    requires (k == 4 || k == 16) && y < k && y' < k && x * k + y == x' * k + y'
    ensures x == x' && y == y'
  {}

  lemma QuadFirst(a: Byte, b: Byte, c: Byte, a': Byte, b': Byte, c': Byte)
    requires Quad(a, b, c)[0] == Quad(a', b', c')[0] && Quad(a, b, c)[1] == Quad(a', b', c')[1]
    ensures a == a' && b / 16 == b' / 16
  {
    SameParts(a % 4, b / 16, a' % 4, b' / 16, 16);
  }

  lemma QuadSecond(a: Byte, b: Byte, c: Byte, a': Byte, b': Byte, c': Byte)
    requires b / 16 == b' / 16 && Quad(a, b, c)[2] == Quad(a', b', c')[2]
    ensures b == b' && c / 64 == c' / 64
  {
    SameParts(b % 16, c / 64, b' % 16, c' / 64, 4);
  }

  function Base64(b: Bytes): (r: string)
    ensures ':' !in r
  {
    if b == [] then ""
    else if |b| == 1 then Quad(b[0], 0, 0)[..2] + "=="
    else if |b| == 2 then Quad(b[0], b[1], 0)[..3] + "="
    else Quad(b[0], b[1], b[2]) + Base64(b[3..])
  }

  function At(b: Bytes, i: nat): Byte { if i < |b| then b[i] else 0 }

  /** The first four letters of the text: padding stands in the last two places. */
  lemma Base64Front(b: Bytes)
    requires b != []
    ensures |Base64(b)| >= 4
    ensures var q := Quad(b[0], At(b, 1), At(b, 2));
      && Base64(b)[0] == q[0] && Base64(b)[1] == q[1]
      && Base64(b)[2] == (if |b| >= 2 then q[2] else '=') && Base64(b)[3] == (if |b| >= 3 then q[3] else '=')
    ensures |b| >= 3 ==> Base64(b)[4..] == Base64(b[3..])
    ensures |b| < 3 ==> |Base64(b)| == 4
  {}

  lemma {:induction false} Base64Injective(a: Bytes, b: Bytes)
    requires Base64(a) == Base64(b)
    ensures a == b
    decreases |a|
  {
    if a != [] { Base64Front(a); }
    if b != [] { Base64Front(b); }
    if a != [] && b != [] {
      QuadFirst(a[0], At(a, 1), At(a, 2), b[0], At(b, 1), At(b, 2));
      if |a| >= 2 { QuadSecond(a[0], At(a, 1), At(a, 2), b[0], At(b, 1), At(b, 2)); }
      if |a| >= 3 {
        Base64Injective(a[3..], b[3..]);
        assert a == a[..3] + a[3..] && b == b[..3] + b[3..];
      }
    }
  }

  function Decimal(n: nat): (r: string)
    ensures |r| > 0 && ':' !in r
  {
    if n < 10 then [(n + 48) as char] else Decimal(n / 10) + [(n % 10 + 48) as char]
  }

  lemma {:induction false} DecimalInjective(m: nat, n: nat)
    requires Decimal(m) == Decimal(n)
    ensures m == n
  {
    var s, t := Decimal(m), Decimal(n);
    assert s[|s| - 1] == (m % 10 + 48) as char && t[|t| - 1] == (n % 10 + 48) as char;
    if m >= 10 && n >= 10 {
      assert s[..|s| - 1] == Decimal(m / 10) && t[..|t| - 1] == Decimal(n / 10);
      DecimalInjective(m / 10, n / 10);
    }
  }

  /** getSkipKeyStr. */
  function SkipKeyText(key: Bytes, nonce: nat): string { Base64(key) + ":" + Decimal(nonce) }

  lemma ColonAfter(a: string, x: string, i: nat)
    requires ':' !in a && i < |a + ":" + x| && (a + ":" + x)[i] == ':'
    ensures i >= |a|
  {}

  lemma CutAtColon(a: string, x: string, b: string, y: string)
    requires ':' !in a && ':' !in b && a + ":" + x == b + ":" + y
    ensures a == b && x == y
  {
    var s, t := a + ":" + x, b + ":" + y;
    ColonAfter(b, y, |a|);
    ColonAfter(a, x, |b|);
    assert a == s[..|a|] && b == t[..|b|] && x == s[|a| + 1..] && y == t[|b| + 1..];
  }

  /** Slot names never collide, for ratchet keys of any length and any nonces. */
  lemma SlotNamesDistinct(key: Bytes, nonce: nat, key': Bytes, nonce': nat)
    requires SkipKeyText(key, nonce) == SkipKeyText(key', nonce')
    ensures key == key' && nonce == nonce'
  {
    CutAtColon(Base64(key), Decimal(nonce), Base64(key'), Decimal(nonce'));
    Base64Injective(key, key');
    DecimalInjective(nonce, nonce');
  }
}
