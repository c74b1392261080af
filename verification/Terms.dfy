/** Ideal key material. Every derived value is a free term, so two keys are equal
    exactly when they were derived in the same way from the same inputs. */
module Terms {

  type Byte = b: int | 0 <= b < 256

  type Bytes = seq<Byte>

  datatype Option<+T> = None | Some(value: T)

  /** What a loop that has `done` so far returns in the end, if `rest` is what remains. */
  function Prepend<T>(done: seq<T>, rest: Option<seq<T>>): Option<seq<T>> {
    if rest.None? then None else Some(done + rest.value)
  }

  lemma NothingDone<T>(r: Option<seq<T>>)
    ensures Prepend([], r) == r
  {
    if r.Some? { assert [] + r.value == r.value; }
  }

  lemma PrependOne<T>(done: seq<T>, x: T, r: Option<seq<T>>)
    ensures Prepend(done, Prepend([x], r)) == Prepend(done + [x], r)
  {
    if r.Some? { assert done + ([x] + r.value) == (done + [x]) + r.value; }
  }

  /** The `info` strings given to HKDF. */
  datatype Info = InitialRoot | RatchetRoot | RatchetStep

  /** `Expand(ikm, salt, info, i)` is the i-th 32-byte block T(i) of HKDF-Expand
      (section 2.3 of RFC 5869): longer outputs begin with the shorter ones. */
  datatype Term =
    | Nil
    | Expand(ikm: Term, salt: Term, info: Info, block: nat)
    | Shared(lo: nat, hi: nat)
    | Hybrid(ecc: Term, kem: Term)
    | KemSecret(owner: nat, coins: nat)
    | KemReject(owner: nat)
    | Transcript(digests: seq<Bytes>)

  /** An X25519 public key: the point of a scalar, or bytes that are not a usable point. */
  datatype Point = Point(scalar: nat) | Unusable(bytes: Bytes)

  /** X25519 is commutative (section 6.1 of RFC 7748): the result is the unordered pair. */
  function X25519(priv: nat, pub: Point): (r: Option<Term>)
    ensures r.Some? <==> pub.Point?
  {
    match pub
    case Point(s) => Some(if priv <= s then Shared(priv, s) else Shared(s, priv))
    case Unusable(_) => None
  }

  /** The ratchet ignores an X25519 error and goes on with a nil secret. */
  function DhSecret(priv: nat, pub: Point): Term {
    var r := X25519(priv, pub);
    if r.Some? then r.value else Nil
  }

  lemma DhCommutes(x: nat, y: nat)
    ensures DhSecret(x, Point(y)) == DhSecret(y, Point(x))
  {}

  /** One 32-byte block of the "ratchet-root" expansion. */
  function RootBlock(dh: Term, root: Term, i: nat): Term {
    Expand(dh, root, RatchetRoot, i)
  }

  function NextChain(ck: Term): Term { Expand(ck, Nil, RatchetStep, 1) }

  function MessageKey(ck: Term): Term { Expand(ck, Nil, RatchetStep, 2) }

  /** How many "ratchet-root" derivations lie below a root or first chain key. */
  function Depth(t: Term): nat {
    match t
    case Expand(_, salt, RatchetRoot, _) => 1 + Depth(salt)
    case Expand(ck, _, RatchetStep, _) => Depth(ck)
    case _ => 0
  }

  /** How many "ratchet-step" derivations lie above the first key of the chain. */
  function Index(t: Term): nat {
    match t
    case Expand(ck, _, RatchetStep, _) => 1 + Index(ck)
    case _ => 0
  }

  /** The first key of the chain that `t` belongs to. */
  function Origin(t: Term): Term {
    match t
    case Expand(ck, _, RatchetStep, _) => Origin(ck)
    case _ => t
  }

  function ChainAt(start: Term, n: nat): Term
    decreases n
  {
    if n == 0 then start else NextChain(ChainAt(start, n - 1))
  }
}
