/** The ratchet session as a value: what each operation of `SecurePeer` does to the
    session fields, and the frames it emits and accepts. */
module Ratchet {
  import opened Terms

  const MAX_SKIP: nat := 1000
  const MAX_WIRE_NONCE: nat := 0x8000_0000

  /** Ideal AEAD: only the sealing key, nonce and associated data open it. */
  datatype Cipher =
    | Seal(key: Term, nonce: nat, aadKey: Point, aadNonce: nat, plaintext: Bytes)
    | NotSealed(bytes: Bytes)

  /** Ideal HMAC over the canonical form of the four authenticated fields. */
  datatype Tag =
    | Mac(key: Term, sender: Bytes, ratchetKey: Point, nonce: nat, cipher: Cipher)
    | NotMac(bytes: Bytes)

  datatype Frame = Frame(sender: Bytes, ratchetKey: Point, nonce: nat, cipher: Cipher, tag: Tag)

  /** A name in the skipped-key cache. */
  datatype Slot = Slot(ratchetKey: Point, nonce: nat)

  datatype Session = Session(
    dhPrivate: nat,
    dhPublic: Point,
    remoteDhPublic: Option<Point>,
    rootKey: Term,
    sendCk: Term,
    recvCk: Term,
    hmacKey: Term,
    fileKey: Term,
    sendNonce: nat,
    recvNonce: nat,
    skipped: map<Slot, Term>,
    amInitiator: bool,
    pendingDhRatchet: bool)

  datatype Error = NonceOutOfRange | InvalidTag | Replay | BadCipher

  datatype Result = Ok(sender: Bytes, plaintext: Bytes) | Err(error: Error)

  /** The bytes under which `SkippedMessages` files the current remote key; a nil key encodes as "". */
  function RemoteBytes(s: Session): Point {
    if s.remoteDhPublic.Some? then s.remoteDhPublic.value else Unusable([])
  }

  function Tagged(hmacKey: Term, sender: Bytes, key: Point, nonce: nat, cipher: Cipher): Frame {
    Frame(sender, key, nonce, cipher, Mac(hmacKey, sender, key, nonce, cipher))
  }

  predicate Authentic(hmacKey: Term, f: Frame) {
    f.tag == Mac(hmacKey, f.sender, f.ratchetKey, f.nonce, f.cipher)
  }

  /** DecryptWithKey: open the ciphertext under `mk`, the frame's nonce and its ratchet key. */
  function Open(mk: Term, f: Frame): Result {
    match f.cipher
    case Seal(key, nonce, aadKey, aadNonce, plaintext) =>
      if key == mk && nonce == f.nonce && aadKey == f.ratchetKey && aadNonce == f.nonce
      then Ok(f.sender, plaintext) else Err(BadCipher)
    case NotSealed(_) => Err(BadCipher)
  }

  /** The root ratchet at the head of Encrypt, with the freshly drawn scalar. */
  function SendRatchet(s: Session, drawn: nat): Session {
    if !s.pendingDhRatchet then s else
      var dh := DhSecret(drawn, RemoteBytes(s));
      s.(dhPrivate := drawn, dhPublic := Point(drawn),
         rootKey := RootBlock(dh, s.rootKey, 1), sendCk := RootBlock(dh, s.rootKey, 2),
         sendNonce := 0, pendingDhRatchet := false)
  }

  function SealNext(s: Session, sender: Bytes, plaintext: Bytes): Frame {
    Tagged(s.hmacKey, sender, s.dhPublic, s.sendNonce,
           Seal(MessageKey(s.sendCk), s.sendNonce, s.dhPublic, s.sendNonce, plaintext))
  }

  function AdvanceSend(s: Session): Session {
    s.(sendCk := NextChain(s.sendCk), sendNonce := s.sendNonce + 1)
  }

  function Encrypt(s: Session, sender: Bytes, plaintext: Bytes, drawn: nat): (Session, Frame) {
    var r := SendRatchet(s, drawn);
    (AdvanceSend(r), SealNext(r, sender, plaintext))
  }

  function DhRatchet(s: Session, remoteKey: Point): Session {
    var dh := DhSecret(s.dhPrivate, remoteKey);
    s.(remoteDhPublic := Some(remoteKey),
       rootKey := RootBlock(dh, s.rootKey, 1), recvCk := RootBlock(dh, s.rootKey, 2),
       recvNonce := 0, pendingDhRatchet := true)
  }

  /** One turn of the loop that files the keys of skipped frames. */
  function StashOne(s: Session): Session {
    s.(recvCk := NextChain(s.recvCk),
       skipped := s.skipped[Slot(RemoteBytes(s), s.recvNonce) := MessageKey(s.recvCk)],
       recvNonce := s.recvNonce + 1)
  }

  function StashUntil(s: Session, n: int): Session
    decreases n - s.recvNonce
  {
    if s.recvNonce < n then StashUntil(StashOne(s), n) else s
  }

  /** SkipMessageKeys refuses a gap above MAX_SKIP and then changes nothing. */
  function SkipMessageKeys(s: Session, until: int): Option<Session> {
    if s.recvNonce + MAX_SKIP < until then None else Some(StashUntil(s, until))
  }

  function AdvanceRecv(s: Session): Session {
    s.(recvCk := NextChain(s.recvCk), recvNonce := s.recvNonce + 1)
  }

  /** The session once the frame's ratchet key is the remote key. */
  function Turned(s: Session, key: Point): Session {
    if s.remoteDhPublic == Some(key) then s else DhRatchet(s, key)
  }

  /** The key handed to the AEAD for this frame, if Decrypt gets that far. */
  function TriedKey(s: Session, f: Frame): Option<Term> {
    if f.nonce >= MAX_WIRE_NONCE || !Authentic(s.hmacKey, f) then None
    else if Slot(f.ratchetKey, f.nonce) in s.skipped then Some(s.skipped[Slot(f.ratchetKey, f.nonce)])
    else
      var t := Turned(s, f.ratchetKey);
      if f.nonce < t.recvNonce then None else Some(MessageKey(StashUntil(t, f.nonce).recvCk))
  }

  function Decrypt(s: Session, f: Frame): (Session, Result) {
    if f.nonce >= MAX_WIRE_NONCE then (s, Err(NonceOutOfRange))
    else if !Authentic(s.hmacKey, f) then (s, Err(InvalidTag))
    else
      var slot := Slot(f.ratchetKey, f.nonce);
      if slot in s.skipped then (s.(skipped := s.skipped - {slot}), Open(s.skipped[slot], f))
      else
        var t := Turned(s, f.ratchetKey);
        if f.nonce < t.recvNonce then (t, Err(Replay))
        else
          var u := StashUntil(t, f.nonce);
          (AdvanceRecv(u), Open(MessageKey(u.recvCk), f))
  }

  /** A restart reloads every exported field; `pendingDhRatchet` is not one of them. */
  function Restart(s: Session): Session { s.(pendingDhRatchet := false) }

  // ---- the skip loop ----

  /** Where StashUntil stops and what it leaves alone. */
  lemma {:induction false} StashUntilEffect(s: Session, n: int)
    ensures var u := StashUntil(s, n);
      var stop := if n > s.recvNonce then n else s.recvNonce;
      u == s.(recvCk := ChainAt(s.recvCk, stop - s.recvNonce), recvNonce := stop, skipped := u.skipped)
    decreases n - s.recvNonce
  {
    if s.recvNonce < n {
      StashUntilEffect(StashOne(s), n);
      ChainAtShift(s.recvCk, n - s.recvNonce - 1);
    }
  }

  /** What StashUntil files: the key of every index it passes, and nothing else. */
  lemma {:induction false} StashUntilSlot(s: Session, n: int, x: Slot)
    ensures var u := StashUntil(s, n);
      if x.ratchetKey == RemoteBytes(s) && s.recvNonce <= x.nonce < n
      then x in u.skipped && u.skipped[x] == MessageKey(ChainAt(s.recvCk, x.nonce - s.recvNonce))
      else x in u.skipped <==> x in s.skipped
    ensures var u := StashUntil(s, n);
      x in s.skipped && !(x.ratchetKey == RemoteBytes(s) && s.recvNonce <= x.nonce < n) ==> u.skipped[x] == s.skipped[x]
    decreases n - s.recvNonce
  {
    if s.recvNonce < n {
      StashUntilSlot(StashOne(s), n, x);
      if x.nonce > s.recvNonce { ChainAtShift(s.recvCk, x.nonce - s.recvNonce - 1); }
    }
  }

  lemma {:induction false} ChainAtShift(c: Term, n: nat)
    ensures ChainAt(NextChain(c), n) == ChainAt(c, n + 1)
    decreases n
  {
    if n > 0 { ChainAtShift(c, n - 1); }
  }

  /** The loop written out in Decrypt does what SkipMessageKeys does, for every gap
      SkipMessageKeys allows; SkipMessageKeys refuses exactly the larger gaps. */
  lemma {:induction false} DecryptSkipsLikeSkipMessageKeys(s: Session, f: Frame)
    requires s.remoteDhPublic == Some(f.ratchetKey)
    requires Authentic(s.hmacKey, f) && f.nonce < MAX_WIRE_NONCE
    requires Slot(f.ratchetKey, f.nonce) !in s.skipped
    ensures SkipMessageKeys(s, f.nonce).Some? <==> f.nonce - s.recvNonce <= MAX_SKIP
    ensures f.nonce - s.recvNonce <= MAX_SKIP ==>
      Decrypt(SkipMessageKeys(s, f.nonce).value, f) == Decrypt(s, f)
  {
    StashUntilEffect(s, f.nonce);
    StashUntilSlot(s, f.nonce, Slot(f.ratchetKey, f.nonce));
  }
}
