# NexTalk, modelled and proved in Dafny

This project models the parts of NexTalk where correctness is hardest to see from the code: the
two-party ratchet session and its handshake, the session map of a client, the group fan-out on
top of it, the concurrent transport layers, and the wire and store formats. `dafny verify
dfyconfig.toml` checks all of it.

## How the pieces fit

- **Key material** (`Terms.dfy`). Every derived key is a free term, so two keys are equal exactly
  when they were derived in the same way from the same inputs. HKDF-Expand output is addressed by
  block (section 2.3 of RFC 5869): the 160-byte and the 64-byte "ratchet-root" expansions share
  their numbering. X25519 is an unordered pair of scalars (section 6.1 of RFC 7748). AEAD opens only
  under the sealing key, nonce and associated data. Hashes are arbitrary functions.
- **The session** (`Ratchet.dfy`, `SecurePeer.dfy`). The operations of `SecurePeer` as functions on
  a session value, and the class whose methods change the fields in place. Each method is proved to
  do what its function says, so every result below is about the class.
- **One-use keys** (`OneUse.dfy`, `Crashes.dfy`). Runs of one session over any frames at all. A
  restart in `OneUse.dfy` is a save followed by a load; `Crashes.dfy` restarts from whatever was saved
  last.
- **What keys are for** (`Authenticity.dfy`, `KeySeparation.dfy`, `Secrecy.dfy`). Only frames tagged
  under the handshake's HMAC key are accepted; message keys go into no other key; and against an
  attacker who can only derive, runs of a session are forward secret, need both primitives broken,
  and heal at the first turn of the ratchet it does not know.
- **The pair** (`Duplex.dfy`, `Conversation.dfy`, `AnyOrder.dfy`, `Deafness.dfy`,
  `Counterexamples.dfy`). Two sessions, everything each
  has sent, and a schedule of ratchet keys that neither side stores: `InStep` says both sides agree
  with it. Frames may be lost, repeated, reordered, and either process may restart at any time; a
  refused delivery changes nothing there, so what was saved last is what is loaded.
- **The handshake** (`Handshake.dfy`, `ByteOrder.dfy`). Offer, accept, finish, with every refusal:
  exactly which offers and answers are let in, and what the keys cut determine; an honest run puts
  two peers in step, so all results on conversations follow from it.
- **The client** (`Client.dfy`, `SessionMap.dfy`, `Admission.dfy`). The session map holds shared objects under
  three kinds of key and changes them in place. A book of slots and objects abstracts it, each
  method is proved to be one event on that book, and every interleaving of events is proved to
  refine a machine for each peer alone, without map or sharing. Every session is traced back to an
  offer or answer its peer signed for this client.
- **Fan-out and group metadata** (`Fanout.dfy`, `FanoutRuns.dfy`, `RepeatedCopies.dfy`,
  `Contexts.dfy`, `Delivery.dfy`).
  The end-to-end result runs from the frame `SendMultiMessage` returns, over any run of the pair of
  sessions it travels on, to what the recipient's `Fanout` makes of everything it is given.
- **Transport** (`RpcMux.dfy`, `HostLifecycle.dfy`, `HostEffects.dfy`, `PollFrames.dfy`). State machines whose events
  are single critical sections or channel operations, taken in any order.
- **Formats** (`Nanopack.dfy`, `FrameWire.dfy`, `BigEndian.dfy`, `SlotNames.dfy`,
  `FileTransfer.dfy`, `MailRecords.dfy`, `Mailbox.dfy`, `Proquint.dfy`) and the edit distance of
  the command suggester (`EditDistance.dfy`).

## What the code does not promise

Where an expected property fails, the code is modelled as it is and the exact condition is proved.

- A frame of an epoch already left behind, with no cached key, turns the ratchet on a key that is
  no longer current. The pair stays in step if and only if no such frame is delivered
  (`Duplex.InStepIffTimely`). Afterwards the two root keys never agree again, and its receiver never
  again opens a frame of the other side that it had not cached before, sent already or later
  (`Deafness.RootsPartForever`, `Deafness.DeafToSent`, `Deafness.DeafToLater`). Every honest pair has
  such a run (`Counterexamples.HonestPeersCanPart`).
- `maxSkip` bounds `SkipMessageKeys` only; the loop in `Decrypt` is bounded by `maxWireNonce` alone,
  so frames with a nonce of 2^31 or more are emitted and never accepted (`FrameWire.FrameParsesBack`).
- Two peers whose identity keys hash alike would both be initiator, with the same send chain
  (`Handshakes.OneInitiator`, `Handshakes.HonestSessionsMirror`).
- `FinishHandshake` files an object with an empty offer history, so an offer accepted before it is
  accepted again afterwards (`Clients.OfferAcceptedAgainIff`, `Clients.OfferAcceptedAgain`). An answer
  with no outstanding offer to its sender is tried on the last offer made to anyone, whose object may
  then sit in two slots (`Clients.StrayKeepsSeparateIff`); a repeated answer is enough, and the answer
  from the other peer then replaces the first peer's session (`Clients.RepeatedAnswerStrays`). The
  session a stray answer leaves shares no key with its sender's (`Clients.StaleAnswerDisagrees`).
- A remote ratchet key that is no curve point gives a nil secret, which the source goes on with: a
  turn on such a key heals nothing (`Secrecy.HealsIff`).
- `ensure` checks that its record is still filed and enabled, not that it still holds the package
  that was started: a package replaced meanwhile can be live under the new pin
  (`HostLifecycle.ReplacedWhileStarting`, `HostLifecycle.RunsStoredIffUnchanged`).
- A request id still listed after 2^32 calls is taken over, and its caller is never given an answer
  in any continuation (`RpcMux.ReusedIdStrandsCaller`, `RpcMux.IdReusedWhileListed`).
- A recipient listed twice is sent two copies and has two results (`Fanouts.ResultsPerRecipient`).
  The second copy to arrive is refused as long as the recipient's process lives
  (`FanoutRuns.SecondCopyIsRefused`); what a `Fanout` has seen is not saved, and after a restart the
  second copy brings the message again (`RepeatedCopies.BroughtAgainAfterRestart`). The same frame is
  refused by the ratchet either way.
- A frame that fails to open is not followed by a save. If the process stops before the next one,
  the same key is tried again (`Crashes.FailedTryRepeats`); keys of frames sent or opened are still
  used once (`Crashes.SavedKeysUsedOnce`).
- Identifiers above 255 bytes do not survive the delivery payload, and a legacy payload with a
  two-byte message id is taken for the current layout (`Delivery.WrappedParsesBack`,
  `Delivery.LegacyParsesBack`).
- Two valid descriptors of one context with the same highest version leave stores apart for good
  (`Contexts.ConvergesIff`).
- A proquint word of five bytes and fewer than five runes makes decoding panic (`Proquints.PanicsIff`).
- A message filed under the empty thread key is lost on reload (`Mailboxes.ReloadRestoresIff`), and
  thread titles come back as the first display name seen although the comment at
  internal/mailbox/store.go:294-296 speaks of identical state (`Mailboxes.ReloadExact`).

## Model

| member | source | states |
|---|---|---|
| `Ratchet.StashUntilEffect` | crypto/kex_hybrid.go:378-396 | the skip loop stops at the later of the target and the counter, moves the chain by exactly that many steps and leaves every other field alone |
| `Ratchet.StashUntilSlot` | crypto/kex_hybrid.go:387-394 | the cache afterwards holds, for every index passed, the message key of that index under the current ratchet key, and every other slot is as before |
| `Ratchet.DecryptSkipsLikeSkipMessageKeys` | crypto/kex_hybrid.go:615-637 | the loop written out in Decrypt gives the same session and result as SkipMessageKeys first, for every gap up to maxSkip; SkipMessageKeys refuses exactly the larger gaps |
| `OneUse.StepKeepsInv` | crypto/kex_hybrid.go:399-413 | every send, arrival of any frame, skip or restart keeps the ordering of all keys ever used, cached or still to come, on both kinds of chain |
| `OneUse.InvAt` | crypto/kex_hybrid.go:469-542 | that ordering holds after every prefix of every run from an established session |
| `OneUse.MessageKeysUsedOnce` | crypto/ratchet.go:18-28 | in every run, over any frames whatever, the keys sealed under and the keys tried are pairwise different, within and across the two directions |
| `OneUse.NoFrameAcceptedTwice` | crypto/kex_hybrid.go:597-637 | no frame is accepted twice in any run, nor are two frames whose ciphertexts were sealed under one key |
| `OneUse.OwnFrameNeverAccepted` | crypto/kex_hybrid.go:564-595 | a peer never accepts a frame it sealed itself |
| `Authenticity.AcceptedIsTagged` | crypto/kex_hybrid.go:564-581 | an accepted frame has its nonce in range and carries the HMAC of exactly its four fields under the session's key |
| `Authenticity.AcceptedIsSealed` | crypto/kex_hybrid.go:640-658 | its ciphertext was sealed under the key tried, at its own nonce and for its own ratchet key, and holds the plaintext returned |
| `Authenticity.BadTagRefused` | crypto/kex_hybrid.go:571-581 | a frame with any other tag gives the tag error, tries no key and leaves the session as it was |
| `Authenticity.BigNonceRefused` | crypto/kex_hybrid.go:451-453 | a nonce of 2^31 or more is refused before the tag is looked at and moves nothing |
| `Authenticity.EmittedIsTagged` | crypto/kex_hybrid.go:469-542 | every frame emitted carries such a tag and the sender's name |
| `Authenticity.HmacKeyStays` | crypto/kex_hybrid.go:348-362 | no event changes the HMAC or the file key the handshake cut |
| `Authenticity.AlteredFrameRefused` | crypto/kex_hybrid.go:571-581 | in every run, a frame with the tag of a sealed frame that differs from it in sender, ratchet key, nonce or ciphertext is refused and moves nothing |
| `Authenticity.OnlyKeyHoldersAreHeard` | crypto/kex_hybrid.go:564-595 | in every run, whatever is accepted was tagged under the handshake's own HMAC key and is attributed to the sender in it |
| `KeySeparation.MessageKeysStandApart` | crypto/ratchet.go:18-28 | in every run, no key a frame was sealed under or tried with equals, or went into, a chain, root, HMAC or file key the session has at any point |
| `KeySeparation.MessageKeysOpenNothingElse` | crypto/ratchet.go:13-16 | no message key used in a run is derived from another one |
| `KeySeparation.FiveKeysDiffer` | crypto/kex_hybrid.go:346-362 | the two chain keys, the root, the HMAC and the file key of a handshake are pairwise different |
| `KeySeparation.AcceptedIsSeparated` | core/engine.go:128-214 | every accepted offer leaves a session those results apply to |
| `KeySeparation.FinishedIsSeparated` | core/engine.go:230-278 | so does every completed one |
| `Secrecy.ForwardSecrecy` | crypto/ratchet.go:11-28 | in every run over any frames, who takes everything the session holds at some point, cached keys included, derives no key sealed under or tried before it, unless it knows both secrets of the handshake |
| `Secrecy.HybridSecrecy` | README.md:86-95 | who knows every X25519 secret but not the Kyber secret of the handshake, or the reverse, derives nothing the session ever holds and no key it uses |
| `Secrecy.Heals` | crypto/kex_hybrid.go:469-500 | once a send turns the ratchet on a fresh scalar, who took everything held before derives no key sealed from then on in any run, if it does not know the X25519 secret of that turn |
| `Secrecy.HealsIff` | crypto/kex_hybrid.go:469-500 | the first key after the turn is derived if and only if that secret is known or the remote key is no curve point |
| `Secrecy.TurnIsOwed` | crypto/kex_hybrid.go:399-413 | once a frame under a new remote key was taken up, a turn is owed until the next send makes it or a restart forgets it |
| `Secrecy.AcceptedBegins` | core/engine.go:128-214 | every accepted offer leaves a session from which all of this holds, over the two secrets agreed in that handshake |
| `Secrecy.FinishedBegins` | core/engine.go:230-278 | so does every completed one |
| `Crashes.SavedStays` | client/client.go:216-258 | what a client has saved is never lost by a stop and a load |
| `Crashes.SavedKeysUsedOnce` | client/client.go:216-258 | over every run in which the process may stop at any point and load what it saved last, no two sends, no two frames that open, and no send and frame that opens share a key |
| `Crashes.NoFrameAcceptedTwiceOverCrashes` | client/client.go:252-258 | nor is a frame accepted twice over such runs |
| `Crashes.FailedTryRepeats` | client/client.go:252-258 | a frame that fails on a saved session tries the same key again after a stop, since a failure is not saved |
| `Duplex.SendKeepsStep` | crypto/kex_hybrid.go:469-542 | sending keeps the pair in step, and a new ratchet key is only created by the peer that does not own the newest one |
| `Duplex.RestartKeepsStep` | crypto/kex_hybrid.go:113 | losing the unexported pendingDhRatchet field on a reload keeps the pair in step |
| `Duplex.ReceiveCached` | crypto/kex_hybrid.go:598-604 | a frame with a cached key opens to its plaintext, consumes exactly that slot and moves no chain, whatever its epoch |
| `Duplex.ReceiveAhead` | crypto/kex_hybrid.go:613-637 | a frame at or ahead of the counter opens and files the keys it passes, all of them the sender's own |
| `Duplex.ReceiveNext` | crypto/kex_hybrid.go:606-611 | the first frame of the sender's next ratchet key derives the sender's chain and opens |
| `Duplex.ReceiveReplay` | crypto/kex_hybrid.go:615-617 | a consumed index of the current chain gives ErrReplay and changes nothing |
| `Duplex.TimelyDelivery` | crypto/kex_hybrid.go:564-637 | a delivery of the receiver's current key, the sender's newest key or a cached slot keeps the pair in step and gives the sender's plaintext the first time, ErrReplay later, and changes nothing on any error |
| `Duplex.UntimelyBreaksStep` | crypto/kex_hybrid.go:606-611 | after any other delivery, which re-enters DhRatchet with a key left behind, the pair is not in step |
| `Deafness.RootsPartForever` | crypto/kex_hybrid.go:399-413 | after an untimely delivery the two root keys never agree again, whatever frames either side is given and whatever it does |
| `Deafness.DeafToSent` | crypto/kex_hybrid.go:597-637 | nor does the receiver ever again open a frame that was in flight to it and not cached |
| `Deafness.DeafToLater` | crypto/kex_hybrid.go:597-637 | nor any frame the other side seals later, in any run of both sides with fresh scalars |
| `Counterexamples.LateFrameIsUntimely` | crypto/kex_hybrid.go:606-611 | such a delivery is reached from every opening by five legal moves: a chain-1 frame waits while chain 3 is taken up |
| `Counterexamples.HonestPeersCanPart` | crypto/kex_hybrid.go:606-611 | so every honest handshake has a run after which one late frame ends the pair's being in step |
| `Duplex.InStepIffTimely` | crypto/kex_hybrid.go:597-637 | the side condition is exact: a delivery keeps the pair in step if and only if it is timely |
| `Duplex.InStepRoots` | crypto/kex_hybrid.go:399-413 | root keys in step are equal or one is the other's next derivation |
| `Conversation.StaysInStep` | crypto/kex_hybrid.go:399-413 | two peers stay in step after every prefix of every run of sends, timely deliveries and restarts |
| `Conversation.EachFrameOnce` | crypto/kex_hybrid.go:564-637 | in every run each delivered frame gives exactly its sender's name and plaintext the first time and ErrReplay every later time; a nonce of 2^31 or more is always refused |
| `Conversation.GotIffHanded` | crypto/kex_hybrid.go:597-637 | the set of frames decrypted is exactly the set handed over so far |
| `Conversation.TurnIsOwners` | crypto/kex_hybrid.go:474-487 | a ratchet turn adds one key and is made by the peer whose turn it is |
| `Conversation.TurnsAlternate` | crypto/kex_hybrid.go:474-487 | between two turns of one peer lies a turn of the other |
| `Conversation.RootsAdjacent` | crypto/kex_hybrid.go:399-413 | in every run the two root keys differ by at most one derivation step |
| `Conversation.RestartsFreezeEpoch` | test.py:810-832 | peers that restart before every send never leave the first epoch |
| `Conversation.SaidThenHanded` | crypto/kex_hybrid.go:469-542 | the frame of a send stays at its place, and a later delivery of that place gives the plaintext said the first time and ErrReplay later |
| `AnyOrder.AlongAt` | crypto/kex_hybrid.go:597-637 | delivering frames of the chain its peer sends on, taken up or not, or of the current one, in any order and with repeats, gives each plaintext once and ErrReplay otherwise, at every point |
| `AnyOrder.EveryPermutation` | crypto/kex_hybrid.go:597-637 | for every n and every permutation of the n frames of a chain of which none is decrypted yet, all decrypt, each to its own plaintext, also when the first to arrive turns the ratchet and leaves a gap, and the cache of that chain ends empty |
| `AnyOrder.CacheIsExact` | crypto/kex_hybrid.go:378-396 | the cache under the current key holds exactly the indices below RecvNonce not yet decrypted, each with the sender's key |
| `SlotNames.SlotNamesDistinct` | crypto/kex_hybrid.go:232-234 | the text of a cache slot determines the ratchet key and the nonce, for keys of any length |
| `SlotNames.Base64Injective` | crypto/kex_hybrid.go:598 | standard base64 with padding is injective |
| `ByteOrder.FirstDifferenceDecides` | crypto/kex_hybrid.go:237-267 | two byte strings compare by the first byte in which they differ, a prefix coming first |
| `ByteOrder.SortCorrect` | crypto/kex_hybrid.go:237-267 | the sorted transcript is ordered and has the same digests |
| `ByteOrder.SortedUnique` | crypto/kex_hybrid.go:237-267 | there is only one sorted arrangement, so any sort gives it |
| `ByteOrder.SortIgnoresOrder` | crypto/kex_hybrid.go:237-267 | sorting forgets the order the digests were listed in |
| `Handshakes.TranscriptSymmetric` | crypto/kex_hybrid.go:237-267 | both peers compute the same transcript |
| `Handshakes.OneInitiator` | crypto/kex_hybrid.go:213-220 | exactly one of two peers is initiator if and only if the SHA-256 hashes of their identity keys differ; when they are equal both are |
| `Handshakes.AcceptIff` | core/engine.go:128-214 | an offer is accepted if and only if its id is new from that sender, it is for this client, both secrets behind the sender's ID signed exactly the recipient, the three short-term keys, the Dilithium key and the offer id, and its Kyber and X25519 keys are usable |
| `Handshakes.FinishIff` | core/engine.go:230-278 | an answer completes an offer if and only if both secrets behind its sender's ID signed those values for this client, it holds a ciphertext, its X25519 key is usable and the sender is the one expected, if any |
| `Handshakes.ForgedOfferRefused` | crypto/kex_hybrid.go:303-311 | an acceptable offer with its Ed25519 signature changed is refused for that, and with only its Dilithium signature changed for that |
| `Handshakes.AcceptedKeys` | crypto/kex_hybrid.go:322-376 | the session of an accepted offer holds the five blocks cut from the values signed in it, the lower identity hash sending on the first chain |
| `Handshakes.FinishedKeys` | crypto/kex_hybrid.go:322-376 | likewise for the session of a completed offer, from the secrets its object holds |
| `Handshakes.TranscriptHolds` | crypto/kex_hybrid.go:237-276 | the transcript holds the digests of all eight public values and nothing else |
| `Handshakes.KeysBindHandshake` | crypto/kex_hybrid.go:334-347 | any key cut by a handshake determines the ratchet's X25519 secret, the X25519 and the Kyber secret and the eight digests that went into it |
| `Handshakes.HonestRunSucceeds` | core/engine.go:80-278 | an honest offer, accept, finish run succeeds at every step and ends with the two sessions stated |
| `Handshakes.HonestSessionsMirror` | crypto/kex_hybrid.go:324-375 | root, HMAC and file keys agree; send and receive chains are mirrored, with one initiator and the other owing the first ratchet, if and only if the identity hashes differ |
| `Handshakes.HonestSessionEstablished` | crypto/kex_hybrid.go:349-375 | both sessions are ready for one-use runs |
| `Handshakes.HandshakePutsInStep` | crypto/kex_hybrid.go:278-375 | an honest handshake puts the two peers in step |
| `Handshakes.HonestConversation` | core/engine.go:80-278 | from an honest handshake on, every legal run is a run in step, so every result on conversations applies |
| `SecurePeers.SecurePeer.constructor` | core/engine.go:38-66 | a new peer has fresh keys, no session and no seen offers |
| `SecurePeers.SecurePeer.Handshake` | crypto/kex_hybrid.go:278-375 | the object ends in exactly the state of the handshake function, and a refusal leaves every field as it was |
| `SecurePeers.SecurePeer.SkipMessageKeys` | crypto/kex_hybrid.go:378-396 | the loop gives the session of the skip function, or refuses and changes nothing |
| `SecurePeers.SecurePeer.DhRatchet` | crypto/kex_hybrid.go:399-413 | the fields end as the receive ratchet says |
| `SecurePeers.SecurePeer.Encrypt` | crypto/kex_hybrid.go:469-542 | fields and frame are those of the encrypt function, with the owed ratchet turned first |
| `SecurePeers.SecurePeer.Decrypt` | crypto/kex_hybrid.go:564-637 | fields and result are those of the decrypt function on every frame, including every refusal |
| `SecurePeers.SecurePeer.Reload` | crypto/kex_hybrid.go:113 | saving and loading keeps every field but pendingDhRatchet |
| `Clients.KeysCollideIff` | client/client.go:154-157 | for any names at all, two slots have the same key if and only if one is a name that spells the pending key of the other |
| `Clients.KeysDistinct` | client/client.go:154-157 | so "pending", "pending_" plus any name and the ID of a session never collide as map keys |
| `Clients.StepRefined` | client/client.go:143-209 | one step on the shared objects does to each peer's offer and session what that peer's own step does, and keeps slots from sharing objects |
| `Clients.ReloadForgetsTurns` | crypto/kex_hybrid.go:113 | a save and a load keep every slot and everything its object holds, except that no session owes a turn of the ratchet any more |
| `Clients.EachPeerAlone` | client/client.go:143-209 | in every interleaving without stray answers, each peer's offer and session are what its own events alone would make them |
| `Clients.AnswerCompletesLatestOffer` | client/client.go:182-209 | an answer completes exactly the latest outstanding offer to its sender with that offer's keys, empties its slot, and moves no other peer's offer or session |
| `Admission.NoSessionUnsigned` | client/client.go:163-209 | in every run, stray answers included, there is a session under x only if an offer or answer came in that both secrets behind x signed for this client |
| `Admission.SessionsAreSigned` | client/client.go:163-209 | in every run, stray answers included, every session is keyed from public values signed for this client by both secrets behind the sender of one offer or answer |
| `Admission.SessionIsWithItsPeer` | client/client.go:143-209 | in every run without stray answers, the session under x is keyed from values both secrets behind x signed for this client, and from the draw of that acceptance or of an offer made to x |
| `Clients.HonestAnswerAmongMany` | core/engine.go:229-278 | with any number of other handshakes under way the honest answer completes its offer and leaves the session that mirrors the answering peer's |
| `Clients.StrayKeepsSeparateIff` | client/client.go:190-207 | an answer taken by the last offer to somebody else leaves slots separate exactly when no other slot shares that offer's object |
| `Clients.SeenExactly` | core/engine.go:152-171 | after any run the offer ids remembered for a peer are exactly those accepted since its last finish |
| `Clients.OfferAcceptedAgainIff` | core/engine.go:152-171 | an accepted offer is accepted again exactly when a finish for its sender came after every acceptance of its id |
| `Clients.NoOfferAcceptedTwice` | core/engine.go:152-171 | with no finish for a sender in between, no offer id from it is accepted twice |
| `Clients.OfferAcceptedAgain` | core/engine.go:152-171 | a run of honest messages from an empty map on which an offer is accepted, a finish for its sender follows, and the same offer is accepted again |
| `Clients.AnswerFitsAnyOffer` | core/engine.go:229-278 | an honest answer completes any offer of the peer it is addressed to, not only the one it answers |
| `Clients.StaleAnswerDisagrees` | core/engine.go:250-270 | on an offer with another Kyber key than the one answered, the session it leaves shares no key with the answering peer's |
| `Clients.RepeatedAnswerStrays` | client/client.go:190-207 | a run of honest messages from an empty map on which a repeated answer of x lands on the offer to y, leaves one object in both slots, and y's answer then replaces x's session |
| `Clients.StrayRekeys` | client/client.go:195-207 | whenever x's session and y's offer share an object, y's answer rekeys x's session in place |
| `SessionMaps.Client.CreateOffer` | client/client.go:143-160 | a fresh object goes under both pending keys, and nothing else changes |
| `SessionMaps.Client.AcceptOffer` | client/client.go:164-176 | a fresh keyed object replaces the sender's session; a refusal changes nothing |
| `SessionMaps.Client.Respond` | core/engine.go:158-217 | the responder carries forward the seen offers, adds this one, runs the handshake and builds the answer |
| `SessionMaps.Client.FinishHandshake` | client/client.go:182-209 | the object of the offer taken is keyed in place and filed under the sender, both pending keys go, and no other object changes |
| `SessionMaps.Client.Encrypt` | client/client.go:216-227 | only the object of the named session changes |
| `SessionMaps.Client.Decrypt` | client/client.go:232-258 | only the object of the claimed sender's session changes |
| `SessionMaps.Client.OfferEvent` | client/client.go:143-160 | whatever book of slots, values and sharing the map shows, CreateOffer takes it to the book the offer event gives |
| `SessionMaps.Client.AcceptEvent` | client/client.go:164-176 | AcceptOffer takes the map from any book it shows to the one the accept event gives |
| `SessionMaps.Client.FinishEvent` | client/client.go:182-209 | FinishHandshake, changing one shared object in place, takes the map from any book it shows to the one the finish event gives |
| `SessionMaps.Client.WriteEvent` | client/client.go:216-227 | Encrypt takes the map from any book it shows to the one the write event gives |
| `SessionMaps.Client.ReadEvent` | client/client.go:232-258 | Decrypt takes the map from any book it shows to the one the read event gives |
| `SessionMaps.FinishShows` | client/client.go:195-207 | keying a shared object in place and moving it between slots preserves which slots share objects and what they hold |
| `EditDistance.Levenshtein` | internal/shellcmd/suggest.go:60-88 | the two-row program returns the least cost of any edit script from one word to the other |
| `EditDistance.NextRow` | internal/shellcmd/suggest.go:66-85 | the inner loop turns row i - 1 of the table into row i |
| `EditDistance.TableIsLeast` | internal/shellcmd/suggest.go:60-88 | the table holds the least cost over all edit scripts |
| `EditDistance.BestAchieves` | internal/shellcmd/suggest.go:60-88 | for every cell there is a script of that cost between the two prefixes |
| `EditDistance.NoScriptIsCheaper` | internal/shellcmd/suggest.go:60-88 | no script between two prefixes costs less than their cell |
| `EditDistance.ZeroIffEqual` | internal/shellcmd/suggest.go:60-88 | the distance is zero exactly on equal words |
| `EditDistance.Symmetric` | internal/shellcmd/suggest.go:60-88 | the distance is symmetric |
| `EditDistance.TriangleInequality` | internal/shellcmd/suggest.go:60-88 | the distance satisfies the triangle inequality |
| `EditDistance.DistanceBounds` | internal/shellcmd/suggest.go:60-88 | the distance lies between the difference of the lengths and the greater length |
| `EditDistance.Compose` | internal/shellcmd/suggest.go:60-88 | two scripts compose into one of at most their joint cost |
| `RpcMux.StepKeepsInv` | internal/transport/process.go:62-107 | every step of a caller, the read loop or the dying process keeps each channel at no value while its call is listed or held and one otherwise |
| `RpcMux.InvAt` | internal/transport/process.go:62-176 | that holds after every interleaving in which no listed id is reused |
| `RpcMux.FewCallsAreFresh` | internal/transport/process.go:111-116 | below 2^32 calls no listed id is reused |
| `RpcMux.RepliesReachTheirCaller` | internal/transport/process.go:82-91 | in every interleaving of at most 2^32 calls a call only ever receives the envelope of its own id, its channel gets at most one value, and the read loop's send never blocks |
| `RpcMux.NoWaiterStranded` | internal/transport/process.go:97-107 | an active call is listed, held or has its value queued, and once the loop has ended every waiter can leave its select |
| `RpcMux.ReadExactly` | internal/transport/process.go:85-93 | a reply of an unlisted id changes nothing; any other is held whole for the call listed, which alone leaves the table |
| `RpcMux.ReplyArrives` | internal/transport/process.go:85-93 | in every run of at most 2^32 calls, once a reply is read for a listed call, that very reply is at every later point held for it, queued or returned, unless the call gave up or saw the exit |
| `RpcMux.ThreeSteps` | internal/transport/process.go:149-168 | from any reachable state in which a call waits, its reply can be read, pushed and taken at once, the call returns it with its op and payload, and nothing else changes |
| `RpcMux.TwoSteps` | internal/transport/process.go:110-147 | a new call that is written waits, listed under an id of its own, and nothing else changes |
| `RpcMux.FailAllExactly` | internal/transport/process.go:98-108 | the read loop's failure empties the table, gives the error to exactly the listed calls and leaves every other call alone |
| `RpcMux.FailureReachesAll` | internal/transport/process.go:98-108 | in every run, each call listed at the failure has the error queued or returned at every later point, unless it left another way |
| `RpcMux.NothingInvented` | internal/transport/process.go:62-96 | whatever is held, queued or returned was read as it stands, and the error is seen only after the loop failed |
| `RpcMux.PhaseMoves` | internal/transport/process.go:137-176 | a call's phase moves only by its own steps, and a call that has ended stays as it ended |
| `RpcMux.StrandedForEver` | internal/transport/process.go:62-176 | a call that nothing leads to is given no value and no answer in any continuation |
| `RpcMux.ReusedIdStrandsCaller` | internal/transport/process.go:111-116 | the condition is exact: registering under a listed id strands the call listed there, in every continuation |
| `RpcMux.IdReusedWhileListed` | internal/transport/process.go:111-116 | that is reached after 2^32 unanswered calls, when the next takes over the id of the first |
| `HostLifecycle.StepKeepsInv` | internal/ntxhost/host.go:100-186 | every critical section of Install, Enable, Disable, Remove, Import and ensure keeps records sound and runtimes accounted for |
| `HostLifecycle.InvAt` | internal/ntxhost/host.go:222-288 | that holds after every interleaving |
| `HostLifecycle.RecordsStaySound` | internal/ntxhost/host.go:143-157 | the stored pin is always the hash of the stored package, so Enable's re-check never refuses, and a live handle means the record is enabled |
| `HostLifecycle.NoRuntimeLeaked` | internal/ntxhost/host.go:222-288 | every runtime ever spawned is a registered live handle, held by the ensure in progress, stopped or about to be |
| `HostLifecycle.NoHandleOverwritten` | internal/ntxhost/host.go:265-288 | the slot an ensure files its runtime in is empty |
| `HostLifecycle.ImportKeepsInv` | internal/ntxhost/export.go:65-113 | the whole-registry swap keeps the invariant, the old records being swept afterwards |
| `HostEffects.OffIff` | internal/ntxhost/host.go:143-186 | one step keeps a transport off if and only if it does not enable it, install it enabled or import it enabled |
| `HostEffects.StaysOff` | internal/ntxhost/host.go:159-171 | in every interleaving, after a Disable or Remove and until such a step, nothing is live under the id, every attempt to start it leaves the host as it is, and a start already under way is stopped |
| `HostEffects.SwitchedOff` | internal/ntxhost/host.go:159-186 | Disable clears the flag and the handle and keeps the package, Remove unfiles the id, and both hand over the live runtime to be stopped |
| `HostEffects.StaysRemoved` | internal/ntxhost/host.go:174-186 | after Remove nothing is filed under the id until it is installed or imported again |
| `HostEffects.RuntimeNeverReturns` | internal/ntxhost/host.go:159-196 | in every interleaving, the runtime that was live when its transport was disabled, removed or replaced by an import is from then on stopped or waiting to be, and never live again under any id |
| `HostEffects.LeavingCanStop` | internal/ntxhost/export.go:105-112 | and it can be stopped, after the sweep if an import left it behind |
| `HostEffects.InstallExactly` | internal/ntxhost/host.go:100-126 | installing over a live transport changes nothing; otherwise the package is stored and pinned, and enabled exactly when asked or when the same hash was enabled before; no other record moves |
| `HostEffects.EnableExactly` | internal/ntxhost/host.go:143-155 | enabling a filed transport always succeeds and touches nothing but its flag |
| `HostEffects.BadPinNeverRuns` | internal/ntxhost/host.go:143-252 | on any host at all, a package that is not the one pinned is neither enabled nor started |
| `HostEffects.EnsureStarts` | internal/ntxhost/host.go:222-288 | an undisturbed ensure of an enabled transport leaves the stored package running and live under its id |
| `HostEffects.ImportExactly` | internal/ntxhost/export.go:65-113 | a good document replaces the registry by exactly its entries, none live; a bad one changes nothing |
| `HostEffects.ImportRestores` | internal/ntxhost/export.go:39-113 | importing the export of any reachable host on any host at all is never refused and gives back its registry with nothing live |
| `HostLifecycle.RunsStoredIffUnchanged` | internal/ntxhost/host.go:278-286 | a step keeps live runtimes on the stored package if and only if no ensure files the runtime of a package replaced since it began |
| `HostLifecycle.RunsStoredAt` | internal/ntxhost/host.go:222-288 | over whole runs without such a step, live handles always run what is stored |
| `HostLifecycle.ReplacedWhileStarting` | internal/ntxhost/host.go:278-286 | the interleaving that leaves a replaced package's runtime live under the new pin |
| `Nanopack.VarintRoundTrip` | test.py:151-166 | a number reads back from its varint with the bytes it took, whatever follows |
| `Nanopack.AppendVarint` | test.py:162-166 | the writer's loop appends the varint |
| `Nanopack.ScanVarint` | test.py:151-159 | the reader's loop gives the number and the index after it, or refuses a buffer that ends inside |
| `Nanopack.RoundTrip` | test.py:169-199 | decoding inverts encoding over the two-pass layout, for any fields |
| `Nanopack.EncodeInjective` | test.py:169-199 | different field lists have different encodings |
| `FrameWire.ParseSecureMessage` | crypto/kex_hybrid.go:434-454 | the field loops compute the parse function on every byte string |
| `FrameWire.FrameParsesBack` | crypto/kex_hybrid.go:513-538 | every frame Encrypt emits parses to the same four fields and tag if and only if its nonce is below 2^31, and the re-encoded canonical form is the one the sender authenticated |
| `FrameWire.CanonicalInjective` | crypto/kex_hybrid_nanopack.go:20-49 | the authenticated form determines all four fields |
| `BigEndian.IntToBytes` | crypto/ratchet.go:32-39 | the buffer holds the low bytes of the number in two's complement, most significant first, for negative numbers too |
| `BigEndian.GetPut` | crypto/ratchet.go:32-39 | reading the buffer back gives the number modulo 256 to its length |
| `BigEndian.PutGet` | crypto/ratchet.go:32-39 | writing the number read from any bytes gives those bytes back |
| `Delivery.AadRoundTrip` | internal/multimsg/wire.go:99-123 | the binding parses back with whatever follows it, for identifiers of at most 255 bytes and any 64-bit version |
| `Delivery.AadPrefixFree` | internal/multimsg/fanout.go:409-426 | the binding encoding is injective and prefix-free |
| `Delivery.ContextRoundTrip` | internal/multimsg/wire.go:171-190 | a context descriptor decodes to itself |
| `Delivery.WrappedParsesBack` | internal/multimsg/wire.go:61-97 | a wrapped payload parses back to what was wrapped if and only if every identifier is at most 255 bytes |
| `Delivery.ParsedContextIsSigned` | internal/multimsg/wire.go:61-97 | whatever bytes arrive, a descriptor that comes out of them is validly signed |
| `Delivery.BadDescriptorRefused` | internal/multimsg/wire.go:61-97 | a payload with a badly signed descriptor is refused |
| `Delivery.LegacyParsesBack` | internal/multimsg/wire.go:61-97 | a legacy payload parses back if and only if its message id is not two bytes long; one with a two-byte id is taken for v2 |
| `Contexts.FileContextStore.SaveContext` | internal/multimsg/store.go:471-486 | stores unless an equal or newer version is stored, and says which |
| `Contexts.FileContextStore.ApplyRemoteContext` | internal/multimsg/fanout.go:141-164 | applies exactly the newer, non-zero, validly signed descriptors |
| `Contexts.FileContextStore.UpdateContext` | internal/multimsg/fanout.go:104-137 | only the creator renames, under the next version, and never past the last one |
| `Contexts.RenamedHolds` | internal/multimsg/fanout.go:113-131 | the renamed descriptor has the new name, the next version, the same id and creator and the signature of exactly that; there is none only at the last 64-bit version |
| `Contexts.RenameSpreads` | internal/multimsg/fanout.go:104-170 | a valid rename is taken by exactly the stores without a higher version, which then show the new name |
| `Contexts.VersionNeverFalls` | internal/multimsg/store.go:471-486 | over any sequence of remote descriptors, saves and renames, without deletion, a stored descriptor is only replaced by one of a higher version |
| `Contexts.FedVersionNeverFalls` | internal/multimsg/fanout.go:141-164 | a store fed remote descriptors keeps what it holds or takes a newer valid one it was fed |
| `Contexts.FedStoreHoldsHighest` | internal/multimsg/fanout.go:577-590 | a store fed any descriptors holds the highest valid version of each context and nothing else |
| `Contexts.StoresConverge` | internal/multimsg/fanout.go:141-164 | two stores fed the same descriptors in any order and with any repeats are equal |
| `Contexts.ConvergesIff` | internal/multimsg/fanout.go:141-164 | stores agree over all orders and repeats if and only if no two valid descriptors share the highest version of a context |
| `Fanouts.OneResultEach` | internal/multimsg/fanout.go:262-360 | one result per entry of the effective list, in order, and no session appears or disappears |
| `Fanouts.ResultsPerRecipient` | internal/multimsg/fanout.go:197-360 | a recipient gets as many results as it is listed times when allowed and none otherwise: exactly one if and only if it is allowed and listed once |
| `Fanouts.StatusOfEach` | internal/multimsg/fanout.go:262-340 | a copy is sent exactly when there is a session and the descriptor fits, pending exactly when there is no session and offline recipients are not skipped, failed otherwise |
| `Fanouts.ResultsAddUp` | internal/multimsg/fanout.go:340-372 | of the results of one message, sent, pending and failed add up to the number of listed recipients neither blocked nor excluded |
| `Fanouts.OtherSessionsStay` | internal/multimsg/fanout.go:262-360 | a session that is not sent a copy does not move |
| `Fanouts.OversizedDescriptorMovesNothing` | internal/multimsg/fanout.go:380-386 | a descriptor above 255 bytes is refused for every recipient and no session advances |
| `Fanouts.EachCopyFromItsSession` | internal/multimsg/fanout.go:262-360 | each entry with a session gets the frame that recipient's own session seals next over the payload bound to it, the session having moved only for the recipient's own earlier entries |
| `Fanouts.CopyProcessedOnce` | internal/multimsg/fanout.go:530-598 | a decrypted copy gives sender, plaintext and a context at least as new, the first time; a re-encryption of it is a duplicate |
| `Fanouts.BroughtIsBound` | internal/multimsg/fanout.go:530-598 | whatever was decrypted, what is brought is bound to the peer it came from and to this recipient and is new, the store takes only signed descriptors, and a refusal leaves no trace |
| `Fanouts.TransplantRefused` | internal/multimsg/fanout.go:552-566 | a copy addressed to one recipient is refused by every other and leaves no trace |
| `FanoutRuns.SeenExactly` | internal/multimsg/fanout.go:566-575 | over everything one Fanout processes, what it has seen is exactly the senders and message ids it was brought |
| `FanoutRuns.SeenSinceRestart` | internal/multimsg/fanout.go:43-62 | over restarts, what the recipient has seen is exactly what was brought since the last one, and its contexts stay |
| `FanoutRuns.DeliveredOnce` | internal/multimsg/fanout.go:530-598 | in every run of a pair with restarts, whatever else the recipient is given, a delivered copy is a replay if its frame was handed over before, a duplicate if something since the recipient's last restart carried the same sender and message id, and otherwise brings sender, metadata, plaintext and a context at least as new |
| `FanoutRuns.SentCopyArrivesOnce` | internal/multimsg/fanout.go:227-372 | the frame SendMultiMessage returns for an entry is the one delivered at its place in the pair's run, and every delivery of it ends that way |
| `FanoutRuns.SecondCopyIsRefused` | internal/multimsg/fanout.go:563-575 | of two copies of a message handed to one recipient, the first a fresh frame, the second is refused as long as the recipient has not restarted in between |
| `FanoutRuns.FreshFanoutIsBrought` | internal/multimsg/fanout.go:43-62 | a copy in a fresh frame that reaches a Fanout nothing was brought to yet brings the message, whatever an earlier Fanout was brought |
| `RepeatedCopies.BroughtAgainAfterRestart` | internal/multimsg/fanout.go:563-575 | after every opening there is a run on which two copies, with a restart of the recipient between them, both bring the message |
| `Fanouts.EffectiveExactly` | internal/multimsg/fanout.go:197-222 | each recipient is kept exactly as often as it is listed when not blocked or excluded, and never otherwise |
| `Fanouts.EffectiveInOrder` | internal/multimsg/fanout.go:207-216 | the filter works entry by entry, so the order is kept |
| `Fanouts.Fanout.GetEffectiveRecipients` | internal/multimsg/fanout.go:197-222 | the loop returns the effective recipients |
| `Fanouts.Fanout.SendMultiMessage` | internal/multimsg/fanout.go:227-372 | refuses an unknown, unversioned or badly signed context or an empty list without touching a session; otherwise one copy each |
| `Fanouts.Fanout.SendCopies` | internal/multimsg/fanout.go:262-360 | the loop gives the sessions and results of the copy function |
| `Fanouts.Fanout.ProcessDelivery` | internal/multimsg/fanout.go:530-598 | session, seen set, context store and outcome are those of the decrypt and process functions, on every frame |
| `PollFrames.ParsePollBlob` | internal/ntxhost/abi.go:15-31 | the loop computes the split function on every byte string |
| `PollFrames.TakeFrames` | internal/transport/rpc.go:544-562 | the counting loop gives the same frames exactly when the blob splits into the count |
| `PollFrames.UnmarshalPollResult` | internal/transport/rpc.go:521-563 | accepts exactly when the blob splits into exactly count frames, at most 32, and returns those frames |
| `PollFrames.MarshalPollResult` | internal/transport/rpc.go:502-518 | the loop builds the encoding or refuses |
| `PollFrames.SplitExactly` | internal/transport/wasm.go:405-419 | splitting accepts exactly the joins of frames of legal size, and inverts joining in both directions |
| `PollFrames.MarshalRoundTrip` | internal/transport/rpc.go:502-563 | unmarshalling inverts marshalling on every result that may be marshalled |
| `PollFrames.LegalResultFits` | internal/ntxhost/abi.go:34 | every legal result fits both MaxPollBlob and MaxRPCBytes |
| `FileTransfer.CutChunks` | internal/filetransfer/filetransfer.go:165-171 | the loop cuts the chunks of the chunk function |
| `FileTransfer.ChunksJoin` | internal/filetransfer/filetransfer.go:165-171 | the chunks concatenate to the ciphertext |
| `FileTransfer.ChunkCount` | internal/filetransfer/filetransfer.go:165-171 | their number is the ceiling of size over chunk size |
| `FileTransfer.ChunkAt` | internal/ntxhost/xfer.go:118-126 | chunk i starts at i times the chunk size, is not empty, and only the last may be short |
| `FileTransfer.ManifestParsesBack` | internal/filetransfer/filetransfer.go:53-112 | a manifest parses back to itself exactly when its sizes are positive and its hashes have 32 bytes |
| `FileTransfer.JoinChunks` | internal/filetransfer/filetransfer.go:204-210 | the loop joins the chunks or refuses an empty one |
| `FileTransfer.ReassembleIff` | internal/filetransfer/filetransfer.go:200-216 | exactly the chunk lists of the right number, none empty, that join to the ciphertext pass the checks, where SHA-256 does not collide |
| `FileTransfer.ReassembledMatches` | internal/filetransfer/filetransfer.go:200-216 | for every manifest, chunks that pass are as many, as long and hashed as it says |
| `FileTransfer.ReceivedMatches` | internal/filetransfer/filetransfer.go:217-231 | for every manifest, a file that comes out is as long and hashed as it says and from the peer expected |
| `FileTransfer.ReceiveIff` | internal/filetransfer/filetransfer.go:217-231 | against the manifest of a file exactly that file from the right peer comes out, where SHA-256 does not collide |
| `FileTransfer.EncryptFileIff` | internal/filetransfer/filetransfer.go:152-184 | a file is sent if and only if it has 1 byte to 8 MiB and the chunk size is at most 64 KiB, and the manifest describes what was sealed and cut |
| `FileTransfer.ParcelReassembles` | internal/filetransfer/filetransfer.go:151-184 | what EncryptFile cut always reassembles to the frame it sealed, and its manifest survives the wire |
| `FileTransfer.FileArrivesOnce` | internal/filetransfer/filetransfer.go:200-231 | in every run of a pair in step, EncryptFile's own parcel, with its manifest carried as bytes, comes out as the original file the first time its frame is handed over and is a replay afterwards |
| `MailRecords.RecordRoundTrip` | internal/mailbox/store.go:119-218 | a stored message reads back as itself under its key, unless the key is empty |
| `MailRecords.BodyRoundTrip` | internal/binstore/binstore.go:24-32 | loading a body gives back the records saved |
| `MailRecords.SaveBody` | internal/binstore/binstore.go:25-30 | the loop writes the count and the records with their lengths |
| `MailRecords.LoadBody` | internal/binstore/binstore.go:65-85 | count and loop compute the read function on every byte string |
| `Mailboxes.OrderUnique` | internal/mailbox/store.go:302-308 | two lists of the same threads ordered by activity and key are equal |
| `Mailboxes.ListIgnoresIteration` | internal/mailbox/store.go:505-523 | the order of List and of the file is a function of the contents, whatever the map iteration order |
| `Mailboxes.ListNewestFirst` | internal/mailbox/store.go:505-523 | the list has every thread, the most recently active first and those of one moment by key |
| `Mailboxes.ReloadExact` | internal/mailbox/store.go:234-308 | saving and reloading gives exactly the threads with a key and a message, every message as it was, each named by its first display name |
| `Mailboxes.FirstNameIsFirst` | internal/mailbox/store.go:282-292 | a reloaded title is the first display name a group's messages carry, and empty for any other thread |
| `Mailboxes.ThreadIsItsHistory` | internal/mailbox/store.go:377-392 | in every run of appends and reads each thread holds exactly its own appends in order |
| `Mailboxes.TitleIsLastGiven` | internal/mailbox/store.go:377-392 | in every run a thread shows the last non-empty title given with a message |
| `Mailboxes.MessageStays` | internal/mailbox/store.go:326-392 | each message stays in its place, as given but for the defaults, and is read exactly when it came as read, is outgoing, or its thread was opened since |
| `Mailboxes.ReloadRestoresIff` | internal/mailbox/store.go:297-324 | after every run of appends and reads a reload restores the message sequence of every thread if and only if nothing was appended under the empty key |
| `Mailboxes.Store.AppendMessage` | internal/mailbox/store.go:326-392 | the message joins the end of its thread with an empty id and a zero time filled in, outgoing ones read, a non-empty title winning |
| `Mailboxes.Store.ReadThread` | internal/mailbox/store.go:526-549 | returns the messages as they were and leaves them all read |
| `Mailboxes.Store.LoadRecords` | internal/mailbox/store.go:240-248 | the loop restores the records, skipping those that do not decode or name no thread |
| `Proquints.DecodeEncode` | crypto/encoding_proquint.go:33-88 | decoding inverts encoding on non-empty even lengths, adds one zero byte on odd ones and refuses the encoding of nothing |
| `Proquints.EncodeDecode` | crypto/encoding_proquint.go:33-88 | re-encoding any accepted text gives that text |
| `Proquints.ToProquint` | crypto/encoding_proquint.go:33-53 | the loop computes the encoding |
| `Proquints.FromProquint` | crypto/encoding_proquint.go:55-88 | on every byte string the loop decodes, refuses or panics as the first word that is not a proquint decides |
| `Proquints.PanicsIff` | crypto/encoding_proquint.go:66-77 | it panics if and only if after words that are all proquints comes one of five bytes and fewer than five runes |
| `Proquints.AsciiNeverPanics` | crypto/encoding_proquint.go:66-77 | so text of one-byte letters never makes it panic |
| `Proquints.AccentPanics` | crypto/encoding_proquint.go:71-77 | an accented letter followed by three plain ones does |

## Left out

- SessionMaps.Client.Decrypt: does not model the fallback to a pending slot (client/client.go:241-250); traffic is on established sessions only, in `Clients` too.
- Clients.StepRefined: saving and reloading is an event on values (`Clients.ReloadStep`) only; the class has no method that builds the reloaded objects.
- Clients.EachPeerAlone: speaks of runs without stray answers; `Clients.StrayKeepsSeparateIff` says what one such answer does.
- SecurePeers.SecurePeer.Handshake: the signed message is a record of its parts, not their concatenation, and the primitives (Kyber, Dilithium, Ed25519, X25519, HKDF, ChaCha20-Poly1305, SHA) are ideal terms.
- Clients.CreateOfferStep: a name that is valid base58 but not a full ID, such as "pending", and the empty name, for which the source would skip the peer's own pending slot, are outside the model: names are IDs or invalid. So are lookups of such a name by `Client.Encrypt` and `Client.Decrypt`; `Clients.KeysCollideIff` says which names would meet a pending key.
- Secrecy.ForwardSecrecy: the attacker derives and does not guess; a session here begins at a handshake on a fresh object, not on one that a stray answer keyed before.
- Admission.SessionIsWithItsPeer: speaks of runs without stray answers; with them `Admission.SessionsAreSigned` holds, and `Clients.RepeatedAnswerStrays` shows why the peer may be another.
- Conversation.StaysInStep: assumes that a ratchet scalar is never drawn twice.
- Nanopack.RoundTrip: the nanopack library is not part of this model; the layout is the one written out in test.py:128-199, and what the library does with trailing bytes or varints above 64 bits is assumed, not modelled. Envelope framing with its CRC is left out of `MailRecords`.
- RpcMux.StepKeepsInv: the process is a state machine on values whose steps are the critical sections and channel operations; the mutex, goroutines and timers themselves are not objects here, and the envelope codec is left out, as is what `Call` makes of the reply it returns (an error envelope or another op becomes an error).
- HostLifecycle.StepKeepsInv: likewise a state machine on values; mailbox attachments, capability checks and the runtimes are events that may fail, nothing more.
- Fanouts.Fanout.ProcessDelivery: uses the session of the claimed sender only, without the fallback to a pending slot.
- SessionMaps.Client.ReadEvent: likewise without that fallback.
- Fanouts.Fanout.SendMultiMessage: sessions are held as values, so two recipients sharing one `SecurePeer` object are not captured; message ids and times are parameters; persisting deliveries, relay sending, retries and the policies' storage are left out.
- FileTransfer.FileArrivesOnce: the byte form of a frame is any injective coding with its parser; transfer tickets and the RPC calls of the upload are left out.
- MailRecords.LoadBody: varints are unbounded, while the source stops at 64 bits and lets a length near 2^63 overflow its bound check.
- Mailboxes.Store.AppendMessage: what the clock gives is a parameter; locking, file writes, the legacy JSON format and thread lookup by name are left out.
- Contexts.FileContextStore.UpdateContext: `verify` and `sign` stand for the signature scheme; policies and deletion are left out.
- The `lowSecurity` branches of `Encrypt` and `Decrypt`: the flag is constantly false.
- `Suggest`'s ranking and limits around the edit distance: only easy members.
- The other RPC payload codecs, contacts, HTTP adapters, router registration, zip handling, the WASM runtime's memory, process spawning, the command line and all user interface.
- `MemoryContextStore` and `MemoryDeliveryStore`: stand-ins with weaker checks than the file-backed stores.
