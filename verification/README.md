# pywhats, verified

A Dafny model of the stateful core of pywhats, an asynchronous WhatsApp multi-device client, and
proofs of what its protocols promise: Double Ratchet sessions between two parties, the sender and
receiver around them, app-state synchronisation, the binary stanza codec, the Noise XX handshake and
transport, group sender keys, the LID map with session migration, and XEdDSA signatures.

`dafny verify dfyconfig.toml` checks the whole project.

## How it is built

Every component has a specification on values (datatypes and functions), theorems about that
specification, and, where the program changes state step by step, classes and loops that are proved
to compute the specification.

| files | component |
|---|---|
| `SymbolicCrypto`, `Messages`, `Ratchet`, `RatchetObject` | keys as terms, X3DH, the authenticated envelope, the ratchet and its mutable object |
| `RatchetRun`, `RatchetSystem`, `RatchetEviction`, `RatchetTheorems` | two parties and a network: positions, invariant, eviction, runs |
| `SessionOnce`, `SessionStore`, `Addressing`, `Receiver` | one session against anyone, persistence, addresses, the inbound path |
| `PreKeyPool`, `ReceiverRuns`, `Redelivery`, `PreKeyIds` | one-time prekeys, runs of the stores, redelivered prekey messages, reused ids |
| `Sender`, `SenderObject`, `SenderOutputs`, `SenderInbox`, `PreambleDelivery` | interleaved sends, the mutable sender, which event sends what, its runs as runs of the stores, and what it sends before it hears back |
| `LtHash`, `Patches`, `AppStateStore`, `AppStateSync`, `AppStateFetch`, `AppStateApplied`, `AppStateExact`, `AppStateSyncer` | the LT-hash, patches, both stores, the fetch loop, what it applies, exact conditions, the loops on the mutable store |
| `Stanza`, `StanzaRoundTrip`, `StanzaWire`, `StanzaPrefix`, `JidText`, `StanzaIo` | the stanza format, its round trip, its bytes, truncation, the text of addresses, the imperative writer and reader |
| `Noise`, `NoiseTheorems`, `NoiseKeys`, `NoiseTransport`, `NoiseObjects` | the handshake for both roles, its messages and keys written out, transport frames, the mutable objects |
| `SenderKey`, `GroupMessages` | sender-key chains and group stanzas |
| `Arithmetic`, `Xeddsa` | remainders and concatenation; little-endian bytes, the abstract group, signing and verifying |

Cryptography is symbolic. Keys, digests and ciphertexts are free constructors, so they are injective;
Diffie-Hellman obeys `dh(a, pub(b)) = dh(b, pub(a))`. In the Noise model a message is a sequence of
symbols, one for each byte, so offsets and lengths are those of the wire. In the sender-key and
XEdDSA models AES, SHA-512, the protobuf codec and the curve are parameters with the stated laws.
Clocks, random keys, message arrival and failing channels are parameters or events.

Generated private keys are assumed new (`Enabled` in `RatchetSystem` and `Sender`,
`ReceiverRuns.NewPreKeys`, `SenderInbox.NewEphemerals`), and a client starts no session from its own
bundle (`SenderInbox.ForeignBundles`). The network may
invent any message whose MAC key does not descend from the session's secret, and put any MAC it has
seen on another message (`RatchetSystem.Forged`); that none of these opens is proved.

## Findings

- A message can be opened twice. A prekey message without a one-time prekey can be delivered again: it
  rebuilds its session from the same secret and overwrites the stored one, and messages that were
  opened before then open again, as prekey messages or as plain ones (`Redelivery.OpenedTwice`).
  `Redelivery.RedeliveryIff` and `Redelivery.CanOpenTwiceIff` say exactly when: if and only if the
  prekey message names no one-time prekey. Nothing else makes a key open twice
  (`Redelivery.TwiceMeansRedelivered`, `Redelivery.FollowedTwice`, `SenderInbox.RunTwice`), so where all
  prekey messages that open name one-time prekeys, none does (`SenderInbox.RunOpensOnce`).
- The docstring of src/pywhats/messaging/prekey.py:308-312 promises that an upload never reuses an id.
  It does, if and only if the highest id ever given out has been used up (`PreKeyIds.ReuseIff`;
  `PreKeyIds.IdReused` gives an input). The key under the id is a new one, so that no key is used
  twice (`ReceiverRuns.PreKeyOnce`).
- App-state hashes agree with the stored map only under conditions the code does not check, because
  three things are hashed otherwise than they are stored: a SET older than what is held is hashed but
  not stored; an operation other than SET and REMOVE (the enumeration in proto/server_sync.proto:13 is
  open) takes the value out of the hash but leaves it stored; a snapshot adds a value for an index that
  is stored already, or occurs twice, without taking the replaced one out.
  `AppStateSync.FitsIff` and `AppStateExact.SmallSnapshotIff` say exactly when none of this happens,
  `AppStateExact.PatchHashIff` and `AppStateExact.SnapshotHashIff` exactly when the hash is right all
  the same, and `AppStateExact.OlderSetFails`, `AppStateExact.UnknownOperationFails` and
  `AppStateExact.SnapshotFails` give inputs.
- The stanza codec does not return every tree: text content comes back as bytes, or is rejected where
  it is a token or contains '@'; ints come back as decimal text, strings with '@' as JIDs, and a tag,
  attribute name or JID part that contains '@' and is no token is written in a form the string reader
  rejects (`StanzaRoundTrip.RejectedTree`). `StanzaRoundTrip.NodeKept` gives the exact condition. A
  packable string above 254 characters cannot be encoded; `StanzaRoundTrip.FrameEncodable` says
  exactly which trees can.
- `parse_jid` does not undo `jid_to_str` for every address: one without a device whose user ends in
  digits after a '.' or a ':' comes back as that of a device (`JidText.PrintedLost`).
  `JidText.PrintedBack` gives the exact condition.
- A comment in src/pywhats/signal/experimental/keys.py:138-140 calls the mask on the top bits of `s`
  stricter than `s < q`. It bounds `s` by 2^253, which is above q; the model follows the code, and
  `Xeddsa.VerifyIff` therefore speaks of `s` modulo q.
- The docstring of src/pywhats/socket/noise.py:32-38 names another default prologue than the
  constant; the prologue is a parameter here.

## Model

| member | source | states |
|---|---|---|
| RatchetTheorems.DeliveryTheorem | src/pywhats/signal/experimental/ratchet.py:191-284 | in every state of every run of two parties over a network that loses, reorders, repeats and invents messages, delivering any sent message opens it to exactly its plaintext if it was not opened before, its cached key was not evicted and the gaps are within max_skip; in every other case it does not open |
| RatchetTheorems.ForgeryTheorem | src/pywhats/signal/experimental/ratchet.py:238-284 | in every state of every run, no message opens that can be put together without the shared secret: under a MAC key that does not descend from it, by changing a message on its way, or by sending one back to its sender |
| Ratchet.OpenedIff | src/pywhats/signal/experimental/ratchet.py:254-284 | a message opens exactly when it was authenticated and sealed with the one key it is tried with |
| RatchetRun.TriedKeyIs | src/pywhats/signal/experimental/ratchet.py:238-284 | that key is of a position of the other side whose ratchet key the header names, or of a chain turned from the party's own root |
| RatchetTheorems.RunInvariant | src/pywhats/signal/experimental/ratchet.py:129-284 | the two-party invariant holds after every step of every run: the parties are one epoch apart, root, sending and receiving chains are those of one common log, every cached key is the key of a position already passed, and each position passed is opened, cached or evicted, exactly one of the three |
| RatchetTheorems.AtMostOnce | src/pywhats/signal/experimental/ratchet.py:238-284 | no message opens twice in a run, however often it is delivered |
| RatchetTheorems.NoEviction | src/pywhats/signal/experimental/ratchet.py:208-222 | as long as every delivery leaves at most 2000 keys to hold, exactly 2000 included, no cached key has been lost |
| RatchetEviction.EvictedExactly | src/pywhats/signal/experimental/ratchet.py:208-222 | a delivery that opens keeps exactly the newest 2000 of all keys held and skipped, in the order they were derived, and a position is evicted if and only if 2000 or more keys come after its own |
| SessionOnce.OpensOnce | src/pywhats/signal/experimental/ratchet.py:238-284 | in any history of one session that starts sound, with any messages from anyone in any order and any sends in between, no two messages open with the same key; in particular none opens twice |
| SessionOnce.NewSound | src/pywhats/signal/experimental/ratchet.py:150-187 | new sessions of both sides are sound: no key that was used can come up again |
| PreambleDelivery.PreambleDelivered | src/pywhats/messaging/sender.py:626-682 | in any interleaving of the sender: a plaintext that is asked to be sent in a session established from a bundle, or with a retry receipt, while its preamble lasts, arrives: its ciphertext, delivered as a prekey message to the responder that offered the bundle, opens there to that plaintext exactly when at most 1000 ciphertexts of the session came before it, whichever of them arrived and whatever sessions the responder has |
| RatchetTheorems.PreambleTheorem | src/pywhats/messaging/receiver.py:760-801 | message n of the initiator's first chain, at any moment of any run, opens at a responder that builds a new session from its preamble exactly when n <= 1000, and is otherwise refused for its gap |
| RatchetTheorems.SameSession | src/pywhats/signal/experimental/ratchet.py:150-205 | a run never rewrites its log: the ratchet keys, and the messages sent in each epoch, only grow |
| RatchetSystem.InitialInvariant | src/pywhats/signal/experimental/ratchet.py:150-187 | the states both sides build from one X3DH run satisfy the invariant |
| RatchetSystem.SendInvariant | src/pywhats/signal/experimental/ratchet.py:191-205 | encrypting keeps the two-party invariant |
| RatchetSystem.DeliverInvariant | src/pywhats/signal/experimental/ratchet.py:254-284 | a delivery, opened or not, keeps the two-party invariant |
| RatchetSystem.DeliveryOutcome | src/pywhats/signal/experimental/ratchet.py:254-284 | in a state that satisfies the invariant: the exact outcome of delivering any sent message |
| RatchetRun.HeldOpens | src/pywhats/signal/experimental/ratchet.py:238-251 | a message whose key is cached opens, and only that entry leaves the cache |
| RatchetRun.CurrentChain | src/pywhats/signal/experimental/ratchet.py:262-284 | a message of the current receiving chain: opened after skipping, or refused exactly if the gap exceeds max_skip |
| RatchetRun.NewEpoch | src/pywhats/signal/experimental/ratchet.py:225-284 | a message under a new ratchet key: the old chain is closed with the header's pn, the DH ratchet turns, the new chain is skipped to; opened exactly if both gaps are within max_skip |
| RatchetRun.StaleFails | src/pywhats/signal/experimental/ratchet.py:254-284 | a message already passed whose key is gone does not open |
| RatchetObject.RatchetState.Alice | src/pywhats/signal/experimental/ratchet.py:150-165 | the initiator's state: new ratchet key, root and sending chain from the peer's signed prekey |
| RatchetObject.RatchetState.Bob | src/pywhats/signal/experimental/ratchet.py:168-187 | the responder's state: no chains yet, its signed prekey as ratchet key |
| RatchetObject.RatchetState.RatchetEncrypt | src/pywhats/signal/experimental/ratchet.py:191-205 | the in-place update equals the specification's, also where there is no sending chain |
| RatchetObject.RatchetState.SkipMessageKeys | src/pywhats/signal/experimental/ratchet.py:208-222 | the in-place loop leaves the state the specification gives, on the raising path too, and turns exactly as often as SkipCost says |
| RatchetObject.RatchetState.TurnDhRatchet | src/pywhats/signal/experimental/ratchet.py:225-235 | all fields after a DH ratchet step |
| RatchetObject.RatchetState.RatchetDecrypt | src/pywhats/signal/experimental/ratchet.py:254-284 | the state left behind and the outcome, on every path that returns or raises, and how many keys were derived |
| Ratchet.SkipToCache | src/pywhats/signal/experimental/ratchet.py:208-222 | skipping appends the derived keys in order and keeps the newest 2000: strictly first in, first out |
| Ratchet.SkipToChain | src/pywhats/signal/experimental/ratchet.py:208-222 | skipping moves the receiving chain the exact number of steps and touches nothing but chain, counter and cache |
| Ratchet.DecryptBounded | src/pywhats/signal/experimental/ratchet.py:254-284 | whatever the message, at most 2000 keys, with distinct positions, are held after a decrypt |
| Ratchet.DecryptCost | src/pywhats/signal/experimental/ratchet.py:262-276 | one decrypt derives at most 2 * max_skip skipped keys |
| SessionStore.HistoryBounded | src/pywhats/signal/experimental/ratchet.py:208-222 | in every state reachable by encrypts, decrypts of anything, and reloads, at most 2000 keys are held and no position twice |
| SessionStore.RoundTrip | src/pywhats/signal/experimental/store.py:46-105 | deserializing a serialized state gives it back, with the skipped keys in the same order |
| SessionStore.DeserializeState | src/pywhats/signal/experimental/store.py:65-105 | the loop that fills the dictionary computes the specification, and another schema version is refused |
| SessionStore.ReadIff | src/pywhats/signal/experimental/store.py:65-105 | a record is read exactly if it has schema version 1; what is read has no position twice, and is written back as the same record if that had none |
| X3dh.Agreement | src/pywhats/signal/experimental/x3dh.py:77-152 | initiator and responder derive the same secret exactly when they used the same one-time prekey, or none |
| X3dh.SecretIs | src/pywhats/signal/experimental/x3dh.py:77-152 | both sides derive the secret of exactly these pairs, in this order: initiator identity with signed prekey, ephemeral with responder identity, ephemeral with signed prekey, and ephemeral with the one-time prekey if there is one; the initiator reports its keys and the bundle's ids |
| X3dh.RefusedIff | src/pywhats/signal/experimental/x3dh.py:77-100 | the initiator refuses exactly the bundles whose signature does not verify |
| Addressing.LidMapsAgree | src/pywhats/signal/experimental/lid_map.py:36-44 | after any sequence of set calls the two maps are mutually inverse, and every lookup equals that of the SQL table kept by delete-then-insert |
| Addressing.InMemoryLidMap.Set | src/pywhats/signal/experimental/lid_map.py:36-44 | the pops and assignments give the specification's pair of maps and keep them inverse |
| Addressing.PutExactly | src/pywhats/signal/experimental/lid_map.py:36-44 | a pairing replaces whatever either side was paired with, and no other lookup changes, in either direction |
| Addressing.SessionIdInjective | src/pywhats/messaging/addressing.py:11-13 | session ids tell addresses apart, device included, if their servers hold no '@' |
| Addressing.SessionIdsCollide | src/pywhats/messaging/addressing.py:11-13 | an input: with an '@' in a server, two addresses share one session id |
| Addressing.MigrateConserves | src/pywhats/messaging/addressing.py:16-35 | a migration happens exactly when the old address has a session and the alias has none, and the multiset of ratchet states is the same after it |
| Addressing.MigrateMoves | src/pywhats/messaging/addressing.py:16-35 | a migrated session is found at the alias with its identity and nothing is left behind; a refused migration changes nothing |
| Addressing.MigrateFrame | src/pywhats/messaging/addressing.py:16-35 | no third address is affected |
| Receiver.FailureLeavesStores | src/pywhats/messaging/receiver.py:753-825 | a pkmsg or msg that does not decrypt leaves sessions, identities and one-time prekeys as the address migration left them, although the ratchet changes its state before the MAC is checked |
| Receiver.OneTimePreKeyUse | src/pywhats/messaging/receiver.py:760-801 | a one-time prekey disappears exactly when a message that names it decrypts |
| ReceiverRuns.PreKeyOnce | src/pywhats/messaging/receiver.py:760-801 | in any run of the stores (messages from anyone, sends, drops, moves, new sessions, uploads of new prekeys), no one-time prekey is used by two prekey messages that open, whoever sent them and whatever ids they name |
| ReceiverRuns.PreKeyIdAgain | src/pywhats/messaging/receiver.py:760-801 | if two prekey messages that name the same id open, an upload in between gave out that id again |
| ReceiverRuns.FailuresInvisible | src/pywhats/messaging/receiver.py:753-825 | any run takes sessions, identities and one-time prekeys the same course if everything is taken out of the messages that do not open, and the same messages open |
| ReceiverRuns.InboxFrame | src/pywhats/messaging/receiver.py:753-825 | a session and its identity are untouched by whatever has to do with other addresses |
| ReceiverRuns.StepKeepsGood | src/pywhats/messaging/receiver.py:753-825 | every step keeps every stored session in a state in which no spent key can come up again and all receiving keys descend from the session's one secret |
| ReceiverRuns.TwiceMeansRebuilt | src/pywhats/messaging/receiver.py:753-825 | if two messages open with the same key in a run, at whatever addresses, a session of that key's secret was put into the store not for the first time |
| ReceiverRuns.MsgOpensOnce | src/pywhats/messaging/receiver.py:803-825 | one session followed through every move between addresses, by an arriving message at its own step or otherwise: if two messages open in it with the same key, a session of the same secret was built after the first and no later than the second; a msg builds none, so then strictly in between |
| Redelivery.RebuiltHow | src/pywhats/messaging/receiver.py:760-801 | two prekey messages that open in a run have the same secret if and only if both name no one-time prekey and agree in identity key, base key and signed prekey id |
| Redelivery.TwiceMeansRedelivered | src/pywhats/messaging/receiver.py:753-825 | for a secret that the sender's own sessions do not have: if two messages open with one key, then two such prekey messages of that secret opened, no later than the second of them |
| Redelivery.FollowedTwice | src/pywhats/messaging/receiver.py:753-825 | the same in one session followed through its moves: the redelivery is after the first of the two messages |
| Redelivery.RedeliveryIff | src/pywhats/messaging/receiver.py:760-801 | a prekey message that opened opens again, at any later time, from any address and whatever is stored, if and only if it names no one-time prekey |
| Redelivery.CanOpenTwiceIff | src/pywhats/messaging/receiver.py:753-825 | after a prekey message that opened, some continuation of the run opens a msg of its secret twice if and only if the prekey message names no one-time prekey |
| Redelivery.OpenedTwice | src/pywhats/messaging/receiver.py:753-825 | the input, from any stores: an initiator's prekey message without a one-time prekey and its next message as a msg, both delivered twice, all four open |
| Redelivery.NoneTwice | src/pywhats/messaging/receiver.py:753-825 | if every prekey message that opens names a one-time prekey, no two messages of a run open with the same key, through all moves and replacements of sessions |
| SenderInbox.RunIsInbox | src/pywhats/messaging/sender.py:626-723 | every run of the client, with sends, bundles, retries, drops, migrations, uploads and restarts, is such a run of the stores |
| SenderInbox.RunTwice | src/pywhats/messaging/receiver.py:753-825 | in any run of the client: if two inbound messages open with one key, two prekey messages for one session without a one-time prekey opened before |
| SenderInbox.RunOpensOnce | src/pywhats/messaging/receiver.py:753-825 | in any run of the client in which the prekey messages that open name one-time prekeys, no two inbound messages open with one key, so none opens twice |
| SenderInbox.RunPreKeyOnce | src/pywhats/messaging/receiver.py:760-801 | in any run of the client no one-time prekey is used by two prekey messages that open |
| PreKeyPool.RefilledAt | src/pywhats/messaging/prekey.py:313-318 | an upload keeps every key of the pool and puts each new one under an id of its own, above all ids in the pool |
| PreKeyPool.InMemoryPreKeyStore.HighestId | src/pywhats/signal/experimental/prekey_store.py:55-56 | the highest id in the pool, or 0 |
| PreKeyPool.InMemoryPreKeyStore.Upload | src/pywhats/messaging/prekey.py:313-318 | the saving loop leaves the specification's pool |
| PreKeyIds.NoGaps | src/pywhats/messaging/prekey.py:307-318 | from an empty pool, the ids that were ever in it are exactly those from 1 to the highest |
| PreKeyIds.ReuseIff | src/pywhats/messaging/prekey.py:307-318 | from an empty pool, an upload gives out an id that was given out before if and only if the highest id ever given out is no longer in the pool |
| PreKeyIds.IdReused | src/pywhats/messaging/prekey.py:307-318 | the input: upload one key, open a prekey message that names it, upload another; both have id 1, and a second prekey message that names id 1 opens |
| Receiver.DecryptFrame | src/pywhats/messaging/receiver.py:753-825 | beyond the migration, only the sender's own session and identity change |
| Receiver.MessageReceiver.MigrateKnownLidSender | src/pywhats/messaging/receiver.py:854-869 | the in-place move equals the specification's |
| Receiver.MessageReceiver.DecryptPkmsg | src/pywhats/messaging/receiver.py:760-801 | the stores after the imperative path, which changes a fresh ratchet object in place and stores it only on success |
| Receiver.MessageReceiver.DecryptMsg | src/pywhats/messaging/receiver.py:803-825 | the stores after the imperative path, which changes a loaded copy in place and stores it only on success |
| Receiver.MessageReceiver.Decrypt | src/pywhats/messaging/receiver.py:753-825 | the whole of _decrypt_enc on the stores equals the specification; if it raises, the stores are as the address migration left them |
| Sender.NoKeyReuse | src/pywhats/messaging/sender.py:626-682 | however sends, failed sends, drops, migrations, retries, restarts and inbound decrypts interleave at the awaits, no two ciphertexts are made with the same message key |
| Sender.RunOk | src/pywhats/messaging/sender.py:626-723 | in every reachable state the sending chain of each session is ahead of every ciphertext made from it, and no two sessions share a chain |
| Sender.StepOk | src/pywhats/messaging/sender.py:626-723 | each kind of step keeps that invariant |
| Sender.PreambleKept | src/pywhats/messaging/sender.py:493-505 | no step takes the preamble from a session except one in which a message from that peer decrypts or the session is dropped, replaced, moved or forgotten |
| Sender.PreambleRun | src/pywhats/messaging/sender.py:660-682 | over whole runs: every ciphertext for a session carries its preamble until the first such step |
| SenderOutputs.RunSends | src/pywhats/messaging/sender.py:626-682 | in any run: a send with a session that can encrypt and a known peer, and a bundle with a valid signature for a waiting send, each append exactly one ciphertext, for that address, with the plaintext that was asked to be sent, authenticated between the client and that peer; no other event appends any, and a send without session or peer waits with its plaintext |
| SenderOutputs.MadeOnRequest | src/pywhats/messaging/sender.py:626-682 | in any run every ciphertext was asked for by exactly one event and holds the plaintext of that request |
| SenderOutputs.DeferredSend | src/pywhats/messaging/sender.py:652-682 | a send without a session: when its bundle arrives, whatever happened in between, one ciphertext goes out with the plaintext the send was called with |
| SenderOutputs.PreambleEnds | src/pywhats/messaging/sender.py:493-505 | in any run: once a message from a peer has been opened, no ciphertext for the peer or its alternate address carries a preamble until a new session is established or moved there |
| SenderOutputs.RestartSends | src/pywhats/messaging/sender.py:639-661 | a session survives a restart: a later send needs no new bundle, goes to the same peer identity, and carries no preamble |
| SenderOutputs.DropExactly | src/pywhats/messaging/sender.py:709-723 | a drop takes session, identity and preamble from the peer and its alternate address and from no other |
| SenderOutputs.RetryExactly | src/pywhats/messaging/sender.py:446-452 | a retry receipt with a bundle drops the peer and its alternate address and, if the signature verifies, leaves a new session with its preamble at the peer's address |
| SenderOutputs.MoveExactly | src/pywhats/messaging/sender.py:780-791 | a move takes session, identity and preamble to the new address exactly if there is a session to move and none there; nothing else changes |
| SenderObject.MessageSender.EncryptForPeer | src/pywhats/messaging/sender.py:626-661 | load, encrypt in place, save, up to the ciphertext or the request for a bundle: exactly the specification's step |
| SenderObject.MessageSender.ResumeWithBundle | src/pywhats/messaging/sender.py:652-682 | establish, record, encrypt, save once the bundle is there: exactly the specification's step |
| SenderObject.MessageSender.EstablishFromBundle | src/pywhats/messaging/sender.py:688-707 | a new ratchet object and the preamble from one X3DH run, or an error for a bad signature |
| SenderObject.MessageSender.DropPeerSession | src/pywhats/messaging/sender.py:709-723 | the loop deletes session, identity and preamble of the peer and of its alternate address, and nothing else |
| SenderObject.MessageSender.NoteIncomingDecrypted | src/pywhats/messaging/sender.py:493-505 | the loop ends the preamble of exactly the peer and its alternate address |
| SenderObject.MessageSender.HandleRetryBundle | src/pywhats/messaging/sender.py:446-452 | drop, establish, save: exactly the specification's step |
| SenderObject.MessageSender.MigratePnSessionToLid | src/pywhats/messaging/sender.py:780-791 | the move of session, identity and preamble equals the specification's step |
| Sender.ReceiveChain | src/pywhats/messaging/receiver.py:803-825 | an inbound decrypt leaves the sending chain alone or replaces it by a new one |
| LtHash.OrderIrrelevant | src/pywhats/appstate/lthash.py:39-51 | the digest depends only on the multisets of added and removed items, byte for byte with 16-bit wrap-around |
| LtHash.UpdatesCompose | src/pywhats/appstate/lthash.py:39-51 | two updates in a row are one update with both lists |
| LtHash.UpdateUndone | src/pywhats/appstate/lthash.py:39-51 | removing what was added, and adding what was removed, restores the digest |
| LtHash.SubtractThenAddLane | src/pywhats/appstate/lthash.py:39-51 | each 16-bit lane of the result is the base plus the sum of the added lanes minus the removed ones, modulo 2^16 |
| LtHash.PointwiseInPlace | src/pywhats/appstate/lthash.py:30-36 | the in-place loop over two bytes at a time, on an array |
| LtHash.PointwiseBytes | src/pywhats/appstate/lthash.py:30-36 | each pair of bytes of the result, the low one first, is the sum or difference modulo 2^16 |
| LtHash.ComputeSubtractThenAdd | src/pywhats/appstate/lthash.py:39-51 | the loops over both lists equal the specification |
| Patches.FindPrevValue | src/pywhats/appstate/patches.py:157-173 | the backward loop with store fallback equals the recursive search |
| Patches.ReplayIs | src/pywhats/appstate/patches.py:132-154 | the last SET or REMOVE of an index decides what is under it; other operations do not |
| Patches.ValueMacIs | src/pywhats/appstate/patches.py:149-149 | the value that counts is the last 32 bytes of the blob |
| Patches.PrevValueIsLive | src/pywhats/appstate/patches.py:157-173 | what the backward search returns is exactly the value live at that point of the one-at-a-time replay |
| Patches.ComputeUpdateHash | src/pywhats/appstate/patches.py:132-154 | the loop that collects the added and removed values equals the specification |
| Patches.PatchBalance | src/pywhats/appstate/patches.py:132-154 | after any prefix of a patch: live sum plus removed values equals stored sum plus added values, lane by lane |
| Patches.UpdateHashSummarises | src/pywhats/appstate/patches.py:132-154 | the incremental hash of a patch is the from-scratch hash of the replayed map |
| Patches.UpdateHashOfAny | src/pywhats/appstate/patches.py:132-173 | whatever the operations, the hash of a patch is the from-scratch hash of one definite map: the replay in which everything but a SET takes its index's value out |
| Patches.SummaryUnique | src/pywhats/appstate/patches.py:132-154 | a map has one from-scratch hash |
| Patches.ComputeDeltas | src/pywhats/appstate/fetch.py:184-199 | the loop that splits mutations into additions and removals equals the specification |
| Patches.DeltasReplay | src/pywhats/appstate/fetch.py:250-258 | deleting the removed indexes and then putting the added ones leaves the replayed map |
| AppStateStore.StoresAgree | src/pywhats/signal/experimental/sqlite_store.py:396-449 | after any sequence of puts at any versions, index deletes and collection deletes, the one-entry-per-index memory answers every read as the SQL table with a row per version |
| AppStateStore.InMemoryAppStateStore.WriteMacs | src/pywhats/appstate/store.py:84-90 | the in-place loop equals the specification: an entry is replaced unless it is held at a newer version |
| AppStateStore.InMemoryAppStateStore.ClearMacs | src/pywhats/appstate/store.py:92-94 | the in-place loop equals the specification |
| AppStateStore.InMemoryAppStateStore.ClearVersion | src/pywhats/appstate/store.py:75-78 | deleting a collection removes its cursor and all its entries |
| AppStateSync.PersistLookup | src/pywhats/appstate/fetch.py:250-258 | what persisting any mutations at any version leaves at each index: the replayed value, or what was there if it is held at a newer version and the patch does not remove it |
| AppStateSync.OldVersionIff | src/pywhats/appstate/fetch.py:250-258 | persisting any mutations at any version leaves the replayed map exactly when no index that the patch sets, and never removes, is held at a newer version with another value |
| AppStateSync.FitsIff | src/pywhats/appstate/fetch.py:202-258 | for any operations and versions, the map that is hashed and the map that is stored are the same exactly when the patch fits: none of its SETs is stale, and nothing it leaves stored was last named by an unknown operation |
| AppStateSync.PatchAgrees | src/pywhats/appstate/patches.py:176-204 | a patch that fits keeps stored hash and stored map in agreement and replays itself on the map; if it raises, nothing changed |
| AppStateSync.SnapshotAgrees | src/pywhats/appstate/patches.py:207-237 | the same for a snapshot whose indexes are distinct and not stored yet, onto any collection |
| AppStateSync.PatchesAgree | src/pywhats/appstate/fetch.py:202-247 | the same for any list of patches that fit as far as they are reached, wherever it stops |
| AppStateSync.FailureKeepsPrefix | src/pywhats/appstate/fetch.py:202-247 | if a list of patches raises, there is a prefix that applied in full and the store is exactly as that prefix left it |
| AppStateSync.Resumes | src/pywhats/appstate/fetch.py:341-352 | after a patch raised, for a missing key or otherwise, applying the patches from it on to the stored cursor with the verdicts they get then leads to exactly what applying all of them would have |
| AppStateSync.ListAgrees | src/pywhats/appstate/fetch.py:202-247 | the same for a whole response, snapshot and patches |
| AppStateFetch.HistoryAgrees | src/pywhats/appstate/fetch.py:318-365 | after any sequence of fetches of any collections, failed or not and tried again or not, whose snapshots and patches fit as far as they are reached, the stored hash of every collection is the from-scratch hash of the values stored for it |
| AppStateFetch.OrderlyHistory | src/pywhats/appstate/fetch.py:318-365 | a server that sends SET and REMOVE only, versions that do not go back, and snapshots with distinct indexes for empty collections never sends what does not fit |
| AppStateApplied.FetchApplies | src/pywhats/appstate/fetch.py:318-365 | after a fetch whose changes fit, raising or not, the collection is the replay of everything the server sent, page by page up to the first response without more or the first snapshot or patch not accepted, from the stored map or, under a full sync, the empty one; the cursor is at the last version applied; a synced collection that is to be left alone stays as it was |
| AppStateApplied.IgnoredIff | src/pywhats/appstate/fetch.py:328-333 | the responses have no influence if and only if only_if_not_synced is set and the cursor after clearing is not at version 0 |
| AppStateApplied.HistoryApplies | src/pywhats/appstate/fetch.py:318-365 | after any sequence of fetches of any collections, every collection and its version are what the accepted changes of its own fetches make of it |
| AppStateExact.PatchHashIff | src/pywhats/appstate/patches.py:132-154 | for any patch, store, version and size: the hash stays right under every expansion exactly when the hashed map and the stored map hold each value equally often, up to multiples of 2^16 |
| AppStateExact.MisfitsIff | src/pywhats/appstate/patches.py:132-154 | for any patch, store, version and size: the same, judged at the indexes that do not fit alone |
| AppStateExact.SmallPatchIff | src/pywhats/appstate/patches.py:132-154 | with fewer than 2^16 indexes that do not fit: exactly when no stored value's index was last named by an unknown operation, and the values sent for the indexes held newer are together the values they are held with |
| AppStateExact.UnknownOperationIff | src/pywhats/appstate/patches.py:146-154 | with nothing held newer and fewer than 2^16 indexes that do not fit: exactly when no stored value's index was last named by an operation other than SET and REMOVE |
| AppStateExact.OneSetIff | src/pywhats/appstate/store.py:84-90 | one SET: the hash stays right exactly when its index is not held at a newer version with another value |
| AppStateExact.SnapshotHashIff | src/pywhats/appstate/patches.py:207-237 | for any snapshot onto any stored map, of any size: the hash stays right under every expansion exactly when what was stored and what comes hold each value as often as what is kept, up to multiples of 2^16 |
| AppStateExact.SmallSnapshotIff | src/pywhats/appstate/patches.py:207-237 | with fewer than 2^16 records, onto any stored map: exactly when no index occurs twice or is stored already |
| AppStateExact.OlderSetFails | src/pywhats/appstate/store.py:84-90 | an input from the empty store: after a first patch, an older SET of its index makes hash and map disagree |
| AppStateExact.UnknownOperationFails | src/pywhats/appstate/patches.py:146-154 | an input from the empty store: after a first patch, operation 2 on its index makes hash and map disagree |
| AppStateExact.SnapshotFails | src/pywhats/appstate/patches.py:224-226 | inputs from the empty store: after a first patch, a snapshot that holds its index, or a new index twice, makes hash and map disagree |
| AppStateSyncer.PersistTo | src/pywhats/appstate/fetch.py:250-258 | the store object after _persist |
| AppStateSyncer.ApplyPatchList | src/pywhats/appstate/fetch.py:202-247 | the loop over the mutable store, with the raising path, equals the specification |
| AppStateSyncer.FetchCollection | src/pywhats/appstate/fetch.py:318-365 | the fetch loop over the mutable store: full sync, early return, paging, and stopping on an error |
| StanzaRoundTrip.NodeBack | src/pywhats/binary/encoder.py:88-246 | for every tree the encoder accepts: the decoder, given its bytes and then any bytes at all, returns the normal form of the tree and stops exactly where the encoder stopped; where there is no normal form it raises |
| StanzaRoundTrip.NodeKept | src/pywhats/binary/encoder.py:88-133 | a tree comes back unchanged exactly when it is canonical: plain tags, names and string values, JIDs in normal form, no text content |
| StanzaRoundTrip.FrameRoundTrip | src/pywhats/binary/encoder.py:56-69 | decode(encode(n)), compressed or not, is the normal form of n, and is n exactly when n is canonical |
| StanzaRoundTrip.JidKept | src/pywhats/binary/encoder.py:230-246 | a JID comes back unchanged exactly if its text parts are plain, its device fits a byte and a non-zero device has a known server |
| StanzaRoundTrip.ValueBack | src/pywhats/binary/encoder.py:118-133 | every attribute value: ints become decimal text, strings with '@' their parsed JID, bytes decoded text |
| StanzaRoundTrip.StringBack | src/pywhats/binary/encoder.py:136-170 | a string comes back exactly when it is plain; otherwise the string reader raises |
| StanzaRoundTrip.PackedBack | src/pywhats/binary/encoder.py:180-198 | nibble and hex packing of even and odd strings is undone |
| StanzaRoundTrip.BytesBack | src/pywhats/binary/encoder.py:201-219 | each of the three length forms is read back exactly |
| StanzaRoundTrip.StringWritable | src/pywhats/binary/encoder.py:180-219 | which plain strings the encoder refuses: packable ones above 254 characters, others from 4 GiB |
| StanzaRoundTrip.FrameEncodable | src/pywhats/binary/encoder.py:56-246 | the encoder raises exactly on the trees that are not encodable: counts below 2^16, byte strings below 4 GiB, strings and JIDs that can be written, at every level |
| StanzaRoundTrip.RejectedTree | src/pywhats/binary/encoder.py:136-170 | an input: a tag with an '@' that is no token is encoded and then rejected by the decoder |
| StanzaRoundTrip.RefusedTree | src/pywhats/binary/encoder.py:180-184 | an input: a tag of 255 digits is refused |
| Stanza.ReadNode | src/pywhats/binary/decoder.py:93-109 | the decoder terminates on every byte string, and a node takes at least three bytes |
| Stanza.ReadNodes | src/pywhats/binary/decoder.py:112-117 | n nested nodes take at least 3 n bytes |
| Stanza.TokenIff | src/pywhats/binary/tokens.py:1308-1322 | a string is written as a token exactly when it is non-empty and in one of the tables |
| StanzaRoundTrip.TokenBack | src/pywhats/binary/tokens.py:1316-1338 | looking a token up and reading the slot back gives the string, with every index in range |
| JidText.ParsedColon | src/pywhats/binary/jid.py:26-45 | user:d@server, for every user without '@', every d and every server, is the address of device d |
| JidText.ParsedDot | src/pywhats/binary/jid.py:26-45 | so is user.d@server |
| JidText.ParsedBare | src/pywhats/binary/jid.py:26-45 | user@server keeps the user whole exactly if it does not end in digits after a ':' or a '.' |
| JidText.PrintedBack | src/pywhats/binary/jid.py:48-53 | parsing undoes jid_to_str exactly for the addresses described by Printable |
| JidText.PrintedLost | src/pywhats/binary/jid.py:48-53 | inputs: an address whose user ends in a '.' and digits is printed as that of a device |
| JidText.DeviceBack | src/pywhats/binary/encoder.py:118-133 | an attribute that is the text of a device's address comes back as the JID of that user, server and device |
| JidText.ScalarsBack | src/pywhats/binary/encoder.py:118-133 | an int comes back as a text that stands for it, sign included, and a truth value as true or false |
| StanzaWire.ListWire | src/pywhats/binary/encoder.py:75-85 | the three list headers in numbers, and which sizes cannot be written |
| StanzaWire.BytesWire | src/pywhats/binary/encoder.py:201-227 | the three byte-string forms in numbers: tag, length with the high byte first, bytes; and which cannot be written |
| StanzaWire.StringWire | src/pywhats/binary/encoder.py:136-198 | which form every string takes, and the bytes of each: token bytes, packed half bytes with the high one first and 15 as filler, or raw |
| StanzaWire.DeviceWire | src/pywhats/binary/encoder.py:230-246 | an address with a device: tag, number of the server, device modulo 256, user |
| StanzaWire.PairWire | src/pywhats/binary/encoder.py:230-246 | an address without: tag, user or an empty list, server |
| StanzaPrefix.CutShort | src/pywhats/binary/decoder.py:45-238 | no encoding of a tree that comes back decodes when it is cut short, wherever that is |
| StanzaPrefix.NodeExtends | src/pywhats/binary/decoder.py:45-238 | what follows a stanza does not change what is read, for any bytes |
| StanzaPrefix.PrefixFree | src/pywhats/binary/encoder.py:88-133 | no encoding is a proper prefix of another |
| StanzaIo.Encode | src/pywhats/binary/encoder.py:56-69 | the imperative encoder over one growing buffer gives the frame of the specification, or raises where it does |
| StanzaIo.Decode | src/pywhats/binary/decoder.py:67-75 | the imperative decoder gives what the specification gives on every frame |
| StanzaIo.Writer.PutNode | src/pywhats/binary/encoder.py:88-97 | the buffer grows by exactly the specification's bytes, or the writer raises |
| StanzaIo.Writer.PutContent | src/pywhats/binary/encoder.py:100-115 | likewise for contents |
| StanzaIo.Writer.PutString | src/pywhats/binary/encoder.py:136-170 | likewise for the choice between tokens, JIDs, packing and raw bytes |
| StanzaIo.Writer.PutPacked | src/pywhats/binary/encoder.py:180-198 | likewise for the packing loop |
| StanzaIo.Writer.PutJid | src/pywhats/binary/encoder.py:230-246 | likewise for the two JID forms |
| StanzaIo.Reader.Tree | src/pywhats/binary/decoder.py:93-109 | the advancing reader returns the specification's value and stands where its parse ends, or raises where it fails |
| StanzaIo.Reader.Attrs | src/pywhats/binary/decoder.py:101-104 | likewise for the loop that fills the attribute dictionary |
| StanzaIo.Reader.Symbols | src/pywhats/binary/decoder.py:182-194 | likewise for the loop over packed bytes; no alphabet index is out of range |
| StanzaIo.Reader.Payload | src/pywhats/binary/decoder.py:162-179 | likewise for the byte payload forms |
| NoiseTheorems.HandshakeAgrees | src/pywhats/socket/noise.py:319-415 | an initiator and a mirrored responder that start in step complete the handshake with the same hash and chaining key, each payload and static key recovered, and the same transport ciphers on the third message only |
| NoiseTheorems.HandshakeIff | src/pywhats/socket/noise.py:274-291 | the handshake completes exactly when both started from the same protocol name digest and prologue; otherwise the initiator rejects the second message |
| NoiseTheorems.MessageBack | src/pywhats/socket/noise.py:319-415 | any message written by one side in step is read back with its payload by the other, and both are in step after it |
| NoiseTheorems.MessageOnly | src/pywhats/socket/noise.py:368-415 | a message accepted with genuine keys in it is byte for byte what the other side writes for the payload it yields |
| NoiseTheorems.SecondLegOnly | src/pywhats/socket/noise.py:368-415 | the second message is accepted with the responder's keys exactly when the responder writes it for some payload |
| NoiseTheorems.ThirdLegOnly | src/pywhats/socket/noise.py:368-415 | the third message is accepted with the initiator's static key exactly when the initiator writes it for some payload |
| NoiseKeys.HandshakeKeys | src/pywhats/socket/noise.py:274-415 | the three messages byte for byte and the final keys in terms of the four key pairs: the chaining key takes in the secrets of (ei, er), (ei, sr) and (si, er), in this order, and the transport keys are its two halves |
| NoiseKeys.SecondReadIff | src/pywhats/socket/noise.py:368-415 | the second message is accepted with ephemeral key er, static key s and a payload exactly if it is, byte for byte, s sealed under the secret of (ei, er) and the payload sealed under that and the secret of (ei, s) |
| NoiseKeys.ThirdReadIff | src/pywhats/socket/noise.py:368-415 | the third message is accepted with static key s and a payload exactly if it is s sealed under the key of the second payload and the payload sealed under the secret of (s, er) |
| NoiseKeys.ThirdWritten | src/pywhats/socket/noise.py:319-366 | the initiator's third message and its final state, whatever responder it has heard from |
| NoiseKeys.NameDigestIff | src/pywhats/socket/noise.py:274-291 | protocol names are told apart, up to zeroes after names of at most 32 bytes |
| NoiseTransport.Boundary | src/pywhats/socket/noise.py:462-476 | frame 2^31 - 1 is the last under the first key; frame 2^31 is the first after the rekey, with nonce 0 |
| NoiseTransport.FrameNumber | src/pywhats/socket/noise.py:462-468 | the i-th encrypted frame is sealed under the key rekeyed i / 2^31 times with nonce i mod 2^31 |
| NoiseTransport.NoNonceReuse | src/pywhats/socket/noise.py:462-468 | two frames, of either direction, share key and nonce only if they are the same frame, and the nonce reserved for rekeying is never reached |
| NoiseTransport.RecvAt | src/pywhats/socket/noise.py:470-476 | the receiver accepts exactly a frame with the key and nonce of its position; anything else, at the rekey boundary too, leaves the position as it was |
| NoiseTransport.ReceivedPrefix | src/pywhats/socket/noise.py:470-476 | whatever is lost, repeated or injected, the plaintexts accepted are exactly the longest prefix of those sent that came in order, and the receiver stands ready for the next |
| NoiseObjects.CipherState.Decrypt | src/pywhats/socket/noise.py:148-162 | a rejected ciphertext leaves key and counter as they were |
| NoiseObjects.CipherState.Rekey | src/pywhats/socket/noise.py:164-179 | a new key, the counter unchanged; refused without a key |
| NoiseObjects.SymmetricState.EncryptThenHash | src/pywhats/socket/noise.py:224-228 | the in-place update equals the specification's |
| NoiseObjects.SymmetricState.DecryptThenHash | src/pywhats/socket/noise.py:230-240 | the in-place update equals the specification's, or raises |
| NoiseObjects.SymmetricState.SplitCiphers | src/pywhats/socket/noise.py:242-250 | two fresh ciphers with the two halves of the chaining key |
| NoiseObjects.HandshakeState.WriteOut | src/pywhats/socket/noise.py:319-366 | the token loop over mutable state equals the specification's message, and splits only when no message is left |
| NoiseObjects.HandshakeState.ReadIn | src/pywhats/socket/noise.py:368-415 | the offset loop over mutable state equals the specification's parse, with every truncation error |
| NoiseObjects.Transport.Send | src/pywhats/socket/noise.py:462-468 | rekey at the boundary, then one frame; the counter moves even if the channel fails afterwards |
| NoiseObjects.Transport.Recv | src/pywhats/socket/noise.py:470-476 | rekey at the boundary, then accept or reject |
| GroupMessages.StanzaSelfContained | src/pywhats/messaging/sender.py:353-369 | with its own distribution message ingested, the group ciphertext of a stanza decrypts at any receiver whatever sender keys it holds, and no other slot changes |
| GroupMessages.UnsignedDropped | src/pywhats/messaging/receiver.py:549-578 | a group ciphertext whose last 64 bytes do not verify is dropped and leaves the stores as its distribution message left them |
| GroupMessages.HeldChain | src/pywhats/messaging/receiver.py:549-575 | without a distribution message, message i of a chain held at n decrypts exactly when n <= i <= n + 2000, and otherwise nothing changes |
| GroupMessages.IngestExactly | src/pywhats/messaging/receiver.py:595-616 | only a distribution message that parses changes the store, and only its own slot |
| GroupMessages.SendsAdvance | src/pywhats/messaging/sender.py:353-369 | the j-th of any number of sends carries message j of the chain, so no iteration is used twice |
| GroupMessages.MessageKeysDiffer | src/pywhats/signal/experimental/sender_key.py:93-103 | two messages of one chain have different keys |
| GroupMessages.InMemorySenderKeyStore.Receive | src/pywhats/messaging/receiver.py:549-575 | the store after ingesting and decrypting equals the specification; a failure keeps what was ingested |
| GroupMessages.InMemorySenderKeyStore.Emit | src/pywhats/messaging/sender.py:353-369 | load or create, distribute, encrypt, save; nothing is saved on an error |
| SenderKey.DecryptAt | src/pywhats/signal/experimental/sender_key.py:147-192 | message i at a receiver standing at n: decrypted to its plaintext exactly when n <= i <= n + 2000, and otherwise which error |
| SenderKey.SignatureIff | src/pywhats/signal/experimental/sender_key.py:167-171 | a message is refused for its signature exactly if its last 64 bytes are no signature over the rest under the distributed key |
| SenderKey.SkmsgIs | src/pywhats/signal/experimental/sender_key.py:147-157 | what a sender puts on the wire: version byte, chain id, iteration, the padded plaintext under the iteration's key, and a signature over all of it |
| SenderKey.RunOutcomes | src/pywhats/signal/experimental/sender_key.py:147-192 | any deliveries of a chain's messages in any order: exactly the accepted ones come out, unchanged, and the others change nothing |
| SenderKey.AcceptedOnce | src/pywhats/signal/experimental/sender_key.py:173-186 | the iterations accepted between two distributions increase, so none is accepted twice |
| SenderKey.RisingAccepted | src/pywhats/signal/experimental/sender_key.py:173-186 | a sequence of iterations is accepted in full exactly when it rises and leaves out at most 2000 at a time |
| SenderKey.Distributed | src/pywhats/signal/experimental/sender_key.py:119-144 | a processed distribution message gives the sender's chain as it stands, verify-only |
| SenderKey.Decrypt | src/pywhats/signal/experimental/sender_key.py:160-192 | the fast-forward loop equals the specification on every path |
| SenderKey.PaddingExact | src/pywhats/signal/experimental/sender_key.py:232-247 | removing PKCS#7 padding undoes adding it and accepts nothing else among whole blocks |
| Xeddsa.SignVerifies | src/pywhats/signal/experimental/keys.py:79-163 | every signature made with any private key, message and nonce verifies under the matching public key |
| Xeddsa.VerifyIff | src/pywhats/signal/experimental/keys.py:112-163 | every 64-byte signature, of either key sign, verifies exactly when its first half R encodes rB for some r, the top bits of its scalar are clear, and the scalar is r + sha(R + A + message) * a modulo the order, where A is the key with that sign and a its scalar |
| Xeddsa.BindsMessage | src/pywhats/signal/experimental/keys.py:79-163 | a signature made for one message verifies for another exactly if sha(R + A + message) agrees for both modulo the order |
| Xeddsa.NonceIff | src/pywhats/signal/experimental/keys.py:94-105 | two signatures have the same first half exactly if the hashes of prefix, signing scalar, message and random bytes agree modulo the order |
| Xeddsa.KeyMatches | src/pywhats/signal/experimental/keys.py:63-76 | the key rebuilt with either sign decodes to the multiple of the base point by the matching scalar |
| Xeddsa.ScalarTopBits | src/pywhats/signal/experimental/keys.py:132-143 | a reduced scalar survives its 32 bytes and leaves the three top bits clear |
| Xeddsa.ClampNonZero | src/pywhats/signal/experimental/_ed25519.py:145-151 | a clamped scalar is never a multiple of the group order |
| Xeddsa.ClampIs | src/pywhats/signal/experimental/_ed25519.py:145-151 | clamping clears the three low bits, sets the top two to 01 and keeps the rest |
| Xeddsa.ScalarMult | src/pywhats/signal/experimental/_ed25519.py:71-78 | double-and-add computes the s-fold sum |
| Xeddsa.TimesBase | src/pywhats/signal/experimental/_ed25519.py:112-113 | two multiples of the base point are equal exactly when the scalars agree modulo the order, so reducing first is sound |
| Xeddsa.CalcKeyPair | src/pywhats/signal/experimental/keys.py:63-76 | the imperative key pair equals the specification |
| Xeddsa.XeddsaSign | src/pywhats/signal/experimental/keys.py:79-109 | the imperative signature equals the specification, with both length errors |
| Xeddsa.XeddsaVerify | src/pywhats/signal/experimental/keys.py:112-163 | the imperative verdict equals the specification on every input |

## Left out

- AES, HMAC, SHA, HKDF, X25519, zlib, base64, JSON and protobuf themselves; low-order X25519 points, truncated MACs and malformed records are not modelled.
- The elliptic-curve formulas: a commutative group of the right order with the stated coordinate laws is assumed, and extended coordinates are abstracted away.
- The token tables are arbitrary tables of the right shape; UTF-8 is a pair of functions of which decoding undoes encoding.
- `str.isdigit` on digits outside ASCII, and negative device numbers, in JIDs.
- Websocket framing, the client facade, media, pairing, device files, logging, event handlers, presence, receipts, USync and event mapping: there is little to prove about them.
- The protobuf envelope of the handshake driver (src/pywhats/socket/noise.py:512-573); the suite name is a parameter, one cipher is modelled.
- Scheduling: an interleaving is a sequence of steps between awaits (`Sender.Next`), and each method of `SenderObject.MessageSender` is one such step; the event loop itself, acknowledgement timeouts, the cache of sent messages and its retry limit, random padding and message bodies are not modelled.
- The saved session of a retry receipt has no identity until it is next established; no claim is made that every session has its identity.
- The count query that decides on an upload of one-time prekeys, and the id of a bundle; the number of keys in an upload is arbitrary.
- Crashes between the separately committed writes of `_persist`, and overlapping fetches of one collection.
- `SqliteStore.transaction` and the other SQL facets; the LID map and app-state tables are modelled by their row semantics.
- The responder of the Noise handshake is the specification's mirror; the program has the initiator only.
- AppStateExact.SmallSnapshotIff: stated below 2^16 records, because from there on repeating a record 2^16 times leaves every lane unchanged and the equivalence fails; AppStateExact.SnapshotHashIff is the statement for all sizes.
- The signed prekey of the client is fixed: the program knows the one it advertises only (src/pywhats/client.py:971-975).
- AppStateExact.SmallPatchIff: stated below 2^16 indexes that do not fit, because from there on values can occur 2^16 times too often; AppStateExact.MisfitsIff is the statement for all sizes.
- AppStateExact.UnknownOperationIff: the same bound, for the same reason.
- Xeddsa.BindsMessage: that the group order is prime is a hypothesis (`Xeddsa.PrimeOrder`); it is not proved of the constant.
- PreambleDelivery.PreambleDelivered: a bundle with a one-time prekey is covered as far as the responder still holds that key.
