/** Concurrent sends of src/pywhats/messaging/sender.py, interleaved with inbound messages, session
    drops, migrations, retries and restarts.  A coroutine runs without interruption from one `await`
    that suspends to the next, so each step below is one such stretch. */
module Sender {
  import opened Outcomes
  import opened SymbolicCrypto
  import opened Ratchet
  import opened Messages
  import opened Addressing
  import opened Receiver
  import PreKeyPool
  import X3dh

  datatype PendingPreKey = PendingPreKey(
    oneTimePreKeyId: Option<nat>, signedPreKeyId: nat, baseKey: PublicKey, identityKey: PublicKey)

  datatype Meta = Meta(peerIdentity: PublicKey, pending: Option<PendingPreKey>)

  /** One ciphertext handed to the transport. */
  datatype Output = Output(sid: string, preamble: Option<PendingPreKey>, message: SignalMessage)

  /** A send that is waiting for the peer's prekey bundle. */
  datatype Task = Task(sid: string, plaintext: Plaintext)

  /** `seen` holds every key that has been generated or received so far. */
  datatype World = World(
    me: Identity, stores: Stores, lids: LidMap, meta: map<string, Meta>, waiting: map<nat, Task>,
    outputs: seq<Output>, seen: set<PrivateKey>)

  datatype Event =
    | Begin(task: nat, peer: Jid, plaintext: Plaintext)
    | BundleArrives(task: nat, bundle: X3dh.Bundle, ephemeral: PrivateKey, ratchetKey: PrivateKey)
    | BundleFails(task: nat)
    | Retry(peer: Jid, bundle: X3dh.Bundle, ephemeral: PrivateKey, ratchetKey: PrivateKey)
    | Drop(peer: Jid)
    | Learn(pn: string, lid: string)
    | MigrateSession(from: Jid, to: Jid)
    | Inbound(sender: Jid, enc: Enc, newKey: PrivateKey)
    | Refill(keys: seq<PrivateKey>)
    | Restart

  /** The peer's address and its alternate in the other address space. */
  function Aliases(lids: LidMap, peer: Jid): set<string> {
    if peer.server == "lid" then
      if peer.user in lids.lidToPn
      then {SessionId(peer), SessionId(Jid(lids.lidToPn[peer.user], "s.whatsapp.net", peer.device))}
      else {SessionId(peer)}
    else
      if peer.user in lids.pnToLid
      then {SessionId(peer), SessionId(Jid(lids.pnToLid[peer.user], "lid", peer.device))}
      else {SessionId(peer)}
  }

  /** Encrypt with `state`, save the advanced state, and emit the envelope. */
  function EncryptAndSave(w: World, sid: string, state: State, meta: Meta, plaintext: Plaintext): World {
    var (s, sent) := Encrypt(state, plaintext);
    if sent.None? then w
    else
      var out := Output(sid, meta.pending, Envelope(sent.value, Pub(w.me.private), meta.peerIdentity));
      w.(stores := w.stores.(sessions := w.stores.sessions[sid := s]), outputs := w.outputs + [out])
  }

  /** What is known about the peer's session: from memory, or else the identity from disk. */
  function MetaFor(w: World, sid: string): Option<Meta> {
    if sid in w.meta then Some(w.meta[sid])
    else if sid in w.stores.sessions && sid in w.stores.identities then Some(Meta(w.stores.identities[sid], None))
    else None
  }

  /** The first stretch of `_encrypt_for_peer`: up to the ciphertext, or to the bundle request. */
  function AfterBegin(w: World, task: nat, sid: string, plaintext: Plaintext): World {
    var meta := MetaFor(w, sid);
    if sid in w.stores.sessions && meta.Some? then
      EncryptAndSave(w.(meta := w.meta[sid := meta.value]), sid, w.stores.sessions[sid], meta.value, plaintext)
    else
      w.(waiting := w.waiting[task := Task(sid, plaintext)])
  }

  /** `_establish_session_from_bundle`. */
  function Establish(w: World, bundle: X3dh.Bundle, ephemeral: PrivateKey, ratchetKey: PrivateKey): Option<(State, Meta)> {
    var r := X3dh.Initiator(w.me.private, bundle, ephemeral);
    if r.None? then None
    else Some((InitAlice(r.value.secret, bundle.signedPreKey, ratchetKey),
               Meta(bundle.identity, Some(PendingPreKey(r.value.oneTimePreKeyId, r.value.signedPreKeyId,
                                                        r.value.ephemeral, r.value.identity)))))
  }

  /** The stretch that starts when the bundle is there. */
  function AfterBundle(w: World, task: nat, bundle: X3dh.Bundle, ephemeral: PrivateKey, ratchetKey: PrivateKey): World
    requires task in w.waiting
  {
    var t := w.waiting[task];
    var w1 := w.(waiting := w.waiting - {task}, seen := w.seen + {ratchetKey, bundle.signedPreKey.owner});
    var session := Establish(w, bundle, ephemeral, ratchetKey);
    if session.None? then w1
    else
      var (state, meta) := session.value;
      var w2 := w1.(meta := w1.meta[t.sid := meta],
                    stores := w1.stores.(identities := w1.stores.identities[t.sid := meta.peerIdentity]));
      EncryptAndSave(w2, t.sid, state, meta, t.plaintext)
  }

  function AfterDrop(w: World, peer: Jid): World {
    var gone := Aliases(w.lids, peer);
    w.(stores := w.stores.(sessions := w.stores.sessions - gone, identities := w.stores.identities - gone),
       meta := w.meta - gone)
  }

  /** A retry receipt that carries a bundle: drop the session and store a new one. */
  function AfterRetry(w: World, peer: Jid, bundle: X3dh.Bundle, ephemeral: PrivateKey, ratchetKey: PrivateKey): World {
    var w1 := AfterDrop(w, peer).(seen := w.seen + {ratchetKey, bundle.signedPreKey.owner});
    var session := Establish(w, bundle, ephemeral, ratchetKey);
    if session.None? then w1
    else
      var (state, meta) := session.value;
      w1.(stores := w1.stores.(sessions := w1.stores.sessions[SessionId(peer) := state]),
          meta := w1.meta[SessionId(peer) := meta])
  }

  function AfterMigrate(w: World, pn: string, lid: string): World {
    var (sessions, identities, moved) := Migrate(w.stores.sessions, w.stores.identities, pn, lid);
    var meta := if moved && pn in w.meta then w.meta[lid := w.meta[pn]] - {pn} else w.meta;
    w.(stores := w.stores.(sessions := sessions, identities := identities), meta := meta)
  }

  function PeerKey(enc: Enc): set<PrivateKey> {
    if enc.Undecodable? then {} else {enc.message.header.dh.owner}
  }

  /** The preamble dropped for the given sessions. */
  function Acknowledged(meta: map<string, Meta>, heard: set<string>): map<string, Meta> {
    map sid | sid in meta :: if sid in heard then meta[sid].(pending := None) else meta[sid]
  }

  /** An inbound message: decrypt, and on success stop sending the preamble to that peer. */
  function AfterInbound(w: World, sender: Jid, enc: Enc, newKey: PrivateKey): World
    requires ValidStores(w.stores)
  {
    var (stores, plaintext) := DecryptEnc(w.stores, w.me, w.lids, sender, enc, newKey);
    var meta := if plaintext.Some? then Acknowledged(w.meta, Aliases(w.lids, sender)) else w.meta;
    w.(stores := stores, meta := meta, seen := w.seen + {newKey} + PeerKey(enc))
  }

  /** Generated keys are new, and nobody else holds one before it is used. */
  ghost predicate Enabled(w: World, event: Event) {
    match event
    case BundleArrives(task, bundle, _, ratchetKey) => task in w.waiting && ratchetKey !in w.seen
    case BundleFails(task) => task in w.waiting
    case Retry(_, _, _, ratchetKey) => ratchetKey !in w.seen
    case Inbound(_, _, newKey) => newKey !in w.seen
    case _ => true
  }

  ghost function Next(w: World, event: Event): World
    requires ValidStores(w.stores)
    requires event.BundleArrives? || event.BundleFails? ==> event.task in w.waiting
  {
    match event
    case Begin(task, peer, plaintext) => AfterBegin(w, task, SessionId(peer), plaintext)
    case BundleArrives(task, bundle, ephemeral, ratchetKey) => AfterBundle(w, task, bundle, ephemeral, ratchetKey)
    case BundleFails(task) => w.(waiting := w.waiting - {task})
    case Retry(peer, bundle, ephemeral, ratchetKey) => AfterRetry(w, peer, bundle, ephemeral, ratchetKey)
    case Drop(peer) => AfterDrop(w, peer)
    case Learn(pn, lid) => w.(lids := Put(w.lids, pn, lid))
    case MigrateSession(from, to) => AfterMigrate(w, SessionId(from), SessionId(to))
    case Inbound(sender, enc, newKey) => AfterInbound(w, sender, enc, newKey)
    case Refill(keys) => w.(stores := w.stores.(oneTimePreKeys := PreKeyPool.Refilled(w.stores.oneTimePreKeys, keys)))
    case Restart => w.(meta := map[], waiting := map[])
  }

  // ---- Chains ----

  /** The chain starts at a DH output of two keys seen so far. */
  predicate Known(k: Key, seen: set<PrivateKey>) {
    var o := Origin(k);
    o.ChainKey? && o.dh.DhOutput? && o.dh.low in seen && o.dh.high in seen
  }

  function KeyOf(out: Output): Key {
    out.message.ciphertext.mk
  }

  /** A session's sending chain is beyond every ciphertext made from that chain. */
  ghost predicate Unused(chain: Key, outputs: seq<Output>) {
    forall i | 0 <= i < |outputs| ::
      KeyOf(outputs[i]).MessageKey? && (Origin(KeyOf(outputs[i]).chain) == Origin(chain) ==> Index(KeyOf(outputs[i]).chain) < Index(chain))
  }

  ghost predicate OutputsOk(outputs: seq<Output>, seen: set<PrivateKey>) {
    && (forall i | 0 <= i < |outputs| :: KeyOf(outputs[i]).MessageKey? && Known(KeyOf(outputs[i]).chain, seen))
    && forall i, j | 0 <= i < j < |outputs| :: KeyOf(outputs[i]) != KeyOf(outputs[j])
  }

  /** Sessions that can send: their chains are known, unused from here on, and not shared. */
  ghost predicate SessionsOk(sessions: map<string, State>, outputs: seq<Output>, seen: set<PrivateKey>) {
    && (forall sid | sid in sessions && sessions[sid].cks.Some? ::
          Known(sessions[sid].cks.value, seen) && Unused(sessions[sid].cks.value, outputs))
    && forall a, b | a in sessions && b in sessions && a != b && sessions[a].cks.Some? && sessions[b].cks.Some? ::
         Origin(sessions[a].cks.value) != Origin(sessions[b].cks.value)
  }

  ghost predicate Invariant(w: World) {
    && ValidStores(w.stores)
    && OutputsOk(w.outputs, w.seen) && SessionsOk(w.stores.sessions, w.outputs, w.seen)
  }

  // ---- Each kind of step keeps the invariant ----

  /** A chain turned with a new key is nobody else's. */
  predicate FreshChain(k: Key, newKey: PrivateKey, seen: set<PrivateKey>) {
    k.ChainKey? && k.dh.DhOutput? && (k.dh.low == newKey || k.dh.high == newKey) && k.dh.low in seen && k.dh.high in seen
  }

  lemma {:induction false} SeenGrows(sessions: map<string, State>, outputs: seq<Output>, seen: set<PrivateKey>, seen': set<PrivateKey>)
    requires OutputsOk(outputs, seen) && SessionsOk(sessions, outputs, seen) && seen <= seen'
    ensures OutputsOk(outputs, seen') && SessionsOk(sessions, outputs, seen')
  {
  }

  lemma {:induction false} FreshUnused(chain: Key, newKey: PrivateKey, outputs: seq<Output>, seen: set<PrivateKey>, seen': set<PrivateKey>)
    requires FreshChain(chain, newKey, seen') && newKey !in seen && OutputsOk(outputs, seen)
    ensures Unused(chain, outputs)
  {
  }

  /** Storing a session whose chain is new, or one that has no chain. */
  lemma {:induction false} StoreFresh(sessions: map<string, State>, outputs: seq<Output>, seen: set<PrivateKey>, seen': set<PrivateKey>,
                   sid: string, s: State, newKey: PrivateKey)
    requires OutputsOk(outputs, seen) && SessionsOk(sessions, outputs, seen) && seen <= seen'
    requires newKey !in seen && s.cks.Some? && FreshChain(s.cks.value, newKey, seen')
    ensures OutputsOk(outputs, seen') && SessionsOk(sessions[sid := s], outputs, seen')
  {
    SeenGrows(sessions, outputs, seen, seen');
    FreshUnused(s.cks.value, newKey, outputs, seen, seen');
  }

  lemma {:induction false} RemoveSessions(sessions: map<string, State>, gone: set<string>, outputs: seq<Output>, seen: set<PrivateKey>)
    requires SessionsOk(sessions, outputs, seen)
    ensures SessionsOk(sessions - gone, outputs, seen)
  {
  }

  lemma {:induction false} MoveSession(sessions: map<string, State>, from: string, to: string, outputs: seq<Output>, seen: set<PrivateKey>)
    requires SessionsOk(sessions, outputs, seen) && from in sessions && to !in sessions
    ensures SessionsOk(sessions[to := sessions[from]] - {from}, outputs, seen)
  {
  }

  /** Replacing a session by one with the same sending chain. */
  lemma {:induction false} KeepChain(sessions: map<string, State>, outputs: seq<Output>, seen: set<PrivateKey>, sid: string, s: State)
    requires SessionsOk(sessions, outputs, seen) && sid in sessions && s.cks == sessions[sid].cks
    ensures SessionsOk(sessions[sid := s], outputs, seen)
  {
  }

  /** Encrypting uses the next position of the chain and moves beyond it. */
  lemma {:induction false} EncryptOk(w: World, sid: string, state: State, meta: Meta, plaintext: Plaintext)
    requires OutputsOk(w.outputs, w.seen) && Valid(state) && ValidStores(w.stores)
    requires SessionsOk(w.stores.sessions[sid := state], w.outputs, w.seen)
    requires SessionsOk(w.stores.sessions, w.outputs, w.seen)
    ensures Invariant(EncryptAndSave(w, sid, state, meta, plaintext))
  {
    if state.cks.Some? {
      var w' := EncryptAndSave(w, sid, state, meta, plaintext);
      var chain := state.cks.value;
      var before := w.stores.sessions[sid := state];
      assert before[sid].cks.value == chain;
      var out := w'.outputs[|w.outputs|];
      assert w'.outputs == w.outputs + [out] && KeyOf(out) == MessageKey(chain);
      assert OutputsOk(w'.outputs, w.seen);
      forall x | x in w'.stores.sessions && w'.stores.sessions[x].cks.Some?
        ensures Known(w'.stores.sessions[x].cks.value, w.seen) && Unused(w'.stores.sessions[x].cks.value, w'.outputs)
      {
        if x != sid {
          assert w'.stores.sessions[x] == before[x];
        }
      }
      forall a, b | a in w'.stores.sessions && b in w'.stores.sessions && a != b
                    && w'.stores.sessions[a].cks.Some? && w'.stores.sessions[b].cks.Some?
        ensures Origin(w'.stores.sessions[a].cks.value) != Origin(w'.stores.sessions[b].cks.value)
      {
        assert Origin(before[a].cks.value) != Origin(before[b].cks.value);
      }
    }
  }

  /** Decrypting leaves the sending chain alone or replaces it by a new one. */
  lemma {:induction false} ReceiveChain(s: State, m: SignalMessage, sender: PublicKey, receiver: PublicKey, newKey: PrivateKey)
    requires Valid(s)
    ensures var s' := Receive(s, m, sender, receiver, newKey).0;
            || s'.cks == s.cks
            || (s'.cks.Some? && FreshChain(s'.cks.value, newKey, {newKey, m.header.dh.owner}))
  {
    if !HasKey(s.skipped, m.header.dh, m.header.n) {
      TurnChain(s, m.header, newKey);
      SkipKeepsSending(Turn(s, m.header, newKey).0, m.header.n);
    }
  }

  lemma {:induction false} SkipKeepsSending(s: State, until: nat)
    requires Valid(s)
    ensures Skip(s, until).0.cks == s.cks && Skip(s, until).0.rk == s.rk
  {
    if s.ckr.Some? {
      SkipToChain(s, until);
    }
  }

  lemma {:induction false} TurnChain(s: State, h: Header, newKey: PrivateKey)
    requires Valid(s)
    ensures var t := Turn(s, h, newKey).0;
            t.cks == s.cks || (t.cks.Some? && FreshChain(t.cks.value, newKey, {newKey, h.dh.owner}))
  {
    SkipKeepsSending(s, h.pn);
  }

  lemma {:induction false} FreshChainGrows(k: Key, newKey: PrivateKey, seen: set<PrivateKey>, seen': set<PrivateKey>)
    requires FreshChain(k, newKey, seen) && seen <= seen'
    ensures FreshChain(k, newKey, seen')
  {
  }

  lemma {:induction false} MigrateKnownOk(w: World, sender: Jid)
    requires Invariant(w)
    ensures Invariant(w.(stores := MigrateKnown(w.stores, w.lids, sender)))
  {
    MigrateKnownValid(w.stores, w.lids, sender);
    if sender.server == "lid" && SessionId(sender) !in w.stores.sessions && sender.user in w.lids.lidToPn {
      var from := SessionId(Jid(w.lids.lidToPn[sender.user], "s.whatsapp.net", sender.device));
      if from in w.stores.sessions {
        MoveSession(w.stores.sessions, from, SessionId(sender), w.outputs, w.seen);
      }
    }
  }

  /** Saving what `ratchet_decrypt` made of a session, or of a new responder session. */
  lemma {:induction false} SaveReceived(sessions: map<string, State>, outputs: seq<Output>, seen: set<PrivateKey>, sid: string,
                     s: State, m: SignalMessage, sender: PublicKey, receiver: PublicKey, newKey: PrivateKey)
    requires OutputsOk(outputs, seen) && SessionsOk(sessions, outputs, seen) && newKey !in seen && Valid(s)
    requires (sid in sessions && s == sessions[sid]) || (s.cks.None? && s.dhr.None?)
    ensures var s' := Receive(s, m, sender, receiver, newKey).0;
            var seen' := seen + {newKey} + {m.header.dh.owner};
            OutputsOk(outputs, seen') && SessionsOk(sessions[sid := s'], outputs, seen')
  {
    var s' := Receive(s, m, sender, receiver, newKey).0;
    var seen' := seen + {newKey} + {m.header.dh.owner};
    ReceiveChain(s, m, sender, receiver, newKey);
    SeenGrows(sessions, outputs, seen, seen');
    if s'.cks == s.cks {
      if sid in sessions && s == sessions[sid] {
        KeepChain(sessions, outputs, seen', sid, s');
      }
    } else {
      FreshChainGrows(s'.cks.value, newKey, {newKey, m.header.dh.owner}, seen');
      StoreFresh(sessions, outputs, seen, seen', sid, s', newKey);
    }
  }

  lemma {:induction false} InboundOk(w: World, sender: Jid, enc: Enc, newKey: PrivateKey)
    requires Invariant(w) && newKey !in w.seen
    ensures Invariant(AfterInbound(w, sender, enc, newKey))
  {
    var st1 := MigrateKnown(w.stores, w.lids, sender);
    var seen' := w.seen + {newKey} + PeerKey(enc);
    MigrateKnownOk(w, sender);
    DecryptValid(w.stores, w.me, w.lids, sender, enc, newKey);
    SeenGrows(st1.sessions, w.outputs, w.seen, seen');
    if DecryptEnc(w.stores, w.me, w.lids, sender, enc, newKey).1.None? {
      FailureLeavesStores(w.stores, w.me, w.lids, sender, enc, newKey);
    } else if enc.Pkmsg? {
      var opk := if enc.oneTimePreKeyId.Some? then Some(st1.oneTimePreKeys[enc.oneTimePreKeyId.value]) else None;
      var secret := X3dh.Responder(w.me.private, w.me.signedPreKey, opk, enc.identityKey, enc.baseKey);
      SaveReceived(st1.sessions, w.outputs, w.seen, SessionId(sender), InitBob(secret, w.me.signedPreKey), enc.message,
                   enc.identityKey, Pub(w.me.private), newKey);
    } else {
      SaveReceived(st1.sessions, w.outputs, w.seen, SessionId(sender), st1.sessions[SessionId(sender)], enc.message,
                   st1.identities[SessionId(sender)], Pub(w.me.private), newKey);
    }
  }

  lemma {:induction false} BeginOk(w: World, task: nat, sid: string, plaintext: Plaintext)
    requires Invariant(w)
    ensures Invariant(AfterBegin(w, task, sid, plaintext))
  {
    var meta := MetaFor(w, sid);
    if sid in w.stores.sessions && meta.Some? {
      assert w.stores.sessions[sid := w.stores.sessions[sid]] == w.stores.sessions;
      EncryptOk(w.(meta := w.meta[sid := meta.value]), sid, w.stores.sessions[sid], meta.value, plaintext);
    }
  }

  lemma {:induction false} EstablishFresh(w: World, bundle: X3dh.Bundle, ephemeral: PrivateKey, ratchetKey: PrivateKey)
    ensures var session := Establish(w, bundle, ephemeral, ratchetKey);
            session.Some? ==> && Valid(session.value.0) && session.value.0.cks.Some?
                              && FreshChain(session.value.0.cks.value, ratchetKey, w.seen + {ratchetKey, bundle.signedPreKey.owner})
  {
  }

  lemma {:induction false} BundleOk(w: World, task: nat, bundle: X3dh.Bundle, ephemeral: PrivateKey, ratchetKey: PrivateKey)
    requires Invariant(w) && task in w.waiting && ratchetKey !in w.seen
    ensures Invariant(AfterBundle(w, task, bundle, ephemeral, ratchetKey))
  {
    var t := w.waiting[task];
    var w1 := w.(waiting := w.waiting - {task}, seen := w.seen + {ratchetKey, bundle.signedPreKey.owner});
    SeenGrows(w.stores.sessions, w.outputs, w.seen, w1.seen);
    EstablishFresh(w, bundle, ephemeral, ratchetKey);
    var session := Establish(w, bundle, ephemeral, ratchetKey);
    if session.Some? {
      var (state, meta) := session.value;
      var w2 := w1.(meta := w1.meta[t.sid := meta],
                    stores := w1.stores.(identities := w1.stores.identities[t.sid := meta.peerIdentity]));
      StoreFresh(w.stores.sessions, w.outputs, w.seen, w1.seen, t.sid, state, ratchetKey);
      EncryptOk(w2, t.sid, state, meta, t.plaintext);
    }
  }

  lemma {:induction false} DropOk(w: World, peer: Jid)
    requires Invariant(w)
    ensures Invariant(AfterDrop(w, peer))
  {
    RemoveSessions(w.stores.sessions, Aliases(w.lids, peer), w.outputs, w.seen);
  }

  lemma {:induction false} RetryOk(w: World, peer: Jid, bundle: X3dh.Bundle, ephemeral: PrivateKey, ratchetKey: PrivateKey)
    requires Invariant(w) && ratchetKey !in w.seen
    ensures Invariant(AfterRetry(w, peer, bundle, ephemeral, ratchetKey))
  {
    var w1 := AfterDrop(w, peer);
    var seen' := w.seen + {ratchetKey, bundle.signedPreKey.owner};
    DropOk(w, peer);
    SeenGrows(w1.stores.sessions, w1.outputs, w1.seen, seen');
    EstablishFresh(w, bundle, ephemeral, ratchetKey);
    var session := Establish(w, bundle, ephemeral, ratchetKey);
    if session.Some? {
      StoreFresh(w1.stores.sessions, w1.outputs, w1.seen, seen', SessionId(peer), session.value.0, ratchetKey);
    }
  }

  lemma {:induction false} MigrateOk(w: World, from: string, to: string)
    requires Invariant(w)
    ensures Invariant(AfterMigrate(w, from, to))
  {
    if from in w.stores.sessions && to !in w.stores.sessions {
      MoveSession(w.stores.sessions, from, to, w.outputs, w.seen);
    }
  }

  lemma {:induction false} StepOk(w: World, event: Event)
    requires Invariant(w) && Enabled(w, event)
    ensures Invariant(Next(w, event))
  {
    match event
    case Begin(task, peer, plaintext) => BeginOk(w, task, SessionId(peer), plaintext);
    case BundleArrives(task, bundle, ephemeral, ratchetKey) => BundleOk(w, task, bundle, ephemeral, ratchetKey);
    case BundleFails(_) =>
    case Retry(peer, bundle, ephemeral, ratchetKey) => RetryOk(w, peer, bundle, ephemeral, ratchetKey);
    case Drop(peer) => DropOk(w, peer);
    case Learn(_, _) =>
    case MigrateSession(from, to) => MigrateOk(w, SessionId(from), SessionId(to));
    case Inbound(sender, enc, newKey) => InboundOk(w, sender, enc, newKey);
    case Refill(_) =>
    case Restart =>
  }

  // ---- Runs ----

  /** A client that starts without sessions. */
  ghost predicate Initial(w: World) {
    w.stores.sessions == map[] && w.outputs == [] && w.meta == map[] && w.waiting == map[]
  }

  ghost predicate IsStep(w: World, event: Event, w': World) {
    ValidStores(w.stores) && Enabled(w, event) && w' == Next(w, event)
  }

  ghost predicate IsRun(trace: seq<World>, events: seq<Event>) {
    && |trace| == |events| + 1 && Initial(trace[0])
    && forall i | 0 <= i < |events| :: StepAt(trace, events, i)
  }

  ghost predicate StepAt(trace: seq<World>, events: seq<Event>, i: nat)
    requires i < |events| && |trace| == |events| + 1
  {
    IsStep(trace[i], events[i], trace[i + 1])
  }

  lemma {:induction false} RunOk(trace: seq<World>, events: seq<Event>, i: nat)
    requires IsRun(trace, events) && i < |trace|
    ensures Invariant(trace[i])
  {
    if i > 0 {
      RunOk(trace, events, i - 1);
      RunStep(trace, events, i - 1, trace[i - 1], events[i - 1], trace[i]);
      StepKeeps(trace[i - 1], events[i - 1], trace[i]);
    }
  }

  lemma {:induction false} RunStep(trace: seq<World>, events: seq<Event>, i: nat, w: World, event: Event, w': World)
    requires IsRun(trace, events) && i < |events| && trace[i] == w && events[i] == event && trace[i + 1] == w'
    ensures IsStep(w, event, w')
  {
    assert StepAt(trace, events, i);
  }

  lemma {:induction false} StepKeeps(w: World, event: Event, w': World)
    requires Invariant(w) && IsStep(w, event, w')
    ensures Invariant(w')
  {
    StepOk(w, event);
  }

  /** However sends, failures, drops, migrations, retries, restarts and inbound messages interleave,
      no two ciphertexts are ever made with one message key. */
  lemma {:induction false} NoKeyReuse(trace: seq<World>, events: seq<Event>, t: nat, i: nat, j: nat)
    requires IsRun(trace, events) && t < |trace| && i < j < |trace[t].outputs|
    ensures KeyOf(trace[t].outputs[i]) != KeyOf(trace[t].outputs[j])
  {
    RunOk(trace, events, t);
  }

  // ---- The preamble ----

  /** The events after which a session may stop carrying its preamble: a message from that peer was
      opened, or the session was dropped, replaced, moved, or forgotten in a restart. */
  ghost predicate EndsPreamble(w: World, event: Event, sid: string)
    requires ValidStores(w.stores)
  {
    match event
    case Inbound(sender, enc, newKey) =>
      sid in Aliases(w.lids, sender) && DecryptEnc(w.stores, w.me, w.lids, sender, enc, newKey).1.Some?
    case Drop(peer) => sid in Aliases(w.lids, peer)
    case Retry(peer, _, _, _) => sid in Aliases(w.lids, peer)
    case BundleArrives(task, _, _, _) => task in w.waiting && w.waiting[task].sid == sid
    case MigrateSession(from, to) => sid == SessionId(from) || sid == SessionId(to)
    case Restart => true
    case _ => false
  }

  /** Until then every step keeps the preamble, and every ciphertext for the session carries it. */
  lemma {:induction false} PreambleKept(w: World, event: Event, sid: string)
    requires ValidStores(w.stores) && Enabled(w, event) && sid in w.meta && w.meta[sid].pending.Some?
    requires !EndsPreamble(w, event, sid)
    ensures var w' := Next(w, event);
            && sid in w'.meta && w'.meta[sid] == w.meta[sid]
            && forall i | |w.outputs| <= i < |w'.outputs| && w'.outputs[i].sid == sid ::
                 w'.outputs[i].preamble == w.meta[sid].pending
  {
  }

  /** Over whole runs: from the moment a session has its preamble, every ciphertext for it carries that
      preamble, up to the first event that may end it. */
  lemma {:induction false} PreambleRun(trace: seq<World>, events: seq<Event>, i: nat, j: nat, sid: string)
    requires IsRun(trace, events) && i <= j < |trace| && sid in trace[i].meta && trace[i].meta[sid].pending.Some?
    requires forall t | i <= t < j :: ValidStores(trace[t].stores) && !EndsPreamble(trace[t], events[t], sid)
    ensures sid in trace[j].meta && trace[j].meta[sid] == trace[i].meta[sid]
    ensures |trace[i].outputs| <= |trace[j].outputs|
    ensures forall k | |trace[i].outputs| <= k < |trace[j].outputs| && trace[j].outputs[k].sid == sid ::
              trace[j].outputs[k].preamble == trace[i].meta[sid].pending
    decreases j
  {
    if i < j {
      PreambleRun(trace, events, i, j - 1, sid);
      assert StepAt(trace, events, j - 1);
      PreambleStep(trace[j - 1], events[j - 1], trace[j], sid);
    }
  }

  lemma {:induction false} PreambleStep(w: World, event: Event, w': World, sid: string)
    requires IsStep(w, event, w') && sid in w.meta && w.meta[sid].pending.Some? && !EndsPreamble(w, event, sid)
    ensures sid in w'.meta && w'.meta[sid] == w.meta[sid] && w.outputs <= w'.outputs
    ensures forall k | |w.outputs| <= k < |w'.outputs| && w'.outputs[k].sid == sid ::
              w'.outputs[k].preamble == w.meta[sid].pending
  {
    PreambleKept(w, event, sid);
  }
}
