/** The receiving side of src/pywhats/messaging/receiver.py: which stores an inbound `<enc>` changes. */
module Receiver {
  import opened Outcomes
  import opened SymbolicCrypto
  import opened Ratchet
  import opened RatchetObject
  import opened Messages
  import opened Addressing
  import X3dh

  /** A decoded `<enc>` payload; `Undecodable` raises while parsing or has another type. */
  datatype Enc =
    | Pkmsg(oneTimePreKeyId: Option<nat>, signedPreKeyId: nat, baseKey: PublicKey, identityKey: PublicKey,
            message: SignalMessage)
    | Msg(message: SignalMessage)
    | Undecodable

  /** Our own long-term keys. */
  datatype Identity = Identity(private: PrivateKey, signedPreKeyId: nat, signedPreKey: PrivateKey)

  datatype Stores = Stores(
    sessions: map<string, State>, identities: map<string, PublicKey>, oneTimePreKeys: map<nat, PrivateKey>)

  ghost predicate ValidStores(st: Stores) {
    forall sid | sid in st.sessions :: Valid(st.sessions[sid])
  }

  /** Reuse the session of a LID sender's phone-number address, if the LID has none. */
  function MigrateKnown(st: Stores, lids: LidMap, sender: Jid): Stores {
    if sender.server != "lid" || SessionId(sender) in st.sessions || sender.user !in lids.lidToPn then st
    else
      var pn := Jid(lids.lidToPn[sender.user], "s.whatsapp.net", sender.device);
      var (sessions, identities, _) := Migrate(st.sessions, st.identities, SessionId(pn), SessionId(sender));
      st.(sessions := sessions, identities := identities)
  }

  function FromPkmsg(st: Stores, me: Identity, sid: string, enc: Enc, newKey: PrivateKey): (Stores, Option<Plaintext>)
    requires enc.Pkmsg?
  {
    if enc.signedPreKeyId != me.signedPreKeyId then (st, None)
    else if enc.oneTimePreKeyId.Some? && enc.oneTimePreKeyId.value !in st.oneTimePreKeys then (st, None)
    else
      var opk := if enc.oneTimePreKeyId.Some? then Some(st.oneTimePreKeys[enc.oneTimePreKeyId.value]) else None;
      var secret := X3dh.Responder(me.private, me.signedPreKey, opk, enc.identityKey, enc.baseKey);
      var (s, outcome) := Receive(InitBob(secret, me.signedPreKey), enc.message, enc.identityKey, Pub(me.private), newKey);
      if !outcome.Opened? then (st, None)
      else
        var left := if enc.oneTimePreKeyId.Some? then st.oneTimePreKeys - {enc.oneTimePreKeyId.value} else st.oneTimePreKeys;
        (Stores(st.sessions[sid := s], st.identities[sid := enc.identityKey], left), Some(outcome.plaintext))
  }

  function FromMsg(st: Stores, me: Identity, sid: string, m: SignalMessage, newKey: PrivateKey): (Stores, Option<Plaintext>)
    requires sid in st.sessions ==> Valid(st.sessions[sid])
  {
    if sid !in st.sessions || sid !in st.identities then (st, None)
    else
      var (s, outcome) := Receive(st.sessions[sid], m, st.identities[sid], Pub(me.private), newKey);
      if outcome.Opened? then (st.(sessions := st.sessions[sid := s]), Some(outcome.plaintext)) else (st, None)
  }

  lemma {:induction false} MigrateKnownValid(st: Stores, lids: LidMap, sender: Jid)
    requires ValidStores(st)
    ensures ValidStores(MigrateKnown(st, lids, sender))
  {
  }

  /** The stores after `_decrypt_enc`, and the plaintext unless it raised. */
  function DecryptEnc(st: Stores, me: Identity, lids: LidMap, sender: Jid, enc: Enc, newKey: PrivateKey)
    : (r: (Stores, Option<Plaintext>))
    requires ValidStores(st)
  {
    var st1 := MigrateKnown(st, lids, sender);
    MigrateKnownValid(st, lids, sender);
    match enc
    case Pkmsg(_, _, _, _, _) => FromPkmsg(st1, me, SessionId(sender), enc, newKey)
    case Msg(m) => FromMsg(st1, me, SessionId(sender), m, newKey)
    case Undecodable => (st1, None)
  }

  /** A message that does not open leaves sessions, identities and one-time prekeys exactly as the
      address migration left them, whatever the ratchet did before the MAC check failed. */
  lemma {:induction false} FailureLeavesStores(st: Stores, me: Identity, lids: LidMap, sender: Jid, enc: Enc, newKey: PrivateKey)
    requires ValidStores(st)
    ensures DecryptEnc(st, me, lids, sender, enc, newKey).1.None?
        ==> DecryptEnc(st, me, lids, sender, enc, newKey).0 == MigrateKnown(st, lids, sender)
  {
  }

  /** A one-time prekey disappears exactly when a message that names it opens. */
  lemma {:induction false} OneTimePreKeyUse(st: Stores, me: Identity, lids: LidMap, sender: Jid, enc: Enc, newKey: PrivateKey)
    requires ValidStores(st)
    ensures var (st', r) := DecryptEnc(st, me, lids, sender, enc, newKey);
            st'.oneTimePreKeys
            == if enc.Pkmsg? && enc.oneTimePreKeyId.Some? && r.Some?
               then st.oneTimePreKeys - {enc.oneTimePreKeyId.value} else st.oneTimePreKeys
  {
  }

  /** Decryption touches the session of its own sender and no other, beyond the migration. */
  lemma {:induction false} DecryptFrame(st: Stores, me: Identity, lids: LidMap, sender: Jid, enc: Enc, newKey: PrivateKey, sid: string)
    requires ValidStores(st) && sid != SessionId(sender)
    ensures var st' := DecryptEnc(st, me, lids, sender, enc, newKey).0;
            var st1 := MigrateKnown(st, lids, sender);
            Lookup(st'.sessions, sid) == Lookup(st1.sessions, sid) && Lookup(st'.identities, sid) == Lookup(st1.identities, sid)
  {
  }

  lemma {:induction false} DecryptValid(st: Stores, me: Identity, lids: LidMap, sender: Jid, enc: Enc, newKey: PrivateKey)
    requires ValidStores(st)
    ensures ValidStores(DecryptEnc(st, me, lids, sender, enc, newKey).0)
  {
    var st1 := MigrateKnown(st, lids, sender);
    MigrateKnownValid(st, lids, sender);
    match enc
    case Pkmsg(_, _, _, _, _) =>
      ReceiveValid(InitBob(X3dh.Responder(me.private, me.signedPreKey,
                                          if enc.oneTimePreKeyId.Some? && enc.oneTimePreKeyId.value in st1.oneTimePreKeys
                                          then Some(st1.oneTimePreKeys[enc.oneTimePreKeyId.value]) else None,
                                          enc.identityKey, enc.baseKey), me.signedPreKey),
                   enc.message, enc.identityKey, Pub(me.private), newKey);
    case Msg(m) =>
      if SessionId(sender) in st1.sessions && SessionId(sender) in st1.identities {
        ReceiveValid(st1.sessions[SessionId(sender)], m, st1.identities[SessionId(sender)], Pub(me.private), newKey);
      }
    case Undecodable =>
  }

  lemma {:induction false} ReceiveValid(s: State, m: SignalMessage, sender: PublicKey, receiver: PublicKey, newKey: PrivateKey)
    requires Valid(s)
    ensures Valid(Receive(s, m, sender, receiver, newKey).0)
  {
    if !HasKey(s.skipped, m.header.dh, m.header.n) {
      var (t, ok) := Turn(s, m.header, newKey);
      if ok && t.ckr.Some? {
        SkipToChain(t, m.header.n);
      }
    }
  }

  /** The receiver with its stores as fields.  Each call loads a copy of the session, lets the ratchet
      change that copy in place, and stores it only when the message opened. */
  class MessageReceiver {
    const me: Identity
    var sessions: map<string, State>
    var identities: map<string, PublicKey>
    var oneTimePreKeys: map<nat, PrivateKey>

    function View(): Stores
      reads this
    {
      Stores(sessions, identities, oneTimePreKeys)
    }

    constructor (me: Identity, st: Stores)
      ensures this.me == me && View() == st
    {
      this.me := me;
      sessions, identities, oneTimePreKeys := st.sessions, st.identities, st.oneTimePreKeys;
    }

    method MigrateKnownLidSender(lids: LidMap, sender: Jid)
      modifies this
      ensures View() == MigrateKnown(old(View()), lids, sender)
    {
      var lidKey := SessionId(sender);
      if sender.server != "lid" || lidKey in sessions {
        return;
      }
      if sender.user !in lids.lidToPn {
        return;
      }
      var pnKey := SessionId(Jid(lids.lidToPn[sender.user], "s.whatsapp.net", sender.device));
      if pnKey !in sessions || lidKey in sessions {
        return;
      }
      sessions := sessions[lidKey := sessions[pnKey]];
      if pnKey in identities {
        identities := identities[lidKey := identities[pnKey]];
      }
      sessions := sessions - {pnKey};
      identities := identities - {pnKey};
    }

    method DecryptPkmsg(sid: string, enc: Enc, newKey: PrivateKey) returns (r: Option<Plaintext>)
      requires enc.Pkmsg?
      modifies this
      ensures (View(), r) == FromPkmsg(old(View()), me, sid, enc, newKey)
    {
      if enc.signedPreKeyId != me.signedPreKeyId {
        return None;
      }
      var opk := None;
      if enc.oneTimePreKeyId.Some? {
        if enc.oneTimePreKeyId.value !in oneTimePreKeys {
          return None;
        }
        opk := Some(oneTimePreKeys[enc.oneTimePreKeyId.value]);
      }
      var m := enc.message;
      var secret := X3dh.Responder(me.private, me.signedPreKey, opk, enc.identityKey, enc.baseKey);
      var state := new RatchetState.Bob(secret, me.signedPreKey);
      var outcome := state.RatchetDecrypt(m.header, m.ciphertext, Verifier(m, enc.identityKey, Pub(me.private)), newKey);
      if !outcome.Opened? {
        return None;
      }
      if enc.oneTimePreKeyId.Some? {
        oneTimePreKeys := oneTimePreKeys - {enc.oneTimePreKeyId.value};
      }
      sessions := sessions[sid := state.View()];
      identities := identities[sid := enc.identityKey];
      r := Some(outcome.plaintext);
    }

    method DecryptMsg(sid: string, m: SignalMessage, newKey: PrivateKey) returns (r: Option<Plaintext>)
      requires ValidStores(View())
      modifies this
      ensures (View(), r) == FromMsg(old(View()), me, sid, m, newKey)
    {
      if sid !in sessions || sid !in identities {
        return None;
      }
      var peer := identities[sid];
      var state := new RatchetState.Load(sessions[sid]);
      var outcome := state.RatchetDecrypt(m.header, m.ciphertext, Verifier(m, peer, Pub(me.private)), newKey);
      if !outcome.Opened? {
        return None;
      }
      sessions := sessions[sid := state.View()];
      r := Some(outcome.plaintext);
    }

    method Decrypt(lids: LidMap, sender: Jid, enc: Enc, newKey: PrivateKey) returns (r: Option<Plaintext>)
      requires ValidStores(View())
      modifies this
      ensures (View(), r) == DecryptEnc(old(View()), me, lids, sender, enc, newKey)
      ensures r.None? ==> View() == MigrateKnown(old(View()), lids, sender)
    {
      MigrateKnownValid(View(), lids, sender);
      MigrateKnownLidSender(lids, sender);
      match enc
      case Pkmsg(_, _, _, _, _) =>
        r := DecryptPkmsg(SessionId(sender), enc, newKey);
      case Msg(m) =>
        r := DecryptMsg(SessionId(sender), m, newKey);
      case Undecodable =>
        r := None;
    }
  }
}
