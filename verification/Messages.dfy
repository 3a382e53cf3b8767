/** The authenticated envelope of src/pywhats/signal/experimental/types.py.  The MAC covers both
    identities and the whole serialized body, that is, header and ciphertext. */
module Messages {
  import opened SymbolicCrypto
  import opened Ratchet

  datatype Mac = Mac(key: Key, sender: PublicKey, receiver: PublicKey, header: Header, ciphertext: Ciphertext)

  datatype SignalMessage = SignalMessage(header: Header, ciphertext: Ciphertext, mac: Mac)

  function Envelope(sent: Sent, sender: PublicKey, receiver: PublicKey): SignalMessage {
    SignalMessage(sent.header, sent.ciphertext, Mac(sent.macKey, sender, receiver, sent.header, sent.ciphertext))
  }

  /** The callback that the receiver hands to `ratchet_decrypt`. */
  function Verifier(m: SignalMessage, sender: PublicKey, receiver: PublicKey): Key -> bool {
    (macKey: Key) => m.mac == Mac(macKey, sender, receiver, m.header, m.ciphertext)
  }

  function Receive(s: State, m: SignalMessage, sender: PublicKey, receiver: PublicKey, newKey: PrivateKey)
    : (State, Outcome)
    requires Valid(s)
  {
    Decrypt(s, m.header, m.ciphertext, Verifier(m, sender, receiver), newKey)
  }
}

/** The X3DH key agreement of src/pywhats/signal/experimental/x3dh.py. */
module X3dh {
  import opened Outcomes
  import opened SymbolicCrypto

  datatype Bundle = Bundle(
    identity: PublicKey, signedPreKeyId: nat, signedPreKey: PublicKey, signatureValid: bool,
    oneTimePreKeyId: Option<nat>, oneTimePreKey: Option<PublicKey>)

  datatype InitiatorResult = InitiatorResult(
    secret: Key, ephemeral: PublicKey, identity: PublicKey,
    signedPreKeyId: nat, oneTimePreKeyId: Option<nat>)

  /** `None` when the signature on the signed prekey does not verify. */
  function Initiator(identity: PrivateKey, bundle: Bundle, ephemeral: PrivateKey): Option<InitiatorResult> {
    if !bundle.signatureValid then None
    else
      var km := [Dh(identity, bundle.signedPreKey), Dh(ephemeral, bundle.identity),
                 Dh(ephemeral, bundle.signedPreKey)];
      var all := if bundle.oneTimePreKey.Some? then km + [Dh(ephemeral, bundle.oneTimePreKey.value)] else km;
      Some(InitiatorResult(X3dhSecret(all), Pub(ephemeral), Pub(identity),
                           bundle.signedPreKeyId, bundle.oneTimePreKeyId))
  }

  function Responder(identity: PrivateKey, signedPreKey: PrivateKey, oneTimePreKey: Option<PrivateKey>,
                     peerIdentity: PublicKey, peerEphemeral: PublicKey): Key
  {
    var km := [Dh(signedPreKey, peerIdentity), Dh(identity, peerEphemeral), Dh(signedPreKey, peerEphemeral)];
    X3dhSecret(if oneTimePreKey.Some? then km + [Dh(oneTimePreKey.value, peerEphemeral)] else km)
  }

  /** The secret of four key pairs and perhaps a one-time prekey: identity and ephemeral key of the initiator, identity
      and signed prekey of the responder. */
  function Combined(a: PrivateKey, e: PrivateKey, b: PrivateKey, s: PrivateKey, o: Option<PrivateKey>): Key {
    var pair := (x: PrivateKey, y: PrivateKey) => if x <= y then DhOutput(x, y) else DhOutput(y, x);
    X3dhSecret([pair(a, s), pair(e, b), pair(e, s)] + if o.Some? then [pair(e, o.value)] else [])
  }

  /** Each side derives it from its own private and the other's public keys. */
  lemma {:induction false} SecretIs(a: PrivateKey, e: PrivateKey, b: PrivateKey, s: PrivateKey, o: Option<PrivateKey>, bundle: Bundle)
    requires bundle.identity == Pub(b) && bundle.signedPreKey == Pub(s) && bundle.signatureValid && bundle.oneTimePreKey == PublicHalf(o)
    ensures Initiator(a, bundle, e).Some?
    ensures var r := Initiator(a, bundle, e).value;
            && r.secret == Combined(a, e, b, s, o) == Responder(b, s, o, Pub(a), Pub(e))
            && r.ephemeral == Pub(e) && r.identity == Pub(a)
            && r.signedPreKeyId == bundle.signedPreKeyId && r.oneTimePreKeyId == bundle.oneTimePreKeyId
  {
    DhAgrees(a, s);
    DhAgrees(e, b);
    DhAgrees(e, s);
    var km := [Dh(a, Pub(s)), Dh(e, Pub(b)), Dh(e, Pub(s))];
    var km' := [Dh(s, Pub(a)), Dh(b, Pub(e)), Dh(s, Pub(e))];
    assert km == km';
    if o.Some? {
      DhAgrees(e, o.value);
    } else {
      assert km + [] == km;
    }
  }

  /** `None` exactly for a bundle whose signature does not verify. */
  lemma {:induction false} RefusedIff(a: PrivateKey, bundle: Bundle, e: PrivateKey)
    ensures Initiator(a, bundle, e).None? <==> !bundle.signatureValid
  {
  }

  function PublicHalf(k: Option<PrivateKey>): Option<PublicKey> {
    if k.Some? then Some(Pub(k.value)) else None
  }

  /** Both sides derive one secret exactly when both used the same one-time prekey, or none. */
  lemma {:induction false} Agreement(a: PrivateKey, e: PrivateKey, b: PrivateKey, bundle: Bundle, s: PrivateKey,
                  offered: Option<PrivateKey>, used: Option<PrivateKey>)
    requires bundle.identity == Pub(b) && bundle.signedPreKey == Pub(s) && bundle.signatureValid
    requires bundle.oneTimePreKey == PublicHalf(offered)
    ensures Initiator(a, bundle, e).Some?
    ensures Initiator(a, bundle, e).value.secret == Responder(b, s, used, Pub(a), Pub(e)) <==> offered == used
  {
    var x := Initiator(a, bundle, e).value.secret.material;
    var y := Responder(b, s, used, Pub(a), Pub(e)).material;
    DhAgrees(a, s);
    DhAgrees(e, b);
    DhAgrees(e, s);
    if offered.Some? && used.Some? {
      DhAgrees(e, offered.value);
      assert x[3] == Dh(offered.value, Pub(e)) && y[3] == Dh(used.value, Pub(e));
    } else if offered.Some? || used.Some? {
      assert |x| != |y|;
    }
  }
}
