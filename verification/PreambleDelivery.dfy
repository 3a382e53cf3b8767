/** From the sender's run to the responder's store: what a client sends before it hears back opens
    at a responder that builds a new session from it. */
module PreambleDelivery {
  import opened Outcomes
  import opened SymbolicCrypto
  import opened Ratchet
  import opened Messages
  import opened Addressing
  import opened Receiver
  import opened Sender
  import opened SenderOutputs
  import X3dh
  import RatchetRun

  // ---- The initiator's first chain ----

  /** A new initiator session after `n` messages. */
  function SentAhead(secret: Key, peer: PublicKey, ratchetKey: PrivateKey, n: nat): State {
    var s := InitAlice(secret, peer, ratchetKey);
    s.(cks := Some(Advance(s.cks.value, n)), ns := n)
  }

  function FirstMessage(secret: Key, peer: PublicKey, ratchetKey: PrivateKey, n: nat, plaintext: Plaintext): Sent {
    var mk := MessageKey(Advance(ChainKey(secret, Dh(ratchetKey, peer)), n));
    Sent(Header(Pub(ratchetKey), 0, n), Sealed(mk, plaintext), MacKey(mk))
  }

  lemma {:induction false} EncryptsAhead(secret: Key, peer: PublicKey, ratchetKey: PrivateKey, n: nat, plaintext: Plaintext)
    ensures Encrypt(SentAhead(secret, peer, ratchetKey, n), plaintext)
         == (SentAhead(secret, peer, ratchetKey, n + 1), Some(FirstMessage(secret, peer, ratchetKey, n, plaintext)))
  {
  }

  /** Message `n` at a responder that starts from the same secret. */
  lemma {:induction false} FreshResponder(secret: Key, signedPreKey: PrivateKey, ratchetKey: PrivateKey, n: nat, plaintext: Plaintext,
                                          sender: PublicKey, receiver: PublicKey, newKey: PrivateKey)
    ensures var m := Envelope(FirstMessage(secret, Pub(signedPreKey), ratchetKey, n, plaintext), sender, receiver);
            Receive(InitBob(secret, signedPreKey), m, sender, receiver, newKey).1
            == if n <= DEFAULT_MAX_SKIP then Opened(plaintext) else TooManySkipped
  {
    var m := Envelope(FirstMessage(secret, Pub(signedPreKey), ratchetKey, n, plaintext), sender, receiver);
    var bob := InitBob(secret, signedPreKey);
    DhAgrees(signedPreKey, ratchetKey);
    var chain := ChainKey(secret, Dh(ratchetKey, Pub(signedPreKey)));
    var t := Turn(bob, m.header, newKey).0;
    assert Turn(bob, m.header, newKey).1 && t.ckr == Some(chain) && t.nr == 0 && Advance(chain, 0) == chain;
    RatchetRun.TakeFromChain(t, chain, m.header, m.ciphertext, Verifier(m, sender, receiver));
  }

  // ---- One ciphertext from sender to responder ----

  /** The bundle was made from the responder's keys, and the one-time prekey it offered, if any, is
      still there. */
  predicate Offers(bundle: X3dh.Bundle, responder: Identity, st: Stores) {
    && bundle.identity == Pub(responder.private) && bundle.signedPreKey == Pub(responder.signedPreKey)
    && bundle.signedPreKeyId == responder.signedPreKeyId && bundle.signatureValid
    && (bundle.oneTimePreKeyId.None? <==> bundle.oneTimePreKey.None?)
    && (bundle.oneTimePreKeyId.Some? ==>
          bundle.oneTimePreKeyId.value in st.oneTimePreKeys
          && bundle.oneTimePreKey == Some(Pub(st.oneTimePreKeys[bundle.oneTimePreKeyId.value])))
  }

  /** The wire form of an output that carries a preamble. */
  function AsPkmsg(out: Output): Enc
    requires out.preamble.Some?
  {
    var p := out.preamble.value;
    Pkmsg(p.oneTimePreKeyId, p.signedPreKeyId, p.baseKey, p.identityKey, out.message)
  }

  /** `out` is message `n` of the session established from the bundle. */
  ghost predicate IsFirst(out: Output, sid: string, me: Identity, bundle: X3dh.Bundle, ephemeral: PrivateKey, ratchetKey: PrivateKey,
                          n: nat, plaintext: Plaintext)
    requires bundle.signatureValid
  {
    var r := X3dh.Initiator(me.private, bundle, ephemeral).value;
    out == Output(sid, Some(PendingPreKey(r.oneTimePreKeyId, r.signedPreKeyId, r.ephemeral, r.identity)),
                  Envelope(FirstMessage(r.secret, bundle.signedPreKey, ratchetKey, n, plaintext), Pub(me.private), bundle.identity))
  }

  /** It opens at the responder, whatever sessions that has, exactly if at most 1000 came before it. */
  lemma {:induction false} FirstOpens(out: Output, sid: string, me: Identity, bundle: X3dh.Bundle, ephemeral: PrivateKey,
                                      ratchetKey: PrivateKey, n: nat, plaintext: Plaintext,
                                      st: Stores, responder: Identity, at: string, newKey: PrivateKey)
    requires Offers(bundle, responder, st) && IsFirst(out, sid, me, bundle, ephemeral, ratchetKey, n, plaintext)
    ensures FromPkmsg(st, responder, at, AsPkmsg(out), newKey).1 == if n <= DEFAULT_MAX_SKIP then Some(plaintext) else None
  {
    var opk := if bundle.oneTimePreKeyId.Some? then Some(st.oneTimePreKeys[bundle.oneTimePreKeyId.value]) else None;
    X3dh.Agreement(me.private, ephemeral, responder.private, bundle, responder.signedPreKey, opk, opk);
    var secret := X3dh.Initiator(me.private, bundle, ephemeral).value.secret;
    FreshResponder(secret, responder.signedPreKey, ratchetKey, n, plaintext, Pub(me.private), Pub(responder.private), newKey);
  }

  // ---- The sender's run until it hears back ----

  /** The parameters of an establishment. */
  datatype Establishment = Establishment(sid: string, bundle: X3dh.Bundle, ephemeral: PrivateKey, ratchetKey: PrivateKey)

  function SecretOf(me: Identity, e: Establishment): Key
    requires e.bundle.signatureValid
  {
    X3dh.Initiator(me.private, e.bundle, e.ephemeral).value.secret
  }

  function MetaOf(me: Identity, e: Establishment): Meta
    requires e.bundle.signatureValid
  {
    var r := X3dh.Initiator(me.private, e.bundle, e.ephemeral).value;
    Meta(e.bundle.identity, Some(PendingPreKey(r.oneTimePreKeyId, r.signedPreKeyId, r.ephemeral, r.identity)))
  }

  /** The address is a phone number's, not a LID's. */
  predicate EndsInT(sid: string) {
    sid != "" && sid[|sid| - 1] == 't'
  }

  /** The session still has its preamble and has sent `n` messages, unless it was moved to its LID. */
  ghost predicate Carries(w: World, e: Establishment, n: nat) {
    && e.bundle.signatureValid && e.sid in w.meta && w.meta[e.sid] == MetaOf(w.me, e)
    && if e.sid in w.stores.sessions
       then w.stores.sessions[e.sid] == SentAhead(SecretOf(w.me, e), e.bundle.signedPreKey, e.ratchetKey, n)
       else EndsInT(e.sid)
  }

  /** The outputs for one session from `from` up to `k`. */
  function CountFor(outputs: seq<Output>, from: nat, k: nat, sid: string): nat
    requires from <= k <= |outputs|
    decreases k
  {
    if k == from then 0 else CountFor(outputs, from, k - 1, sid) + if outputs[k - 1].sid == sid then 1 else 0
  }

  lemma {:induction false} CountPrefix(a: seq<Output>, b: seq<Output>, from: nat, k: nat, sid: string)
    requires from <= k <= |a| && a <= b
    ensures CountFor(b, from, k, sid) == CountFor(a, from, k, sid)
    decreases k
  {
    if from < k {
      CountPrefix(a, b, from, k - 1, sid);
    }
  }

  /** Every output since `from` is the next message of the session. */
  ghost predicate InOrder(w: World, e: Establishment, from: nat)
    requires e.bundle.signatureValid
  {
    && from <= |w.outputs|
    && forall k | from <= k < |w.outputs| && w.outputs[k].sid == e.sid :: OutputFits(w, e, from, k)
  }

  ghost predicate OutputFits(w: World, e: Establishment, from: nat, k: nat)
    requires e.bundle.signatureValid && from <= k < |w.outputs|
  {
    exists plaintext ::
      IsFirst(w.outputs[k], e.sid, w.me, e.bundle, e.ephemeral, e.ratchetKey, CountFor(w.outputs, from, k, e.sid), plaintext)
  }

  /** A step that does not end the preamble: nothing for the session, or its next message. */
  ghost predicate Goes(w: World, w': World, e: Establishment, n: nat)
    requires e.bundle.signatureValid
  {
    && w'.me == w.me && w.outputs <= w'.outputs && |w'.outputs| <= |w.outputs| + 1
    && if |w'.outputs| > |w.outputs| && w'.outputs[|w.outputs|].sid == e.sid
       then Carries(w', e, n + 1) && exists plaintext ::
              IsFirst(w'.outputs[|w.outputs|], e.sid, w.me, e.bundle, e.ephemeral, e.ratchetKey, n, plaintext)
       else Carries(w', e, n)
  }

  lemma {:induction false} BeginGoes(w: World, task: nat, sid: string, plaintext: Plaintext, e: Establishment, n: nat)
    requires Carries(w, e, n)
    ensures Goes(w, AfterBegin(w, task, sid, plaintext), e, n)
  {
    var w' := AfterBegin(w, task, sid, plaintext);
    if sid == e.sid && sid in w.stores.sessions {
      EncryptsAhead(SecretOf(w.me, e), e.bundle.signedPreKey, e.ratchetKey, n, plaintext);
      assert IsFirst(w'.outputs[|w.outputs|], sid, w.me, e.bundle, e.ephemeral, e.ratchetKey, n, plaintext);
    }
  }

  lemma {:induction false} BundleGoes(w: World, task: nat, bundle: X3dh.Bundle, ephemeral: PrivateKey, ratchetKey: PrivateKey,
                                      e: Establishment, n: nat)
    requires Carries(w, e, n) && task in w.waiting && w.waiting[task].sid != e.sid
    ensures Goes(w, AfterBundle(w, task, bundle, ephemeral, ratchetKey), e, n)
  {
  }

  lemma {:induction false} LidAddress(sender: Jid)
    requires sender.server == "lid"
    ensures !EndsInT(SessionId(sender))
  {
    assert SessionId(sender)[|SessionId(sender)| - 1] == sender.server[2];
  }

  lemma {:induction false} PnAddress(user: string, device: nat)
    ensures EndsInT(SessionId(Jid(user, "s.whatsapp.net", device)))
  {
    var pn := Jid(user, "s.whatsapp.net", device);
    assert SessionId(pn)[|SessionId(pn)| - 1] == pn.server[13];
  }

  /** The migration before an inbound message can only take the session away, and only from a phone
      number's address. */
  lemma {:induction false} MigrationGoes(w: World, sender: Jid, e: Establishment, n: nat)
    requires Carries(w, e, n)
    ensures Carries(w.(stores := MigrateKnown(w.stores, w.lids, sender)), e, n)
  {
    if sender.server == "lid" && sender.user in w.lids.lidToPn {
      LidAddress(sender);
      PnAddress(w.lids.lidToPn[sender.user], sender.device);
    }
  }

  lemma {:induction false} InboundGoes(w: World, sender: Jid, enc: Enc, newKey: PrivateKey, e: Establishment, n: nat)
    requires ValidStores(w.stores) && Carries(w, e, n) && !EndsPreamble(w, Inbound(sender, enc, newKey), e.sid)
    ensures Goes(w, AfterInbound(w, sender, enc, newKey), e, n)
  {
    var st1 := MigrateKnown(w.stores, w.lids, sender);
    MigrationGoes(w, sender, e, n);
    var (stores, plaintext) := DecryptEnc(w.stores, w.me, w.lids, sender, enc, newKey);
    assert Lookup(stores.sessions, e.sid) == Lookup(st1.sessions, e.sid) by {
      if plaintext.None? {
        FailureLeavesStores(w.stores, w.me, w.lids, sender, enc, newKey);
      } else {
        DecryptFrame(w.stores, w.me, w.lids, sender, enc, newKey, e.sid);
      }
    }
  }

  lemma {:induction false} StepGoes(w: World, event: Event, w': World, e: Establishment, n: nat)
    requires IsStep(w, event, w') && Carries(w, e, n) && !EndsPreamble(w, event, e.sid)
    ensures Goes(w, w', e, n)
  {
    match event
    case Begin(task, peer, plaintext) => BeginGoes(w, task, SessionId(peer), plaintext, e, n);
    case BundleArrives(task, bundle, ephemeral, ratchetKey) => BundleGoes(w, task, bundle, ephemeral, ratchetKey, e, n);
    case Inbound(sender, enc, newKey) => InboundGoes(w, sender, enc, newKey, e, n);
    case _ =>
  }

  lemma {:induction false} GoesInOrder(w: World, w': World, e: Establishment, from: nat, n: nat)
    requires Carries(w, e, n) && InOrder(w, e, from) && n == CountFor(w.outputs, from, |w.outputs|, e.sid) && Goes(w, w', e, n)
    ensures InOrder(w', e, from) && Carries(w', e, CountFor(w'.outputs, from, |w'.outputs|, e.sid))
  {
    CountPrefix(w.outputs, w'.outputs, from, |w.outputs|, e.sid);
    forall k | from <= k < |w'.outputs| && w'.outputs[k].sid == e.sid
      ensures OutputFits(w', e, from, k)
    {
      if k < |w.outputs| {
        assert OutputFits(w, e, from, k);
        CountPrefix(w.outputs, w'.outputs, from, k, e.sid);
      }
    }
  }

  lemma {:induction false} RunInOrder(trace: seq<World>, events: seq<Event>, i: nat, j: nat, e: Establishment, from: nat)
    requires IsRun(trace, events) && i <= j < |trace| && e.bundle.signatureValid && from <= |trace[i].outputs|
    requires InOrder(trace[i], e, from) && Carries(trace[i], e, CountFor(trace[i].outputs, from, |trace[i].outputs|, e.sid))
    requires forall t | i <= t < j :: ValidStores(trace[t].stores) && !EndsPreamble(trace[t], events[t], e.sid)
    ensures InOrder(trace[j], e, from) && Carries(trace[j], e, CountFor(trace[j].outputs, from, |trace[j].outputs|, e.sid))
    ensures trace[j].me == trace[i].me
    decreases j
  {
    if i < j {
      RunInOrder(trace, events, i, j - 1, e, from);
      assert StepAt(trace, events, j - 1);
      var w := trace[j - 1];
      var n := CountFor(w.outputs, from, |w.outputs|, e.sid);
      StepGoes(w, events[j - 1], trace[j], e, n);
      GoesInOrder(w, trace[j], e, from, n);
    }
  }

  lemma {:induction false} EstablishedInOrder(w: World, task: nat, e: Establishment)
    requires task in w.waiting && w.waiting[task].sid == e.sid && e.bundle.signatureValid
    ensures var w' := AfterBundle(w, task, e.bundle, e.ephemeral, e.ratchetKey);
            && w'.me == w.me && |w'.outputs| == |w.outputs| + 1
            && InOrder(w', e, |w.outputs|) && Carries(w', e, CountFor(w'.outputs, |w.outputs|, |w'.outputs|, e.sid))
  {
    var w', from := AfterBundle(w, task, e.bundle, e.ephemeral, e.ratchetKey), |w.outputs|;
    EncryptsAhead(SecretOf(w.me, e), e.bundle.signedPreKey, e.ratchetKey, 0, w.waiting[task].plaintext);
    assert IsFirst(w'.outputs[from], e.sid, w.me, e.bundle, e.ephemeral, e.ratchetKey, 0, w.waiting[task].plaintext);
    assert CountFor(w'.outputs, from, from, e.sid) == 0 && CountFor(w'.outputs, from, from + 1, e.sid) == 1;
  }

  /** The event stores a session with those parameters: a bundle arrives for a waiting send, or with a retry receipt. */
  predicate Sets(w: World, event: Event, e: Establishment) {
    || (&& event.BundleArrives? && event.task in w.waiting && w.waiting[event.task].sid == e.sid
        && event == BundleArrives(event.task, e.bundle, e.ephemeral, e.ratchetKey))
    || (event.Retry? && SessionId(event.peer) == e.sid && event == Retry(event.peer, e.bundle, e.ephemeral, e.ratchetKey))
  }

  lemma {:induction false} RetriedInOrder(w: World, peer: Jid, e: Establishment)
    requires SessionId(peer) == e.sid && e.bundle.signatureValid
    ensures var w' := AfterRetry(w, peer, e.bundle, e.ephemeral, e.ratchetKey);
            && w'.me == w.me && w'.outputs == w.outputs && InOrder(w', e, |w.outputs|) && Carries(w', e, 0)
  {
    var secret := SecretOf(w.me, e);
    assert Advance(InitAlice(secret, e.bundle.signedPreKey, e.ratchetKey).cks.value, 0)
        == InitAlice(secret, e.bundle.signedPreKey, e.ratchetKey).cks.value;
  }

  lemma {:induction false} SetInOrder(w: World, event: Event, w': World, e: Establishment)
    requires IsStep(w, event, w') && Sets(w, event, e) && e.bundle.signatureValid
    ensures w'.me == w.me && |w.outputs| <= |w'.outputs|
    ensures InOrder(w', e, |w.outputs|) && Carries(w', e, CountFor(w'.outputs, |w.outputs|, |w'.outputs|, e.sid))
  {
    if event.BundleArrives? {
      EstablishedInOrder(w, event.task, e);
    } else {
      RetriedInOrder(w, event.peer, e);
    }
  }

  lemma {:induction false} DeliveredOut(trace: seq<World>, events: seq<Event>, i: nat, j: nat, e: Establishment, k: nat,
                                        st: Stores, responder: Identity, at: string, newKey: PrivateKey)
    requires IsRun(trace, events) && i < j < |trace| && e.bundle.signatureValid && Sets(trace[i], events[i], e)
    requires forall t | i < t < j :: ValidStores(trace[t].stores) && !EndsPreamble(trace[t], events[t], e.sid)
    requires |trace[i].outputs| <= k < |trace[j].outputs| && trace[j].outputs[k].sid == e.sid && Offers(e.bundle, responder, st)
    ensures var out, n := trace[j].outputs[k], CountFor(trace[j].outputs, |trace[i].outputs|, k, e.sid);
            && out.preamble.Some?
            && FromPkmsg(st, responder, at, AsPkmsg(out), newKey).1
               == if n <= DEFAULT_MAX_SKIP then Some(out.message.ciphertext.plaintext) else None
  {
    var from := |trace[i].outputs|;
    assert StepAt(trace, events, i);
    SetInOrder(trace[i], events[i], trace[i + 1], e);
    RunInOrder(trace, events, i + 1, j, e, from);
    var n := CountFor(trace[j].outputs, from, k, e.sid);
    assert OutputFits(trace[j], e, from, k);
    var plaintext :| IsFirst(trace[j].outputs[k], e.sid, trace[j].me, e.bundle, e.ephemeral, e.ratchetKey, n, plaintext);
    FirstOpens(trace[j].outputs[k], e.sid, trace[j].me, e.bundle, e.ephemeral, e.ratchetKey, n, plaintext, st, responder, at, newKey);
  }

  /** In any interleaving: a session is established from a bundle at event `i`, and nothing has ended its preamble
      before event `t` asks for a plaintext to be sent in it.  The ciphertext that this makes, delivered as a
      prekey message to the responder that offered the bundle, opens there to that plaintext exactly if at most
      1000 ciphertexts of the session came before it, whichever of them arrived and whatever sessions the
      responder has. */
  lemma {:induction false} PreambleDelivered(trace: seq<World>, events: seq<Event>, i: nat, t: nat, e: Establishment,
                                             request: Request, st: Stores, responder: Identity, at: string, newKey: PrivateKey)
    requires IsRun(trace, events) && i <= t < |events| && e.bundle.signatureValid && Sets(trace[i], events[i], e)
    requires forall u | i < u <= t :: ValidStores(trace[u].stores) && !EndsPreamble(trace[u], events[u], e.sid)
    requires Asked(trace[t], events[t]) == Some(request) && request.sid == e.sid && Offers(e.bundle, responder, st)
    ensures var k := |trace[t].outputs|;
            && |trace[i].outputs| <= k < |trace[t + 1].outputs| && trace[t + 1].outputs[k].preamble.Some?
            && FromPkmsg(st, responder, at, AsPkmsg(trace[t + 1].outputs[k]), newKey).1
               == if CountFor(trace[t + 1].outputs, |trace[i].outputs|, k, e.sid) <= 1000 then Some(request.plaintext) else None
  {
    RunSends(trace, events, t);
    OutputsGrow(trace, events, i, t);
    DeliveredOut(trace, events, i, t + 1, e, |trace[t].outputs|, st, responder, at, newKey);
  }
}
