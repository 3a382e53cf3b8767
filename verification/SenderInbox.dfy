/** The runs of `Sender` as runs of `ReceiverRuns`: everything proved there holds of a client that sends,
    receives, starts, drops and moves sessions, and restarts. */
module SenderInbox {
  import opened Outcomes
  import opened SymbolicCrypto
  import opened Ratchet
  import opened Messages
  import opened Addressing
  import opened Receiver
  import Sender
  import SessionOnce
  import opened ReceiverRuns
  import opened Redelivery
  import X3dh

  // ---- Events as steps on the stores ----

  /** What an event does to the stores. */
  function StepFor(w: Sender.World, event: Sender.Event): Step {
    match event
    case Begin(_, peer, plaintext) =>
      if SessionId(peer) in w.stores.sessions && Sender.MetaFor(w, SessionId(peer)).Some? then Sends(SessionId(peer), plaintext)
      else Drops({})
    case BundleArrives(task, bundle, ephemeral, ratchetKey) =>
      var session := Sender.Establish(w, bundle, ephemeral, ratchetKey);
      if task in w.waiting && session.Some?
      then Starts({}, w.waiting[task].sid, Encrypt(session.value.0, w.waiting[task].plaintext).0, Some(session.value.1.peerIdentity))
      else Drops({})
    case Retry(peer, bundle, ephemeral, ratchetKey) =>
      var session := Sender.Establish(w, bundle, ephemeral, ratchetKey);
      if session.Some? then Starts(Sender.Aliases(w.lids, peer), SessionId(peer), session.value.0, None)
      else Drops(Sender.Aliases(w.lids, peer))
    case Drop(peer) => Drops(Sender.Aliases(w.lids, peer))
    case MigrateSession(from, to) => Moves(SessionId(from), SessionId(to))
    case Inbound(sender, enc, newKey) => Arrives(Arrival(w.lids, sender, enc, newKey))
    case Refill(keys) => Refills(keys)
    case _ => Drops({})
  }

  lemma {:induction false} DropsNothing(st: Stores)
    ensures Without(st, {}) == st
  {
  }

  lemma {:induction false} BeginMatches(w: Sender.World, task: nat, sid: string, plaintext: Plaintext)
    requires ValidStores(w.stores) && sid in w.stores.sessions && Sender.MetaFor(w, sid).Some?
    ensures Sender.AfterBegin(w, task, sid, plaintext).stores == Apply(w.stores, w.me, Sends(sid, plaintext))
  {
    var sessions := w.stores.sessions;
    assert sessions[sid := sessions[sid]] == sessions;
  }

  /** A new session of the sender is in good order. */
  lemma {:induction false} EstablishGood(w: Sender.World, bundle: X3dh.Bundle, ephemeral: PrivateKey, ratchetKey: PrivateKey, plaintext: Plaintext)
    ensures var session := Sender.Establish(w, bundle, ephemeral, ratchetKey);
            session.Some? ==>
              var s, secret := session.value.0, X3dh.Initiator(w.me.private, bundle, ephemeral).value.secret;
              && SessionOnce.Good(s) && SessionOnce.Good(Encrypt(s, plaintext).0)
              && Base(s.rk) == secret == Base(Encrypt(s, plaintext).0.rk)
  {
    var r := X3dh.Initiator(w.me.private, bundle, ephemeral);
    if r.Some? {
      var s := InitAlice(r.value.secret, bundle.signedPreKey, ratchetKey);
      SessionOnce.NewGood(r.value.secret, bundle.signedPreKey, ratchetKey);
      SessionOnce.StepGood(s, SessionOnce.Encrypting(plaintext), iset{});
    }
  }

  lemma {:induction false} BundleMatches(w: Sender.World, task: nat, bundle: X3dh.Bundle, ephemeral: PrivateKey, ratchetKey: PrivateKey)
    requires ValidStores(w.stores) && task in w.waiting
    ensures Sender.AfterBundle(w, task, bundle, ephemeral, ratchetKey).stores
         == Apply(w.stores, w.me, StepFor(w, Sender.BundleArrives(task, bundle, ephemeral, ratchetKey)))
  {
    DropsNothing(w.stores);
  }

  lemma {:induction false} RetryMatches(w: Sender.World, peer: Jid, bundle: X3dh.Bundle, ephemeral: PrivateKey, ratchetKey: PrivateKey)
    requires ValidStores(w.stores)
    ensures Sender.AfterRetry(w, peer, bundle, ephemeral, ratchetKey).stores
         == Apply(w.stores, w.me, StepFor(w, Sender.Retry(peer, bundle, ephemeral, ratchetKey)))
  {
  }

  lemma {:induction false} InboundMatches(w: Sender.World, sender: Jid, enc: Enc, newKey: PrivateKey)
    requires ValidStores(w.stores)
    ensures Sender.AfterInbound(w, sender, enc, newKey).stores
         == Apply(w.stores, w.me, StepFor(w, Sender.Inbound(sender, enc, newKey)))
  {
    assert Sender.AfterInbound(w, sender, enc, newKey).stores == DecryptEnc(w.stores, w.me, w.lids, sender, enc, newKey).0;
  }

  lemma {:induction false} StepMatches(w: Sender.World, event: Sender.Event, w': Sender.World)
    requires Sender.IsStep(w, event, w')
    ensures w'.me == w.me && StepOk(StepFor(w, event)) && w'.stores == Apply(w.stores, w.me, StepFor(w, event))
  {
    DropsNothing(w.stores);
    match event
    case Begin(task, peer, plaintext) =>
      if SessionId(peer) in w.stores.sessions && Sender.MetaFor(w, SessionId(peer)).Some? {
        BeginMatches(w, task, SessionId(peer), plaintext);
      }
    case BundleArrives(task, bundle, ephemeral, ratchetKey) =>
      EstablishGood(w, bundle, ephemeral, ratchetKey, w.waiting[task].plaintext);
      BundleMatches(w, task, bundle, ephemeral, ratchetKey);
    case Retry(peer, bundle, ephemeral, ratchetKey) =>
      EstablishGood(w, bundle, ephemeral, ratchetKey, []);
      RetryMatches(w, peer, bundle, ephemeral, ratchetKey);
    case Inbound(sender, enc, newKey) =>
      InboundMatches(w, sender, enc, newKey);
    case _ =>
  }

  function StoresOf(trace: seq<Sender.World>): (r: seq<Stores>)
    ensures |r| == |trace| && forall i | 0 <= i < |trace| :: r[i] == trace[i].stores
  {
    seq(|trace|, i requires 0 <= i < |trace| => trace[i].stores)
  }

  function StepsOf(trace: seq<Sender.World>, events: seq<Sender.Event>): (r: seq<Step>)
    requires |trace| == |events| + 1
    ensures |r| == |events| && forall i | 0 <= i < |events| :: r[i] == StepFor(trace[i], events[i])
  {
    seq(|events|, i requires 0 <= i < |events| => StepFor(trace[i], events[i]))
  }

  lemma {:induction false} SameIdentity(trace: seq<Sender.World>, events: seq<Sender.Event>, i: nat)
    requires Sender.IsRun(trace, events) && i < |trace|
    ensures trace[i].me == trace[0].me
  {
    if i > 0 {
      SameIdentity(trace, events, i - 1);
      assert Sender.StepAt(trace, events, i - 1);
      StepMatches(trace[i - 1], events[i - 1], trace[i]);
    }
  }

  /** Every run of the client is such a run of the stores. */
  lemma {:induction false} RunIsInbox(trace: seq<Sender.World>, events: seq<Sender.Event>)
    requires Sender.IsRun(trace, events)
    ensures IsInbox(trace[0].me, StoresOf(trace), StepsOf(trace, events)) && NewStores(trace[0].stores)
  {
    var states, steps := StoresOf(trace), StepsOf(trace, events);
    forall i | 0 <= i < |steps|
      ensures StepIs(trace[0].me, states, steps, i)
    {
      SameIdentity(trace, events, i);
      assert Sender.StepAt(trace, events, i);
      StepMatches(trace[i], events[i], trace[i + 1]);
    }
  }

  // ---- What the client opens ----

  /** The event is an inbound message that opens. */
  ghost predicate Opening(w: Sender.World, event: Sender.Event) {
    && event.Inbound? && ValidStores(w.stores)
    && DecryptEnc(w.stores, w.me, w.lids, event.sender, event.enc, event.newKey).1.Some?
  }

  /** An inbound message opens at event `i`. */
  ghost predicate OpensAt(trace: seq<Sender.World>, events: seq<Sender.Event>, i: nat)
    requires i < |events| && |trace| == |events| + 1
  {
    Opening(trace[i], events[i])
  }

  lemma {:induction false} OpeningIsKey(w: Sender.World, event: Sender.Event)
    requires ValidStores(w.stores)
    ensures var key := OpenedKey(w.stores, w.me, StepFor(w, event));
            && (Opening(w, event) <==> key.Some?)
            && (Opening(w, event) ==> && !event.enc.Undecodable? && StepFor(w, event).Arrives? && StepFor(w, event).a.enc == event.enc
                                      && key == Some(event.enc.message.ciphertext.mk))
  {
    if event.Inbound? {
      assert StepFor(w, event) == Arrives(Arrival(w.lids, event.sender, event.enc, event.newKey));
    } else {
      assert !StepFor(w, event).Arrives?;
    }
  }

  lemma {:induction false} OpensIsKey(trace: seq<Sender.World>, events: seq<Sender.Event>, i: nat)
    requires Sender.IsRun(trace, events) && i < |events|
    ensures OpensAt(trace, events, i) <==> KeyAt(trace[0].me, StoresOf(trace), StepsOf(trace, events), i).Some?
    ensures OpensAt(trace, events, i) ==>
              && !events[i].enc.Undecodable? && StepsOf(trace, events)[i].a.enc == events[i].enc
              && KeyAt(trace[0].me, StoresOf(trace), StepsOf(trace, events), i) == Some(events[i].enc.message.ciphertext.mk)
  {
    SameIdentity(trace, events, i);
    assert Sender.StepAt(trace, events, i);
    OpeningIsKey(trace[i], events[i]);
    assert StoresOf(trace)[i] == trace[i].stores && StepsOf(trace, events)[i] == StepFor(trace[i], events[i]);
  }

  /** In any run at most one prekey message that uses a one-time prekey opens. */
  lemma {:induction false} RunPreKeyOnce(trace: seq<Sender.World>, events: seq<Sender.Event>, i: nat, j: nat)
    requires Sender.IsRun(trace, events) && NewPreKeys(StoresOf(trace), StepsOf(trace, events))
    requires i < j < |events| && OpensAt(trace, events, i) && OpensAt(trace, events, j)
    requires events[i].enc.Pkmsg? && events[j].enc.Pkmsg? && events[i].enc.oneTimePreKeyId.Some? && events[j].enc.oneTimePreKeyId.Some?
    ensures var pool, pool' := trace[i].stores.oneTimePreKeys, trace[j].stores.oneTimePreKeys;
            Lookup(pool, events[i].enc.oneTimePreKeyId.value) != Lookup(pool', events[j].enc.oneTimePreKeyId.value)
  {
    var me, states, steps := trace[0].me, StoresOf(trace), StepsOf(trace, events);
    var id, id' := events[i].enc.oneTimePreKeyId.value, events[j].enc.oneTimePreKeyId.value;
    RunIsInbox(trace, events);
    OpensIsKey(trace, events, i);
    OpensIsKey(trace, events, j);
    assert UsesPreKey(me, states, steps, i, id) && UsesPreKey(me, states, steps, j, id');
    PoolAt(me, states, steps, i);
    PreKeyOnce(me, states, steps, i, j, states[i].oneTimePreKeys[id]);
  }

  // ---- The client's own sessions ----

  predicate Establishes(event: Sender.Event) {
    event.BundleArrives? || event.Retry?
  }

  /** Ephemeral keys are new: nobody uses one before it is generated. */
  ghost predicate NewEphemerals(events: seq<Sender.Event>) {
    forall s, t | 0 <= s < t < |events| && Establishes(events[s]) && Establishes(events[t]) ::
      events[t].ephemeral != events[s].ephemeral && events[t].ephemeral != events[s].bundle.signedPreKey.owner
  }

  /** No session is started from the client's own bundle. */
  ghost predicate ForeignBundles(me: Identity, events: seq<Sender.Event>) {
    && me.private != me.signedPreKey
    && forall t | 0 <= t < |events| && Establishes(events[t]) :: events[t].bundle.signedPreKey != Pub(me.signedPreKey)
  }

  lemma {:induction false} StartedFrom(w: Sender.World, event: Sender.Event)
    requires StepFor(w, event).Starts?
    ensures Establishes(event) && X3dh.Initiator(w.me.private, event.bundle, event.ephemeral).Some?
    ensures Base(StepFor(w, event).session.rk) == X3dh.Initiator(w.me.private, event.bundle, event.ephemeral).value.secret
  {
    if event.BundleArrives? {
      EstablishGood(w, event.bundle, event.ephemeral, event.ratchetKey, w.waiting[event.task].plaintext);
    } else {
      EstablishGood(w, event.bundle, event.ephemeral, event.ratchetKey, []);
    }
  }

  lemma {:induction false} EphemeralsDiffer(me: PrivateKey, bundle: X3dh.Bundle, e: PrivateKey, bundle': X3dh.Bundle, e': PrivateKey)
    requires e' != e && e' != bundle.signedPreKey.owner && bundle.signatureValid && bundle'.signatureValid
    ensures X3dh.Initiator(me, bundle, e).value.secret != X3dh.Initiator(me, bundle', e').value.secret
  {
    var x, y := X3dh.Initiator(me, bundle, e).value.secret.material, X3dh.Initiator(me, bundle', e').value.secret.material;
    assert x[2] != y[2];
  }

  lemma {:induction false} AnswersDiffer(me: Identity, bundle: X3dh.Bundle, e: PrivateKey, st: Stores, enc: Enc)
    requires me.private != me.signedPreKey && bundle.signedPreKey != Pub(me.signedPreKey) && bundle.signatureValid && enc.Pkmsg?
    ensures X3dh.Initiator(me.private, bundle, e).value.secret != SecretOf(st, me, enc)
  {
    var x, y := X3dh.Initiator(me.private, bundle, e).value.secret.material, SecretOf(st, me, enc).material;
    assert x[0] != y[0];
  }

  lemma {:induction false} OwnSecrets(trace: seq<Sender.World>, events: seq<Sender.Event>, s: nat, t: nat)
    requires Sender.IsRun(trace, events) && NewEphemerals(events) && ForeignBundles(trace[0].me, events)
    requires s < |events| && t < |events| && s != t && StepsOf(trace, events)[s].Starts?
    ensures !BuildsAt(trace[0].me, StoresOf(trace), StepsOf(trace, events), t, Base(StepsOf(trace, events)[s].session.rk))
  {
    var me, step := trace[0].me, StepFor(trace[t], events[t]);
    SameIdentity(trace, events, s);
    SameIdentity(trace, events, t);
    StartedFrom(trace[s], events[s]);
    if step.Starts? {
      StartedFrom(trace[t], events[t]);
      if s < t {
        EphemeralsDiffer(me.private, events[s].bundle, events[s].ephemeral, events[t].bundle, events[t].ephemeral);
      } else {
        EphemeralsDiffer(me.private, events[t].bundle, events[t].ephemeral, events[s].bundle, events[s].ephemeral);
      }
    } else if step.Arrives? && step.a.enc.Pkmsg? {
      AnswersDiffer(me, events[s].bundle, events[s].ephemeral, trace[t].stores, step.a.enc);
    }
  }

  // ---- The client opens no key twice ----

  /** If a client opens two messages with one key, then before that it opened two prekey messages for one
      session, without a one-time prekey. */
  lemma {:induction false} RunTwice(trace: seq<Sender.World>, events: seq<Sender.Event>, i: nat, j: nat)
    requires Sender.IsRun(trace, events) && NewEphemerals(events) && ForeignBundles(trace[0].me, events)
    requires NewPreKeys(StoresOf(trace), StepsOf(trace, events)) && i < j < |events| && OpensAt(trace, events, i) && OpensAt(trace, events, j)
    requires events[i].enc.message.ciphertext.mk == events[j].enc.message.ciphertext.mk
    ensures exists s, t | 0 <= s < t <= j ::
              OpensAt(trace, events, s) && OpensAt(trace, events, t) && Again(events[s].enc, events[t].enc)
  {
    var me, states, steps, key := trace[0].me, StoresOf(trace), StepsOf(trace, events), events[i].enc.message.ciphertext.mk;
    RunIsInbox(trace, events);
    forall s, t | 0 <= s < |steps| && 0 <= t < |steps| && s != t && steps[s].Starts?
      ensures !BuildsAt(me, states, steps, t, Base(steps[s].session.rk))
    {
      OwnSecrets(trace, events, s, t);
    }
    OpensIsKey(trace, events, i);
    OpensIsKey(trace, events, j);
    TwiceInRun(me, states, steps, i, j, key);
    var s, t :| 0 <= s < t <= j && RedeliveredAt(me, states, steps, s, t, Base(key));
    OpensIsKey(trace, events, s);
    OpensIsKey(trace, events, t);
  }

  /** A client whose peers' prekey messages name one-time prekeys opens no two messages with one key, and so
      none twice, whatever it sends, starts, drops and moves in between. */
  lemma {:induction false} RunOpensOnce(trace: seq<Sender.World>, events: seq<Sender.Event>, i: nat, j: nat)
    requires Sender.IsRun(trace, events) && NewEphemerals(events) && ForeignBundles(trace[0].me, events)
    requires NewPreKeys(StoresOf(trace), StepsOf(trace, events)) && i < j < |events| && OpensAt(trace, events, i) && OpensAt(trace, events, j)
    requires forall t | 0 <= t < |events| && OpensAt(trace, events, t) && events[t].enc.Pkmsg? :: events[t].enc.oneTimePreKeyId.Some?
    ensures events[i].enc.message.ciphertext.mk != events[j].enc.message.ciphertext.mk && events[i].enc != events[j].enc
  {
    if events[i].enc.message.ciphertext.mk == events[j].enc.message.ciphertext.mk {
      RunTwice(trace, events, i, j);
    }
  }
}
