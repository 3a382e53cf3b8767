/** Prekey messages that arrive again.  One that names no one-time prekey rebuilds its session from the same
    secret, and messages that were opened can then be opened again; nothing else makes a key open twice. */
module Redelivery {
  import opened Outcomes
  import opened SymbolicCrypto
  import opened Ratchet
  import opened Messages
  import opened Addressing
  import opened Receiver
  import opened ReceiverRuns
  import X3dh

  // ---- When two prekey messages have one secret ----

  lemma {:induction false} SameSecret(me: Identity, o1: Option<PrivateKey>, id1: PublicKey, base1: PublicKey,
                                      o2: Option<PrivateKey>, id2: PublicKey, base2: PublicKey)
    requires X3dh.Responder(me.private, me.signedPreKey, o1, id1, base1)
          == X3dh.Responder(me.private, me.signedPreKey, o2, id2, base2)
    ensures id1 == id2 && base1 == base2 && o1 == o2
  {
    var x := X3dh.Responder(me.private, me.signedPreKey, o1, id1, base1).material;
    var y := X3dh.Responder(me.private, me.signedPreKey, o2, id2, base2).material;
    assert |x| == (if o1.Some? then 4 else 3) && |y| == (if o2.Some? then 4 else 3);
    assert x[0] == y[0] && x[1] == y[1];
    if o1.Some? {
      assert x[3] == y[3];
    }
  }

  /** A prekey message opens at step `i`. */
  ghost predicate PkmsgAt(me: Identity, states: seq<Stores>, steps: seq<Step>, i: nat)
    requires i < |steps| && |states| == |steps| + 1
  {
    KeyAt(me, states, steps, i).Some? && steps[i].a.enc.Pkmsg?
  }

  /** Two prekey messages for one session that names no one-time prekey. */
  ghost predicate Again(enc: Enc, enc': Enc) {
    && enc.Pkmsg? && enc'.Pkmsg? && enc.oneTimePreKeyId == None == enc'.oneTimePreKeyId
    && enc.identityKey == enc'.identityKey && enc.baseKey == enc'.baseKey && enc.signedPreKeyId == enc'.signedPreKeyId
  }

  lemma {:induction false} PkmsgKey(me: Identity, states: seq<Stores>, steps: seq<Step>, i: nat)
    requires IsInbox(me, states, steps) && i < |steps| && PkmsgAt(me, states, steps, i)
    ensures var enc := steps[i].a.enc;
            && enc.signedPreKeyId == me.signedPreKeyId && BuildsAt(me, states, steps, i, SecretOf(states[i], me, enc))
            && (enc.oneTimePreKeyId.Some? ==> enc.oneTimePreKeyId.value in states[i].oneTimePreKeys)
  {
    InboxGood(me, states, steps, i);
  }

  /** Two prekey messages that open have the same secret only if they are for one session and name no
      one-time prekey. */
  lemma {:induction false} RebuiltHow(me: Identity, states: seq<Stores>, steps: seq<Step>, s: nat, t: nat)
    requires IsInbox(me, states, steps) && NewPreKeys(states, steps) && s < t < |steps|
    requires PkmsgAt(me, states, steps, s) && PkmsgAt(me, states, steps, t)
    ensures SecretOf(states[s], me, steps[s].a.enc) == SecretOf(states[t], me, steps[t].a.enc)
       <==> Again(steps[s].a.enc, steps[t].a.enc)
  {
    PkmsgKey(me, states, steps, s);
    PkmsgKey(me, states, steps, t);
    var enc, enc' := steps[s].a.enc, steps[t].a.enc;
    if SecretOf(states[s], me, enc) == SecretOf(states[t], me, enc') {
      SameSecret(me, if enc.oneTimePreKeyId.Some? then Some(states[s].oneTimePreKeys[enc.oneTimePreKeyId.value]) else None,
                 enc.identityKey, enc.baseKey,
                 if enc'.oneTimePreKeyId.Some? then Some(states[t].oneTimePreKeys[enc'.oneTimePreKeyId.value]) else None,
                 enc'.identityKey, enc'.baseKey);
      if enc.oneTimePreKeyId.Some? {
        var id, id' := enc.oneTimePreKeyId.value, enc'.oneTimePreKeyId.value;
        assert UsesPreKey(me, states, steps, s, id) && UsesPreKey(me, states, steps, t, id');
        PreKeyOnce(me, states, steps, s, t, states[s].oneTimePreKeys[id]);
      }
    }
  }

  // ---- Keys that open twice ----

  /** No session of secret `b` is there at the start or is put into the store by the sender. */
  ghost predicate OnlyAnswered(states: seq<Stores>, steps: seq<Step>, b: Key)
    requires |states| == |steps| + 1
  {
    NoSession(states[0], b) && forall t | 0 <= t < |steps| && steps[t].Starts? :: Base(steps[t].session.rk) != b
  }

  /** A prekey message without a one-time prekey opens at step `s`, and one for the same session at step `t`. */
  ghost predicate RedeliveredAt(me: Identity, states: seq<Stores>, steps: seq<Step>, s: nat, t: nat, b: Key)
    requires s < t < |steps| && |states| == |steps| + 1
  {
    && PkmsgAt(me, states, steps, s) && PkmsgAt(me, states, steps, t) && Again(steps[s].a.enc, steps[t].a.enc)
    && SecretOf(states[s], me, steps[s].a.enc) == b
  }

  lemma {:induction false} BuildsHow(me: Identity, states: seq<Stores>, steps: seq<Step>, t: nat, b: Key)
    requires IsInbox(me, states, steps) && OnlyAnswered(states, steps, b) && t < |steps| && BuildsAt(me, states, steps, t, b)
    ensures PkmsgAt(me, states, steps, t) && SecretOf(states[t], me, steps[t].a.enc) == b
  {
  }

  /** If two messages open with one key, a prekey message without a one-time prekey was redelivered. */
  lemma {:induction false} TwiceMeansRedelivered(me: Identity, states: seq<Stores>, steps: seq<Step>, i: nat, j: nat, key: Key)
    requires IsInbox(me, states, steps) && NewPreKeys(states, steps) && OnlyAnswered(states, steps, Base(key)) && i < j < |steps|
    requires KeyAt(me, states, steps, i) == Some(key) && KeyAt(me, states, steps, j) == Some(key)
    ensures exists s, t | 0 <= s < t <= j :: RedeliveredAt(me, states, steps, s, t, Base(key))
  {
    var b := Base(key);
    TwiceMeansRebuilt(me, states, steps, i, j, key);
    var t :| 0 <= t <= j && RebuildsAt(me, states, steps, t, b);
    var s :| 0 <= s < t && BuildsAt(me, states, steps, s, b);
    BuildsHow(me, states, steps, s, b);
    BuildsHow(me, states, steps, t, b);
    RebuiltHow(me, states, steps, s, t);
    assert RedeliveredAt(me, states, steps, s, t, b);
  }

  /** The same for a session that is followed through its moves: the redelivery is in between. */
  lemma {:induction false} FollowedTwice(me: Identity, states: seq<Stores>, steps: seq<Step>, at: seq<string>, i: nat, j: nat, key: Key)
    requires IsInbox(me, states, steps) && NewPreKeys(states, steps) && OnlyAnswered(states, steps, Base(key))
    requires |at| == |states| && i < j < |steps| && Follows(states, steps, at, i + 1, j + 1)
    requires OpensIn(me, states, steps, i, at[i + 1], key) && OpensIn(me, states, steps, j, at[j + 1], key)
    ensures exists s, t | 0 <= s < t <= j && i < t :: RedeliveredAt(me, states, steps, s, t, Base(key))
  {
    var b := Base(key);
    MsgOpensOnce(me, states, steps, at, i, j, key);
    var t :| i < t <= j && BuildsAt(me, states, steps, t, b);
    OpenedMeansBuilt(me, states, steps, i, key);
    var s :| 0 <= s <= i && BuildsAt(me, states, steps, s, b);
    BuildsHow(me, states, steps, s, b);
    BuildsHow(me, states, steps, t, b);
    RebuiltHow(me, states, steps, s, t);
    assert RedeliveredAt(me, states, steps, s, t, b);
  }

  /** A key opens only after a session of its secret was built. */
  lemma {:induction false} OpenedMeansBuilt(me: Identity, states: seq<Stores>, steps: seq<Step>, i: nat, key: Key)
    requires IsInbox(me, states, steps) && OnlyAnswered(states, steps, Base(key)) && i < |steps| && KeyAt(me, states, steps, i) == Some(key)
    ensures exists s | 0 <= s <= i :: BuildsAt(me, states, steps, s, Base(key))
  {
    var b := Base(key);
    if forall s | 0 <= s <= i :: !BuildsAt(me, states, steps, s, b) {
      assert NeverRebuilt(me, states, steps, i, b);
      RunOnBase(me, states, steps, i, b);
      InboxGood(me, states, steps, i);
      assert StepIs(me, states, steps, i) && !BuildsAt(me, states, steps, i, b);
      StepSettles(states[i], me, steps[i], b, UsedOn(me, states, steps, i, b));
    }
  }

  // ---- What a new responder session opens ----

  /** The chain on which a new responder session receives first. */
  function FirstChain(me: Identity, secret: Key, dh: PublicKey): Key {
    ChainKey(secret, Dh(me.signedPreKey, dh))
  }

  lemma {:induction false} SkipToAppending(s: State, until: nat)
    requires Appending(s)
    ensures Appending(SkipTo(s, until))
    decreases until - s.nr
  {
    if s.nr < until {
      SkipOneCache(s);
      SkipToAppending(SkipOne(s), until);
    }
  }

  /** A turned responder session before it takes the message key at `n`. */
  lemma {:induction false} Skipped(me: Identity, secret: Key, dh: PublicKey, n: nat, newKey: PrivateKey)
    ensures var u := SkipTo(DhRatchet(InitBob(secret, me.signedPreKey), dh, newKey), n);
            && u.dhr == Some(dh) && u.ckr == Some(Advance(FirstChain(me, secret, dh), n)) && u.nr == n
            && u.maxSkip == DEFAULT_MAX_SKIP && NoneCachedFrom(u.skipped, dh, n)
  {
    var t := DhRatchet(InitBob(secret, me.signedPreKey), dh, newKey);
    SkipToChain(t, n);
    SkipToAppending(t, n);
  }

  /** The key a new responder session tries does not depend on the key pair it generates. */
  lemma {:induction false} FirstTried(me: Identity, secret: Key, h: Header, newKey: PrivateKey)
    ensures TriedKey(InitBob(secret, me.signedPreKey), h, newKey)
         == if h.n <= DEFAULT_MAX_SKIP then Some(MessageKey(Advance(FirstChain(me, secret, h.dh), h.n))) else None
  {
    Skipped(me, secret, h.dh, h.n, newKey);
  }

  /** The state of a responder session once its first message `h` opened, whatever the message. */
  function Answered(me: Identity, secret: Key, h: Header, newKey: PrivateKey): State {
    var u := SkipTo(DhRatchet(InitBob(secret, me.signedPreKey), h.dh, newKey), h.n);
    u.(ckr := Some(NextChainKey(u.ckr.value)), nr := u.nr + 1)
  }

  lemma {:induction false} NotCached(cache: seq<SkippedKey>, dh: PublicKey, n: nat)
    requires NoneCachedFrom(cache, dh, n)
    ensures !HasKey(cache, dh, n + 1)
  {
  }

  /** It tries the next message of the chain with the next key. */
  lemma {:induction false} NextTried(me: Identity, secret: Key, h: Header, newKey: PrivateKey, h': Header, newKey': PrivateKey)
    requires h'.dh == h.dh && h'.n == h.n + 1
    ensures Valid(Answered(me, secret, h, newKey))
    ensures TriedKey(Answered(me, secret, h, newKey), h', newKey') == Some(MessageKey(Advance(FirstChain(me, secret, h.dh), h'.n)))
  {
    Skipped(me, secret, h.dh, h.n, newKey);
    var s := Answered(me, secret, h, newKey);
    NotCached(s.skipped, h.dh, h.n);
    assert Turn(s, h', newKey') == (s, true);
    assert Skip(s, h'.n) == (s, true);
  }

  /** The message after the one inside a prekey message, on the same chain. */
  function NextMessage(me: Identity, secret: Key, enc: Enc, plaintext: Plaintext): SignalMessage
    requires enc.Pkmsg?
  {
    var h := enc.message.header;
    var mk := MessageKey(Advance(FirstChain(me, secret, h.dh), h.n + 1));
    Envelope(Sent(Header(h.dh, 0, h.n + 1), Sealed(mk, plaintext), MacKey(mk)), enc.identityKey, Pub(me.private))
  }

  lemma {:induction false} NextOpens(me: Identity, secret: Key, enc: Enc, plaintext: Plaintext, newKey: PrivateKey, newKey': PrivateKey)
    requires enc.Pkmsg?
    ensures var s, m := Answered(me, secret, enc.message.header, newKey), NextMessage(me, secret, enc, plaintext);
            Valid(s) && Receive(s, m, enc.identityKey, Pub(me.private), newKey').1 == Opened(plaintext)
  {
    var s, m := Answered(me, secret, enc.message.header, newKey), NextMessage(me, secret, enc, plaintext);
    NextTried(me, secret, enc.message.header, newKey, m.header, newKey');
    OpenedIff(s, m.header, m.ciphertext, Verifier(m, enc.identityKey, Pub(me.private)), newKey');
  }

  // ---- Redelivery ----

  /** What decides whether a prekey message without a one-time prekey opens: nothing that is stored. */
  predicate Acceptable(me: Identity, enc: Enc)
    requires enc.Pkmsg?
  {
    var secret := X3dh.Responder(me.private, me.signedPreKey, None, enc.identityKey, enc.baseKey);
    var m, mk := enc.message, MessageKey(Advance(FirstChain(me, secret, enc.message.header.dh), enc.message.header.n));
    && enc.signedPreKeyId == me.signedPreKeyId && m.header.n <= DEFAULT_MAX_SKIP
    && m.ciphertext.mk == mk && Verifier(m, enc.identityKey, Pub(me.private))(MacKey(mk))
  }

  lemma {:induction false} PkmsgOpensIff(st: Stores, me: Identity, sid: string, enc: Enc, newKey: PrivateKey)
    requires enc.Pkmsg? && enc.oneTimePreKeyId.None?
    ensures var (st', r) := FromPkmsg(st, me, sid, enc, newKey);
            && r == (if Acceptable(me, enc) then Some(enc.message.ciphertext.plaintext) else None)
            && (r.Some? ==> && sid in st'.sessions && st'.sessions[sid] == Answered(me, SecretOf(st, me, enc), enc.message.header, newKey)
                            && Lookup(st'.identities, sid) == Some(enc.identityKey))
  {
    var secret, m := SecretOf(st, me, enc), enc.message;
    FirstTried(me, secret, m.header, newKey);
    OpenedIff(InitBob(secret, me.signedPreKey), m.header, m.ciphertext, Verifier(m, enc.identityKey, Pub(me.private)), newKey);
  }

  /** A prekey message that opens does so with a key of its secret. */
  lemma {:induction false} OwnSecret(me: Identity, states: seq<Stores>, steps: seq<Step>, i: nat)
    requires IsInbox(me, states, steps) && i < |steps| && PkmsgAt(me, states, steps, i)
    ensures Base(steps[i].a.enc.message.ciphertext.mk) == SecretOf(states[i], me, steps[i].a.enc)
  {
    var a := steps[i].a;
    InboxGood(me, states, steps, i);
    PkmsgBuilds(MigrateKnown(states[i], a.lids, a.sender), me, SessionId(a.sender), a.enc, a.newKey);
  }

  /** A prekey message that opened opens again, from any address and at any time, exactly if it names no
      one-time prekey. */
  lemma {:induction false} RedeliveryIff(me: Identity, states: seq<Stores>, steps: seq<Step>, i: nat, j: nat)
    requires IsInbox(me, states, steps) && NewPreKeys(states, steps) && i < j < |steps| && PkmsgAt(me, states, steps, i)
    requires steps[j].Arrives? && steps[j].a.enc == steps[i].a.enc
    ensures PkmsgAt(me, states, steps, j) <==> steps[i].a.enc.oneTimePreKeyId.None?
  {
    var a, a', enc := steps[i].a, steps[j].a, steps[i].a.enc;
    InboxGood(me, states, steps, i);
    InboxGood(me, states, steps, j);
    if enc.oneTimePreKeyId.Some? {
      if PkmsgAt(me, states, steps, j) {
        OwnSecret(me, states, steps, i);
        OwnSecret(me, states, steps, j);
        RebuiltHow(me, states, steps, i, j);
      }
    } else {
      PkmsgOpensIff(MigrateKnown(states[i], a.lids, a.sender), me, SessionId(a.sender), enc, a.newKey);
      PkmsgOpensIff(MigrateKnown(states[j], a'.lids, a'.sender), me, SessionId(a'.sender), enc, a'.newKey);
    }
  }

  // ---- Messages that open twice ----

  /** What a message at step `i` decrypts to. */
  ghost function PlaintextAt(me: Identity, states: seq<Stores>, steps: seq<Step>, i: nat): Option<Plaintext>
    requires i < |steps| && |states| == |steps| + 1
  {
    if ValidStores(states[i]) && steps[i].Arrives? then Handle(states[i], me, steps[i].a).1 else None
  }

  /** A prekey message that can be redelivered, and then the next message of its session. */
  ghost predicate Pair(me: Identity, pk: Arrival, next: Arrival, plaintext: Plaintext) {
    && pk.enc.Pkmsg? && pk.enc.oneTimePreKeyId.None? && Acceptable(me, pk.enc)
    && pk.sender == next.sender && pk.sender.server != "lid"
    && next.enc == Msg(NextMessage(me, X3dh.Responder(me.private, me.signedPreKey, None, pk.enc.identityKey, pk.enc.baseKey), pk.enc, plaintext))
  }

  /** Both open, whatever is stored. */
  lemma {:induction false} PairOpens(me: Identity, states: seq<Stores>, steps: seq<Step>, t: nat, pk: Arrival, next: Arrival, plaintext: Plaintext)
    requires IsInbox(me, states, steps) && t + 1 < |steps| && steps[t] == Arrives(pk) && steps[t + 1] == Arrives(next)
    requires Pair(me, pk, next, plaintext)
    ensures PlaintextAt(me, states, steps, t) == Some(pk.enc.message.ciphertext.plaintext)
    ensures PlaintextAt(me, states, steps, t + 1) == Some(plaintext)
  {
    InboxGood(me, states, steps, t);
    InboxGood(me, states, steps, t + 1);
    assert StepIs(me, states, steps, t);
    var sid, secret := SessionId(pk.sender), SecretOf(states[t], me, pk.enc);
    PkmsgOpensIff(states[t], me, sid, pk.enc, pk.newKey);
    NextOpens(me, secret, pk.enc, plaintext, pk.newKey, next.newKey);
    assert states[t + 1].sessions[sid] == Answered(me, secret, pk.enc.message.header, pk.newKey);
  }

  /** A message opens as a `msg` at steps `i` and `j`, with a key of secret `b`. */
  ghost predicate MsgTwice(me: Identity, states: seq<Stores>, steps: seq<Step>, i: nat, j: nat, b: Key)
    requires i < j < |steps| && |states| == |steps| + 1
  {
    && steps[i].Arrives? && steps[j].Arrives? && steps[i].a.enc.Msg? && steps[j].a.enc == steps[i].a.enc
    && Base(steps[i].a.enc.message.ciphertext.mk) == b
    && PlaintextAt(me, states, steps, i).Some? && PlaintextAt(me, states, steps, j).Some?
  }

  /** A run and more steps after it. */
  ghost predicate Continues(me: Identity, states: seq<Stores>, steps: seq<Step>, states': seq<Stores>, steps': seq<Step>) {
    IsInbox(me, states', steps') && states <= states' && steps <= steps'
  }

  lemma {:induction false} OneMore(me: Identity, states: seq<Stores>, steps: seq<Step>, step: Step) returns (states': seq<Stores>)
    requires IsInbox(me, states, steps) && StepOk(step)
    ensures Continues(me, states, steps, states', steps + [step])
  {
    InboxGood(me, states, steps, |steps|);
    var last := Apply(states[|steps|], me, step);
    states' := states + [last];
    forall i | 0 <= i < |steps + [step]|
      ensures StepIs(me, states', steps + [step], i)
    {
      if i < |steps| {
        assert StepIs(me, states, steps, i);
        assert states'[i] == states[i] && states'[i + 1] == states[i + 1];
      }
    }
  }

  lemma {:induction false} FourMore(me: Identity, states: seq<Stores>, steps: seq<Step>, a: Arrival, b: Arrival)
    returns (states': seq<Stores>, steps': seq<Step>)
    requires IsInbox(me, states, steps)
    ensures Continues(me, states, steps, states', steps')
    ensures steps' == steps + [Arrives(a), Arrives(b), Arrives(a), Arrives(b)]
  {
    var steps1, steps2, steps3 := steps + [Arrives(a)], steps + [Arrives(a), Arrives(b)], steps + [Arrives(a), Arrives(b), Arrives(a)];
    steps' := steps + [Arrives(a), Arrives(b), Arrives(a), Arrives(b)];
    var states1 := OneMore(me, states, steps, Arrives(a));
    var states2 := OneMore(me, states1, steps1, Arrives(b));
    assert steps1 + [Arrives(b)] == steps2;
    var states3 := OneMore(me, states2, steps2, Arrives(a));
    assert steps2 + [Arrives(a)] == steps3;
    states' := OneMore(me, states3, steps3, Arrives(b));
    assert steps3 + [Arrives(b)] == steps';
  }

  /** Four messages from step `n` on decrypt to the same two plaintexts twice. */
  ghost predicate BothTwice(me: Identity, states: seq<Stores>, steps: seq<Step>, n: nat, first: Plaintext, second: Plaintext)
    requires n + 3 < |steps| && |states| == |steps| + 1
  {
    && PlaintextAt(me, states, steps, n) == Some(first) == PlaintextAt(me, states, steps, n + 2)
    && PlaintextAt(me, states, steps, n + 1) == Some(second) == PlaintextAt(me, states, steps, n + 3)
  }

  /** A pair delivered twice opens twice. */
  lemma {:induction false} PairsOpen(me: Identity, states: seq<Stores>, steps: seq<Step>, pk: Arrival, next: Arrival, plaintext: Plaintext)
    returns (states': seq<Stores>, steps': seq<Step>)
    requires IsInbox(me, states, steps) && Pair(me, pk, next, plaintext)
    ensures Continues(me, states, steps, states', steps')
    ensures steps' == steps + [Arrives(pk), Arrives(next), Arrives(pk), Arrives(next)]
    ensures BothTwice(me, states', steps', |steps|, pk.enc.message.ciphertext.plaintext, plaintext)
  {
    states', steps' := FourMore(me, states, steps, pk, next);
    PairOpens(me, states', steps', |steps|, pk, next, plaintext);
    PairOpens(me, states', steps', |steps| + 2, pk, next, plaintext);
  }

  /** Some continuation in which no session of this secret is the sender's own opens a message twice. */
  ghost predicate CanOpenTwice(me: Identity, states: seq<Stores>, steps: seq<Step>, b: Key) {
    exists states', steps', i, j ::
      && Continues(me, states, steps, states', steps') && OnlyAnswered(states', steps', b) && NewPreKeys(states', steps')
      && 0 <= i < j < |steps'| && MsgTwice(me, states', steps', i, j, b)
  }

  /** A prekey message without a one-time prekey that opened is acceptable for ever. */
  lemma {:induction false} StillAcceptable(me: Identity, states: seq<Stores>, steps: seq<Step>, i: nat)
    requires IsInbox(me, states, steps) && i < |steps| && PkmsgAt(me, states, steps, i) && steps[i].a.enc.oneTimePreKeyId.None?
    ensures Acceptable(me, steps[i].a.enc)
  {
    InboxGood(me, states, steps, i);
    var a := steps[i].a;
    PkmsgOpensIff(MigrateKnown(states[i], a.lids, a.sender), me, SessionId(a.sender), a.enc, a.newKey);
  }

  lemma {:induction false} OnlyAnsweredMore(me: Identity, states: seq<Stores>, steps: seq<Step>, states': seq<Stores>, steps': seq<Step>, b: Key)
    requires IsInbox(me, states, steps) && Continues(me, states, steps, states', steps') && OnlyAnswered(states, steps, b)
    requires forall t | |steps| <= t < |steps'| :: steps'[t].Arrives?
    ensures OnlyAnswered(states', steps', b)
  {
    assert states'[0] == states[0];
    forall t | 0 <= t < |steps'| && steps'[t].Starts?
      ensures Base(steps'[t].session.rk) != b
    {
      assert t < |steps| && steps'[t] == steps[t];
    }
  }

  lemma {:induction false} NewPreKeysMore(me: Identity, states: seq<Stores>, steps: seq<Step>, states': seq<Stores>, steps': seq<Step>)
    requires IsInbox(me, states, steps) && Continues(me, states, steps, states', steps') && NewPreKeys(states, steps)
    requires forall t | |steps| <= t < |steps'| :: steps'[t].Arrives?
    ensures NewPreKeys(states', steps')
  {
    assert states'[0] == states[0];
    forall t | 0 <= t < |steps'| && steps'[t].Refills?
      ensures GeneratesNew(states', steps', t)
    {
      assert t < |steps| && steps'[t] == steps[t] && GeneratesNew(states, steps, t);
    }
  }

  lemma {:induction false} PairTwice(me: Identity, states: seq<Stores>, steps: seq<Step>, pk: Arrival, next: Arrival, b: Key)
    requires IsInbox(me, states, steps) && Pair(me, pk, next, []) && OnlyAnswered(states, steps, b) && NewPreKeys(states, steps)
    requires Base(next.enc.message.ciphertext.mk) == b
    ensures CanOpenTwice(me, states, steps, b)
  {
    var n := |steps|;
    var states', steps' := PairsOpen(me, states, steps, pk, next, []);
    OnlyAnsweredMore(me, states, steps, states', steps', b);
    NewPreKeysMore(me, states, steps, states', steps');
    assert MsgTwice(me, states', steps', n + 1, n + 3, b);
  }

  /** After a prekey message without a one-time prekey, its next message can be opened twice. */
  lemma {:induction false} CanReopen(me: Identity, states: seq<Stores>, steps: seq<Step>, i: nat)
    requires IsInbox(me, states, steps) && NewPreKeys(states, steps) && i < |steps| && PkmsgAt(me, states, steps, i)
    requires steps[i].a.enc.oneTimePreKeyId.None?
    requires OnlyAnswered(states, steps, SecretOf(states[i], me, steps[i].a.enc))
    ensures CanOpenTwice(me, states, steps, SecretOf(states[i], me, steps[i].a.enc))
  {
    var enc := steps[i].a.enc;
    var b, sender := SecretOf(states[i], me, enc), Jid("", "s.whatsapp.net", 0);
    StillAcceptable(me, states, steps, i);
    NextBase(me, b, enc);
    PairTwice(me, states, steps, Arrival(EMPTY_LID_MAP, sender, enc, 0),
              Arrival(EMPTY_LID_MAP, sender, Msg(NextMessage(me, b, enc, [])), 0), b);
  }

  lemma {:induction false} NextBase(me: Identity, secret: Key, enc: Enc)
    requires enc.Pkmsg?
    ensures Base(NextMessage(me, secret, enc, []).ciphertext.mk) == Base(secret)
  {
    AdvancedBase(FirstChain(me, secret, enc.message.header.dh), enc.message.header.n + 1);
  }

  lemma {:induction false} StaysNamed(me: Identity, states: seq<Stores>, steps: seq<Step>, states': seq<Stores>, steps': seq<Step>, i: nat)
    requires IsInbox(me, states, steps) && Continues(me, states, steps, states', steps') && i < |steps|
    ensures KeyAt(me, states', steps', i) == KeyAt(me, states, steps, i) && steps'[i] == steps[i] && states'[i] == states[i]
  {
  }

  /** After a prekey message that opened, some continuation opens a `msg` of its secret twice exactly if it
      names no one-time prekey. */
  lemma {:induction false} CanOpenTwiceIff(me: Identity, states: seq<Stores>, steps: seq<Step>, i: nat)
    requires IsInbox(me, states, steps) && NewPreKeys(states, steps) && i < |steps| && PkmsgAt(me, states, steps, i)
    requires OnlyAnswered(states, steps, SecretOf(states[i], me, steps[i].a.enc))
    ensures CanOpenTwice(me, states, steps, SecretOf(states[i], me, steps[i].a.enc)) <==> steps[i].a.enc.oneTimePreKeyId.None?
  {
    var b := SecretOf(states[i], me, steps[i].a.enc);
    if steps[i].a.enc.oneTimePreKeyId.None? {
      CanReopen(me, states, steps, i);
    } else if CanOpenTwice(me, states, steps, b) {
      var states', steps', p, q :| Continues(me, states, steps, states', steps') && OnlyAnswered(states', steps', b) && NewPreKeys(states', steps')
        && 0 <= p < q < |steps'| && MsgTwice(me, states', steps', p, q, b);
      StaysNamed(me, states, steps, states', steps', i);
      NamedNeverTwice(me, states', steps', i, p, q);
    }
  }

  lemma {:induction false} NamedNeverTwice(me: Identity, states: seq<Stores>, steps: seq<Step>, i: nat, p: nat, q: nat)
    requires IsInbox(me, states, steps) && NewPreKeys(states, steps) && i < |steps| && PkmsgAt(me, states, steps, i)
    requires OnlyAnswered(states, steps, SecretOf(states[i], me, steps[i].a.enc)) && p < q < |steps|
    requires steps[i].a.enc.oneTimePreKeyId.Some?
    ensures !MsgTwice(me, states, steps, p, q, SecretOf(states[i], me, steps[i].a.enc))
  {
    var b := SecretOf(states[i], me, steps[i].a.enc);
    PkmsgKey(me, states, steps, i);
    assert |b.material| == 4;
    if MsgTwice(me, states, steps, p, q, b) {
      var key := steps[p].a.enc.message.ciphertext.mk;
      TwiceMeansRedelivered(me, states, steps, p, q, key);
    }
  }

  // ---- Consequences ----

  /** Every prekey message that opens names a one-time prekey. */
  ghost predicate AllNamed(me: Identity, states: seq<Stores>, steps: seq<Step>)
    requires |states| == |steps| + 1
  {
    forall i | 0 <= i < |steps| && PkmsgAt(me, states, steps, i) :: steps[i].a.enc.oneTimePreKeyId.Some?
  }

  /** The sender's own sessions have secrets of their own. */
  ghost predicate OwnApart(me: Identity, states: seq<Stores>, steps: seq<Step>)
    requires |states| == |steps| + 1
  {
    forall s, t | 0 <= s < |steps| && 0 <= t < |steps| && s != t && steps[s].Starts? ::
      !BuildsAt(me, states, steps, t, Base(steps[s].session.rk))
  }

  /** A second build of one secret is a redelivery. */
  lemma {:induction false} BuiltTwice(me: Identity, states: seq<Stores>, steps: seq<Step>, s: nat, t: nat, b: Key)
    requires IsInbox(me, states, steps) && NewPreKeys(states, steps) && OwnApart(me, states, steps)
    requires s < t < |steps| && BuildsAt(me, states, steps, s, b) && BuildsAt(me, states, steps, t, b)
    ensures RedeliveredAt(me, states, steps, s, t, b)
  {
    assert PkmsgAt(me, states, steps, s) && PkmsgAt(me, states, steps, t);
    RebuiltHow(me, states, steps, s, t);
  }

  /** On a device that starts without sessions, any key that opens twice is due to a redelivery. */
  lemma {:induction false} TwiceInRun(me: Identity, states: seq<Stores>, steps: seq<Step>, i: nat, j: nat, key: Key)
    requires IsInbox(me, states, steps) && NewStores(states[0]) && NewPreKeys(states, steps) && OwnApart(me, states, steps)
    requires i < j < |steps| && KeyAt(me, states, steps, i) == Some(key) && KeyAt(me, states, steps, j) == Some(key)
    ensures exists s, t | 0 <= s < t <= j :: RedeliveredAt(me, states, steps, s, t, Base(key))
  {
    TwiceMeansRebuilt(me, states, steps, i, j, key);
    var t :| 0 <= t <= j && RebuildsAt(me, states, steps, t, Base(key));
    var s :| 0 <= s < t && BuildsAt(me, states, steps, s, Base(key));
    BuiltTwice(me, states, steps, s, t, Base(key));
  }

  /** If every prekey message that opens names a one-time prekey, no two messages ever open with the same key,
      at whatever addresses, through all moves and replacements of sessions. */
  lemma {:induction false} NoneTwice(me: Identity, states: seq<Stores>, steps: seq<Step>, i: nat, j: nat, key: Key)
    requires IsInbox(me, states, steps) && NewStores(states[0]) && NewPreKeys(states, steps)
    requires OwnApart(me, states, steps) && AllNamed(me, states, steps)
    requires i < j < |steps| && KeyAt(me, states, steps, i) == Some(key)
    ensures KeyAt(me, states, steps, j) != Some(key)
  {
    if KeyAt(me, states, steps, j) == Some(key) {
      TwiceInRun(me, states, steps, i, j, key);
    }
  }

  lemma {:induction false} DeliveredTwice(me: Identity, st: Stores, pk: Arrival, next: Arrival, plaintext: Plaintext)
    returns (states: seq<Stores>, steps: seq<Step>)
    requires GoodStores(st) && Pair(me, pk, next, plaintext)
    ensures IsInbox(me, states, steps) && states[0] == st && steps == [Arrives(pk), Arrives(next), Arrives(pk), Arrives(next)]
    ensures BothTwice(me, states, steps, 0, pk.enc.message.ciphertext.plaintext, plaintext)
  {
    var start, none: seq<Step> := [st], [];
    assert IsInbox(me, start, none);
    states, steps := PairsOpen(me, start, none, pk, next, plaintext);
    assert |start| == 1 && states[0] == start[0];
    assert none + [Arrives(pk), Arrives(next), Arrives(pk), Arrives(next)] == [Arrives(pk), Arrives(next), Arrives(pk), Arrives(next)];
  }

  /** The input: an initiator's prekey message without a one-time prekey, and its next message as a `msg`,
      which is how it goes out after a restart.  Both are delivered twice, and open twice. */
  lemma {:induction false} OpenedTwice(me: Identity, st: Stores, peer: PrivateKey, ephemeral: PrivateKey, ratchetKey: PrivateKey,
                                       sender: Jid, first: Plaintext, second: Plaintext, newKey: PrivateKey)
    returns (states: seq<Stores>, steps: seq<Step>)
    requires GoodStores(st) && sender.server == "s.whatsapp.net"
    ensures var (pk, next) := InitiatorSends(me, peer, ephemeral, ratchetKey, first, second);
            steps == FourArrivals(sender, pk, Msg(next), newKey)
    ensures IsInbox(me, states, steps) && states[0] == st
    ensures BothTwice(me, states, steps, 0, first, second)
  {
    var (enc, m) := InitiatorSends(me, peer, ephemeral, ratchetKey, first, second);
    var pk, next := Arrival(EMPTY_LID_MAP, sender, enc, newKey), Arrival(EMPTY_LID_MAP, sender, Msg(m), newKey);
    InitiatorPair(me, peer, ephemeral, ratchetKey, first, second);
    states, steps := DeliveredTwice(me, st, pk, next, second);
  }

  function FourArrivals(sender: Jid, enc: Enc, enc': Enc, newKey: PrivateKey): (steps: seq<Step>)
    ensures |steps| == 4
  {
    var a, b := Arrives(Arrival(EMPTY_LID_MAP, sender, enc, newKey)), Arrives(Arrival(EMPTY_LID_MAP, sender, enc', newKey));
    [a, b, a, b]
  }

  /** The bundle of `me` when no one-time prekey is left. */
  function BareBundle(me: Identity): X3dh.Bundle {
    X3dh.Bundle(Pub(me.private), me.signedPreKeyId, Pub(me.signedPreKey), true, None, None)
  }

  /** The first two messages of an initiator: one with the preamble and one without. */
  function InitiatorSends(me: Identity, peer: PrivateKey, ephemeral: PrivateKey, ratchetKey: PrivateKey, first: Plaintext, second: Plaintext)
    : (r: (Enc, SignalMessage))
    ensures r.0.Pkmsg?
  {
    var x := X3dh.Initiator(peer, BareBundle(me), ephemeral).value;
    var (s, sent) := Encrypt(InitAlice(x.secret, Pub(me.signedPreKey), ratchetKey), first);
    var (_, sent') := Encrypt(s, second);
    (Pkmsg(x.oneTimePreKeyId, x.signedPreKeyId, x.ephemeral, x.identity, Envelope(sent.value, Pub(peer), Pub(me.private))),
     Envelope(sent'.value, Pub(peer), Pub(me.private)))
  }

  lemma {:induction false} InitiatorPair(me: Identity, peer: PrivateKey, ephemeral: PrivateKey, ratchetKey: PrivateKey, first: Plaintext,
                                         second: Plaintext)
    ensures var (enc, m) := InitiatorSends(me, peer, ephemeral, ratchetKey, first, second);
            var secret := X3dh.Responder(me.private, me.signedPreKey, None, enc.identityKey, enc.baseKey);
            && enc.oneTimePreKeyId.None? && Acceptable(me, enc) && enc.message.ciphertext.plaintext == first
            && m == NextMessage(me, secret, enc, second)
  {
    X3dh.Agreement(peer, ephemeral, me.private, BareBundle(me), me.signedPreKey, None, None);
    DhAgrees(ratchetKey, me.signedPreKey);
    var secret := X3dh.Initiator(peer, BareBundle(me), ephemeral).value.secret;
    var chain := FirstChain(me, secret, Pub(ratchetKey));
    assert Advance(chain, 0) == chain;
    assert Advance(chain, 1) == NextChainKey(chain);
  }
}
