/** Runs of the two-party system: its invariant, and what every delivery in every run does. */
module RatchetSystem {
  import opened Outcomes
  import opened SymbolicCrypto
  import opened Ratchet
  import opened Messages
  import X3dh
  import opened RatchetRun

  /** `accepted` holds the positions opened so far; `evicted` those whose cached key was dropped. */
  datatype System = System(log: Log, parties: seq<State>, accepted: iset<Position>, evicted: iset<Position>)

  ghost predicate Shape(sys: System) {
    && WellFormed(sys.log)
    && |sys.parties| == 2 && Valid(sys.parties[0]) && Valid(sys.parties[1])
  }

  /** The epoch a party is in: the two parties are always one epoch apart. */
  function Own(log: Log, p: nat): nat
    requires |log.keys| >= 2
  {
    var top := |log.keys| - 1;
    if top % 2 == p then top else top - 1
  }

  // ---- Steps ----

  datatype Event =
    | Send(p: nat, plaintext: Plaintext)
    | Deliver(q: Position, newKey: PrivateKey)
    | Forge(p: nat, message: SignalMessage, forgedKey: PrivateKey)

  /** What party `p` makes of a message: the state it would save, and the outcome. */
  ghost function Attempt(sys: System, p: nat, m: SignalMessage, newKey: PrivateKey): (State, Outcome)
    requires Shape(sys) && p < 2
  {
    Receive(sys.parties[p], m, sys.log.ids[1 - p], sys.log.ids[p], newKey)
  }

  ghost function Delivery(sys: System, q: Position, newKey: PrivateKey): (State, Outcome)
    requires Shape(sys) && IsSent(sys.log, q)
  {
    Attempt(sys, Receiver(q), sys.log.sent[q.epoch][q.n].message, newKey)
  }

  /** What someone without the shared secret can put together for party `p`: a message under a MAC key
      that does not descend from the secret, or the MAC of a message already sent on any other header
      and ciphertext, or back to its own sender. */
  ghost predicate Forged(log: Log, p: nat, m: SignalMessage) {
    || Base(m.mac.key) != Base(log.secret)
    || exists q | IsSent(log, q) ::
         var genuine := log.sent[q.epoch][q.n].message;
         m.mac == genuine.mac && !(m == genuine && Receiver(q) == p)
  }

  /** Generated keys are new.  The network repeats any message already sent and invents what it can
      without the secret. */
  ghost predicate Enabled(sys: System, event: Event)
    requires Shape(sys)
  {
    match event
    case Send(p, _) => p < 2
    case Deliver(q, newKey) => IsSent(sys.log, q) && newKey !in sys.log.keys
    case Forge(p, m, _) => p < 2 && Forged(sys.log, p, m)
  }

  ghost function AfterSend(sys: System, p: nat, plaintext: Plaintext): System
    requires Shape(sys) && p < 2
  {
    var (s, sent) := Encrypt(sys.parties[p], plaintext);
    if sent.None? then sys
    else
      var e := Own(sys.log, p);
      var wire := Wire(Envelope(sent.value, sys.log.ids[p], sys.log.ids[1 - p]), plaintext);
      sys.(log := sys.log.(sent := sys.log.sent[e := sys.log.sent[e] + [wire]]), parties := sys.parties[p := s])
  }

  /** The log after the receiver of `q` saves state `s`: a turned DH ratchet opens an epoch. */
  function LogAfter(sys: System, p: nat, s: State): Log
    requires p < |sys.parties|
  {
    if s.dhs == sys.parties[p].dhs then sys.log
    else sys.log.(keys := sys.log.keys + [s.dhs], sent := sys.log.sent + [[]])
  }

  /** Positions whose key was cached before the step, or skipped by it, and is neither used nor kept. */
  ghost function Lost(log: Log, s: State, e: nat, log': Log, s': State, e': nat, q: Position): iset<Position> {
    iset r: Position |
      && (Held(log, s, r) || (Passed(log', s', e', r) && !Passed(log, s, e, r)))
      && r != q && !Held(log', s', r)
  }

  /** The system once the receiver of `q` has saved state `s`. */
  ghost function Saved(sys: System, q: Position, s: State): System
    requires Shape(sys)
  {
    var p := Receiver(q);
    var log := LogAfter(sys, p, s);
    System(log, sys.parties[p := s], sys.accepted + iset{q},
           sys.evicted + Lost(sys.log, sys.parties[p], Own(sys.log, p), log, s, Own(log, p), q))
  }

  /** The receiver works on a loaded copy and saves it only if the message opened. */
  ghost function AfterDelivery(sys: System, q: Position, newKey: PrivateKey): System
    requires Shape(sys) && IsSent(sys.log, q)
  {
    var (s, outcome) := Delivery(sys, q, newKey);
    if outcome.Opened? then Saved(sys, q, s) else sys
  }

  /** An invented message is treated like any other. */
  ghost function AfterForgery(sys: System, p: nat, m: SignalMessage, newKey: PrivateKey): System
    requires Shape(sys) && p < 2
  {
    var (s, outcome) := Attempt(sys, p, m, newKey);
    if outcome.Opened? then sys.(parties := sys.parties[p := s]) else sys
  }

  ghost function Next(sys: System, event: Event): System
    requires Shape(sys) && Enabled(sys, event)
  {
    match event
    case Send(p, plaintext) => AfterSend(sys, p, plaintext)
    case Deliver(q, newKey) => AfterDelivery(sys, q, newKey)
    case Forge(p, m, newKey) => AfterForgery(sys, p, m, newKey)
  }

  // ---- Invariant ----

  /** Every position passed is accounted for exactly once: opened, still cached, or evicted. */
  ghost predicate Accounted(log: Log, s: State, e: nat, accepted: iset<Position>, evicted: iset<Position>) {
    forall q: Position | q.epoch % 2 != e % 2 ::
      && (Passed(log, s, e, q) <==> q in accepted || q in evicted || Held(log, s, q))
      && !(q in accepted && q in evicted) && !(q in accepted && Held(log, s, q)) && !(q in evicted && Held(log, s, q))
  }

  ghost predicate PartyInvariant(log: Log, s: State, e: nat, accepted: iset<Position>, evicted: iset<Position>)
    requires WellFormed(log)
  {
    PartyOk(log, s, e) && Accounted(log, s, e, accepted, evicted)
  }

  ghost predicate Invariant(sys: System) {
    && Shape(sys) && WiresOk(sys.log)
    && forall p | 0 <= p < 2 ::
         PartyInvariant(sys.log, sys.parties[p], Own(sys.log, p), sys.accepted, sys.evicted)
  }

  /** A session fresh from X3DH: the initiator built it from the responder's bundle. */
  ghost predicate Initial(sys: System) {
    exists a: PrivateKey, b: PrivateKey, ephemeral: PrivateKey, signedPreKey: PrivateKey, ratchetKey: PrivateKey,
           bundle: X3dh.Bundle, oneTimePreKey: Option<PrivateKey> ::
      Established(sys, a, b, ephemeral, signedPreKey, ratchetKey, bundle, oneTimePreKey)
  }

  ghost predicate Established(sys: System, a: PrivateKey, b: PrivateKey, ephemeral: PrivateKey,
                              signedPreKey: PrivateKey, ratchetKey: PrivateKey, bundle: X3dh.Bundle,
                              oneTimePreKey: Option<PrivateKey>)
  {
    && bundle.identity == Pub(b) && bundle.signedPreKey == Pub(signedPreKey)
    && bundle.oneTimePreKey == X3dh.PublicHalf(oneTimePreKey)
    && signedPreKey != ratchetKey
    && var alice := X3dh.Initiator(a, bundle, ephemeral);
       var bob := X3dh.Responder(b, signedPreKey, oneTimePreKey, Pub(a), Pub(ephemeral));
       && alice.Some?
       && sys.parties == [InitBob(bob, signedPreKey), InitAlice(alice.value.secret, bundle.signedPreKey, ratchetKey)]
       && sys.log == Log(bob, [Pub(b), Pub(a)], [signedPreKey, ratchetKey], [[], []])
       && sys.accepted == iset{} && sys.evicted == iset{}
  }

  lemma {:induction false} InitialInvariant(sys: System)
    requires Initial(sys)
    ensures Invariant(sys)
  {
    var a, b, ephemeral, signedPreKey, ratchetKey, bundle, oneTimePreKey :|
      Established(sys, a, b, ephemeral, signedPreKey, ratchetKey, bundle, oneTimePreKey);
    X3dh.Agreement(a, ephemeral, b, bundle, signedPreKey, oneTimePreKey, oneTimePreKey);
    assert RootAt(sys.log, 0) == sys.log.secret;
  }

  // ---- Sending keeps the invariant ----

  lemma {:induction false} SendKeepsParty(log: Log, log': Log, s: State, e: nat, o: nat, wire: Wire)
    requires WellFormed(log) && o < |log.keys| && o + 2 >= |log.keys| && o > 0
    requires log' == log.(sent := log.sent[o := log.sent[o] + [wire]])
    requires PartyOk(log, s, e) && e != o && e + 2 >= |log.keys|
    ensures WellFormed(log') && PartyOk(log', s, e)
    ensures forall q :: Passed(log', s, e, q) == Passed(log, s, e, q)
  {
    PassedAfterSend(log, log', s, e, o, wire);
    RootStable(log, log', e);
    if e > 0 {
      RootStable(log, log', e - 1);
    }
    forall i | 0 <= i < |s.skipped|
      ensures EntryOk(log', s, e, s.skipped[i])
    {
      EntryStable(log, log', s, s, e, e, s.skipped[i]);
    }
  }

  lemma {:induction false} PassedAfterSend(log: Log, log': Log, s: State, e: nat, o: nat, wire: Wire)
    requires WellFormed(log) && o < |log.keys| && o + 2 >= |log.keys| && e < |log.keys|
    requires log' == log.(sent := log.sent[o := log.sent[o] + [wire]])
    ensures forall q :: Passed(log', s, e, q) == Passed(log, s, e, q)
  {
  }

  lemma {:induction false} SenderAfterSend(log: Log, log': Log, s: State, e: nat, plaintext: Plaintext, wire: Wire)
    requires WellFormed(log) && PartyOk(log, s, e) && e + 2 >= |log.keys| && e > 0
    requires log' == log.(sent := log.sent[e := log.sent[e] + [wire]])
    ensures WellFormed(log') && PartyOk(log', Encrypt(s, plaintext).0, e)
    ensures forall q :: Passed(log', Encrypt(s, plaintext).0, e, q) == Passed(log, s, e, q)
  {
    var t := Encrypt(s, plaintext).0;
    RootStable(log, log', e);
    if e > 1 {
      RootStable(log, log', e - 1);
    }
    PassedAfterSend(log, log', s, e, e, wire);
    forall i | 0 <= i < |s.skipped|
      ensures EntryOk(log', t, e, t.skipped[i])
    {
      EntryStable(log, log', s, t, e, e, s.skipped[i]);
    }
  }

  lemma {:induction false} WiresAfterSend(log: Log, log': Log, e: nat, wire: Wire)
    requires WellFormed(log) && WiresOk(log) && 0 < e < |log.keys| && e + 2 >= |log.keys|
    requires log' == log.(sent := log.sent[e := log.sent[e] + [wire]])
    requires wire.message == MessageAt(log, Position(e, |log.sent[e]|), wire.plaintext)
    ensures WellFormed(log') && WiresOk(log')
  {
    forall q | IsSent(log', q)
      ensures log'.sent[q.epoch][q.n].message == MessageAt(log', q, log'.sent[q.epoch][q.n].plaintext)
    {
      if q != Position(e, |log.sent[e]|) {
        assert IsSent(log, q);
      }
      KeyStable(log, log', q);
    }
  }

  lemma {:induction false} SenderSide(log: Log, log': Log, s: State, e: nat, plaintext: Plaintext, wire: Wire,
                   accepted: iset<Position>, evicted: iset<Position>)
    requires WellFormed(log) && PartyInvariant(log, s, e, accepted, evicted) && e + 2 >= |log.keys| && e > 0
    requires log' == log.(sent := log.sent[e := log.sent[e] + [wire]])
    ensures WellFormed(log') && PartyInvariant(log', Encrypt(s, plaintext).0, e, accepted, evicted)
  {
    SenderAfterSend(log, log', s, e, plaintext, wire);
    AccountedStable(log, s, log', Encrypt(s, plaintext).0, e, accepted, evicted);
  }

  lemma {:induction false} OtherSide(log: Log, log': Log, s: State, e: nat, o: nat, wire: Wire,
                  accepted: iset<Position>, evicted: iset<Position>)
    requires WellFormed(log) && o < |log.keys| && o + 2 >= |log.keys| && o > 0
    requires log' == log.(sent := log.sent[o := log.sent[o] + [wire]])
    requires PartyInvariant(log, s, e, accepted, evicted) && e != o && e + 2 >= |log.keys|
    ensures WellFormed(log') && PartyInvariant(log', s, e, accepted, evicted)
  {
    SendKeepsParty(log, log', s, e, o, wire);
    AccountedStable(log, s, log', s, e, accepted, evicted);
  }

  /** What the party in epoch `e` puts on the wire. */
  function WireOf(log: Log, s: State, e: nat, plaintext: Plaintext): Wire
    requires |log.ids| == 2 && s.cks.Some?
  {
    Wire(Envelope(Encrypt(s, plaintext).1.value, log.ids[e % 2], log.ids[1 - e % 2]), plaintext)
  }

  /** What `ratchet_encrypt` emits is the message its position calls for. */
  lemma {:induction false} WiresSide(log: Log, log': Log, s: State, e: nat, plaintext: Plaintext)
    requires WellFormed(log) && WiresOk(log) && PartyOk(log, s, e) && e > 0 && e + 2 >= |log.keys|
    requires log' == log.(sent := log.sent[e := log.sent[e] + [WireOf(log, s, e, plaintext)]])
    ensures WellFormed(log') && WiresOk(log')
  {
    WiresAfterSend(log, log', e, WireOf(log, s, e, plaintext));
  }

  lemma {:induction false} SendInvariant(sys: System, p: nat, plaintext: Plaintext)
    requires Invariant(sys) && p < 2
    ensures Invariant(AfterSend(sys, p, plaintext))
  {
    var log, s, e, s', e' := sys.log, sys.parties[p], Own(sys.log, p), sys.parties[1 - p], Own(sys.log, 1 - p);
    assert PartyInvariant(log, s, e, sys.accepted, sys.evicted);
    if e > 0 {
      var wire := WireOf(log, s, e, plaintext);
      var log' := log.(sent := log.sent[e := log.sent[e] + [wire]]);
      WiresSide(log, log', s, e, plaintext);
      SenderSide(log, log', s, e, plaintext, wire, sys.accepted, sys.evicted);
      OtherSide(log, log', s', e', e, wire, sys.accepted, sys.evicted);
      SendJoins(sys, log', p, plaintext);
    }
  }

  lemma {:induction false} SendJoins(sys: System, log': Log, p: nat, plaintext: Plaintext)
    requires Shape(sys) && p < 2 && sys.parties[p].cks.Some?
    requires var e := Own(sys.log, p);
             log' == sys.log.(sent := sys.log.sent[e := sys.log.sent[e] + [WireOf(sys.log, sys.parties[p], e, plaintext)]])
    requires WellFormed(log') && WiresOk(log')
    requires PartyInvariant(log', Encrypt(sys.parties[p], plaintext).0, Own(sys.log, p), sys.accepted, sys.evicted)
    requires PartyInvariant(log', sys.parties[1 - p], Own(sys.log, 1 - p), sys.accepted, sys.evicted)
    ensures Invariant(AfterSend(sys, p, plaintext))
  {
    var sys', s' := AfterSend(sys, p, plaintext), Encrypt(sys.parties[p], plaintext).0;
    assert sys'.log == log' && sys'.parties == sys.parties[p := s'];
    SentParties(sys, sys', log', p, s');
  }

  lemma {:induction false} SentParties(sys: System, sys': System, log': Log, p: nat, s': State)
    requires Shape(sys) && p < 2 && WellFormed(log') && WiresOk(log') && log'.keys == sys.log.keys && Valid(s')
    requires sys' == System(log', sys.parties[p := s'], sys.accepted, sys.evicted)
    requires PartyInvariant(log', s', Own(sys.log, p), sys.accepted, sys.evicted)
    requires PartyInvariant(log', sys.parties[1 - p], Own(sys.log, 1 - p), sys.accepted, sys.evicted)
    ensures Invariant(sys')
  {
    assert sys'.parties[p] == s' && sys'.parties[1 - p] == sys.parties[1 - p];
    assert Own(log', p) == Own(sys.log, p) && Own(log', 1 - p) == Own(sys.log, 1 - p);
    BothParties(sys', p);
  }

  lemma {:induction false} AccountedStable(log: Log, s: State, log': Log, s': State, e: nat,
                        accepted: iset<Position>, evicted: iset<Position>)
    requires Accounted(log, s, e, accepted, evicted)
    requires log'.keys == log.keys && s'.skipped == s.skipped
    requires forall q :: Passed(log', s', e, q) == Passed(log, s, e, q)
    ensures Accounted(log', s', e, accepted, evicted)
  {
    forall q: Position | q.epoch % 2 != e % 2
      ensures Held(log', s', q) == Held(log, s, q)
    {
    }
  }

  /** What holds of a party and of the other one holds of both. */
  lemma {:induction false} BothParties(sys: System, p: nat)
    requires Shape(sys) && WiresOk(sys.log) && p < 2
    requires PartyInvariant(sys.log, sys.parties[p], Own(sys.log, p), sys.accepted, sys.evicted)
    requires PartyInvariant(sys.log, sys.parties[1 - p], Own(sys.log, 1 - p), sys.accepted, sys.evicted)
    ensures Invariant(sys)
  {
    if p == 0 {
      BothInvariants(sys);
    } else {
      BothInvariants(sys);
    }
  }

  lemma {:induction false} BothInvariants(sys: System)
    requires Shape(sys) && WiresOk(sys.log)
    requires PartyInvariant(sys.log, sys.parties[0], Own(sys.log, 0), sys.accepted, sys.evicted)
    requires PartyInvariant(sys.log, sys.parties[1], Own(sys.log, 1), sys.accepted, sys.evicted)
    ensures Invariant(sys)
  {
    forall r | 0 <= r < 2
      ensures PartyInvariant(sys.log, sys.parties[r], Own(sys.log, r), sys.accepted, sys.evicted)
    {
      assert r == 0 || r == 1;
    }
  }

  // ---- Delivery keeps the invariant ----

  /** The bookkeeping of one successful delivery of `q`, whatever the code did to get there. */
  lemma {:induction false} AccountStep(log: Log, s: State, e: nat, log': Log, s': State, e': nat, q: Position,
                    accepted: iset<Position>, evicted: iset<Position>)
    requires e % 2 == e' % 2 && q.epoch % 2 != e % 2
    requires Accounted(log, s, e, accepted, evicted)
    requires q !in accepted && q !in evicted && Passed(log', s', e', q)
    requires forall r | Passed(log, s, e, r) :: Passed(log', s', e', r)
    requires forall r | Held(log', s', r) ::
               r != q && Passed(log', s', e', r) && (Held(log, s, r) || !Passed(log, s, e, r))
    ensures Accounted(log', s', e', accepted + iset{q}, evicted + Lost(log, s, e, log', s', e', q))
  {
    var lost := Lost(log, s, e, log', s', e', q);
    forall r: Position | r.epoch % 2 != e' % 2
      ensures Passed(log', s', e', r) <==> r in accepted + iset{q} || r in evicted + lost || Held(log', s', r)
      ensures !(r in accepted + iset{q} && r in evicted + lost)
      ensures !(r in accepted + iset{q} && Held(log', s', r)) && !(r in evicted + lost && Held(log', s', r))
    {
      assert Passed(log, s, e, r) <==> r in accepted || r in evicted || Held(log, s, r);
    }
  }

  lemma {:induction false} RemovedParty(log: Log, s: State, e: nat, i: nat)
    requires WellFormed(log) && PartyOk(log, s, e) && i < |s.skipped|
    ensures PartyOk(log, s.(skipped := RemoveAt(s.skipped, i)), e)
  {
    var s' := s.(skipped := RemoveAt(s.skipped, i));
    forall j | 0 <= j < |s'.skipped|
      ensures EntryOk(log, s', e, s'.skipped[j])
    {
      var k := if j < i then j else j + 1;
      assert s'.skipped[j] == s.skipped[k];
      EntryStable(log, log, s, s', e, e, s.skipped[k]);
    }
  }

  lemma {:induction false} RemovedKey(cache: seq<SkippedKey>, dh: PublicKey, n: nat, dh': PublicKey, n': nat)
    requires DistinctKeys(cache) && HasKey(cache, dh, n)
    ensures HasKey(RemoveAt(cache, IndexOfKey(cache, dh, n)), dh', n')
        ==> HasKey(cache, dh', n') && (dh != dh' || n != n')
  {
    var i := IndexOfKey(cache, dh, n);
    var j := IndexOfKey(RemoveAt(cache, i), dh', n');
    if j < |cache| - 1 {
      var k := if j < i then j else j + 1;
      assert RemoveAt(cache, i)[j] == cache[k];
      assert Matches(cache[k], dh', n');
    }
  }

  /** A cached key is used: it leaves the cache and nothing else changes. */
  lemma {:induction false} HeldDelivery(log: Log, s: State, e: nat, q: Position, accepted: iset<Position>, evicted: iset<Position>)
    requires WellFormed(log) && PartyInvariant(log, s, e, accepted, evicted) && Held(log, s, q)
    ensures var i := IndexOfKey(s.skipped, Pub(log.keys[q.epoch]), q.n);
            var s' := s.(skipped := RemoveAt(s.skipped, i));
            PartyInvariant(log, s', e, accepted + iset{q}, evicted + Lost(log, s, e, log, s', e, q))
  {
    var i := IndexOfKey(s.skipped, Pub(log.keys[q.epoch]), q.n);
    var s' := s.(skipped := RemoveAt(s.skipped, i));
    HeldEntry(log, s, e, q);
    RemovedParty(log, s, e, i);
    forall r | Held(log, s', r)
      ensures r != q && Passed(log, s', e, r) && Held(log, s, r)
    {
      RemovedKey(s.skipped, Pub(log.keys[q.epoch]), q.n, Pub(log.keys[r.epoch]), r.n);
      HeldEntry(log, s', e, r);
    }
    AccountStep(log, s, e, log, s', e, q, accepted, evicted);
  }

  /** Taking message `n` of the current chain passes exactly the positions up to it. */
  lemma {:induction false} PassedAfterTake(log: Log, s: State, s': State, e: nat, n: nat)
    requires 2 <= e <= |log.sent| && s.nr <= n && s'.nr == n + 1
    ensures forall q :: Passed(log, s', e, q) <==> Passed(log, s, e, q) || (q.epoch == e - 1 && s.nr <= q.n <= n)
  {
  }

  lemma {:induction false} CurrentCache(log: Log, s: State, e: nat, n: nat)
    requires WellFormed(log) && PartyOk(log, s, e) && 2 <= e && s.nr <= n
    ensures NoneCachedFrom(s.skipped, Pub(log.keys[e - 1]), s.nr)
    ensures SkipTo(s, n).skipped == Appended(log, s.skipped, e - 1, s.nr, n - s.nr)
  {
    NoneCached(log, s, e, e - 1, s.nr);
    SkipToCache(s, n);
  }

  lemma {:induction false} CurrentFields(log: Log, s: State, e: nat, q: Position)
    requires WellFormed(log) && FieldsOk(log, s, e) && IsSent(log, q) && 2 <= e && q.epoch == e - 1
    ensures FieldsOk(log, Taken(s, ChainAt(log, e - 1), q.n), e)
  {
  }

  lemma {:induction false} CurrentParty(log: Log, s: State, e: nat, q: Position)
    requires WellFormed(log) && PartyOk(log, s, e) && IsSent(log, q)
    requires 2 <= e && q.epoch == e - 1 && s.nr <= q.n
    ensures PartyOk(log, Taken(s, ChainAt(log, e - 1), q.n), e)
  {
    CurrentFields(log, s, e, q);
    CurrentCache(log, s, e, q.n);
    CurrentPartyAfter(log, s, e, q.n, Taken(s, ChainAt(log, e - 1), q.n));
  }

  lemma {:induction false} CurrentPartyAfter(log: Log, s: State, e: nat, n: nat, s': State)
    requires WellFormed(log) && PartyOk(log, s, e) && FieldsOk(log, s', e) && 2 <= e && s.nr <= n && s'.nr == n + 1
    requires NoneCachedFrom(s.skipped, Pub(log.keys[e - 1]), s.nr)
    requires s'.skipped == Appended(log, s.skipped, e - 1, s.nr, n - s.nr)
    ensures PartyOk(log, s', e)
  {
    PassedAfterTake(log, s, s', e, n);
    AppendedParty(log, s, e, log, s', e, s.skipped, e - 1, s.nr, n - s.nr);
  }

  lemma {:induction false} CurrentHeld(log: Log, s: State, s': State, e: nat, q: Position, r: Position)
    requires WellFormed(log) && CacheOk(log, s', e)
    requires 2 <= e <= |log.keys| && q.epoch == e - 1 && s.nr <= q.n && !Held(log, s, q)
    requires s'.skipped == Appended(log, s.skipped, e - 1, s.nr, q.n - s.nr)
    requires Held(log, s', r)
    ensures r != q && Passed(log, s', e, r) && (Held(log, s, r) || !Passed(log, s, e, r))
  {
    HeldEntry(log, s', e, r);
    AppendedHas(log, s.skipped, e - 1, s.nr, q.n - s.nr, Pub(log.keys[r.epoch]), r.n);
  }

  /** The next message of the current receiving chain, after a gap or not. */
  lemma {:induction false} CurrentDelivery(log: Log, s: State, e: nat, q: Position, accepted: iset<Position>, evicted: iset<Position>)
    requires WellFormed(log) && PartyInvariant(log, s, e, accepted, evicted) && IsSent(log, q)
    requires 2 <= e && q.epoch == e - 1 && s.nr <= q.n && !Held(log, s, q)
    ensures var s' := Taken(s, ChainAt(log, e - 1), q.n);
            PartyInvariant(log, s', e, accepted + iset{q}, evicted + Lost(log, s, e, log, s', e, q))
  {
    var s' := Taken(s, ChainAt(log, e - 1), q.n);
    PassedAfterTake(log, s, s', e, q.n);
    assert !Passed(log, s, e, q);
    CurrentParty(log, s, e, q);
    CurrentCache(log, s, e, q.n);
    forall r | Held(log, s', r)
      ensures r != q && Passed(log, s', e, r) && (Held(log, s, r) || !Passed(log, s, e, r))
    {
      CurrentHeld(log, s, s', e, q, r);
    }
    AccountStep(log, s, e, log, s', e, q, accepted, evicted);
  }

  /** Appending the keys of newly passed positions keeps the cache correct. */
  lemma {:induction false} AppendedParty(log: Log, s: State, e: nat, log': Log, s': State, e': nat,
                      cache: seq<SkippedKey>, d: nat, from: nat, count: nat)
    requires WellFormed(log) && WellFormed(log') && Extends(log, log')
    requires 1 <= d < |log.keys|
    requires DistinctKeys(cache) && NoneCachedFrom(cache, Pub(log.keys[d]), from)
    requires forall i | 0 <= i < |cache| :: EntryOk(log, s, e, cache[i])
    requires forall q | Passed(log, s, e, q) :: Passed(log', s', e', q)
    requires forall n | from <= n < from + count :: Passed(log', s', e', Position(d, n))
    requires s'.skipped == Appended(log, cache, d, from, count)
    ensures CacheOk(log', s', e')
  {
    RootStable(log, log', d);
    assert log'.keys[d] == log'.keys[..|log.keys|][d];
    assert Appended(log', cache, d, from, count) == Appended(log, cache, d, from, count);
    AppendedDistinct(log, cache, d, from, count);
    forall i | 0 <= i < |cache|
      ensures EntryOk(log', s', e', cache[i])
    {
      EntryStable(log, log', s, s', e, e', cache[i]);
    }
    AppendedOk(log', s', e', cache, d, from, count);
  }

  // ---- A delivery that turns the DH ratchet ----

  function Opening(log: Log, newKey: PrivateKey): Log {
    log.(keys := log.keys + [newKey], sent := log.sent + [[]])
  }

  lemma {:induction false} OpeningExtends(log: Log, newKey: PrivateKey)
    requires WellFormed(log) && newKey !in log.keys
    ensures WellFormed(Opening(log, newKey)) && Extends(log, Opening(log, newKey))
  {
  }

  lemma {:induction false} OpeningWires(log: Log, newKey: PrivateKey)
    requires WellFormed(log) && newKey !in log.keys && WiresOk(log)
    ensures WellFormed(Opening(log, newKey)) && WiresOk(Opening(log, newKey))
  {
    var log' := Opening(log, newKey);
    OpeningExtends(log, newKey);
    forall q | IsSent(log', q)
      ensures log'.sent[q.epoch][q.n].message == MessageAt(log', q, log'.sent[q.epoch][q.n].plaintext)
    {
      assert IsSent(log, q);
      KeyStable(log, log', q);
    }
  }

  /** The other party does not notice that an epoch was opened. */
  lemma {:induction false} OpeningOther(log: Log, newKey: PrivateKey, s: State, e: nat, accepted: iset<Position>, evicted: iset<Position>)
    requires WellFormed(log) && newKey !in log.keys && PartyInvariant(log, s, e, accepted, evicted)
    ensures WellFormed(Opening(log, newKey)) && PartyInvariant(Opening(log, newKey), s, e, accepted, evicted)
  {
    var log' := Opening(log, newKey);
    OpeningExtends(log, newKey);
    RootStable(log, log', e);
    if e > 0 {
      RootStable(log, log', e - 1);
    }
    assert forall q :: Passed(log', s, e, q) == Passed(log, s, e, q);
    forall i | 0 <= i < |s.skipped|
      ensures EntryOk(log', s, e, s.skipped[i])
    {
      EntryStable(log, log', s, s, e, e, s.skipped[i]);
    }
    forall q: Position | q.epoch % 2 != e % 2
      ensures Held(log', s, q) == Held(log, s, q)
    {
      if Held(log', s, q) {
        HeldEntry(log', s, e, q);
      }
    }
  }

  /** The cache once the chain of epoch `e - 1` has been closed. */
  function ClosedCache(log: Log, s: State, e: nat): seq<SkippedKey>
    requires e < |log.keys| == |log.sent| && (e >= 2 ==> s.nr <= |log.sent[e - 1]|)
  {
    if e >= 2 then Appended(log, s.skipped, e - 1, s.nr, |log.sent[e - 1]| - s.nr) else s.skipped
  }

  /** Everything in the closed cache is from before epoch `e`. */
  lemma {:induction false} ClosedCacheHas(log: Log, s: State, e: nat, dh: PublicKey, n: nat)
    requires WellFormed(log) && PartyOk(log, s, e) && HasKey(ClosedCache(log, s, e), dh, n)
    ensures HasKey(s.skipped, dh, n) || (e >= 2 && dh == Pub(log.keys[e - 1]) && s.nr <= n < |log.sent[e - 1]|)
    ensures exists d | 0 <= d < e :: dh == Pub(log.keys[d])
  {
    if e >= 2 {
      AppendedHas(log, s.skipped, e - 1, s.nr, |log.sent[e - 1]| - s.nr, dh, n);
    }
    if HasKey(s.skipped, dh, n) {
      HeldBefore(log, s, e, dh, n);
    } else {
      assert 0 <= e - 1 < e && dh == Pub(log.keys[e - 1]);
    }
  }

  lemma {:induction false} HeldBefore(log: Log, s: State, e: nat, dh: PublicKey, n: nat)
    requires WellFormed(log) && PartyOk(log, s, e) && HasKey(s.skipped, dh, n)
    ensures exists d | 0 <= d < e :: dh == Pub(log.keys[d])
  {
    assert EntryOk(log, s, e, s.skipped[IndexOfKey(s.skipped, dh, n)]);
  }

  lemma {:induction false} ClosedCacheOld(log: Log, s: State, e: nat)
    requires WellFormed(log) && PartyOk(log, s, e) && e + 1 < |log.keys|
    ensures NoneCachedFrom(ClosedCache(log, s, e), Pub(log.keys[e + 1]), 0)
  {
    var c := ClosedCache(log, s, e);
    forall i | 0 <= i < |c|
      ensures c[i].dh != Pub(log.keys[e + 1])
    {
      assert Matches(c[i], c[i].dh, c[i].n);
      ClosedCacheHas(log, s, e, c[i].dh, c[i].n);
    }
  }

  lemma {:induction false} TurnedCache(log: Log, s: State, e: nat, newKey: PrivateKey)
    requires WellFormed(log) && PartyOk(log, s, e) && e + 1 < |log.keys|
    ensures Turned(log, s, e, newKey).skipped == ClosedCache(log, s, e)
    ensures |ClosedCache(log, s, e)| <= MAX_SKIPPED_TOTAL
  {
    if e >= 2 {
      CurrentCache(log, s, e, |log.sent[e - 1]|);
      assert Turned(log, s, e, newKey).skipped == SkipTo(s, |log.sent[e - 1]|).skipped;
    } else {
      assert Turned(log, s, e, newKey).skipped == s.skipped;
    }
  }

  /** The receiver's state after the first message it gets of epoch `e + 1`. */
  function Arrived(log: Log, s: State, e: nat, newKey: PrivateKey, n: nat): State
    requires e + 1 < |log.keys| == |log.sent| && (e >= 2 ==> s.ckr.Some? && s.dhr.Some?)
  {
    Taken(Turned(log, s, e, newKey), ChainAt(log, e + 1), n)
  }

  lemma {:induction false} ArrivedFields(log: Log, s: State, e: nat, newKey: PrivateKey, n: nat)
    requires WellFormed(log) && PartyOk(log, s, e) && e + 2 == |log.keys| && newKey !in log.keys
    requires n < |log.sent[e + 1]|
    requires e >= 2 ==> |log.sent[e - 1]| <= s.nr + s.maxSkip
    ensures WellFormed(Opening(log, newKey)) && FieldsOk(Opening(log, newKey), Arrived(log, s, e, newKey, n), e + 2)
  {
    TurnToNewEpoch(log, s, e, Header(Pub(log.keys[e + 1]), PreviousLength(log, e + 1), n), newKey);
    TurnedFields(log, s, e, newKey, n, Turned(log, s, e, newKey), Arrived(log, s, e, newKey, n));
  }

  lemma {:induction false} TurnedFields(log: Log, s: State, e: nat, newKey: PrivateKey, n: nat, t: State, s': State)
    requires WellFormed(log) && FieldsOk(log, s, e) && e + 2 == |log.keys| && newKey !in log.keys && n < |log.sent[e + 1]|
    requires t.dhs == newKey && t.dhr == Some(Pub(log.keys[e + 1])) && t.ns == 0 && t.pn == s.ns
    requires t.rk == RootKey(RootAt(log, e + 1), Dh(newKey, Pub(log.keys[e + 1])))
    requires t.cks == Some(ChainKey(RootAt(log, e + 1), Dh(newKey, Pub(log.keys[e + 1]))))
    requires s' == t.(ckr := Some(Advance(ChainAt(log, e + 1), n + 1)), nr := n + 1, skipped := s'.skipped)
    ensures WellFormed(Opening(log, newKey)) && FieldsOk(Opening(log, newKey), s', e + 2)
  {
    var log' := Opening(log, newKey);
    OpeningExtends(log, newKey);
    RootStable(log, log', e + 1);
    assert log'.keys[e + 2] == newKey && log'.keys[e + 1] == log.keys[e + 1];
    assert log'.sent[e + 2] == [] && log'.sent[e + 1] == log.sent[e + 1] && log'.sent[e] == log.sent[e];
    assert RootAt(log', e + 2) == RootKey(RootAt(log', e + 1), Dh(newKey, Pub(log.keys[e + 1])));
    assert ChainAt(log', e + 2) == ChainKey(RootAt(log', e + 1), Dh(newKey, Pub(log.keys[e + 1])));
  }

  lemma {:induction false} ArrivedCache(log: Log, s: State, e: nat, newKey: PrivateKey, n: nat)
    requires WellFormed(log) && PartyOk(log, s, e) && e + 1 < |log.keys|
    requires e >= 2 ==> |log.sent[e - 1]| <= s.nr + s.maxSkip
    ensures Arrived(log, s, e, newKey, n).skipped == Appended(log, ClosedCache(log, s, e), e + 1, 0, n)
  {
    TurnToNewEpoch(log, s, e, Header(Pub(log.keys[e + 1]), PreviousLength(log, e + 1), n), newKey);
    TurnedCache(log, s, e, newKey);
    ClosedCacheOld(log, s, e);
    SkipToCache(Turned(log, s, e, newKey), n);
  }

  lemma {:induction false} PassedAfterTurn(log: Log, s: State, e: nat, newKey: PrivateKey, s': State, n: nat)
    requires WellFormed(log) && e + 2 == |log.keys| && s'.nr == n + 1
    requires e >= 2 ==> s.nr <= |log.sent[e - 1]|
    ensures forall q :: Passed(Opening(log, newKey), s', e + 2, q) <==>
              || Passed(log, s, e, q)
              || (e >= 2 && q.epoch == e - 1 && s.nr <= q.n < |log.sent[e - 1]|)
              || (q.epoch == e + 1 && q.n <= n)
  {
  }

  lemma {:induction false} ClosedParty(log: Log, s: State, e: nat, log': Log, s': State, e': nat)
    requires WellFormed(log) && PartyOk(log, s, e) && WellFormed(log') && Extends(log, log')
    requires s'.skipped == ClosedCache(log, s, e)
    requires forall q | Passed(log, s, e, q) :: Passed(log', s', e', q)
    requires forall q: Position | q.epoch == e - 1 && e >= 2 && s.nr <= q.n < |log.sent[e - 1]| :: Passed(log', s', e', q)
    ensures CacheOk(log', s', e')
  {
    if e >= 2 {
      CurrentCache(log, s, e, s.nr);
      AppendedParty(log, s, e, log', s', e', s.skipped, e - 1, s.nr, |log.sent[e - 1]| - s.nr);
    } else {
      forall i | 0 <= i < |s.skipped|
        ensures EntryOk(log', s', e', s.skipped[i])
      {
        EntryStable(log, log', s, s', e, e', s.skipped[i]);
      }
    }
  }

  lemma {:induction false} ArrivedMiddle(log: Log, s: State, e: nat, newKey: PrivateKey, mid: State, n: nat)
    requires WellFormed(log) && PartyOk(log, s, e) && e + 2 == |log.keys| && newKey !in log.keys
    requires mid.nr == n + 1 && mid.skipped == ClosedCache(log, s, e)
    ensures WellFormed(Opening(log, newKey)) && CacheOk(Opening(log, newKey), mid, e + 2)
  {
    OpeningExtends(log, newKey);
    PassedAfterTurn(log, s, e, newKey, mid, n);
    ClosedParty(log, s, e, Opening(log, newKey), mid, e + 2);
  }

  lemma {:induction false} ArrivedParty(log: Log, s: State, e: nat, newKey: PrivateKey, s': State, n: nat)
    requires WellFormed(log) && PartyOk(log, s, e) && e + 2 == |log.keys| && newKey !in log.keys
    requires s'.nr == n + 1 && s'.skipped == Appended(log, ClosedCache(log, s, e), e + 1, 0, n)
    ensures WellFormed(Opening(log, newKey)) && CacheOk(Opening(log, newKey), s', e + 2)
  {
    var log' := Opening(log, newKey);
    var c := ClosedCache(log, s, e);
    var mid := s'.(skipped := c);
    ArrivedMiddle(log, s, e, newKey, mid, n);
    ClosedCacheOld(log, s, e);
    ArrivedLast(log, log', mid, s', e, n, c) by {
      OpeningExtends(log, newKey);
      PassedAfterTurn(log, s, e, newKey, s', n);
    }
  }

  lemma {:induction false} ArrivedLast(log: Log, log': Log, mid: State, s': State, e: nat, n: nat, c: seq<SkippedKey>)
    requires WellFormed(log) && WellFormed(log') && Extends(log, log') && e + 1 < |log.keys| && e + 2 < |log'.keys|
    requires CacheOk(log', mid, e + 2) && mid.skipped == c && mid.nr == s'.nr == n + 1
    requires NoneCachedFrom(c, Pub(log.keys[e + 1]), 0)
    requires s'.skipped == Appended(log, c, e + 1, 0, n)
    ensures CacheOk(log', s', e + 2)
  {
    assert Appended(log', c, e + 1, 0, n) == Appended(log, c, e + 1, 0, n) && log'.keys[e + 1] == log.keys[e + 1] by {
      RootStable(log, log', e + 1);
      assert log'.keys[e + 1] == log'.keys[..|log.keys|][e + 1];
    }
    AppendedParty(log', mid, e + 2, log', s', e + 2, c, e + 1, 0, n);
  }

  lemma {:induction false} ArrivedHeld(log: Log, s: State, e: nat, log': Log, s': State, q: Position, r: Position)
    requires WellFormed(log) && PartyOk(log, s, e) && e + 2 == |log.keys| && WellFormed(log') && Extends(log, log')
    requires s'.skipped == Appended(log, ClosedCache(log, s, e), e + 1, 0, q.n)
    requires q.epoch == e + 1 && !Held(log, s, q) && CacheOk(log', s', e + 2) && Held(log', s', r)
    ensures r != q && Passed(log', s', e + 2, r) && (Held(log, s, r) || !Passed(log, s, e, r))
  {
    assert Passed(log', s', e + 2, r) by {
      HeldEntry(log', s', e + 2, r);
    }
    ArrivedKept(log, s, e, log', s', q, r);
  }

  lemma {:induction false} ArrivedKept(log: Log, s: State, e: nat, log': Log, s': State, q: Position, r: Position)
    requires WellFormed(log) && PartyOk(log, s, e) && e + 2 == |log.keys| && Extends(log, log')
    requires s'.skipped == Appended(log, ClosedCache(log, s, e), e + 1, 0, q.n)
    requires r.epoch < |log.keys|
    requires q.epoch == e + 1 && !Held(log, s, q) && Held(log', s', r)
    ensures r != q && (Held(log, s, r) || !Passed(log, s, e, r))
  {
    assert log'.keys[r.epoch] == log'.keys[..|log.keys|][r.epoch];
    ArrivedKeptIn(log, s, e, ClosedCache(log, s, e), s'.skipped, q, r);
  }

  lemma {:induction false} ArrivedKeptIn(log: Log, s: State, e: nat, c: seq<SkippedKey>, cache: seq<SkippedKey>, q: Position, r: Position)
    requires WellFormed(log) && PartyOk(log, s, e) && e + 2 == |log.keys| && c == ClosedCache(log, s, e)
    requires cache == Appended(log, c, e + 1, 0, q.n) && r.epoch < |log.keys| && q.epoch == e + 1
    requires HasKey(cache, Pub(log.keys[r.epoch]), r.n)
    ensures r != q && (Held(log, s, r) || !Passed(log, s, e, r))
  {
    var dh := Pub(log.keys[r.epoch]);
    AppendedHas(log, c, e + 1, 0, q.n, dh, r.n);
    if HasKey(c, dh, r.n) {
      ClosedCacheHas(log, s, e, dh, r.n);
      ClosedKept(log, s, e, q, r);
    } else {
      assert r.epoch == e + 1 && r.n < q.n;
    }
  }

  lemma {:induction false} ClosedKept(log: Log, s: State, e: nat, q: Position, r: Position)
    requires WellFormed(log) && e + 2 == |log.keys| && r.epoch < |log.keys| && q.epoch == e + 1
    requires var dh := Pub(log.keys[r.epoch]);
             && (HasKey(s.skipped, dh, r.n) || (e >= 2 && dh == Pub(log.keys[e - 1]) && s.nr <= r.n < |log.sent[e - 1]|))
             && exists d | 0 <= d < e :: dh == Pub(log.keys[d])
    ensures r != q && (Held(log, s, r) || !Passed(log, s, e, r))
  {
    var d :| 0 <= d < e && Pub(log.keys[r.epoch]) == Pub(log.keys[d]);
    assert r.epoch == d;
  }

  lemma {:induction false} ArrivedAccount(log: Log, s: State, e: nat, log': Log, s': State, q: Position,
                       accepted: iset<Position>, evicted: iset<Position>)
    requires WellFormed(log) && PartyInvariant(log, s, e, accepted, evicted) && e + 2 == |log.keys|
    requires WellFormed(log') && Extends(log, log') && CacheOk(log', s', e + 2)
    requires s'.skipped == Appended(log, ClosedCache(log, s, e), e + 1, 0, q.n)
    requires forall r | Passed(log, s, e, r) :: Passed(log', s', e + 2, r)
    requires q.epoch == e + 1 && !Held(log, s, q) && Passed(log', s', e + 2, q)
    ensures Accounted(log', s', e + 2, accepted + iset{q}, evicted + Lost(log, s, e, log', s', e + 2, q))
  {
    ArrivedHeldAll(log, s, e, log', s', e + 2, q);
    ArrivedAccountStep(log, s, e, log', s', e + 2, q, accepted, evicted);
  }

  lemma {:induction false} ArrivedHeldAll(log: Log, s: State, e: nat, log': Log, s': State, e': nat, q: Position)
    requires WellFormed(log) && PartyOk(log, s, e) && e' == e + 2 == |log.keys| && WellFormed(log') && Extends(log, log')
    requires s'.skipped == Appended(log, ClosedCache(log, s, e), e + 1, 0, q.n)
    requires q.epoch == e + 1 && !Held(log, s, q) && CacheOk(log', s', e')
    ensures forall r | Held(log', s', r) ::
              r != q && Passed(log', s', e', r) && (Held(log, s, r) || !Passed(log, s, e, r))
  {
    forall r | Held(log', s', r)
      ensures r != q && Passed(log', s', e', r) && (Held(log, s, r) || !Passed(log, s, e, r))
    {
      ArrivedHeld(log, s, e, log', s', q, r);
    }
  }

  lemma {:induction false} ArrivedAccountStep(log: Log, s: State, e: nat, log': Log, s': State, e': nat, q: Position,
                           accepted: iset<Position>, evicted: iset<Position>)
    requires e' == e + 2 && q.epoch == e + 1 && Accounted(log, s, e, accepted, evicted)
    requires !Held(log, s, q) && Passed(log', s', e', q)
    requires forall r | Passed(log, s, e, r) :: Passed(log', s', e', r)
    requires forall r | Held(log', s', r) ::
               r != q && Passed(log', s', e', r) && (Held(log, s, r) || !Passed(log, s, e, r))
    ensures Accounted(log', s', e', accepted + iset{q}, evicted + Lost(log, s, e, log', s', e', q))
  {
    assert q.epoch % 2 != e % 2 && !Passed(log, s, e, q);
    assert q !in accepted && q !in evicted;
    AccountStep(log, s, e, log', s', e', q, accepted, evicted);
  }

  /** The first message of a new epoch: the receiver closes its chain, turns, and skips to it. */
  lemma {:induction false} NewDelivery(log: Log, s: State, e: nat, q: Position, newKey: PrivateKey,
                    accepted: iset<Position>, evicted: iset<Position>)
    requires WellFormed(log) && PartyInvariant(log, s, e, accepted, evicted) && IsSent(log, q) && newKey !in log.keys
    requires q.epoch == e + 1 == |log.keys| - 1 && !Held(log, s, q) && GapsOk(log, s, e, q)
    ensures var log', s' := Opening(log, newKey), Arrived(log, s, e, newKey, q.n);
            && WellFormed(log')
            && PartyInvariant(log', s', e + 2, accepted + iset{q}, evicted + Lost(log, s, e, log', s', e + 2, q))
  {
    var log', s' := Opening(log, newKey), Arrived(log, s, e, newKey, q.n);
    OpeningExtends(log, newKey);
    ArrivedFields(log, s, e, newKey, q.n);
    ArrivedCache(log, s, e, newKey, q.n);
    ArrivedParty(log, s, e, newKey, s', q.n);
    PassedAfterTurn(log, s, e, newKey, s', q.n);
    ArrivedAccount(log, s, e, log', s', q, accepted, evicted);
  }

  // ---- One delivery in any state that satisfies the invariant ----

  /** A sent position that the receiver has not passed is ahead on its chain or opens the next epoch. */
  lemma {:induction false} Ahead(log: Log, s: State, e: nat, q: Position)
    requires WellFormed(log) && e < |log.keys| <= e + 2 && (e < 2 ==> s.nr == 0)
    requires IsSent(log, q) && q.epoch % 2 != e % 2 && !Passed(log, s, e, q)
    ensures (2 <= e && q.epoch == e - 1 && s.nr <= q.n) || q.epoch == e + 1 == |log.keys| - 1
  {
  }

  lemma {:induction false} OutcomeAt(log: Log, s: State, e: nat, q: Position, plaintext: Plaintext, newKey: PrivateKey)
    requires WellFormed(log) && PartyOk(log, s, e) && |log.keys| <= e + 2
    requires IsSent(log, q) && q.epoch % 2 != e % 2
    ensures q.epoch >= 1
    ensures var outcome := Received(log, s, q, plaintext, newKey).1;
            if Held(log, s, q) || (!Passed(log, s, e, q) && GapsOk(log, s, e, q)) then outcome == Opened(plaintext)
            else !outcome.Opened?
  {
    if Held(log, s, q) {
      HeldOpens(log, s, e, q, plaintext, newKey);
    } else if Passed(log, s, e, q) {
      StaleFails(log, s, e, q, plaintext, newKey);
    } else {
      Ahead(log, s, e, q);
      if q.epoch == e - 1 {
        CurrentChain(log, s, e, q, plaintext, newKey);
      } else {
        NewEpoch(log, s, e, q, plaintext, newKey);
      }
    }
  }

  lemma {:induction false} OwnFacts(log: Log, p: nat)
    requires |log.keys| >= 2 && p < 2
    ensures var e, o := Own(log, p), Own(log, 1 - p);
            e < |log.keys| <= e + 2 && o < |log.keys| <= o + 2 && e % 2 == p && o % 2 == 1 - p
  {
  }

  /** Delivery in terms of the party states, without the wrapping. */
  lemma {:induction false} DeliveryIs(sys: System, q: Position, newKey: PrivateKey)
    requires Invariant(sys) && IsSent(sys.log, q)
    ensures q.epoch >= 1
    ensures Delivery(sys, q, newKey)
         == Received(sys.log, sys.parties[Receiver(q)], q, sys.log.sent[q.epoch][q.n].plaintext, newKey)
  {
    var p, wire := Receiver(q), sys.log.sent[q.epoch][q.n];
    assert q.epoch % 2 == 1 - p;
    assert wire.message == MessageAt(sys.log, q, wire.plaintext);
  }

  /** What holds of the two parties in a state that satisfies the invariant. */
  lemma {:induction false} PartiesOf(sys: System, p: nat)
    requires Invariant(sys) && p < 2
    ensures PartyInvariant(sys.log, sys.parties[p], Own(sys.log, p), sys.accepted, sys.evicted)
    ensures PartyInvariant(sys.log, sys.parties[1 - p], Own(sys.log, 1 - p), sys.accepted, sys.evicted)
  {
  }

  lemma {:induction false} OutcomeAccounted(log: Log, s: State, e: nat, q: Position, plaintext: Plaintext, newKey: PrivateKey,
                         accepted: iset<Position>, evicted: iset<Position>)
    requires WellFormed(log) && PartyInvariant(log, s, e, accepted, evicted) && |log.keys| <= e + 2
    requires IsSent(log, q) && q.epoch % 2 != e % 2
    ensures q.epoch >= 1
    ensures var outcome := Received(log, s, q, plaintext, newKey).1;
            if q !in accepted && q !in evicted && (Held(log, s, q) || GapsOk(log, s, e, q)) then outcome == Opened(plaintext)
            else !outcome.Opened?
  {
    OutcomeAt(log, s, e, q, plaintext, newKey);
    assert Passed(log, s, e, q) <==> q in accepted || q in evicted || Held(log, s, q);
  }

  /** The receiver opens a delivered message exactly when it has not opened it before, its cached
      key was not evicted, and the gaps are within bounds; what it gets is what was sent. */
  lemma {:induction false} DeliveryOutcome(sys: System, q: Position, newKey: PrivateKey)
    requires Invariant(sys) && IsSent(sys.log, q)
    ensures var s, e := sys.parties[Receiver(q)], Own(sys.log, Receiver(q));
            var outcome := Delivery(sys, q, newKey).1;
            if && q !in sys.accepted && q !in sys.evicted
               && (Held(sys.log, s, q) || GapsOk(sys.log, s, e, q))
            then outcome == Opened(sys.log.sent[q.epoch][q.n].plaintext)
            else !outcome.Opened?
  {
    var p := Receiver(q);
    OwnFacts(sys.log, p);
    PartiesOf(sys, p);
    DeliveryIs(sys, q, newKey);
    OutcomeAccounted(sys.log, sys.parties[p], Own(sys.log, p), q, sys.log.sent[q.epoch][q.n].plaintext, newKey,
                     sys.accepted, sys.evicted);
  }

  lemma {:induction false} SavesCurrent(log: Log, s: State, e: nat, q: Position, plaintext: Plaintext, newKey: PrivateKey,
                     accepted: iset<Position>, evicted: iset<Position>)
    requires WellFormed(log) && PartyInvariant(log, s, e, accepted, evicted) && IsSent(log, q)
    requires Held(log, s, q) || (2 <= e && q.epoch == e - 1 && s.nr <= q.n && GapsOk(log, s, e, q))
    ensures q.epoch >= 1
    ensures var s' := Received(log, s, q, plaintext, newKey).0;
            && s'.dhs == s.dhs
            && PartyInvariant(log, s', e, accepted + iset{q}, evicted + Lost(log, s, e, log, s', e, q))
  {
    if Held(log, s, q) {
      HeldOpens(log, s, e, q, plaintext, newKey);
      HeldDelivery(log, s, e, q, accepted, evicted);
    } else {
      CurrentChain(log, s, e, q, plaintext, newKey);
      CurrentDelivery(log, s, e, q, accepted, evicted);
    }
  }

  lemma {:induction false} SavesNew(log: Log, s: State, e: nat, q: Position, plaintext: Plaintext, newKey: PrivateKey,
                 accepted: iset<Position>, evicted: iset<Position>)
    requires WellFormed(log) && PartyInvariant(log, s, e, accepted, evicted) && IsSent(log, q) && newKey !in log.keys
    requires q.epoch == e + 1 == |log.keys| - 1 && !Held(log, s, q) && GapsOk(log, s, e, q)
    ensures var s', log' := Received(log, s, q, plaintext, newKey).0, Opening(log, newKey);
            && s'.dhs == newKey && WellFormed(log')
            && PartyInvariant(log', s', e + 2, accepted + iset{q}, evicted + Lost(log, s, e, log', s', e + 2, q))
  {
    NewEpoch(log, s, e, q, plaintext, newKey);
    NewDelivery(log, s, e, q, newKey, accepted, evicted);
  }

  /** What a successful delivery leaves behind, for both parties. */
  ghost predicate Settled(log: Log, s: State, e: nat, other: State, o: nat, log': Log, s': State, e': nat,
                          q: Position, accepted: iset<Position>, evicted: iset<Position>)
  {
    && WellFormed(log') && WiresOk(log')
    && var evicted' := evicted + Lost(log, s, e, log', s', e', q);
       && PartyInvariant(log', s', e', accepted + iset{q}, evicted')
       && PartyInvariant(log', other, o, accepted + iset{q}, evicted')
  }

  lemma {:induction false} SettledSame(log: Log, s: State, e: nat, other: State, o: nat, s': State, q: Position,
                    accepted: iset<Position>, evicted: iset<Position>)
    requires WellFormed(log) && WiresOk(log) && CacheOk(log, s, e)
    requires PartyInvariant(log, other, o, accepted, evicted)
    requires o % 2 != e % 2 && q.epoch % 2 != e % 2
    requires PartyInvariant(log, s', e, accepted + iset{q}, evicted + Lost(log, s, e, log, s', e, q))
    ensures Settled(log, s, e, other, o, log, s', e, q, accepted, evicted)
  {
    OtherUnmoved(log, log, other, o, q, e, s, s', e, accepted, evicted);
  }

  lemma {:induction false} SettledNew(log: Log, s: State, e: nat, other: State, o: nat, newKey: PrivateKey, s': State, q: Position,
                   accepted: iset<Position>, evicted: iset<Position>)
    requires WellFormed(log) && WiresOk(log) && CacheOk(log, s, e) && newKey !in log.keys
    requires PartyInvariant(log, other, o, accepted, evicted)
    requires o % 2 != e % 2 && q.epoch % 2 != e % 2
    requires var log' := Opening(log, newKey);
             && WellFormed(log')
             && PartyInvariant(log', s', e + 2, accepted + iset{q}, evicted + Lost(log, s, e, log', s', e + 2, q))
    ensures Settled(log, s, e, other, o, Opening(log, newKey), s', e + 2, q, accepted, evicted)
  {
    OpeningWires(log, newKey);
    OtherAfterOpening(log, newKey, other, o, q, e, s, s', accepted, evicted);
  }

  lemma {:induction false} OtherAfterOpening(log: Log, newKey: PrivateKey, other: State, o: nat, q: Position, e: nat, s: State, s': State,
                          accepted: iset<Position>, evicted: iset<Position>)
    requires WellFormed(log) && newKey !in log.keys && PartyInvariant(log, other, o, accepted, evicted)
    requires o % 2 != e % 2 && q.epoch % 2 != e % 2 && CacheOk(log, s, e)
    ensures WellFormed(Opening(log, newKey))
    ensures PartyInvariant(Opening(log, newKey), other, o, accepted + iset{q},
                           evicted + Lost(log, s, e, Opening(log, newKey), s', e + 2, q))
  {
    OpeningOther(log, newKey, other, o, accepted, evicted);
    OtherUnmoved(log, Opening(log, newKey), other, o, q, e, s, s', e + 2, accepted, evicted);
  }

  /** The state `s'` that the receiver saves: it stayed in its epoch, or it opened the next one. */
  ghost predicate SavedOk(log: Log, s: State, e: nat, q: Position, newKey: PrivateKey, s': State,
                          accepted: iset<Position>, evicted: iset<Position>)
    requires WellFormed(log)
  {
    var log' := Opening(log, newKey);
    || (s'.dhs == s.dhs && PartyInvariant(log, s', e, accepted + iset{q}, evicted + Lost(log, s, e, log, s', e, q)))
    || (&& s'.dhs == newKey && e + 2 == |log.keys| && WellFormed(log')
        && PartyInvariant(log', s', e + 2, accepted + iset{q}, evicted + Lost(log, s, e, log', s', e + 2, q)))
  }

  lemma {:induction false} SavedAt(log: Log, s: State, e: nat, q: Position, plaintext: Plaintext, newKey: PrivateKey,
                accepted: iset<Position>, evicted: iset<Position>)
    requires WellFormed(log) && PartyInvariant(log, s, e, accepted, evicted) && |log.keys| <= e + 2
    requires IsSent(log, q) && q.epoch % 2 != e % 2 && newKey !in log.keys
    ensures q.epoch >= 1
    ensures var (s', outcome) := Received(log, s, q, plaintext, newKey);
            outcome.Opened? ==> SavedOk(log, s, e, q, newKey, s', accepted, evicted)
  {
    OutcomeAt(log, s, e, q, plaintext, newKey);
    if Held(log, s, q) {
      SavesCurrent(log, s, e, q, plaintext, newKey, accepted, evicted);
    } else if !Passed(log, s, e, q) && GapsOk(log, s, e, q) {
      Ahead(log, s, e, q);
      if q.epoch == e + 1 {
        SavesNew(log, s, e, q, plaintext, newKey, accepted, evicted);
      } else {
        SavesCurrent(log, s, e, q, plaintext, newKey, accepted, evicted);
      }
    }
  }

  lemma {:induction false} SettledInvariant(sys: System, q: Position, s': State, log': Log)
    requires Shape(sys)
    requires var p := Receiver(q);
             && log' == LogAfter(sys, p, s') && |log'.keys| >= 2 && Own(log', 1 - p) == Own(sys.log, 1 - p)
             && Settled(sys.log, sys.parties[p], Own(sys.log, p), sys.parties[1 - p], Own(sys.log, 1 - p),
                        log', s', Own(log', p), q, sys.accepted, sys.evicted)
    ensures Invariant(Saved(sys, q, s'))
  {
    BothParties(Saved(sys, q, s'), Receiver(q));
  }

  lemma {:induction false} SavedInvariant(sys: System, q: Position, newKey: PrivateKey, s': State)
    requires Invariant(sys) && newKey !in sys.log.keys
    requires var p := Receiver(q);
             SavedOk(sys.log, sys.parties[p], Own(sys.log, p), q, newKey, s', sys.accepted, sys.evicted)
    ensures Invariant(Saved(sys, q, s'))
  {
    var p := Receiver(q);
    var e, o := Own(sys.log, p), Own(sys.log, 1 - p);
    OwnFacts(sys.log, p);
    PartiesOf(sys, p);
    SavedSettled(sys.log, sys.parties[p], e, sys.parties[1 - p], o, newKey, s', q, sys.accepted, sys.evicted);
    if s'.dhs == sys.parties[p].dhs {
      SettledInvariant(sys, q, s', sys.log);
    } else {
      OwnAfterOpening(sys.log, newKey, p);
      SettledInvariant(sys, q, s', Opening(sys.log, newKey));
    }
  }

  lemma {:induction false} SavedSettled(log: Log, s: State, e: nat, other: State, o: nat, newKey: PrivateKey, s': State, q: Position,
                     accepted: iset<Position>, evicted: iset<Position>)
    requires WellFormed(log) && WiresOk(log) && CacheOk(log, s, e) && newKey !in log.keys && s.dhs in log.keys
    requires PartyInvariant(log, other, o, accepted, evicted)
    requires o % 2 != e % 2 && q.epoch % 2 != e % 2
    requires SavedOk(log, s, e, q, newKey, s', accepted, evicted)
    ensures if s'.dhs == s.dhs then Settled(log, s, e, other, o, log, s', e, q, accepted, evicted)
            else Settled(log, s, e, other, o, Opening(log, newKey), s', e + 2, q, accepted, evicted)
  {
    if s'.dhs == s.dhs {
      SettledSame(log, s, e, other, o, s', q, accepted, evicted);
    } else {
      SettledNew(log, s, e, other, o, newKey, s', q, accepted, evicted);
    }
  }

  lemma {:induction false} DeliverInvariant(sys: System, q: Position, newKey: PrivateKey)
    requires Invariant(sys) && IsSent(sys.log, q) && newKey !in sys.log.keys
    ensures Invariant(AfterDelivery(sys, q, newKey))
  {
    var p := Receiver(q);
    OwnFacts(sys.log, p);
    PartiesOf(sys, p);
    DeliveryIs(sys, q, newKey);
    SavedAt(sys.log, sys.parties[p], Own(sys.log, p), q, sys.log.sent[q.epoch][q.n].plaintext, newKey,
            sys.accepted, sys.evicted);
    if Delivery(sys, q, newKey).1.Opened? {
      SavedInvariant(sys, q, newKey, Delivery(sys, q, newKey).0);
    }
  }

  lemma {:induction false} OwnAfterOpening(log: Log, newKey: PrivateKey, p: nat)
    requires |log.keys| >= 2 && p < 2 && Own(log, p) + 2 == |log.keys|
    ensures Own(Opening(log, newKey), p) == Own(log, p) + 2 && Own(Opening(log, newKey), 1 - p) == Own(log, 1 - p)
  {
  }

  /** The bookkeeping of one party's positions does not touch the other's. */
  lemma {:induction false} OtherUnmoved(log: Log, log': Log, other: State, o: nat, q: Position, e: nat, s: State, s': State, e': nat,
                     accepted: iset<Position>, evicted: iset<Position>)
    requires WellFormed(log) && WellFormed(log') && PartyInvariant(log', other, o, accepted, evicted)
    requires o % 2 != e % 2 == e' % 2 && q.epoch % 2 != e % 2
    requires CacheOk(log, s, e)
    ensures PartyInvariant(log', other, o, accepted + iset{q}, evicted + Lost(log, s, e, log', s', e', q))
  {
    forall r | r in Lost(log, s, e, log', s', e', q)
      ensures r.epoch % 2 == o % 2
    {
      if Held(log, s, r) {
        HeldEntry(log, s, e, r);
      }
    }
  }

  // ---- Forgeries ----

  lemma {:induction false} MadeUpFails(sys: System, p: nat, m: SignalMessage, newKey: PrivateKey)
    requires Invariant(sys) && p < 2 && Base(m.mac.key) != Base(sys.log.secret)
    ensures !Attempt(sys, p, m, newKey).1.Opened?
  {
    var s, e := sys.parties[p], Own(sys.log, p);
    PartiesOf(sys, p);
    MadeUpBy(sys.log, s, e, m, sys.log.ids[1 - p], sys.log.ids[p], newKey);
  }

  lemma {:induction false} MadeUpBy(log: Log, s: State, e: nat, m: SignalMessage, sender: PublicKey, receiver: PublicKey, newKey: PrivateKey)
    requires WellFormed(log) && PartyOk(log, s, e) && Base(m.mac.key) != Base(log.secret)
    ensures !Receive(s, m, sender, receiver, newKey).1.Opened?
  {
    OpenedIff(s, m.header, m.ciphertext, Verifier(m, sender, receiver), newKey);
    if TriedKey(s, m.header, newKey).Some? {
      TriedKeyBase(log, s, e, m.header, newKey);
    }
  }

  lemma {:induction false} CopiedFails(sys: System, p: nat, m: SignalMessage, newKey: PrivateKey, q: Position)
    requires Invariant(sys) && p < 2 && IsSent(sys.log, q)
    requires var genuine := sys.log.sent[q.epoch][q.n].message;
             m.mac == genuine.mac && !(m == genuine && Receiver(q) == p)
    ensures !Attempt(sys, p, m, newKey).1.Opened?
  {
    var log, s, e := sys.log, sys.parties[p], Own(sys.log, p);
    OwnFacts(log, p);
    PartiesOf(sys, p);
    OpenedIff(s, m.header, m.ciphertext, Verifier(m, log.ids[1 - p], log.ids[p]), newKey);
    if Attempt(sys, p, m, newKey).1.Opened? {
      var genuine := log.sent[q.epoch][q.n];
      assert genuine.message == MessageAt(log, q, genuine.plaintext);
      assert m == genuine.message && Receiver(q) != p;
      ReflectedPosition(log, p, q);
      OwnKeyNotTried(log, s, e, q, m.header, newKey);
    }
  }

  lemma {:induction false} ReflectedPosition(log: Log, p: nat, q: Position)
    requires WellFormed(log) && p < 2 && IsSent(log, q) && Receiver(q) != p
    ensures 1 <= q.epoch <= Own(log, p) && q.epoch % 2 == Own(log, p) % 2
  {
  }

  /** In a state that satisfies the invariant, nothing that can be put together without the shared
      secret opens. */
  lemma {:induction false} ForgedFails(sys: System, p: nat, m: SignalMessage, newKey: PrivateKey)
    requires Invariant(sys) && p < 2 && Forged(sys.log, p, m)
    ensures !Attempt(sys, p, m, newKey).1.Opened?
  {
    if Base(m.mac.key) != Base(sys.log.secret) {
      MadeUpFails(sys, p, m, newKey);
    } else {
      var q :| IsSent(sys.log, q) && m.mac == sys.log.sent[q.epoch][q.n].message.mac
               && !(m == sys.log.sent[q.epoch][q.n].message && Receiver(q) == p);
      CopiedFails(sys, p, m, newKey, q);
    }
  }
}
