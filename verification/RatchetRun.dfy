/** Two parties that share one X3DH session, over a network that loses, reorders, repeats and
    forges messages. */
module RatchetRun {
  import opened Outcomes
  import opened SymbolicCrypto
  import opened Ratchet
  import opened Messages

  /** Message `n` of ratchet epoch `epoch`.  Epoch 0 is the responder's signed prekey; the parties
      own the epochs alternately, party 1 (the initiator) the odd ones. */
  datatype Position = Position(epoch: nat, n: nat)

  datatype Wire = Wire(message: SignalMessage, plaintext: Plaintext)

  /** What has happened so far: the ratchet key of every epoch and every message sent in it. */
  datatype Log = Log(secret: Key, ids: seq<PublicKey>, keys: seq<PrivateKey>, sent: seq<seq<Wire>>)

  ghost predicate WellFormed(log: Log) {
    && |log.ids| == 2 && |log.keys| == |log.sent| >= 2 && log.sent[0] == []
    && forall i, j | 0 <= i < j < |log.keys| :: log.keys[i] != log.keys[j]
  }

  function RootAt(log: Log, e: nat): Key
    requires e < |log.keys|
  {
    if e == 0 then log.secret
    else RootKey(RootAt(log, e - 1), Dh(log.keys[e], Pub(log.keys[e - 1])))
  }

  function ChainAt(log: Log, e: nat): Key
    requires 1 <= e < |log.keys|
  {
    ChainKey(RootAt(log, e - 1), Dh(log.keys[e], Pub(log.keys[e - 1])))
  }

  function KeyAt(log: Log, q: Position): Key
    requires 1 <= q.epoch < |log.keys|
  {
    MessageKey(Advance(ChainAt(log, q.epoch), q.n))
  }

  /** Length of the sending chain before epoch `e`'s, as its owner announces it. */
  function PreviousLength(log: Log, e: nat): nat
    requires e < |log.sent|
  {
    if e < 2 then 0 else |log.sent[e - 2]|
  }

  predicate IsSent(log: Log, q: Position) {
    q.epoch < |log.sent| && q.n < |log.sent[q.epoch]|
  }

  function Receiver(q: Position): nat {
    1 - q.epoch % 2
  }

  function MessageAt(log: Log, q: Position, plaintext: Plaintext): SignalMessage
    requires |log.ids| == 2 && |log.keys| == |log.sent| && 1 <= q.epoch < |log.keys|
  {
    var mk := KeyAt(log, q);
    Envelope(Sent(Header(Pub(log.keys[q.epoch]), PreviousLength(log, q.epoch), q.n), Sealed(mk, plaintext), MacKey(mk)),
             log.ids[q.epoch % 2], log.ids[Receiver(q)])
  }

  ghost predicate WiresOk(log: Log)
    requires WellFormed(log)
  {
    forall q | IsSent(log, q) :: log.sent[q.epoch][q.n].message == MessageAt(log, q, log.sent[q.epoch][q.n].plaintext)
  }

  /** The party in epoch `e` has moved its receiving side past position `q`. */
  ghost predicate Passed(log: Log, s: State, e: nat, q: Position) {
    && 1 <= q.epoch < e <= |log.sent| && q.epoch % 2 != e % 2
    && q.n < if q.epoch == e - 1 then s.nr else |log.sent[q.epoch]|
  }

  ghost predicate Held(log: Log, s: State, q: Position) {
    q.epoch < |log.keys| && HasKey(s.skipped, Pub(log.keys[q.epoch]), q.n)
  }

  /** A cached entry holds the key of a position that was passed. */
  ghost predicate EntryOk(log: Log, s: State, e: nat, x: SkippedKey)
    requires |log.keys| == |log.sent|
  {
    exists d | 0 <= d < |log.keys| ::
      && x.dh == Pub(log.keys[d]) && Passed(log, s, e, Position(d, x.n))
      && x.mk == KeyAt(log, Position(d, x.n))
  }

  ghost predicate CacheOk(log: Log, s: State, e: nat)
    requires |log.keys| == |log.sent|
  {
    && |s.skipped| <= MAX_SKIPPED_TOTAL && DistinctKeys(s.skipped)
    && forall i | 0 <= i < |s.skipped| :: EntryOk(log, s, e, s.skipped[i])
  }

  /** The keys and counters a party in epoch `e` must have. */
  ghost predicate FieldsOk(log: Log, s: State, e: nat)
    requires WellFormed(log)
  {
    && e < |log.keys| && s.dhs == log.keys[e] && s.rk == RootAt(log, e)
    && s.ns == |log.sent[e]| && s.pn == PreviousLength(log, e)
    && (if e == 0 then s.dhr.None? && s.cks.None?
        else s.dhr == Some(Pub(log.keys[e - 1])) && s.cks == Some(Advance(ChainAt(log, e), s.ns)))
    && (if e < 2 then s.ckr.None? && s.nr == 0
        else s.ckr == Some(Advance(ChainAt(log, e - 1), s.nr)) && s.nr <= |log.sent[e - 1]|)
  }

  ghost predicate PartyOk(log: Log, s: State, e: nat)
    requires WellFormed(log)
  {
    FieldsOk(log, s, e) && CacheOk(log, s, e)
  }

  // ---- Keys of different epochs are different ----

  lemma {:induction false} RootDepthAt(log: Log, e: nat)
    requires e < |log.keys|
    ensures RootDepth(RootAt(log, e)) == e + RootDepth(log.secret)
  {
    if e > 0 {
      RootDepthAt(log, e - 1);
    }
  }

  /** A chain turned from the root of epoch `e` never yields the key of a position of epoch `e` or before. */
  lemma {:induction false} ForeignChain(log: Log, e: nat, dh: Key, i: nat, q: Position)
    requires e < |log.keys| && 1 <= q.epoch <= e
    ensures MessageKey(Advance(ChainKey(RootAt(log, e), dh), i)) != KeyAt(log, q)
  {
    var c := ChainKey(RootAt(log, e), dh);
    if Advance(c, i) == Advance(ChainAt(log, q.epoch), q.n) {
      AdvanceInjective(c, i, ChainAt(log, q.epoch), q.n);
      RootDepthAt(log, e);
      RootDepthAt(log, q.epoch - 1);
    }
  }

  lemma {:induction false} HeldEntry(log: Log, s: State, e: nat, q: Position)
    requires WellFormed(log) && CacheOk(log, s, e) && Held(log, s, q)
    ensures Passed(log, s, e, q)
    ensures s.skipped[IndexOfKey(s.skipped, Pub(log.keys[q.epoch]), q.n)].mk == KeyAt(log, q)
  {
    var i := IndexOfKey(s.skipped, Pub(log.keys[q.epoch]), q.n);
    assert EntryOk(log, s, e, s.skipped[i]);
  }

  // ---- What one delivery does, case by case ----

  function Received(log: Log, s: State, q: Position, plaintext: Plaintext, newKey: PrivateKey): (State, Outcome)
    requires |log.ids| == 2 && |log.keys| == |log.sent| && 1 <= q.epoch < |log.keys| && Valid(s)
  {
    Receive(s, MessageAt(log, q, plaintext), log.ids[q.epoch % 2], log.ids[Receiver(q)], newKey)
  }

  /** Authentication accepts exactly the key the message was sealed with. */
  lemma {:induction false} UnsealAt(log: Log, q: Position, plaintext: Plaintext, mk: Key)
    requires WellFormed(log) && 1 <= q.epoch < |log.keys|
    ensures var m := MessageAt(log, q, plaintext);
            var verify := Verifier(m, log.ids[q.epoch % 2], log.ids[Receiver(q)]);
            Unseal(mk, m.ciphertext, verify) == if mk == KeyAt(log, q) then Opened(plaintext) else BadMac
  {
  }

  lemma {:induction false} HeldOpens(log: Log, s: State, e: nat, q: Position, plaintext: Plaintext, newKey: PrivateKey)
    requires WellFormed(log) && PartyOk(log, s, e) && Held(log, s, q)
    ensures 1 <= q.epoch
    ensures Received(log, s, q, plaintext, newKey)
         == (s.(skipped := RemoveAt(s.skipped, IndexOfKey(s.skipped, Pub(log.keys[q.epoch]), q.n))), Opened(plaintext))
  {
    HeldEntry(log, s, e, q);
    UnsealAt(log, q, plaintext, KeyAt(log, q));
  }

  /** The state after taking message `n` from the receiving chain that starts at `chain`. */
  function Taken(s: State, chain: Key, n: nat): State
    requires s.ckr.Some? && s.dhr.Some?
  {
    s.(ckr := Some(Advance(chain, n + 1)), nr := n + 1, skipped := SkipTo(s, n).skipped)
  }

  lemma {:induction false} SkipAhead(s: State, chain: Key, n: nat)
    requires s.ckr == Some(Advance(chain, s.nr)) && s.dhr.Some? && s.nr <= n
    ensures SkipTo(s, n) == s.(ckr := Some(Advance(chain, n)), nr := n, skipped := SkipTo(s, n).skipped)
  {
    SkipToChain(s, n);
    AdvanceAdd(chain, s.nr, n - s.nr);
  }

  lemma {:induction false} TakeFromChain(s: State, chain: Key, h: Header, ct: Ciphertext, verify: Key -> bool)
    requires s.ckr == Some(Advance(chain, s.nr)) && s.dhr.Some? && s.nr <= h.n
    ensures Take(s, h, ct, verify)
         == if h.n <= s.nr + s.maxSkip
            then (Taken(s, chain, h.n), Unseal(MessageKey(Advance(chain, h.n)), ct, verify))
            else (s, TooManySkipped)
  {
    SkipAhead(s, chain, h.n);
  }

  lemma {:induction false} CurrentChain(log: Log, s: State, e: nat, q: Position, plaintext: Plaintext, newKey: PrivateKey)
    requires WellFormed(log) && PartyOk(log, s, e)
    requires 2 <= e && q.epoch == e - 1 && s.nr <= q.n && !Held(log, s, q)
    ensures Received(log, s, q, plaintext, newKey)
         == if q.n <= s.nr + s.maxSkip then (Taken(s, ChainAt(log, e - 1), q.n), Opened(plaintext))
            else (s, TooManySkipped)
  {
    var m := MessageAt(log, q, plaintext);
    TakeFromChain(s, ChainAt(log, e - 1), m.header, m.ciphertext, Verifier(m, log.ids[q.epoch % 2], log.ids[Receiver(q)]));
    UnsealAt(log, q, plaintext, KeyAt(log, q));
  }

  /** The gaps the receiver must bridge before it can take `q` are within `max_skip`. */
  predicate GapsOk(log: Log, s: State, e: nat, q: Position)
    requires e < |log.sent| && q.epoch < |log.sent|
  {
    if q.epoch < e then q.n <= s.nr + s.maxSkip
    else q.n <= s.maxSkip && (e >= 2 ==> |log.sent[e - 1]| <= s.nr + s.maxSkip)
  }

  /** The state after turning to epoch `e + 1` of the peer. */
  function Turned(log: Log, s: State, e: nat, newKey: PrivateKey): State
    requires e + 1 < |log.keys| == |log.sent| && (e >= 2 ==> s.ckr.Some? && s.dhr.Some?)
  {
    DhRatchet(if e >= 2 then SkipTo(s, |log.sent[e - 1]|) else s, Pub(log.keys[e + 1]), newKey)
  }

  lemma {:induction false} TurnToNewEpoch(log: Log, s: State, e: nat, h: Header, newKey: PrivateKey)
    requires WellFormed(log) && PartyOk(log, s, e) && e + 1 < |log.keys|
    requires h.dh == Pub(log.keys[e + 1]) && h.pn == PreviousLength(log, e + 1)
    ensures var t := Turned(log, s, e, newKey);
            if e >= 2 && s.nr + s.maxSkip < |log.sent[e - 1]| then !Turn(s, h, newKey).1
            else
              && Turn(s, h, newKey) == (t, true)
              && t == s.(pn := s.ns, ns := 0, nr := 0, dhr := Some(h.dh), dhs := newKey, rk := t.rk,
                         ckr := Some(ChainAt(log, e + 1)), cks := t.cks, skipped := t.skipped)
              && t.rk == RootKey(RootAt(log, e + 1), Dh(newKey, h.dh))
              && t.cks == Some(ChainKey(RootAt(log, e + 1), Dh(newKey, h.dh)))
  {
    assert s.dhr != Some(h.dh);
    DhAgrees(log.keys[e], log.keys[e + 1]);
    if e >= 2 {
      var closed := SkipTo(s, |log.sent[e - 1]|);
      SkipAhead(s, ChainAt(log, e - 1), |log.sent[e - 1]|);
      assert Skip(s, h.pn) == if s.nr + s.maxSkip < |log.sent[e - 1]| then (s, false) else (closed, true);
    } else {
      assert Turn(s, h, newKey) == (DhRatchet(s, h.dh, newKey), true);
    }
  }

  lemma {:induction false} NewEpoch(log: Log, s: State, e: nat, q: Position, plaintext: Plaintext, newKey: PrivateKey)
    requires WellFormed(log) && PartyOk(log, s, e)
    requires q.epoch == e + 1 < |log.keys| && !Held(log, s, q)
    ensures var t := Turned(log, s, e, newKey);
            if GapsOk(log, s, e, q)
            then Received(log, s, q, plaintext, newKey) == (Taken(t, ChainAt(log, e + 1), q.n), Opened(plaintext))
            else Received(log, s, q, plaintext, newKey).1 == TooManySkipped
  {
    var m := MessageAt(log, q, plaintext);
    TurnToNewEpoch(log, s, e, m.header, newKey);
    if !(e >= 2 && s.nr + s.maxSkip < |log.sent[e - 1]|) {
      var t := Turned(log, s, e, newKey);
      TakeFromChain(t, ChainAt(log, e + 1), m.header, m.ciphertext, Verifier(m, log.ids[q.epoch % 2], log.ids[Receiver(q)]));
      UnsealAt(log, q, plaintext, KeyAt(log, q));
    }
  }

  /** A position that was passed and whose key is gone can no longer be opened. */
  lemma {:induction false} StaleFails(log: Log, s: State, e: nat, q: Position, plaintext: Plaintext, newKey: PrivateKey)
    requires WellFormed(log) && PartyOk(log, s, e) && Passed(log, s, e, q) && !Held(log, s, q)
    ensures !Received(log, s, q, plaintext, newKey).1.Opened?
  {
    var m := MessageAt(log, q, plaintext);
    OpenedIff(s, m.header, m.ciphertext, Verifier(m, log.ids[q.epoch % 2], log.ids[Receiver(q)]), newKey);
    if TriedKey(s, m.header, newKey).Some? {
      StaleKey(log, s, e, q, m.header, newKey);
    }
  }

  /** It is tried with a later key of its chain, or with one of a chain turned from the own root. */
  lemma {:induction false} StaleKey(log: Log, s: State, e: nat, q: Position, h: Header, newKey: PrivateKey)
    requires WellFormed(log) && PartyOk(log, s, e) && Passed(log, s, e, q) && !Held(log, s, q)
    requires h.dh == Pub(log.keys[q.epoch]) && h.n == q.n && TriedKey(s, h, newKey).Some?
    ensures TriedKey(s, h, newKey).value != KeyAt(log, q)
  {
    if q.epoch == e - 1 {
      var chain := ChainAt(log, e - 1);
      TriedCurrent(s, h, newKey);
      assert Skip(s, h.n).0 == s;
      if Advance(chain, s.nr) == Advance(chain, q.n) {
        AdvanceInjective(chain, s.nr, chain, q.n);
      }
    } else {
      TurnedKeyIs(log, s, e, h, newKey);
      var n: nat :| OfChain(ChainKey(RootAt(log, e), Dh(s.dhs, h.dh)), n, TriedKey(s, h, newKey).value);
      ForeignChain(log, e, Dh(s.dhs, h.dh), n, q);
    }
  }

  // ---- Messages that the network makes up ----

  lemma {:induction false} RootBase(log: Log, e: nat)
    requires e < |log.keys|
    ensures Base(RootAt(log, e)) == Base(log.secret)
  {
    if e > 0 {
      RootBase(log, e - 1);
    }
  }

  lemma {:induction false} KeyBase(log: Log, q: Position)
    requires 1 <= q.epoch < |log.keys|
    ensures Base(KeyAt(log, q)) == Base(log.secret)
  {
    RootBase(log, q.epoch - 1);
    AdvancedBase(ChainAt(log, q.epoch), q.n);
  }

  ghost predicate IsKeyAt(log: Log, d: nat, n: nat, mk: Key) {
    1 <= d < |log.keys| && mk == KeyAt(log, Position(d, n))
  }

  ghost predicate OfChain(chain: Key, n: nat, mk: Key) {
    mk == MessageKey(Advance(chain, n))
  }

  /** Of a position of the other side. */
  ghost predicate OfOtherSide(log: Log, e: nat, dh: PublicKey, mk: Key) {
    exists d: nat, n: nat | IsKeyAt(log, d, n, mk) :: d < e && d % 2 != e % 2 && dh == Pub(log.keys[d])
  }

  /** Of a chain turned from the party's own root. */
  ghost predicate OfTurn(log: Log, s: State, e: nat, dh: PublicKey, mk: Key)
    requires e < |log.keys|
  {
    exists n: nat :: OfChain(ChainKey(RootAt(log, e), Dh(s.dhs, dh)), n, mk)
  }

  lemma {:induction false} CachedKeyIs(log: Log, s: State, e: nat, h: Header)
    requires WellFormed(log) && PartyOk(log, s, e) && HasKey(s.skipped, h.dh, h.n)
    ensures OfOtherSide(log, e, h.dh, s.skipped[IndexOfKey(s.skipped, h.dh, h.n)].mk)
  {
    var x := s.skipped[IndexOfKey(s.skipped, h.dh, h.n)];
    assert EntryOk(log, s, e, x);
    var d :| 0 <= d < |log.keys| && x.dh == Pub(log.keys[d]) && Passed(log, s, e, Position(d, x.n))
             && x.mk == KeyAt(log, Position(d, x.n));
    assert IsKeyAt(log, d, x.n, x.mk);
  }

  lemma {:induction false} ChainKeyIs(log: Log, s: State, e: nat, h: Header, newKey: PrivateKey)
    requires WellFormed(log) && PartyOk(log, s, e) && TriedKey(s, h, newKey).Some?
    requires !HasKey(s.skipped, h.dh, h.n) && s.dhr == Some(h.dh)
    ensures OfOtherSide(log, e, h.dh, TriedKey(s, h, newKey).value)
  {
    TriedCurrent(s, h, newKey);
    var chain := ChainAt(log, e - 1);
    SkippedKeyIs(s, chain, h.n);
    OtherSideKey(log, e, Skip(s, h.n).0.nr, h.dh);
  }

  lemma {:induction false} TriedCurrent(s: State, h: Header, newKey: PrivateKey)
    requires Valid(s) && TriedKey(s, h, newKey).Some? && !HasKey(s.skipped, h.dh, h.n) && s.dhr == Some(h.dh)
    ensures s.ckr.Some? && Skip(s, h.n).0.ckr.Some? && TriedKey(s, h, newKey).value == MessageKey(Skip(s, h.n).0.ckr.value)
  {
    assert Turn(s, h, newKey) == (s, true);
  }

  lemma {:induction false} SkippedKeyIs(s: State, chain: Key, n: nat)
    requires s.ckr == Some(Advance(chain, s.nr)) && s.dhr.Some?
    ensures Skip(s, n).0.ckr == Some(Advance(chain, Skip(s, n).0.nr))
  {
    SkipToChain(s, n);
    AdvanceAdd(chain, s.nr, SkipTo(s, n).nr - s.nr);
  }

  lemma {:induction false} OtherSideKey(log: Log, e: nat, n: nat, dh: PublicKey)
    requires 2 <= e < |log.keys| && dh == Pub(log.keys[e - 1])
    ensures OfOtherSide(log, e, dh, MessageKey(Advance(ChainAt(log, e - 1), n)))
  {
    Parity(e);
    var d := e - 1;
    assert IsKeyAt(log, d, n, MessageKey(Advance(ChainAt(log, d), n)));
  }

  lemma {:induction false} Parity(e: nat)
    requires e >= 1
    ensures (e - 1) % 2 != e % 2
  {
  }

  lemma {:induction false} TurnedKeyIs(log: Log, s: State, e: nat, h: Header, newKey: PrivateKey)
    requires WellFormed(log) && PartyOk(log, s, e) && TriedKey(s, h, newKey).Some?
    requires !HasKey(s.skipped, h.dh, h.n) && s.dhr != Some(h.dh)
    ensures OfTurn(log, s, e, h.dh, TriedKey(s, h, newKey).value)
  {
    if s.ckr.Some? {
      SkipToChain(s, h.pn);
    }
    var t := Turn(s, h, newKey).0;
    assert t.ckr == Some(ChainKey(RootAt(log, e), Dh(s.dhs, h.dh))) && t.nr == 0 && t.dhr.Some?;
    SkippedKeyIs(t, t.ckr.value, h.n);
    assert TriedKey(s, h, newKey).value == MessageKey(Skip(t, h.n).0.ckr.value);
    assert OfChain(t.ckr.value, Skip(t, h.n).0.nr, TriedKey(s, h, newKey).value);
  }

  /** The key an incoming message is tried with is of a position of the other side whose ratchet key
      the header names, or of a chain turned from the party's own root. */
  lemma {:induction false} TriedKeyIs(log: Log, s: State, e: nat, h: Header, newKey: PrivateKey)
    requires WellFormed(log) && PartyOk(log, s, e) && TriedKey(s, h, newKey).Some?
    ensures var mk := TriedKey(s, h, newKey).value;
            OfOtherSide(log, e, h.dh, mk) || OfTurn(log, s, e, h.dh, mk)
  {
    if HasKey(s.skipped, h.dh, h.n) {
      CachedKeyIs(log, s, e, h);
    } else if s.dhr == Some(h.dh) {
      ChainKeyIs(log, s, e, h, newKey);
    } else {
      TurnedKeyIs(log, s, e, h, newKey);
    }
  }

  /** Every key a party tries descends from the shared secret. */
  lemma {:induction false} TriedKeyBase(log: Log, s: State, e: nat, h: Header, newKey: PrivateKey)
    requires WellFormed(log) && PartyOk(log, s, e) && TriedKey(s, h, newKey).Some?
    ensures Base(TriedKey(s, h, newKey).value) == Base(log.secret)
  {
    var mk := TriedKey(s, h, newKey).value;
    TriedKeyIs(log, s, e, h, newKey);
    if OfOtherSide(log, e, h.dh, mk) {
      var d: nat, n: nat :| IsKeyAt(log, d, n, mk) && d < e;
      KeyBase(log, Position(d, n));
    } else {
      var chain := ChainKey(RootAt(log, e), Dh(s.dhs, h.dh));
      var n: nat :| OfChain(chain, n, mk);
      RootBase(log, e);
      AdvancedBase(chain, n);
    }
  }

  lemma {:induction false} OwnSide(log: Log, e: nat, own: nat, mk: Key)
    requires WellFormed(log) && own < |log.keys| && own % 2 == e % 2
    ensures !OfOtherSide(log, e, Pub(log.keys[own]), mk)
  {
  }

  /** A party never tries a message of its own with the key that message was made with. */
  lemma {:induction false} OwnKeyNotTried(log: Log, s: State, e: nat, q: Position, h: Header, newKey: PrivateKey)
    requires WellFormed(log) && PartyOk(log, s, e) && 1 <= q.epoch <= e && q.epoch % 2 == e % 2
    requires h.dh == Pub(log.keys[q.epoch])
    ensures TriedKey(s, h, newKey) != Some(KeyAt(log, q))
  {
    var mk := KeyAt(log, q);
    if TriedKey(s, h, newKey) == Some(mk) {
      TriedKeyIs(log, s, e, h, newKey);
      OwnSide(log, e, q.epoch, mk);
      var n: nat :| OfChain(ChainKey(RootAt(log, e), Dh(s.dhs, h.dh)), n, mk);
      ForeignChain(log, e, Dh(s.dhs, h.dh), n, q);
    }
  }

  // ---- The log only grows ----

  ghost predicate Extends(log: Log, log': Log) {
    && log'.secret == log.secret && log'.ids == log.ids
    && |log.keys| <= |log'.keys| && log'.keys[..|log.keys|] == log.keys
    && |log.sent| <= |log'.sent| && forall e | 0 <= e < |log.sent| :: log.sent[e] <= log'.sent[e]
  }

  lemma {:induction false} RootStable(log: Log, log': Log, e: nat)
    requires Extends(log, log') && e < |log.keys|
    ensures RootAt(log', e) == RootAt(log, e)
    ensures e >= 1 ==> ChainAt(log', e) == ChainAt(log, e)
  {
    assert log'.keys[e] == log'.keys[..|log.keys|][e];
    if e > 0 {
      assert log'.keys[e - 1] == log'.keys[..|log.keys|][e - 1];
      RootStable(log, log', e - 1);
    }
  }

  lemma {:induction false} KeyStable(log: Log, log': Log, q: Position)
    requires Extends(log, log') && 1 <= q.epoch < |log.keys|
    ensures log'.keys[q.epoch] == log.keys[q.epoch] && KeyAt(log', q) == KeyAt(log, q)
  {
    RootStable(log, log', q.epoch);
    assert log'.keys[q.epoch] == log'.keys[..|log.keys|][q.epoch];
  }

  lemma {:induction false} EntryStable(log: Log, log': Log, s: State, s': State, e: nat, e': nat, x: SkippedKey)
    requires |log.keys| == |log.sent| && |log'.keys| == |log'.sent| && Extends(log, log')
    requires forall q | Passed(log, s, e, q) :: Passed(log', s', e', q)
    requires EntryOk(log, s, e, x)
    ensures EntryOk(log', s', e', x)
  {
    var d :| 0 <= d < |log.keys| && x.dh == Pub(log.keys[d]) && Passed(log, s, e, Position(d, x.n))
             && x.mk == KeyAt(log, Position(d, x.n));
    KeyStable(log, log', Position(d, x.n));
  }

  // ---- Appending skipped keys to the cache ----

  lemma {:induction false} NoneCached(log: Log, s: State, e: nat, d: nat, from: nat)
    requires WellFormed(log) && CacheOk(log, s, e) && d < |log.keys|
    requires forall n | from <= n :: !Passed(log, s, e, Position(d, n))
    ensures NoneCachedFrom(s.skipped, Pub(log.keys[d]), from)
  {
    forall i | 0 <= i < |s.skipped| && s.skipped[i].dh == Pub(log.keys[d])
      ensures s.skipped[i].n < from
    {
      assert EntryOk(log, s, e, s.skipped[i]);
      assert Passed(log, s, e, Position(d, s.skipped[i].n));
    }
  }

  /** The keys of epoch `d` from `from` on, appended to `cache`. */
  function Appended(log: Log, cache: seq<SkippedKey>, d: nat, from: nat, count: nat): seq<SkippedKey>
    requires 1 <= d < |log.keys|
  {
    Newest(cache + Derived(Pub(log.keys[d]), Advance(ChainAt(log, d), from), from, count))
  }

  /** Every entry of the appended cache is an old one or the key of a newly skipped position. */
  lemma {:induction false} AppendedAt(log: Log, cache: seq<SkippedKey>, d: nat, from: nat, count: nat, i: nat) returns (j: nat)
    requires 1 <= d < |log.keys| && i < |Appended(log, cache, d, from, count)|
    ensures var c := Appended(log, cache, d, from, count);
            && j < |cache| + count && j - i == |cache| + count - |c| >= 0
            && if j < |cache| then c[i] == cache[j]
               else var n := from + j - |cache|;
                    c[i] == SkippedKey(Pub(log.keys[d]), n, KeyAt(log, Position(d, n)))
  {
    var added := Derived(Pub(log.keys[d]), Advance(ChainAt(log, d), from), from, count);
    var c := Newest(cache + added);
    j := i + (|cache| + count - |c|);
    assert c[i] == (cache + added)[j];
    if j >= |cache| {
      DerivedAt(Pub(log.keys[d]), Advance(ChainAt(log, d), from), from, count, j - |cache|);
      AdvanceAdd(ChainAt(log, d), from, j - |cache|);
    }
  }

  lemma {:induction false} AppendedDistinct(log: Log, cache: seq<SkippedKey>, d: nat, from: nat, count: nat)
    requires 1 <= d < |log.keys| && DistinctKeys(cache) && NoneCachedFrom(cache, Pub(log.keys[d]), from)
    ensures DistinctKeys(Appended(log, cache, d, from, count))
  {
    var c := Appended(log, cache, d, from, count);
    forall i, i' | 0 <= i < i' < |c|
      ensures !Matches(c[i'], c[i].dh, c[i].n)
    {
      var j := AppendedAt(log, cache, d, from, count, i);
      var j' := AppendedAt(log, cache, d, from, count, i');
    }
  }

  lemma {:induction false} AppendedOk(log: Log, s: State, e: nat, cache: seq<SkippedKey>, d: nat, from: nat, count: nat)
    requires |log.keys| == |log.sent| && 1 <= d < |log.keys|
    requires forall i | 0 <= i < |cache| :: EntryOk(log, s, e, cache[i])
    requires forall n | from <= n < from + count :: Passed(log, s, e, Position(d, n))
    ensures forall i | 0 <= i < |Appended(log, cache, d, from, count)| ::
              EntryOk(log, s, e, Appended(log, cache, d, from, count)[i])
  {
    var c := Appended(log, cache, d, from, count);
    forall i | 0 <= i < |c|
      ensures EntryOk(log, s, e, c[i])
    {
      var j := AppendedAt(log, cache, d, from, count, i);
      if j >= |cache| {
        assert Passed(log, s, e, Position(d, c[i].n));
      }
    }
  }

  /** Appending brings in only the newly skipped positions. */
  lemma {:induction false} AppendedHas(log: Log, cache: seq<SkippedKey>, d: nat, from: nat, count: nat, dh: PublicKey, n: nat)
    requires 1 <= d < |log.keys| && HasKey(Appended(log, cache, d, from, count), dh, n)
    ensures HasKey(cache, dh, n) || (dh == Pub(log.keys[d]) && from <= n < from + count)
  {
    var i := IndexOfKey(Appended(log, cache, d, from, count), dh, n);
    var j := AppendedAt(log, cache, d, from, count, i);
    if j < |cache| {
      assert Matches(cache[j], dh, n);
    }
  }
}
