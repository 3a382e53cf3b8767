/** One session, whoever writes to it: no two messages open with the same key, so that none opens
    twice. */
module SessionOnce {
  import opened Outcomes
  import opened SymbolicCrypto
  import opened Ratchet
  import opened Messages

  // ---- The order in which a session derives receiving keys ----

  /** A place on the receiving side: the depth of the root a chain starts from, and a position on it. */
  datatype Place = Place(depth: nat, index: nat)

  function PlaceOf(chain: Key): Place {
    Place(if Origin(chain).ChainKey? then RootDepth(Origin(chain).root) else 0, Index(chain))
  }

  predicate Earlier(p: Place, q: Place) {
    p.depth < q.depth || (p.depth == q.depth && p.index < q.index)
  }

  /** The place of the next key. */
  function Now(s: State): Place {
    if s.ckr.Some? then PlaceOf(s.ckr.value) else Place(RootDepth(s.rk), 0)
  }

  predicate Behind(mk: Key, now: Place) {
    mk.MessageKey? && Earlier(PlaceOf(mk.chain), now)
  }

  ghost predicate CacheSound(cache: seq<SkippedKey>, now: Place) {
    && (forall i | 0 <= i < |cache| :: Behind(cache[i].mk, now))
    && forall i, j | 0 <= i < j < |cache| :: cache[i].mk != cache[j].mk
  }

  /** Cached keys come from places already passed, all different; the root is ahead of the chain. */
  ghost predicate Sound(s: State) {
    && Valid(s) && CacheSound(s.skipped, Now(s))
    && (s.ckr.Some? ==> Origin(s.ckr.value).ChainKey? && Now(s).depth < RootDepth(s.rk))
  }

  predicate Cached(cache: seq<SkippedKey>, mk: Key) {
    exists i | 0 <= i < |cache| :: cache[i].mk == mk
  }

  /** None of the keys used so far can come up again. */
  ghost predicate Spent(s: State, used: iset<Key>) {
    Sound(s) && forall mk | mk in used :: Behind(mk, Now(s)) && !Cached(s.skipped, mk)
  }

  lemma {:induction false} EarlierOn(chain: Key)
    ensures Origin(NextChainKey(chain)) == Origin(chain)
    ensures PlaceOf(NextChainKey(chain)) == Place(PlaceOf(chain).depth, PlaceOf(chain).index + 1)
  {
  }

  lemma {:induction false} BehindLater(mk: Key, p: Place, q: Place)
    requires Behind(mk, p) && (p == q || Earlier(p, q))
    ensures Behind(mk, q)
  {
  }

  lemma {:induction false} PutSound(cache: seq<SkippedKey>, e: SkippedKey, p: Place, q: Place)
    requires CacheSound(cache, p) && Earlier(p, q) && e.mk.MessageKey? && PlaceOf(e.mk.chain) == p
    ensures CacheSound(PutKey(cache, e), q)
    ensures forall mk | Cached(PutKey(cache, e), mk) :: mk == e.mk || Cached(cache, mk)
  {
    forall i | 0 <= i < |cache|
      ensures Behind(cache[i].mk, q) && cache[i].mk != e.mk
    {
      BehindLater(cache[i].mk, p, q);
    }
  }

  lemma {:induction false} DropOldest(cache: seq<SkippedKey>, now: Place)
    requires cache != [] && CacheSound(cache, now)
    ensures CacheSound(cache[1..], now)
    ensures forall mk | Cached(cache[1..], mk) :: Cached(cache, mk)
  {
    forall mk | Cached(cache[1..], mk)
      ensures Cached(cache, mk)
    {
      var i :| 0 <= i < |cache[1..]| && cache[1..][i].mk == mk;
      assert cache[i + 1].mk == mk;
    }
  }

  lemma {:induction false} SkipOneSpent(s: State, used: iset<Key>)
    requires Spent(s, used) && s.ckr.Some?
    ensures Spent(SkipOne(s), used)
  {
    var ck := s.ckr.value;
    var e := SkippedKey(s.dhr.value, s.nr, MessageKey(ck));
    var put, t := PutKey(s.skipped, e), SkipOne(s);
    EarlierOn(ck);
    PutSound(s.skipped, e, Now(s), Now(t));
    if |put| > MAX_SKIPPED_TOTAL {
      DropOldest(put, Now(t));
    }
    forall mk | mk in used
      ensures Behind(mk, Now(t)) && !Cached(t.skipped, mk)
    {
      BehindLater(mk, Now(s), Now(t));
      assert mk != e.mk;
    }
  }

  lemma {:induction false} SkipToSpent(s: State, until: nat, used: iset<Key>)
    requires Spent(s, used) && s.ckr.Some?
    ensures Spent(SkipTo(s, until), used)
    decreases until - s.nr
  {
    if s.nr < until {
      SkipOneSpent(s, used);
      SkipToSpent(SkipOne(s), until, used);
    }
  }

  lemma {:induction false} SkipSpent(s: State, until: nat, used: iset<Key>)
    requires Spent(s, used)
    ensures Spent(Skip(s, until).0, used)
  {
    if s.ckr.Some? {
      SkipToSpent(s, until, used);
    }
  }

  lemma {:induction false} DhRatchetSpent(s: State, dh: PublicKey, newKey: PrivateKey, used: iset<Key>)
    requires Spent(s, used)
    ensures Spent(DhRatchet(s, dh, newKey), used)
  {
    var t := DhRatchet(s, dh, newKey);
    assert Now(t) == Place(RootDepth(s.rk), 0);
    assert Now(s) == Now(t) || Earlier(Now(s), Now(t));
    forall i | 0 <= i < |s.skipped|
      ensures Behind(s.skipped[i].mk, Now(t))
    {
      BehindLater(s.skipped[i].mk, Now(s), Now(t));
    }
    forall mk | mk in used
      ensures Behind(mk, Now(t))
    {
      BehindLater(mk, Now(s), Now(t));
    }
  }

  lemma {:induction false} TurnSpent(s: State, h: Header, newKey: PrivateKey, used: iset<Key>)
    requires Spent(s, used)
    ensures Spent(Turn(s, h, newKey).0, used)
  {
    if s.dhr != Some(h.dh) {
      SkipSpent(s, h.pn, used);
      var s1 := if s.ckr.Some? then Skip(s, h.pn).0 else s;
      DhRatchetSpent(s1, h.dh, newKey, used);
    }
  }

  /** Taking the next key of the chain. */
  lemma {:induction false} TakenSpent(u: State, used: iset<Key>)
    requires Spent(u, used) && u.ckr.Some?
    ensures var mk := MessageKey(u.ckr.value);
            mk !in used && Spent(u.(ckr := Some(NextChainKey(u.ckr.value)), nr := u.nr + 1), used + iset{mk})
  {
    var mk, t := MessageKey(u.ckr.value), u.(ckr := Some(NextChainKey(u.ckr.value)), nr := u.nr + 1);
    EarlierOn(u.ckr.value);
    forall i | 0 <= i < |u.skipped|
      ensures Behind(u.skipped[i].mk, Now(t)) && u.skipped[i].mk != mk
    {
      BehindLater(u.skipped[i].mk, Now(u), Now(t));
    }
    forall k | k in used
      ensures Behind(k, Now(t))
    {
      BehindLater(k, Now(u), Now(t));
    }
  }

  lemma {:induction false} RemoveSpent(s: State, i: nat, used: iset<Key>)
    requires Spent(s, used) && i < |s.skipped|
    ensures var mk := s.skipped[i].mk;
            mk !in used && Spent(s.(skipped := RemoveAt(s.skipped, i)), used + iset{mk})
  {
    var mk, cache := s.skipped[i].mk, RemoveAt(s.skipped, i);
    assert Cached(s.skipped, mk);
    forall j | 0 <= j < |cache|
      ensures cache[j] == s.skipped[if j < i then j else j + 1] && cache[j].mk != mk
    {
    }
    forall k | Cached(cache, k)
      ensures Cached(s.skipped, k) && k != mk
    {
      var j :| 0 <= j < |cache| && cache[j].mk == k;
      assert s.skipped[if j < i then j else j + 1].mk == k;
    }
  }

  /** Whatever message gets as far as the MAC check, its key was not used before and is used now. */
  lemma {:induction false} ReceiveSpent(s: State, m: SignalMessage, sender: PublicKey, receiver: PublicKey, newKey: PrivateKey,
                                        used: iset<Key>)
    requires Spent(s, used) && TriedKey(s, m.header, newKey).Some?
    ensures var mk := TriedKey(s, m.header, newKey).value;
            mk !in used && Spent(Receive(s, m, sender, receiver, newKey).0, used + iset{mk})
  {
    var i := IndexOfKey(s.skipped, m.header.dh, m.header.n);
    if i < |s.skipped| {
      RemoveSpent(s, i, used);
    } else {
      var t := Turn(s, m.header, newKey).0;
      TurnSpent(s, m.header, newKey, used);
      SkipSpent(t, m.header.n, used);
      TakenSpent(Skip(t, m.header.n).0, used);
    }
  }

  // ---- The secret a session was built from ----

  /** Every receiving key of the session descends from `b`. */
  ghost predicate Homed(s: State, b: Key) {
    && Base(s.rk) == b && (s.ckr.Some? ==> Base(s.ckr.value) == b)
    && forall i | 0 <= i < |s.skipped| :: Base(s.skipped[i].mk) == b
  }

  lemma {:induction false} SkipToHomed(s: State, until: nat, b: Key)
    requires s.ckr.Some? && s.dhr.Some? && Homed(s, b)
    ensures Homed(SkipTo(s, until), b)
    decreases until - s.nr
  {
    if s.nr < until {
      SkipToHomed(SkipOne(s), until, b);
    }
  }

  lemma {:induction false} SkipHomed(s: State, until: nat, b: Key)
    requires Valid(s) && Homed(s, b)
    ensures Homed(Skip(s, until).0, b)
  {
    if s.ckr.Some? {
      SkipToHomed(s, until, b);
    }
  }

  lemma {:induction false} TurnHomed(s: State, h: Header, newKey: PrivateKey, b: Key)
    requires Valid(s) && Homed(s, b)
    ensures Homed(Turn(s, h, newKey).0, b)
  {
    SkipHomed(s, h.pn, b);
  }

  /** Receiving keeps the session's secret, and tries keys that descend from it. */
  lemma {:induction false} ReceiveHomed(s: State, m: SignalMessage, sender: PublicKey, receiver: PublicKey, newKey: PrivateKey, b: Key)
    requires Valid(s) && Homed(s, b) && TriedKey(s, m.header, newKey).Some?
    ensures Homed(Receive(s, m, sender, receiver, newKey).0, b) && Base(TriedKey(s, m.header, newKey).value) == b
  {
    var i := IndexOfKey(s.skipped, m.header.dh, m.header.n);
    if i < |s.skipped| {
      var cache := RemoveAt(s.skipped, i);
      assert forall j | 0 <= j < |cache| :: cache[j] == s.skipped[if j < i then j else j + 1];
    } else {
      var t := Turn(s, m.header, newKey).0;
      TurnHomed(s, m.header, newKey, b);
      SkipHomed(t, m.header.n, b);
    }
  }

  /** A session in good order: no spent key can come up again, and all its keys are of one secret. */
  ghost predicate Good(s: State) {
    Sound(s) && Homed(s, Base(s.rk))
  }

  lemma {:induction false} NewGood(secret: Key, peer: PublicKey, key: PrivateKey)
    ensures Good(InitAlice(secret, peer, key)) && Base(InitAlice(secret, peer, key).rk) == Base(secret)
    ensures Good(InitBob(secret, key)) && Base(InitBob(secret, key).rk) == Base(secret)
  {
    NewSound(secret, peer, key);
  }

  /** A step of a good session: it stays good and of the same secret, and a message that opens does so
      with a key of that secret that was not used before. */
  lemma {:induction false} StepGood(s: State, op: Operation, used: iset<Key>)
    requires Good(s) && Spent(s, used)
    ensures Good(After(s, op)) && Base(After(s, op).rk) == Base(s.rk)
    ensures if !Opens(s, op) then Spent(After(s, op), used)
            else var mk := op.message.ciphertext.mk;
                 && mk !in used && op.message.mac.key == MacKey(mk) && Base(mk) == Base(s.rk)
                 && Spent(After(s, op), used + iset{mk})
  {
    StepSpent(s, op, used);
    if Opens(s, op) {
      var m := op.message;
      OpenedIff(s, m.header, m.ciphertext, Verifier(m, op.sender, op.receiver), op.newKey);
      ReceiveHomed(s, m, op.sender, op.receiver, op.newKey, Base(s.rk));
    }
  }

  // ---- Histories of one session ----

  datatype Operation =
    | Encrypting(plaintext: Plaintext)
    | Arriving(message: SignalMessage, sender: PublicKey, receiver: PublicKey, newKey: PrivateKey)

  ghost predicate Opens(s: State, op: Operation) {
    op.Arriving? && Valid(s) && Receive(s, op.message, op.sender, op.receiver, op.newKey).1.Opened?
  }

  /** The state is replaced only if the message opened. */
  ghost function After(s: State, op: Operation): State {
    match op
    case Encrypting(plaintext) => Encrypt(s, plaintext).0
    case Arriving(m, sender, receiver, newKey) => if Opens(s, op) then Receive(s, m, sender, receiver, newKey).0 else s
  }

  ghost predicate IsHistory(states: seq<State>, ops: seq<Operation>) {
    && |states| == |ops| + 1 && Sound(states[0])
    && forall i | 0 <= i < |ops| :: StepAt(states, ops, i)
  }

  ghost predicate StepAt(states: seq<State>, ops: seq<Operation>, i: nat)
    requires i < |ops| && |states| == |ops| + 1
  {
    states[i + 1] == After(states[i], ops[i])
  }

  /** New sessions of either side are sound. */
  lemma {:induction false} NewSound(secret: Key, peer: PublicKey, key: PrivateKey)
    ensures Sound(InitAlice(secret, peer, key)) && Sound(InitBob(secret, key))
  {
  }

  lemma {:induction false} StepSpent(s: State, op: Operation, used: iset<Key>)
    requires Spent(s, used)
    ensures if !Opens(s, op) then Spent(After(s, op), used)
            else var mk := op.message.ciphertext.mk;
                 mk !in used && op.message.mac.key == MacKey(mk) && Spent(After(s, op), used + iset{mk})
  {
    if Opens(s, op) {
      var m := op.message;
      OpenedIff(s, m.header, m.ciphertext, Verifier(m, op.sender, op.receiver), op.newKey);
      ReceiveSpent(s, m, op.sender, op.receiver, op.newKey, used);
    }
  }

  /** The keys that opened a message before step `i`. */
  ghost function UsedBefore(states: seq<State>, ops: seq<Operation>, i: nat): iset<Key>
    requires i <= |ops| && |states| == |ops| + 1
  {
    if i == 0 then iset{}
    else
      UsedBefore(states, ops, i - 1)
      + if Opens(states[i - 1], ops[i - 1]) then iset{ops[i - 1].message.ciphertext.mk} else iset{}
  }

  lemma {:induction false} HistorySpent(states: seq<State>, ops: seq<Operation>, i: nat)
    requires IsHistory(states, ops) && i < |states|
    ensures Spent(states[i], UsedBefore(states, ops, i))
  {
    if i > 0 {
      HistorySpent(states, ops, i - 1);
      assert StepAt(states, ops, i - 1);
      StepSpent(states[i - 1], ops[i - 1], UsedBefore(states, ops, i - 1));
      assert UsedBefore(states, ops, i - 1) + iset{} == UsedBefore(states, ops, i - 1);
    }
  }

  lemma {:induction false} UsedStays(states: seq<State>, ops: seq<Operation>, i: nat, j: nat)
    requires |states| == |ops| + 1 && i < j <= |ops| && Opens(states[i], ops[i])
    ensures ops[i].message.ciphertext.mk in UsedBefore(states, ops, j)
    decreases j
  {
    if i < j - 1 {
      UsedStays(states, ops, i, j - 1);
    }
  }

  /** In any history of a session, with any messages from anyone in any order, no two messages open
      with the same key; in particular none opens twice. */
  lemma {:induction false} OpensOnce(states: seq<State>, ops: seq<Operation>, i: nat, j: nat)
    requires IsHistory(states, ops) && i < j < |ops| && Opens(states[i], ops[i]) && Opens(states[j], ops[j])
    ensures ops[i].message.mac.key != ops[j].message.mac.key && ops[i].message != ops[j].message
  {
    HistorySpent(states, ops, i);
    HistorySpent(states, ops, j);
    UsedStays(states, ops, i, j);
    StepSpent(states[i], ops[i], UsedBefore(states, ops, i));
    StepSpent(states[j], ops[j], UsedBefore(states, ops, j));
  }
}
