/** Any sequence of inbound messages at the receiver of src/pywhats/messaging/receiver.py, with uploads of
    one-time prekeys and sends, drops, moves and new sessions of the sender in between. */
module ReceiverRuns {
  import opened Outcomes
  import opened SymbolicCrypto
  import opened Ratchet
  import opened Messages
  import opened Addressing
  import opened Receiver
  import opened PreKeyPool
  import opened SessionOnce
  import X3dh

  datatype Arrival = Arrival(lids: LidMap, sender: Jid, enc: Enc, newKey: PrivateKey)

  datatype Step =
    | Arrives(a: Arrival)
    | Sends(sid: string, plaintext: Plaintext)
    | Drops(gone: set<string>)
    | Moves(from: string, to: string)
    | Starts(gone: set<string>, sid: string, session: State, identity: Option<PublicKey>)  // after dropping `gone`
    | Refills(keys: seq<PrivateKey>)

  function Handle(st: Stores, me: Identity, a: Arrival): (Stores, Option<Plaintext>)
    requires ValidStores(st)
  {
    DecryptEnc(st, me, a.lids, a.sender, a.enc, a.newKey)
  }

  function Without(st: Stores, gone: set<string>): Stores {
    st.(sessions := st.sessions - gone, identities := st.identities - gone)
  }

  ghost function Apply(st: Stores, me: Identity, step: Step): Stores
    requires ValidStores(st)
  {
    match step
    case Arrives(a) => Handle(st, me, a).0
    case Sends(sid, plaintext) =>
      if sid in st.sessions then st.(sessions := st.sessions[sid := Encrypt(st.sessions[sid], plaintext).0]) else st
    case Drops(gone) => Without(st, gone)
    case Moves(from, to) =>
      var (sessions, identities, _) := Migrate(st.sessions, st.identities, from, to);
      st.(sessions := sessions, identities := identities)
    case Starts(gone, sid, session, identity) =>
      var st1 := Without(st, gone);
      st1.(sessions := st1.sessions[sid := session],
           identities := if identity.Some? then st1.identities[sid := identity.value] else st1.identities)
    case Refills(keys) => st.(oneTimePreKeys := Refilled(st.oneTimePreKeys, keys))
  }

  /** The stores before each step, and after the last. */
  ghost predicate IsInbox(me: Identity, states: seq<Stores>, steps: seq<Step>) {
    && |states| == |steps| + 1 && GoodStores(states[0])
    && forall i | 0 <= i < |steps| :: StepIs(me, states, steps, i)
  }

  ghost predicate StepIs(me: Identity, states: seq<Stores>, steps: seq<Step>, i: nat)
    requires i < |steps| && |states| == |steps| + 1
  {
    StepOk(steps[i]) && (ValidStores(states[i]) ==> states[i + 1] == Apply(states[i], me, steps[i]))
  }

  /** The sender stores sessions in good order, as new ones are. */
  ghost predicate StepOk(step: Step) {
    step.Starts? ==> Good(step.session)
  }

  ghost predicate GoodStores(st: Stores) {
    forall sid | sid in st.sessions :: Good(st.sessions[sid])
  }

  predicate NewStores(st: Stores) {
    st.sessions == map[]
  }

  // ---- What a step opens and builds ----

  /** The message key with which an arriving message opened. */
  ghost function OpenedKey(st: Stores, me: Identity, step: Step): Option<Key>
    requires ValidStores(st)
  {
    if step.Arrives? && !step.a.enc.Undecodable? && Handle(st, me, step.a).1.Some?
    then Some(step.a.enc.message.ciphertext.mk) else None
  }

  /** The secret a responder derives for a prekey message. */
  function SecretOf(st: Stores, me: Identity, enc: Enc): Key
    requires enc.Pkmsg?
  {
    var id := enc.oneTimePreKeyId;
    var opk := if id.Some? && id.value in st.oneTimePreKeys then Some(st.oneTimePreKeys[id.value]) else None;
    X3dh.Responder(me.private, me.signedPreKey, opk, enc.identityKey, enc.baseKey)
  }

  /** A session of secret `b` is put into the store: by a prekey message that opens, or by the sender. */
  ghost predicate Builds(st: Stores, me: Identity, step: Step, b: Key)
    requires ValidStores(st)
  {
    match step
    case Arrives(a) => a.enc.Pkmsg? && Handle(st, me, a).1.Some? && SecretOf(st, me, a.enc) == b
    case Starts(_, _, session, _) => Base(session.rk) == b
    case _ => false
  }

  predicate HasBase(st: Stores, sid: string, b: Key) {
    sid in st.sessions && Base(st.sessions[sid].rk) == b
  }

  ghost predicate NoSession(st: Stores, b: Key) {
    forall sid :: !HasBase(st, sid, b)
  }

  ghost predicate AtMostOne(st: Stores, b: Key) {
    forall x, y | HasBase(st, x, b) && HasBase(st, y, b) :: x == y
  }

  /** One session of secret `b` at most, and none of the keys used can come up in it. */
  ghost predicate OnBase(st: Stores, b: Key, used: iset<Key>) {
    AtMostOne(st, b) && forall sid | HasBase(st, sid, b) :: Spent(st.sessions[sid], used)
  }

  // ---- Moving and dropping sessions ----

  /** Every session of `st'` is one of `st`, at another place perhaps. */
  ghost predicate Rearranged(st: Stores, st': Stores) {
    && (forall y | y in st'.sessions :: exists x | x in st.sessions :: st'.sessions[y] == st.sessions[x])
    && forall b | AtMostOne(st, b) :: AtMostOne(st', b)
  }

  lemma {:induction false} MigrateRearranges(st: Stores, from: string, to: string, st': Stores)
    requires st'.sessions == Migrate(st.sessions, st.identities, from, to).0
    ensures Rearranged(st, st')
  {
    if from in st.sessions && to !in st.sessions {
      forall y | y in st'.sessions
        ensures exists x | x in st.sessions :: st'.sessions[y] == st.sessions[x]
      {
        var x := if y == to then from else y;
        assert x in st.sessions && st'.sessions[y] == st.sessions[x];
      }
      forall b | AtMostOne(st, b)
        ensures AtMostOne(st', b)
      {
        MovedAtMostOne(st, from, to, st', b);
      }
    } else {
      assert st'.sessions == st.sessions;
      SameRearranges(st, st');
    }
  }

  lemma {:induction false} MovedAtMostOne(st: Stores, from: string, to: string, st': Stores, b: Key)
    requires from in st.sessions && to !in st.sessions && AtMostOne(st, b)
    requires st'.sessions == st.sessions[to := st.sessions[from]] - {from}
    ensures AtMostOne(st', b)
  {
    forall x, y | HasBase(st', x, b) && HasBase(st', y, b)
      ensures x == y
    {
      assert HasBase(st, if x == to then from else x, b) && HasBase(st, if y == to then from else y, b);
    }
  }

  lemma {:induction false} SameRearranges(st: Stores, st': Stores)
    requires forall y | y in st'.sessions :: y in st.sessions && st'.sessions[y] == st.sessions[y]
    ensures Rearranged(st, st')
  {
    forall b | AtMostOne(st, b)
      ensures AtMostOne(st', b)
    {
      forall x, y | HasBase(st', x, b) && HasBase(st', y, b)
        ensures x == y
      {
        assert HasBase(st, x, b) && HasBase(st, y, b);
      }
    }
  }

  lemma {:induction false} RearrangedOnBase(st: Stores, st': Stores, b: Key, used: iset<Key>)
    requires GoodStores(st) && Rearranged(st, st') && OnBase(st, b, used)
    ensures GoodStores(st') && OnBase(st', b, used) && (NoSession(st, b) ==> NoSession(st', b))
  {
    forall y | y in st'.sessions
      ensures Good(st'.sessions[y]) && (HasBase(st', y, b) ==> Spent(st'.sessions[y], used) && !NoSession(st, b))
    {
      var x :| x in st.sessions && st'.sessions[y] == st.sessions[x];
      assert HasBase(st', y, b) ==> HasBase(st, x, b);
    }
  }

  lemma {:induction false} MigrateKnownRearranges(st: Stores, lids: LidMap, sender: Jid)
    ensures Rearranged(st, MigrateKnown(st, lids, sender))
  {
    var st' := MigrateKnown(st, lids, sender);
    if sender.server != "lid" || SessionId(sender) in st.sessions || sender.user !in lids.lidToPn {
      SameRearranges(st, st');
    } else {
      var pn := Jid(lids.lidToPn[sender.user], "s.whatsapp.net", sender.device);
      MigrateRearranges(st, SessionId(pn), SessionId(sender), st');
    }
  }

  // ---- One step and one secret ----

  /** A session is put at `sid`. */
  lemma {:induction false} PutOther(st: Stores, st': Stores, sid: string, s: State, b: Key, used: iset<Key>)
    requires GoodStores(st) && OnBase(st, b, used) && st'.sessions == st.sessions[sid := s] && Good(s) && Base(s.rk) != b
    ensures GoodStores(st') && OnBase(st', b, used) && (NoSession(st, b) ==> NoSession(st', b))
  {
    forall x | HasBase(st', x, b)
      ensures HasBase(st, x, b) && st'.sessions[x] == st.sessions[x]
    {
    }
  }

  lemma {:induction false} PutSame(st: Stores, st': Stores, sid: string, s: State, b: Key, used: iset<Key>)
    requires GoodStores(st) && st'.sessions == st.sessions[sid := s] && Good(s) && Base(s.rk) == b && Spent(s, used)
    requires forall x | HasBase(st, x, b) :: x == sid
    ensures GoodStores(st') && OnBase(st', b, used)
  {
    forall x | HasBase(st', x, b)
      ensures x == sid
    {
      assert x != sid ==> HasBase(st, x, b);
    }
  }

  lemma {:induction false} FromMsgIsStep(st: Stores, me: Identity, sid: string, m: SignalMessage, newKey: PrivateKey)
    requires sid in st.sessions && Valid(st.sessions[sid]) && sid in st.identities
    ensures var op := Arriving(m, st.identities[sid], Pub(me.private), newKey);
            && FromMsg(st, me, sid, m, newKey).1.Some? == Opens(st.sessions[sid], op)
            && FromMsg(st, me, sid, m, newKey).0 == st.(sessions := st.sessions[sid := After(st.sessions[sid], op)])
  {
    var op := Arriving(m, st.identities[sid], Pub(me.private), newKey);
    if !Opens(st.sessions[sid], op) {
      assert st.sessions[sid := st.sessions[sid]] == st.sessions;
    }
  }

  /** What holds of the stores after a step that opened `key`, or nothing. */
  ghost predicate Settles(st': Stores, b: Key, used: iset<Key>, key: Option<Key>) {
    && GoodStores(st')
    && if key.Some? && Base(key.value) == b then key.value !in used && OnBase(st', b, used + iset{key.value})
       else OnBase(st', b, used)
  }

  lemma {:induction false} MsgSettles(st: Stores, me: Identity, sid: string, m: SignalMessage, newKey: PrivateKey, b: Key, used: iset<Key>)
    requires ValidStores(st) && GoodStores(st) && OnBase(st, b, used)
    ensures var (st', r) := FromMsg(st, me, sid, m, newKey);
            Settles(st', b, used, if r.Some? then Some(m.ciphertext.mk) else None) && (NoSession(st, b) ==> NoSession(st', b))
    ensures FromMsg(st, me, sid, m, newKey).1.Some? && Base(m.ciphertext.mk) == b ==> !NoSession(st, b)
  {
    if sid in st.sessions && sid in st.identities {
      FromMsgIsStep(st, me, sid, m, newKey);
      var s, op := st.sessions[sid], Arriving(m, st.identities[sid], Pub(me.private), newKey);
      var st', s' := FromMsg(st, me, sid, m, newKey).0, After(s, op);
      if Base(s.rk) == b {
        assert HasBase(st, sid, b);
        StepGood(s, op, used);
        PutSame(st, st', sid, s', b, if Opens(s, op) then used + iset{m.ciphertext.mk} else used);
      } else {
        StepGood(s, op, iset{});
        PutOther(st, st', sid, s', b, used);
      }
    }
  }

  /** What a prekey message that opens puts into the store. */
  function Responding(st: Stores, me: Identity, enc: Enc): State
    requires enc.Pkmsg?
  {
    InitBob(SecretOf(st, me, enc), me.signedPreKey)
  }

  lemma {:induction false} PkmsgIs(st: Stores, me: Identity, sid: string, enc: Enc, newKey: PrivateKey)
    requires enc.Pkmsg? && FromPkmsg(st, me, sid, enc, newKey).1.Some?
    ensures var op := Arriving(enc.message, enc.identityKey, Pub(me.private), newKey);
            var s := Responding(st, me, enc);
            && Opens(s, op) && FromPkmsg(st, me, sid, enc, newKey).0.sessions == st.sessions[sid := After(s, op)]
  {
  }

  /** A prekey message that opens puts a session of its secret into the store, and opens with a key of it. */
  lemma {:induction false} PkmsgBuilds(st: Stores, me: Identity, sid: string, enc: Enc, newKey: PrivateKey)
    requires enc.Pkmsg? && FromPkmsg(st, me, sid, enc, newKey).1.Some?
    ensures var st', mk, secret := FromPkmsg(st, me, sid, enc, newKey).0, enc.message.ciphertext.mk, SecretOf(st, me, enc);
            && sid in st'.sessions && st'.sessions == st.sessions[sid := st'.sessions[sid]]
            && Good(st'.sessions[sid]) && Base(st'.sessions[sid].rk) == secret
            && Base(mk) == secret && Spent(st'.sessions[sid], iset{mk})
  {
    var s, op := Responding(st, me, enc), Arriving(enc.message, enc.identityKey, Pub(me.private), newKey);
    PkmsgIs(st, me, sid, enc, newKey);
    NewGood(SecretOf(st, me, enc), enc.baseKey, me.signedPreKey);
    StepGood(s, op, iset{});
    assert iset{} + iset{enc.message.ciphertext.mk} == iset{enc.message.ciphertext.mk};
  }

  lemma {:induction false} PkmsgSettles(st: Stores, me: Identity, sid: string, enc: Enc, newKey: PrivateKey, b: Key, used: iset<Key>)
    requires GoodStores(st) && OnBase(st, b, used) && enc.Pkmsg?
    requires FromPkmsg(st, me, sid, enc, newKey).1.Some? && SecretOf(st, me, enc) == b ==> NoSession(st, b) && used == iset{}
    ensures var (st', r) := FromPkmsg(st, me, sid, enc, newKey);
            && Settles(st', b, used, if r.Some? then Some(enc.message.ciphertext.mk) else None)
            && (NoSession(st, b) && !(r.Some? && SecretOf(st, me, enc) == b) ==> NoSession(st', b))
            && (r.Some? ==> Base(enc.message.ciphertext.mk) == SecretOf(st, me, enc))
  {
    if FromPkmsg(st, me, sid, enc, newKey).1.Some? {
      var st', mk := FromPkmsg(st, me, sid, enc, newKey).0, enc.message.ciphertext.mk;
      PkmsgBuilds(st, me, sid, enc, newKey);
      if SecretOf(st, me, enc) == b {
        PutSame(st, st', sid, st'.sessions[sid], b, iset{mk});
        assert iset{mk} == used + iset{mk};
      } else {
        PutOther(st, st', sid, st'.sessions[sid], b, used);
      }
    }
  }

  /** What an arrival does to secret `b`; `none` says that there was no session of it. */
  ghost predicate ArrivalSettled(st: Stores, me: Identity, a: Arrival, b: Key, used: iset<Key>, none: bool)
    requires ValidStores(st)
  {
    var st', key := Handle(st, me, a).0, OpenedKey(st, me, Arrives(a));
    && Settles(st', b, used, key)
    && (none && !Builds(st, me, Arrives(a), b) ==> NoSession(st', b) && !(key.Some? && Base(key.value) == b))
  }

  lemma {:induction false} ArrivalSettles(st: Stores, me: Identity, a: Arrival, b: Key, used: iset<Key>)
    requires ValidStores(st) && GoodStores(st) && OnBase(st, b, used)
    requires Builds(st, me, Arrives(a), b) ==> NoSession(st, b) && used == iset{}
    ensures ArrivalSettled(st, me, a, b, used, NoSession(st, b))
  {
    var st1, none := MigrateKnown(st, a.lids, a.sender), NoSession(st, b);
    MigrateKnownRearranges(st, a.lids, a.sender);
    RearrangedOnBase(st, st1, b, used);
    match a.enc
    case Pkmsg(_, _, _, _, _) => PkmsgArrives(st, st1, me, a, b, used, none);
    case Msg(_) => MsgArrives(st, st1, me, a, b, used, none);
    case Undecodable => UndecodableArrives(st, st1, me, a, b, used, none);
  }

  lemma {:induction false} UndecodableArrives(st: Stores, st1: Stores, me: Identity, a: Arrival, b: Key, used: iset<Key>, none: bool)
    requires ValidStores(st) && a.enc.Undecodable? && st1 == MigrateKnown(st, a.lids, a.sender)
    requires GoodStores(st1) && OnBase(st1, b, used) && (none ==> NoSession(st1, b))
    ensures ArrivalSettled(st, me, a, b, used, none)
  {
    assert Handle(st, me, a) == (st1, None);
  }

  lemma {:induction false} MsgArrives(st: Stores, st1: Stores, me: Identity, a: Arrival, b: Key, used: iset<Key>, none: bool)
    requires ValidStores(st) && a.enc.Msg? && st1 == MigrateKnown(st, a.lids, a.sender)
    requires GoodStores(st1) && OnBase(st1, b, used) && (none ==> NoSession(st1, b))
    ensures ArrivalSettled(st, me, a, b, used, none)
  {
    GoodValid(st1);
    assert Handle(st, me, a) == FromMsg(st1, me, SessionId(a.sender), a.enc.message, a.newKey);
    MsgSettles(st1, me, SessionId(a.sender), a.enc.message, a.newKey, b, used);
  }

  lemma {:induction false} PkmsgArrives(st: Stores, st1: Stores, me: Identity, a: Arrival, b: Key, used: iset<Key>, none: bool)
    requires ValidStores(st) && a.enc.Pkmsg? && st1 == MigrateKnown(st, a.lids, a.sender)
    requires GoodStores(st1) && OnBase(st1, b, used) && (none ==> NoSession(st1, b))
    requires Builds(st, me, Arrives(a), b) ==> none && used == iset{}
    ensures ArrivalSettled(st, me, a, b, used, none)
  {
    assert SecretOf(st1, me, a.enc) == SecretOf(st, me, a.enc);
    assert Handle(st, me, a) == FromPkmsg(st1, me, SessionId(a.sender), a.enc, a.newKey);
    PkmsgSettles(st1, me, SessionId(a.sender), a.enc, a.newKey, b, used);
  }

  lemma {:induction false} SendSettles(st: Stores, me: Identity, sid: string, plaintext: Plaintext, b: Key, used: iset<Key>)
    requires ValidStores(st) && GoodStores(st) && OnBase(st, b, used)
    ensures var st' := Apply(st, me, Sends(sid, plaintext));
            GoodStores(st') && OnBase(st', b, used) && (NoSession(st, b) ==> NoSession(st', b))
  {
    if sid in st.sessions {
      var s, st' := st.sessions[sid], Apply(st, me, Sends(sid, plaintext));
      if Base(s.rk) == b {
        assert HasBase(st, sid, b);
        StepGood(s, Encrypting(plaintext), used);
        PutSame(st, st', sid, After(s, Encrypting(plaintext)), b, used);
      } else {
        StepGood(s, Encrypting(plaintext), iset{});
        PutOther(st, st', sid, After(s, Encrypting(plaintext)), b, used);
      }
    }
  }

  lemma {:induction false} WithoutSettles(st: Stores, gone: set<string>, b: Key, used: iset<Key>)
    requires GoodStores(st) && OnBase(st, b, used)
    ensures GoodStores(Without(st, gone)) && OnBase(Without(st, gone), b, used)
    ensures NoSession(st, b) ==> NoSession(Without(st, gone), b)
  {
    SameRearranges(st, Without(st, gone));
    RearrangedOnBase(st, Without(st, gone), b, used);
  }

  lemma {:induction false} SameSettles(st: Stores, st': Stores, b: Key, used: iset<Key>)
    requires GoodStores(st) && OnBase(st, b, used) && st'.sessions == st.sessions
    ensures GoodStores(st') && OnBase(st', b, used) && (NoSession(st, b) ==> NoSession(st', b))
  {
    SameRearranges(st, st');
    RearrangedOnBase(st, st', b, used);
  }

  lemma {:induction false} StartSettles(st: Stores, me: Identity, step: Step, b: Key, used: iset<Key>)
    requires ValidStores(st) && GoodStores(st) && OnBase(st, b, used) && step.Starts? && StepOk(step)
    requires Base(step.session.rk) == b ==> NoSession(st, b) && used == iset{}
    ensures var st' := Apply(st, me, step);
            GoodStores(st') && OnBase(st', b, used) && (NoSession(st, b) && Base(step.session.rk) != b ==> NoSession(st', b))
  {
    var st1, st' := Without(st, step.gone), Apply(st, me, step);
    WithoutSettles(st, step.gone, b, used);
    if Base(step.session.rk) == b {
      PutSame(st1, st', step.sid, step.session, b, used);
    } else {
      PutOther(st1, st', step.sid, step.session, b, used);
    }
  }

  /** Any step: a key of secret `b` that opens was not used before and is used now, unless the step
      builds a session of that secret once more. */
  lemma {:induction false} StepSettles(st: Stores, me: Identity, step: Step, b: Key, used: iset<Key>)
    requires ValidStores(st) && GoodStores(st) && OnBase(st, b, used) && StepOk(step)
    requires Builds(st, me, step, b) ==> NoSession(st, b) && used == iset{}
    ensures var st', key := Apply(st, me, step), OpenedKey(st, me, step);
            && Settles(st', b, used, key)
            && (NoSession(st, b) && !Builds(st, me, step, b) ==> NoSession(st', b) && !(key.Some? && Base(key.value) == b))
  {
    match step
    case Arrives(a) => ArrivalSettles(st, me, a, b, used);
    case Sends(sid, plaintext) => SendSettles(st, me, sid, plaintext, b, used);
    case Drops(gone) => WithoutSettles(st, gone, b, used);
    case Moves(from, to) =>
      MigrateRearranges(st, from, to, Apply(st, me, step));
      RearrangedOnBase(st, Apply(st, me, step), b, used);
    case Starts(_, _, _, _) => StartSettles(st, me, step, b, used);
    case Refills(_) => SameSettles(st, Apply(st, me, step), b, used);
  }

  // ---- Whole runs ----

  lemma {:induction false} GoodValid(st: Stores)
    requires GoodStores(st)
    ensures ValidStores(st)
  {
  }

  lemma {:induction false} MigrateKnownGood(st: Stores, lids: LidMap, sender: Jid)
    requires GoodStores(st)
    ensures GoodStores(MigrateKnown(st, lids, sender)) && ValidStores(MigrateKnown(st, lids, sender))
  {
    GoodValid(MigrateKnown(st, lids, sender));
  }

  lemma {:induction false} PutGood(st: Stores, st': Stores, sid: string, s: State)
    requires GoodStores(st) && st'.sessions == st.sessions[sid := s] && Good(s)
    ensures GoodStores(st')
  {
  }

  lemma {:induction false} HandleGood(st: Stores, me: Identity, a: Arrival)
    requires ValidStores(st) && GoodStores(st)
    ensures GoodStores(Handle(st, me, a).0)
  {
    var st1, sid := MigrateKnown(st, a.lids, a.sender), SessionId(a.sender);
    MigrateKnownGood(st, a.lids, a.sender);
    if a.enc.Pkmsg? && FromPkmsg(st1, me, sid, a.enc, a.newKey).1.Some? {
      PkmsgBuilds(st1, me, sid, a.enc, a.newKey);
      PutGood(st1, Handle(st, me, a).0, sid, Handle(st, me, a).0.sessions[sid]);
    } else if a.enc.Msg? && sid in st1.sessions && sid in st1.identities {
      var s, op := st1.sessions[sid], Arriving(a.enc.message, st1.identities[sid], Pub(me.private), a.newKey);
      FromMsgIsStep(st1, me, sid, a.enc.message, a.newKey);
      StepGood(s, op, iset{});
      PutGood(st1, Handle(st, me, a).0, sid, After(s, op));
    }
  }

  /** Every step keeps every stored session in good order. */
  lemma {:induction false} StepKeepsGood(st: Stores, me: Identity, step: Step)
    requires ValidStores(st) && GoodStores(st) && StepOk(step)
    ensures GoodStores(Apply(st, me, step))
  {
    match step
    case Arrives(a) => HandleGood(st, me, a);
    case Sends(sid, plaintext) =>
      if sid in st.sessions {
        StepGood(st.sessions[sid], Encrypting(plaintext), iset{});
      }
    case Drops(_) =>
    case Moves(_, _) =>
    case Starts(_, _, _, _) =>
    case Refills(_) =>
  }

  lemma {:induction false} InboxGood(me: Identity, states: seq<Stores>, steps: seq<Step>, i: nat)
    requires IsInbox(me, states, steps) && i < |states|
    ensures GoodStores(states[i]) && ValidStores(states[i])
  {
    if i > 0 {
      InboxGood(me, states, steps, i - 1);
      assert StepIs(me, states, steps, i - 1);
      StepKeepsGood(states[i - 1], me, steps[i - 1]);
    }
    GoodValid(states[i]);
  }

  ghost predicate BuildsAt(me: Identity, states: seq<Stores>, steps: seq<Step>, i: nat, b: Key)
    requires i < |steps| && |states| == |steps| + 1
  {
    ValidStores(states[i]) && Builds(states[i], me, steps[i], b)
  }

  /** A session of secret `b` was there from the start or was put into the store before step `i`. */
  ghost predicate BuiltBefore(me: Identity, states: seq<Stores>, steps: seq<Step>, i: nat, b: Key)
    requires i <= |steps| && |states| == |steps| + 1
  {
    !NoSession(states[0], b) || exists t | 0 <= t < i :: BuildsAt(me, states, steps, t, b)
  }

  /** Step `i` puts a session of secret `b` into the store not for the first time. */
  ghost predicate RebuildsAt(me: Identity, states: seq<Stores>, steps: seq<Step>, i: nat, b: Key)
    requires i < |steps| && |states| == |steps| + 1
  {
    BuildsAt(me, states, steps, i, b) && BuiltBefore(me, states, steps, i, b)
  }

  ghost function KeyAt(me: Identity, states: seq<Stores>, steps: seq<Step>, i: nat): Option<Key>
    requires i < |steps| && |states| == |steps| + 1
  {
    if ValidStores(states[i]) then OpenedKey(states[i], me, steps[i]) else None
  }

  /** The keys used on secret `b` once `key` has opened, if anything did. */
  ghost function UsedNext(used: iset<Key>, key: Option<Key>, b: Key): iset<Key> {
    if key.Some? && Base(key.value) == b then used + iset{key.value} else used
  }

  /** The keys of secret `b` that opened a message before step `i`. */
  ghost function UsedOn(me: Identity, states: seq<Stores>, steps: seq<Step>, i: nat, b: Key): iset<Key>
    requires i <= |steps| && |states| == |steps| + 1
  {
    if i == 0 then iset{}
    else UsedNext(UsedOn(me, states, steps, i - 1, b), KeyAt(me, states, steps, i - 1), b)
  }

  lemma {:induction false} BuiltNext(me: Identity, states: seq<Stores>, steps: seq<Step>, i: nat, b: Key)
    requires i < |steps| && |states| == |steps| + 1
    ensures BuiltBefore(me, states, steps, i + 1, b) <==> BuiltBefore(me, states, steps, i, b) || BuildsAt(me, states, steps, i, b)
  {
  }

  ghost predicate Clear(st: Stores, b: Key, used: iset<Key>) {
    NoSession(st, b) && used == iset{}
  }

  lemma {:induction false} StepOnBase(st: Stores, me: Identity, step: Step, st': Stores, b: Key, used: iset<Key>, built: bool)
    requires ValidStores(st) && GoodStores(st) && OnBase(st, b, used) && StepOk(step) && st' == Apply(st, me, step)
    requires !built ==> Clear(st, b, used)
    requires built ==> !Builds(st, me, step, b)
    ensures OnBase(st', b, UsedNext(used, OpenedKey(st, me, step), b))
    ensures !built && !Builds(st, me, step, b) ==> Clear(st', b, UsedNext(used, OpenedKey(st, me, step), b))
  {
    StepSettles(st, me, step, b, used);
  }

  ghost predicate NeverRebuilt(me: Identity, states: seq<Stores>, steps: seq<Step>, i: nat, b: Key)
    requires i <= |steps| && |states| == |steps| + 1
  {
    forall t | 0 <= t < i :: !RebuildsAt(me, states, steps, t, b)
  }

  lemma {:induction false} StillNotRebuilt(me: Identity, states: seq<Stores>, steps: seq<Step>, i: nat, j: nat, b: Key)
    requires i < j <= |steps| && |states| == |steps| + 1 && NeverRebuilt(me, states, steps, j, b)
    ensures NeverRebuilt(me, states, steps, i, b) && !RebuildsAt(me, states, steps, i, b)
  {
  }

  lemma {:induction false} RunStepOnBase(me: Identity, states: seq<Stores>, steps: seq<Step>, i: nat, b: Key)
    requires IsInbox(me, states, steps) && i < |steps| && !RebuildsAt(me, states, steps, i, b)
    requires OnBase(states[i], b, UsedOn(me, states, steps, i, b))
    requires !BuiltBefore(me, states, steps, i, b) ==> Clear(states[i], b, UsedOn(me, states, steps, i, b))
    ensures OnBase(states[i + 1], b, UsedOn(me, states, steps, i + 1, b))
    ensures !BuiltBefore(me, states, steps, i + 1, b) ==> Clear(states[i + 1], b, UsedOn(me, states, steps, i + 1, b))
  {
    InboxGood(me, states, steps, i);
    assert StepIs(me, states, steps, i);
    BuiltNext(me, states, steps, i, b);
    StepOnBase(states[i], me, steps[i], states[i + 1], b, UsedOn(me, states, steps, i, b), BuiltBefore(me, states, steps, i, b));
  }

  /** As long as no session of secret `b` is put into the store a second time, there is one at most, and
      no key that opened a message can come up in it. */
  lemma {:induction false} RunOnBase(me: Identity, states: seq<Stores>, steps: seq<Step>, i: nat, b: Key)
    requires IsInbox(me, states, steps) && i <= |steps| && AtMostOne(states[0], b)
    requires NeverRebuilt(me, states, steps, i, b)
    ensures OnBase(states[i], b, UsedOn(me, states, steps, i, b))
    ensures !BuiltBefore(me, states, steps, i, b) ==> Clear(states[i], b, UsedOn(me, states, steps, i, b))
  {
    if i == 0 {
      InboxGood(me, states, steps, 0);
    } else {
      StillNotRebuilt(me, states, steps, i - 1, i, b);
      RunOnBase(me, states, steps, i - 1, b);
      RunStepOnBase(me, states, steps, i - 1, b);
    }
  }

  lemma {:induction false} UsedStaysOn(me: Identity, states: seq<Stores>, steps: seq<Step>, i: nat, j: nat, b: Key)
    requires |states| == |steps| + 1 && i < j <= |steps| && KeyAt(me, states, steps, i).Some?
    requires Base(KeyAt(me, states, steps, i).value) == b
    ensures KeyAt(me, states, steps, i).value in UsedOn(me, states, steps, j, b)
    decreases j
  {
    if i < j - 1 {
      UsedStaysOn(me, states, steps, i, j - 1, b);
    }
  }

  /** If two messages open with the same key, at whatever addresses and with whatever in between, then a
      session of that key's secret was put into the store a second time. */
  lemma {:induction false} TwiceMeansRebuilt(me: Identity, states: seq<Stores>, steps: seq<Step>, i: nat, j: nat, key: Key)
    requires IsInbox(me, states, steps) && i < j < |steps| && AtMostOne(states[0], Base(key))
    requires KeyAt(me, states, steps, i) == Some(key) && KeyAt(me, states, steps, j) == Some(key)
    ensures exists t | 0 <= t <= j :: RebuildsAt(me, states, steps, t, Base(key))
  {
    if NeverRebuilt(me, states, steps, j + 1, Base(key)) {
      NotTwice(me, states, steps, i, j, key);
    }
  }

  lemma {:induction false} NotTwice(me: Identity, states: seq<Stores>, steps: seq<Step>, i: nat, j: nat, key: Key)
    requires IsInbox(me, states, steps) && i < j < |steps| && AtMostOne(states[0], Base(key))
    requires NeverRebuilt(me, states, steps, j + 1, Base(key)) && KeyAt(me, states, steps, i) == Some(key)
    ensures KeyAt(me, states, steps, j) != Some(key)
  {
    var b := Base(key);
    StillNotRebuilt(me, states, steps, j, j + 1, b);
    RunOnBase(me, states, steps, j, b);
    InboxGood(me, states, steps, j);
    UsedStaysOn(me, states, steps, i, j, b);
    assert StepIs(me, states, steps, j);
    StepSettles(states[j], me, steps[j], b, UsedOn(me, states, steps, j, b));
  }

  // ---- One session, wherever it is moved ----

  /** Where the session at `x` is after a step. */
  function Moved(st: Stores, step: Step, x: string): string {
    match step
    case Arrives(a) =>
      if a.sender.server == "lid" && SessionId(a.sender) !in st.sessions && a.sender.user in a.lids.lidToPn
         && x == SessionId(Jid(a.lids.lidToPn[a.sender.user], "s.whatsapp.net", a.sender.device)) && x in st.sessions
      then SessionId(a.sender) else x
    case Moves(from, to) => if x == from && from in st.sessions && to !in st.sessions then to else x
    case _ => x
  }

  /** None of the keys used can come up in the session at `x`, if it is of secret `b`. */
  ghost predicate SpentAt(st: Stores, x: string, b: Key, used: iset<Key>) {
    HasBase(st, x, b) ==> Spent(st.sessions[x], used)
  }

  lemma {:induction false} MsgSpent(st: Stores, me: Identity, sid: string, m: SignalMessage, newKey: PrivateKey, x: string, b: Key,
                                    used: iset<Key>)
    requires ValidStores(st) && GoodStores(st) && SpentAt(st, x, b, used)
    ensures var (st', r) := FromMsg(st, me, sid, m, newKey);
            && SpentAt(st', x, b, used)
            && (r.Some? && sid == x && Base(m.ciphertext.mk) == b ==> m.ciphertext.mk !in used)
            && (r.Some? && sid == x ==> SpentAt(st', x, b, iset{m.ciphertext.mk}))
  {
    if sid == x && sid in st.sessions && sid in st.identities {
      FromMsgIsStep(st, me, sid, m, newKey);
      var s, op := st.sessions[sid], Arriving(m, st.identities[sid], Pub(me.private), newKey);
      StepGood(s, op, iset{});
      assert Opens(s, op) ==> iset{} + iset{m.ciphertext.mk} == iset{m.ciphertext.mk};
      if Base(s.rk) == b {
        StepGood(s, op, used);
        FewerSpent(After(s, op), used + iset{m.ciphertext.mk}, used);
      }
    }
  }

  lemma {:induction false} FewerSpent(s: State, used: iset<Key>, fewer: iset<Key>)
    requires fewer <= used
    ensures Spent(s, used) ==> Spent(s, fewer)
  {
  }

  lemma {:induction false} PkmsgSpent(st: Stores, me: Identity, sid: string, enc: Enc, newKey: PrivateKey, x: string, b: Key, used: iset<Key>)
    requires GoodStores(st) && SpentAt(st, x, b, used) && enc.Pkmsg?
    requires FromPkmsg(st, me, sid, enc, newKey).1.Some? ==> SecretOf(st, me, enc) != b
    ensures var (st', r) := FromPkmsg(st, me, sid, enc, newKey);
            SpentAt(st', x, b, used) && (r.Some? ==> Base(enc.message.ciphertext.mk) != b)
  {
    if FromPkmsg(st, me, sid, enc, newKey).1.Some? {
      PkmsgBuilds(st, me, sid, enc, newKey);
    }
  }

  lemma {:induction false} MovedSession(st: Stores, a: Arrival, x: string)
    requires x in st.sessions
    ensures var st1, y := MigrateKnown(st, a.lids, a.sender), Moved(st, Arrives(a), x);
            y in st1.sessions && st1.sessions[y] == st.sessions[x]
  {
  }

  lemma {:induction false} ArrivalFollowed(st: Stores, me: Identity, a: Arrival, x: string, y: string, b: Key, used: iset<Key>)
    requires ValidStores(st) && GoodStores(st) && x in st.sessions && SpentAt(st, x, b, used)
    requires y == Moved(st, Arrives(a), x) && !Builds(st, me, Arrives(a), b)
    ensures var st', key := Handle(st, me, a).0, OpenedKey(st, me, Arrives(a));
            && SpentAt(st', y, b, used)
            && (key.Some? && Base(key.value) == b && SessionId(a.sender) == y ==> key.value !in used)
  {
    var st1, sid := MigrateKnown(st, a.lids, a.sender), SessionId(a.sender);
    MovedSession(st, a, x);
    MigrateKnownGood(st, a.lids, a.sender);
    if a.enc.Pkmsg? {
      assert SecretOf(st1, me, a.enc) == SecretOf(st, me, a.enc);
      assert Handle(st, me, a) == FromPkmsg(st1, me, sid, a.enc, a.newKey);
      PkmsgSpent(st1, me, sid, a.enc, a.newKey, y, b, used);
    } else if a.enc.Msg? {
      assert Handle(st, me, a) == FromMsg(st1, me, sid, a.enc.message, a.newKey);
      MsgSpent(st1, me, sid, a.enc.message, a.newKey, y, b, used);
    }
  }

  lemma {:induction false} StepFollowed(st: Stores, me: Identity, step: Step, x: string, y: string, b: Key, used: iset<Key>)
    requires ValidStores(st) && GoodStores(st) && x in st.sessions && SpentAt(st, x, b, used)
    requires y == Moved(st, step, x) && !Builds(st, me, step, b)
    ensures var st', key := Apply(st, me, step), OpenedKey(st, me, step);
            && SpentAt(st', y, b, used)
            && (key.Some? && Base(key.value) == b && SessionId(step.a.sender) == y ==> key.value !in used)
  {
    match step
    case Arrives(a) => ArrivalFollowed(st, me, a, x, y, b, used);
    case Sends(sid, plaintext) =>
      if sid == x && HasBase(st, x, b) {
        StepGood(st.sessions[sid], Encrypting(plaintext), used);
      }
    case Drops(_) =>
    case Moves(_, _) =>
    case Starts(_, _, _, _) =>
    case Refills(_) =>
  }

  /** A message opens in the session that is at `x` after the step. */
  ghost predicate OpensIn(me: Identity, states: seq<Stores>, steps: seq<Step>, i: nat, x: string, key: Key)
    requires i < |steps| && |states| == |steps| + 1
  {
    KeyAt(me, states, steps, i) == Some(key) && x == SessionId(steps[i].a.sender)
  }

  /** `at[t]` is where one session is before step `t`, through all its moves, for `from <= t <= to`. */
  ghost predicate Follows(states: seq<Stores>, steps: seq<Step>, at: seq<string>, from: nat, to: nat)
    requires to <= |steps| && |states| == |steps| + 1 == |at|
  {
    && (forall t | from <= t < to :: at[t] in states[t].sessions)
    && forall t | from <= t < to :: MovesOn(states, steps, at, t)
  }

  ghost predicate MovesOn(states: seq<Stores>, steps: seq<Step>, at: seq<string>, t: nat)
    requires t < |steps| && |states| == |steps| + 1 == |at|
  {
    at[t + 1] == Moved(states[t], steps[t], at[t])
  }

  /** The message that opened leaves its key spent. */
  lemma {:induction false} OpenedSpent(st: Stores, me: Identity, a: Arrival, key: Key)
    requires ValidStores(st) && GoodStores(st) && OpenedKey(st, me, Arrives(a)) == Some(key)
    ensures SpentAt(Handle(st, me, a).0, SessionId(a.sender), Base(key), iset{key})
  {
    var st1, sid := MigrateKnown(st, a.lids, a.sender), SessionId(a.sender);
    MigrateKnownGood(st, a.lids, a.sender);
    if a.enc.Pkmsg? {
      assert Handle(st, me, a) == FromPkmsg(st1, me, sid, a.enc, a.newKey);
      PkmsgBuilds(st1, me, sid, a.enc, a.newKey);
    } else {
      assert Handle(st, me, a) == FromMsg(st1, me, sid, a.enc.message, a.newKey);
      assert Spent(st1.sessions[sid], iset{});
      MsgSpent(st1, me, sid, a.enc.message, a.newKey, sid, Base(key), iset{});
    }
  }

  lemma {:induction false} OpenedAt(me: Identity, states: seq<Stores>, steps: seq<Step>, i: nat, x: string, key: Key)
    requires IsInbox(me, states, steps) && i < |steps| && OpensIn(me, states, steps, i, x, key)
    ensures SpentAt(states[i + 1], x, Base(key), iset{key})
  {
    InboxGood(me, states, steps, i);
    assert StepIs(me, states, steps, i);
    OpenedSpent(states[i], me, steps[i].a, key);
  }

  lemma {:induction false} FollowedAt(me: Identity, states: seq<Stores>, steps: seq<Step>, at: seq<string>, i: nat, key: Key)
    requires IsInbox(me, states, steps) && i < |steps| && |at| == |states| && SpentAt(states[i], at[i], Base(key), iset{key})
    requires at[i] in states[i].sessions && MovesOn(states, steps, at, i) && !BuildsAt(me, states, steps, i, Base(key))
    ensures SpentAt(states[i + 1], at[i + 1], Base(key), iset{key}) && !OpensIn(me, states, steps, i, at[i + 1], key)
  {
    InboxGood(me, states, steps, i);
    assert StepIs(me, states, steps, i);
    StepFollowed(states[i], me, steps[i], at[i], at[i + 1], Base(key), iset{key});
  }

  ghost predicate NeverBuilt(me: Identity, states: seq<Stores>, steps: seq<Step>, i: nat, j: nat, b: Key)
    requires j <= |steps| && |states| == |steps| + 1
  {
    forall t | i <= t < j :: !BuildsAt(me, states, steps, t, b)
  }

  lemma {:induction false} StillNotBuilt(me: Identity, states: seq<Stores>, steps: seq<Step>, i: nat, j: nat, b: Key)
    requires i < j <= |steps| && |states| == |steps| + 1 && NeverBuilt(me, states, steps, i, j, b)
    ensures NeverBuilt(me, states, steps, i, j - 1, b) && !BuildsAt(me, states, steps, j - 1, b)
  {
  }

  lemma {:induction false} StaysSpent(me: Identity, states: seq<Stores>, steps: seq<Step>, at: seq<string>, i: nat, j: nat, key: Key)
    requires IsInbox(me, states, steps) && |at| == |states| && i <= j <= |steps| && Follows(states, steps, at, i, j)
    requires SpentAt(states[i], at[i], Base(key), iset{key}) && NeverBuilt(me, states, steps, i, j, Base(key))
    ensures SpentAt(states[j], at[j], Base(key), iset{key})
    decreases j
  {
    if i < j {
      StillNotBuilt(me, states, steps, i, j, Base(key));
      StaysSpent(me, states, steps, at, i, j - 1, key);
      FollowedAt(me, states, steps, at, j - 1, key);
    }
  }

  /** If two messages open with one key in a session that is followed through all its moves, then in between
      a session of the same secret was built. */
  lemma {:induction false} MsgOpensOnce(me: Identity, states: seq<Stores>, steps: seq<Step>, at: seq<string>, i: nat, j: nat, key: Key)
    requires IsInbox(me, states, steps) && |at| == |states| && i < j < |steps| && Follows(states, steps, at, i + 1, j + 1)
    requires OpensIn(me, states, steps, i, at[i + 1], key) && OpensIn(me, states, steps, j, at[j + 1], key)
    ensures exists t | i < t <= j :: BuildsAt(me, states, steps, t, Base(key))
  {
    if NeverBuilt(me, states, steps, i + 1, j + 1, Base(key)) {
      StillNotBuilt(me, states, steps, i + 1, j + 1, Base(key));
      OpenedAt(me, states, steps, i, at[i + 1], key);
      StaysSpent(me, states, steps, at, i + 1, j, key);
      FollowedAt(me, states, steps, at, j, key);
    }
  }

  // ---- One-time prekeys ----

  /** A prekey message that names the one-time prekey `id` opens. */
  ghost predicate UsesPreKey(me: Identity, states: seq<Stores>, steps: seq<Step>, i: nat, id: nat)
    requires i < |steps| && |states| == |steps| + 1
  {
    KeyAt(me, states, steps, i).Some? && steps[i].a.enc.Pkmsg? && steps[i].a.enc.oneTimePreKeyId == Some(id)
  }

  /** The private key that a prekey message names, where it opens. */
  ghost predicate UsesKey(me: Identity, states: seq<Stores>, steps: seq<Step>, i: nat, k: PrivateKey)
    requires i < |steps| && |states| == |steps| + 1
  {
    exists id :: UsesPreKey(me, states, steps, i, id) && Lookup(states[i].oneTimePreKeys, id) == Some(k)
  }

  predicate HoldsKey(pool: Pool, k: PrivateKey) {
    k in pool.Values
  }

  /** No two one-time prekeys are the same key. */
  ghost predicate DistinctPreKeys(pool: Pool) {
    forall x, y | x in pool && y in pool && pool[x] == pool[y] :: x == y
  }

  /** Generated one-time prekeys are new: different from each other and from all that were ever in the pool. */
  ghost predicate NewPreKeys(states: seq<Stores>, steps: seq<Step>)
    requires |states| == |steps| + 1
  {
    DistinctPreKeys(states[0].oneTimePreKeys) && forall t | 0 <= t < |steps| && steps[t].Refills? :: GeneratesNew(states, steps, t)
  }

  ghost predicate GeneratesNew(states: seq<Stores>, steps: seq<Step>, t: nat)
    requires t < |steps| && |states| == |steps| + 1 && steps[t].Refills?
  {
    && (forall a, b | 0 <= a < b < |steps[t].keys| :: steps[t].keys[a] != steps[t].keys[b])
    && forall s, a | 0 <= s <= t && 0 <= a < |steps[t].keys| :: !HoldsKey(states[s].oneTimePreKeys, steps[t].keys[a])
  }

  /** What a step does to the pool. */
  lemma {:induction false} PoolAt(me: Identity, states: seq<Stores>, steps: seq<Step>, i: nat)
    requires IsInbox(me, states, steps) && i < |steps|
    ensures forall id | UsesPreKey(me, states, steps, i, id) ::
              id in states[i].oneTimePreKeys && states[i + 1].oneTimePreKeys == states[i].oneTimePreKeys - {id}
    ensures (forall id :: !UsesPreKey(me, states, steps, i, id)) ==>
              states[i + 1].oneTimePreKeys
              == if steps[i].Refills? then Refilled(states[i].oneTimePreKeys, steps[i].keys) else states[i].oneTimePreKeys
  {
    InboxGood(me, states, steps, i);
    assert StepIs(me, states, steps, i);
    if steps[i].Arrives? {
      var a := steps[i].a;
      OneTimePreKeyUse(states[i], me, a.lids, a.sender, a.enc, a.newKey);
      if a.enc.Pkmsg? && a.enc.oneTimePreKeyId.Some? && KeyAt(me, states, steps, i).Some? {
        assert UsesPreKey(me, states, steps, i, a.enc.oneTimePreKeyId.value);
      }
    }
  }

  lemma {:induction false} RefilledDistinct(pool: Pool, keys: seq<PrivateKey>)
    requires DistinctPreKeys(pool) && forall a, b | 0 <= a < b < |keys| :: keys[a] != keys[b]
    requires forall a | 0 <= a < |keys| :: !HoldsKey(pool, keys[a])
    ensures DistinctPreKeys(Refilled(pool, keys))
  {
    var pool' := Refilled(pool, keys);
    forall x, y | x in pool' && y in pool' && pool'[x] == pool'[y]
      ensures x == y
    {
      RefilledAt(pool, keys, x);
      RefilledAt(pool, keys, y);
    }
  }

  lemma {:induction false} RefilledHolds(pool: Pool, keys: seq<PrivateKey>, k: PrivateKey)
    requires HoldsKey(Refilled(pool, keys), k) && k !in keys
    ensures HoldsKey(pool, k)
  {
    var id :| id in Refilled(pool, keys) && Refilled(pool, keys)[id] == k;
    RefilledAt(pool, keys, id);
  }

  lemma {:induction false} DistinctAt(me: Identity, states: seq<Stores>, steps: seq<Step>, i: nat)
    requires IsInbox(me, states, steps) && NewPreKeys(states, steps) && i < |states|
    ensures DistinctPreKeys(states[i].oneTimePreKeys)
  {
    if i > 0 {
      DistinctAt(me, states, steps, i - 1);
      PoolAt(me, states, steps, i - 1);
      if steps[i - 1].Refills? {
        assert GeneratesNew(states, steps, i - 1);
        RefilledDistinct(states[i - 1].oneTimePreKeys, steps[i - 1].keys);
      }
    }
  }

  /** A key that was in the pool and is gone does not come back. */
  lemma {:induction false} StaysGone(me: Identity, states: seq<Stores>, steps: seq<Step>, s: nat, i: nat, j: nat, k: PrivateKey)
    requires IsInbox(me, states, steps) && NewPreKeys(states, steps) && s <= i <= j < |states|
    requires HoldsKey(states[s].oneTimePreKeys, k) && !HoldsKey(states[i].oneTimePreKeys, k)
    ensures !HoldsKey(states[j].oneTimePreKeys, k)
    decreases j
  {
    if i < j {
      StaysGone(me, states, steps, s, i, j - 1, k);
      PoolAt(me, states, steps, j - 1);
      if steps[j - 1].Refills? && HoldsKey(states[j].oneTimePreKeys, k) {
        assert GeneratesNew(states, steps, j - 1);
        RefilledHolds(states[j - 1].oneTimePreKeys, steps[j - 1].keys, k);
      }
    }
  }

  /** A one-time prekey is used by at most one prekey message that opens, whoever sent them, under whatever id. */
  lemma {:induction false} PreKeyOnce(me: Identity, states: seq<Stores>, steps: seq<Step>, i: nat, j: nat, k: PrivateKey)
    requires IsInbox(me, states, steps) && NewPreKeys(states, steps) && i < j < |steps| && UsesKey(me, states, steps, i, k)
    ensures !UsesKey(me, states, steps, j, k)
  {
    var id :| UsesPreKey(me, states, steps, i, id) && Lookup(states[i].oneTimePreKeys, id) == Some(k);
    PoolAt(me, states, steps, i);
    DistinctAt(me, states, steps, i);
    StaysGone(me, states, steps, i, i + 1, j, k);
  }

  /** If two prekey messages that name one id open, an upload gave out that id again in between. */
  lemma {:induction false} PreKeyIdAgain(me: Identity, states: seq<Stores>, steps: seq<Step>, i: nat, j: nat, id: nat)
    requires IsInbox(me, states, steps) && i < j < |steps|
    requires UsesPreKey(me, states, steps, i, id) && UsesPreKey(me, states, steps, j, id)
    ensures exists t | i < t < j :: GivesOut(states, steps, t, id)
  {
    PoolAt(me, states, steps, i);
    PoolAt(me, states, steps, j);
    ComesBack(me, states, steps, i + 1, j, id);
  }

  ghost predicate GivesOut(states: seq<Stores>, steps: seq<Step>, t: nat, id: nat)
    requires t < |steps| && |states| == |steps| + 1
  {
    steps[t].Refills? && id !in states[t].oneTimePreKeys && id in states[t + 1].oneTimePreKeys
  }

  lemma {:induction false} ComesBack(me: Identity, states: seq<Stores>, steps: seq<Step>, i: nat, j: nat, id: nat)
    requires IsInbox(me, states, steps) && i <= j < |states| && id !in states[i].oneTimePreKeys && id in states[j].oneTimePreKeys
    ensures exists t | i <= t < j :: GivesOut(states, steps, t, id)
    decreases j
  {
    PoolAt(me, states, steps, j - 1);
    if id in states[j - 1].oneTimePreKeys {
      ComesBack(me, states, steps, i, j - 1, id);
    } else {
      assert GivesOut(states, steps, j - 1, id);
    }
  }

  // ---- Failures and frames ----

  /** Everything is taken out of a message that does not open. */
  function Erased(st: Stores, me: Identity, step: Step): Step
    requires ValidStores(st)
  {
    if step.Arrives? && Handle(st, me, step.a).1.None? then Arrives(step.a.(enc := Undecodable)) else step
  }

  ghost predicate ErasedAt(me: Identity, states: seq<Stores>, steps: seq<Step>, quiet: seq<Step>, i: nat)
    requires i < |steps| == |quiet| && |states| == |steps| + 1
  {
    ValidStores(states[i]) ==> quiet[i] == Erased(states[i], me, steps[i])
  }

  lemma {:induction false} EraseStep(st: Stores, me: Identity, step: Step)
    requires ValidStores(st)
    ensures Apply(st, me, Erased(st, me, step)) == Apply(st, me, step)
    ensures OpenedKey(st, me, Erased(st, me, step)) == OpenedKey(st, me, step)
  {
    if step.Arrives? {
      FailureLeavesStores(st, me, step.a.lids, step.a.sender, step.a.enc, step.a.newKey);
    }
  }

  /** A run takes the same course without the contents of the messages that do not open, and the same
      messages open. */
  lemma {:induction false} FailuresInvisible(me: Identity, states: seq<Stores>, steps: seq<Step>, quiet: seq<Step>)
    requires IsInbox(me, states, steps) && |quiet| == |steps|
    requires forall i | 0 <= i < |steps| :: ErasedAt(me, states, steps, quiet, i)
    ensures IsInbox(me, states, quiet)
    ensures forall i | 0 <= i < |steps| :: KeyAt(me, states, quiet, i) == KeyAt(me, states, steps, i)
  {
    forall i | 0 <= i < |steps|
      ensures StepIs(me, states, quiet, i) && KeyAt(me, states, quiet, i) == KeyAt(me, states, steps, i)
    {
      InboxGood(me, states, steps, i);
      assert StepIs(me, states, steps, i) && ErasedAt(me, states, steps, quiet, i);
      EraseStep(states[i], me, steps[i]);
    }
  }

  /** The step has to do with the address. */
  predicate Touches(step: Step, x: string) {
    match step
    case Arrives(a) =>
      || x == SessionId(a.sender)
      || (a.sender.server == "lid" && a.sender.user in a.lids.lidToPn
          && x == SessionId(Jid(a.lids.lidToPn[a.sender.user], "s.whatsapp.net", a.sender.device)))
    case Sends(sid, _) => x == sid
    case Drops(gone) => x in gone
    case Moves(from, to) => x == from || x == to
    case Starts(gone, sid, _, _) => x in gone || x == sid
    case Refills(_) => false
  }

  lemma {:induction false} MigrateKnownFrame(st: Stores, lids: LidMap, sender: Jid, newKey: PrivateKey, x: string)
    requires !Touches(Arrives(Arrival(lids, sender, Undecodable, newKey)), x)
    ensures var st' := MigrateKnown(st, lids, sender);
            Lookup(st'.sessions, x) == Lookup(st.sessions, x) && Lookup(st'.identities, x) == Lookup(st.identities, x)
  {
  }

  lemma {:induction false} StepFrame(st: Stores, me: Identity, step: Step, x: string)
    requires ValidStores(st) && !Touches(step, x)
    ensures var st' := Apply(st, me, step);
            Lookup(st'.sessions, x) == Lookup(st.sessions, x) && Lookup(st'.identities, x) == Lookup(st.identities, x)
  {
    if step.Arrives? {
      var a := step.a;
      MigrateKnownFrame(st, a.lids, a.sender, a.newKey, x);
      DecryptFrame(st, me, a.lids, a.sender, a.enc, a.newKey, x);
    }
  }

  /** A session and its identity are untouched by whatever has to do with other addresses only. */
  lemma {:induction false} InboxFrame(me: Identity, states: seq<Stores>, steps: seq<Step>, i: nat, j: nat, x: string)
    requires IsInbox(me, states, steps) && i <= j < |states| && forall t | i <= t < j :: !Touches(steps[t], x)
    ensures Lookup(states[j].sessions, x) == Lookup(states[i].sessions, x)
    ensures Lookup(states[j].identities, x) == Lookup(states[i].identities, x)
    decreases j
  {
    if i < j {
      InboxFrame(me, states, steps, i, j - 1, x);
      InboxGood(me, states, steps, j - 1);
      assert StepIs(me, states, steps, j - 1);
      StepFrame(states[j - 1], me, steps[j - 1], x);
    }
  }
}
