/** Group sends and receives over the sender-key stores
    (src/pywhats/messaging/sender.py and src/pywhats/messaging/receiver.py). */
module GroupMessages {
  import opened Outcomes
  import opened Bytes
  import opened SymbolicCrypto
  import opened SenderKey

  /** Group and sender address. */
  type Slot = (string, string)

  type Store = map<Slot, State>

  /** What the stanza carries: the distribution message and the group ciphertext. */
  datatype Stanza = Stanza(skdm: seq<Byte>, skmsg: seq<Byte>)

  /** What the slot holds, or would be created with. */
  function Held(store: Store, slot: Slot, created: State): State {
    if slot in store then store[slot] else created
  }

  /** Load (or create), distribute the state as it is, encrypt, save; nothing suspends in between. */
  function SendGroup(u: Suite, store: Store, slot: Slot, created: State, plain: seq<Byte>): Result<(Store, Stanza)> {
    var st := Held(store, slot, created);
    var skdm := BuildDistribution(u, st);
    if skdm.Err? then Err(skdm.failure)
    else
      match GroupEncrypt(u, st, plain)
      case Err(failure) => Err(failure)
      case Ok((skmsg, advanced)) => Ok((store[slot := advanced], Stanza(skdm.value, skmsg)))
  }

  /** A distribution message that does not parse is ignored. */
  function Ingest(u: Suite, store: Store, slot: Slot, skdm: Option<seq<Byte>>): Store {
    if skdm.None? || skdm.value == [] then store
    else
      match ProcessDistribution(u, skdm.value)
      case Err(_) => store
      case Ok(st) => store[slot := st]
  }

  /** `skdm` is what the one-to-one decryption of the stanza's own part gave, if it succeeded. */
  function Handle(u: Suite, store: Store, slot: Slot, skdm: Option<seq<Byte>>, skmsg: Option<seq<Byte>>)
    : (Store, Option<seq<Byte>>)
  {
    var ingested := Ingest(u, store, slot, skdm);
    if skmsg.None? || slot !in ingested then (ingested, None)
    else
      match GroupDecrypt(u, ingested[slot], skmsg.value)
      case Err(_) => (ingested, None)
      case Ok((plain, after)) => (ingested[slot := after], Some(plain))
  }

  class InMemorySenderKeyStore {
    var states: Store

    constructor ()
      ensures states == map[]
    {
      states := map[];
    }

    method Load(slot: Slot) returns (r: Option<State>)
      ensures r == if slot in states then Some(states[slot]) else None
    {
      r := if slot in states then Some(states[slot]) else None;
    }

    method Save(slot: Slot, st: State)
      modifies this
      ensures states == old(states)[slot := st]
    {
      states := states[slot := st];
    }

    /** The receiver's side of a group stanza. */
    method Receive(u: Suite, slot: Slot, skdm: Option<seq<Byte>>, skmsg: Option<seq<Byte>>) returns (r: Option<seq<Byte>>)
      modifies this
      ensures (states, r) == Handle(u, old(states), slot, skdm, skmsg)
    {
      if skdm.Some? && skdm.value != [] {
        var processed := ProcessDistribution(u, skdm.value);
        if processed.Ok? {
          Save(slot, processed.value);
        }
      }
      if skmsg.None? {
        return None;
      }
      var st := Load(slot);
      if st.None? {
        return None;
      }
      var d := Decrypt(u, st.value, skmsg.value);
      if d.Err? {
        return None;
      }
      Save(slot, d.value.1);
      r := Some(d.value.0);
    }

    /** The sender's side. */
    method Emit(u: Suite, slot: Slot, created: State, plain: seq<Byte>) returns (r: Result<Stanza>)
      modifies this
      ensures match SendGroup(u, old(states), slot, created, plain)
              case Err(failure) => r == Err(failure) && states == old(states)
              case Ok((after, stanza)) => r == Ok(stanza) && states == after
    {
      var st := Load(slot);
      if st.None? {
        st := Some(created);
      }
      var skdm := BuildDistribution(u, st.value);
      if skdm.Err? {
        return Err(skdm.failure);
      }
      var encrypted := GroupEncrypt(u, st.value, plain);
      if encrypted.Err? {
        return Err(encrypted.failure);
      }
      Save(slot, encrypted.value.1);
      r := Ok(Stanza(skdm.value, encrypted.value.0));
    }
  }

  /** Every stanza is self-contained: with its own distribution message it decrypts at any receiver,
      whatever sender keys that receiver holds, and touches no other slot. */
  lemma {:induction false} StanzaSelfContained(u: Suite, from: Store, slot: Slot, created: State, plain: seq<Byte>, to: Store)
    requires SuiteOk(u) && Sending(u, Held(from, slot, created))
    ensures var sent := SendGroup(u, from, slot, created, plain);
            sent.Ok? && Handle(u, to, slot, Some(sent.value.1.skdm), Some(sent.value.1.skmsg))
                        == (to[slot := Receiving(sent.value.0[slot])], Some(plain))
  {
    var st := Held(from, slot, created);
    Distributed(u, st);
    assert Later(st, 0) == st;
    DecryptAt(u, st, 0, 0, plain);
    EncryptAdvances(u, st, 0, plain);
    var skdm := BuildDistribution(u, st).value;
    assert skdm != [];
    assert Ingest(u, to, slot, Some(skdm)) == to[slot := Receiving(st)];
    var after := Receiving(Later(st, 1));
    assert to[slot := Receiving(st)][slot := after] == to[slot := after];
  }

  /** Only a distribution message that parses changes the store, and only the slot it is for. */
  lemma {:induction false} IngestExactly(u: Suite, store: Store, slot: Slot, skdm: Option<seq<Byte>>, other: Slot)
    ensures var held, now := if other in store then Some(store[other]) else None,
                             if other in Ingest(u, store, slot, skdm) then Some(Ingest(u, store, slot, skdm)[other]) else None;
            now == if other == slot && skdm.Some? && skdm.value != [] && ProcessDistribution(u, skdm.value).Ok?
                   then Some(ProcessDistribution(u, skdm.value).value) else held
  {
  }

  /** A group ciphertext without a valid signature is dropped: the stores stay as its distribution message, if any, left
      them. */
  lemma {:induction false} UnsignedDropped(u: Suite, store: Store, slot: Slot, skdm: Option<seq<Byte>>, signed: seq<Byte>, signature: seq<Byte>)
    requires |signature| == 64
    requires var ingested := Ingest(u, store, slot, skdm); slot in ingested ==> !u.verify(ingested[slot].signingPublic, signed, signature)
    ensures Handle(u, store, slot, skdm, Some(signed + signature)) == (Ingest(u, store, slot, skdm), None)
  {
    var ingested := Ingest(u, store, slot, skdm);
    if slot in ingested {
      SignatureIff(u, ingested[slot], signed, signature);
    }
  }

  /** Without a distribution message, message `i` of a chain that the receiver holds at `n` decrypts exactly if it is not
      older and at most 2000 ahead; the chain then stands just behind it, and otherwise nothing changes. */
  lemma {:induction false} HeldChain(u: Suite, store: Store, slot: Slot, st: State, n: nat, i: nat, plain: seq<Byte>)
    requires SuiteOk(u) && Sending(u, st) && slot in store && store[slot] == Receiving(Later(st, n))
    ensures GroupEncrypt(u, Later(st, i), plain).Ok?
    ensures Handle(u, store, slot, None, Some(GroupEncrypt(u, Later(st, i), plain).value.0))
         == if n <= i <= n + 2000 then (store[slot := Receiving(Later(st, i + 1))], Some(plain)) else (store, None)
  {
    DecryptAt(u, st, n, i, plain);
  }

  /** Successive sends. */
  function SendAll(u: Suite, store: Store, slot: Slot, created: State, plains: seq<seq<Byte>>): Result<(Store, seq<Stanza>)>
    decreases |plains|
  {
    if plains == [] then Ok((store, []))
    else
      match SendAll(u, store, slot, created, plains[..|plains| - 1])
      case Err(failure) => Err(failure)
      case Ok((before, stanzas)) =>
        match SendGroup(u, before, slot, created, plains[|plains| - 1])
        case Err(failure) => Err(failure)
        case Ok((after, stanza)) => Ok((after, stanzas + [stanza]))
  }

  /** The stanzas carry the messages of the chain from `st` on, and other slots are as they were. */
  ghost predicate InSequence(u: Suite, store: Store, slot: Slot, st: State, plains: seq<seq<Byte>>, after: Store, stanzas: seq<Stanza>) {
    && |stanzas| == |plains|
    && (forall j | 0 <= j < |plains| :: IsMessage(u, st, j, plains[j], stanzas[j].skmsg))
    && forall other | other != slot && other in store :: other in after && after[other] == store[other]
  }

  /** The `j`-th of any number of sends is message `j` of the chain, so that no iteration, and with it
      no message key, is used twice. */
  lemma {:induction false} SendsAdvance(u: Suite, store: Store, slot: Slot, created: State, plains: seq<seq<Byte>>)
    requires SuiteOk(u) && Sending(u, Held(store, slot, created))
    ensures var st := Held(store, slot, created); var sent := SendAll(u, store, slot, created, plains);
            && sent.Ok? && Held(sent.value.0, slot, created) == Later(st, |plains|)
            && InSequence(u, store, slot, st, plains, sent.value.0, sent.value.1)
    decreases |plains|
  {
    if plains != [] {
      var k, st := |plains| - 1, Held(store, slot, created);
      SendsAdvance(u, store, slot, created, plains[..k]);
      var (before, stanzas) := SendAll(u, store, slot, created, plains[..k]).value;
      SentNext(u, before, slot, created, st, k, plains[k]);
      var (after, stanza) := SendGroup(u, before, slot, created, plains[k]).value;
      SequenceNext(u, store, slot, st, plains, before, stanzas, after, stanza);
    }
  }

  lemma {:induction false} SequenceNext(u: Suite, store: Store, slot: Slot, st: State, plains: seq<seq<Byte>>, before: Store, stanzas: seq<Stanza>,
                     after: Store, stanza: Stanza)
    requires plains != [] && InSequence(u, store, slot, st, plains[..|plains| - 1], before, stanzas)
    requires slot in after && after == before[slot := after[slot]]
    requires IsMessage(u, st, |plains| - 1, plains[|plains| - 1], stanza.skmsg)
    ensures InSequence(u, store, slot, st, plains, after, stanzas + [stanza])
  {
    var all, k := stanzas + [stanza], |plains| - 1;
    forall j | 0 <= j < |plains|
      ensures IsMessage(u, st, j, plains[j], all[j].skmsg)
    {
      if j < k {
        assert plains[..k][j] == plains[j] && all[j] == stanzas[j];
      }
    }
  }

  lemma {:induction false} SentNext(u: Suite, store: Store, slot: Slot, created: State, st: State, k: nat, plain: seq<Byte>)
    requires SuiteOk(u) && Sending(u, st) && Held(store, slot, created) == Later(st, k)
    ensures var sent := SendGroup(u, store, slot, created, plain);
            sent.Ok? && sent.value.0 == store[slot := Later(st, k + 1)] && IsMessage(u, st, k, plain, sent.value.1.skmsg)
  {
    Distributed(u, Later(st, k));
    EncryptAdvances(u, st, k, plain);
  }

  /** The keys of two different messages of one chain differ. */
  lemma {:induction false} MessageKeysDiffer(st: State, i: nat, j: nat)
    requires i != j
    ensures MessageKey(Later(st, i).chainKey) != MessageKey(Later(st, j).chainKey)
  {
    AdvancedPlace(st.chainKey, i);
    AdvancedPlace(st.chainKey, j);
  }
}
