/** The ids that uploads of src/pywhats/messaging/prekey.py give to one-time prekeys: exactly when one is
    given out a second time. */
module PreKeyIds {
  import opened Outcomes
  import opened SymbolicCrypto
  import opened Ratchet
  import opened Messages
  import opened Addressing
  import opened Receiver
  import opened PreKeyPool
  import opened ReceiverRuns
  import opened Redelivery
  import X3dh

  /** The id was in the pool at some time up to `i`. */
  ghost predicate WasIn(states: seq<Stores>, i: nat, id: nat)
    requires i < |states|
  {
    exists s | 0 <= s <= i :: id in states[s].oneTimePreKeys
  }

  /** The highest id that was ever in the pool up to `i`. */
  ghost function Highest(states: seq<Stores>, i: nat): nat
    requires i < |states|
  {
    var now := MaxId(states[i].oneTimePreKeys);
    if i == 0 || Highest(states, i - 1) <= now then now else Highest(states, i - 1)
  }

  lemma {:induction false} RefilledMax(pool: Pool, keys: seq<PrivateKey>)
    ensures MaxId(Refilled(pool, keys)) == MaxId(pool) + |keys|
  {
    var pool', top := Refilled(pool, keys), MaxId(pool) + |keys|;
    RefilledAt(pool, keys, MaxId(pool'));
    RefilledAt(pool, keys, top);
    if pool' != map[] && keys == [] {
      RefilledAt(pool, keys, MaxId(pool));
    }
  }

  lemma {:induction false} WasInNext(states: seq<Stores>, i: nat, id: nat)
    requires i + 1 < |states|
    ensures WasIn(states, i + 1, id) <==> WasIn(states, i, id) || id in states[i + 1].oneTimePreKeys
  {
  }

  /** What a step adds to the ids, and where that leaves the highest. */
  lemma {:induction false} IdsNext(me: Identity, states: seq<Stores>, steps: seq<Step>, i: nat, id: nat)
    requires IsInbox(me, states, steps) && i < |steps|
    ensures var base, more := MaxId(states[i].oneTimePreKeys), if steps[i].Refills? then |steps[i].keys| else 0;
            && (id in states[i + 1].oneTimePreKeys ==> id in states[i].oneTimePreKeys || base < id <= base + more)
            && (base < id <= base + more ==> id in states[i + 1].oneTimePreKeys)
            && MaxId(states[i + 1].oneTimePreKeys) <= base + more
            && (more > 0 ==> MaxId(states[i + 1].oneTimePreKeys) == base + more)
  {
    PoolAt(me, states, steps, i);
    if steps[i].Refills? {
      RefilledAt(states[i].oneTimePreKeys, steps[i].keys, id);
      RefilledMax(states[i].oneTimePreKeys, steps[i].keys);
    }
  }

  /** From an empty pool, the ids that were ever in it are those from 1 to the highest, without a gap. */
  lemma {:induction false} NoGaps(me: Identity, states: seq<Stores>, steps: seq<Step>, i: nat, id: nat)
    requires IsInbox(me, states, steps) && states[0].oneTimePreKeys == map[] && i < |states|
    ensures WasIn(states, i, id) <==> 1 <= id <= Highest(states, i)
  {
    if i > 0 {
      NoGaps(me, states, steps, i - 1, id);
      WasInNext(states, i - 1, id);
      IdsNext(me, states, steps, i - 1, id);
      HighestIsMax(states, i - 1);
      if id in states[i - 1].oneTimePreKeys {
        assert WasIn(states, i - 1, id);
      }
    }
  }

  lemma {:induction false} HighestIsMax(states: seq<Stores>, i: nat)
    requires i < |states|
    ensures MaxId(states[i].oneTimePreKeys) <= Highest(states, i)
  {
  }

  /** An upload gives out an id that was used before. */
  ghost predicate Reuses(states: seq<Stores>, steps: seq<Step>, i: nat)
    requires i < |steps| && |states| == |steps| + 1
  {
    exists id :: GivesOut(states, steps, i, id) && WasIn(states, i, id)
  }

  /** From an empty pool, an upload of any keys reuses an id exactly when the highest id ever given out is no longer
      in the pool. */
  lemma {:induction false} ReuseIff(me: Identity, states: seq<Stores>, steps: seq<Step>, i: nat)
    requires IsInbox(me, states, steps) && states[0].oneTimePreKeys == map[]
    requires i < |steps| && steps[i].Refills? && steps[i].keys != []
    ensures Reuses(states, steps, i) <==> Highest(states, i) > 0 && Highest(states, i) !in states[i].oneTimePreKeys
  {
    var pool := states[i].oneTimePreKeys;
    var next := MaxId(pool) + 1;
    HighestIsMax(states, i);
    if Highest(states, i) > 0 && Highest(states, i) !in pool {
      HighestMissing(states, i);
      IdsNext(me, states, steps, i, next);
      NoGaps(me, states, steps, i, next);
      assert GivesOut(states, steps, i, next);
    }
    if Reuses(states, steps, i) {
      var id :| GivesOut(states, steps, i, id) && WasIn(states, i, id);
      IdsNext(me, states, steps, i, id);
      NoGaps(me, states, steps, i, id);
    }
  }

  lemma {:induction false} HighestMissing(states: seq<Stores>, i: nat)
    requires i < |states| && Highest(states, i) > 0 && Highest(states, i) !in states[i].oneTimePreKeys
    ensures MaxId(states[i].oneTimePreKeys) < Highest(states, i)
  {
    HighestIsMax(states, i);
  }

  // ---- An input ----

  /** An initiator's first message to the owner of one-time prekey `k`, which has the id `id`. */
  function FirstSent(me: Identity, id: nat, k: PrivateKey, peer: PrivateKey, ephemeral: PrivateKey, ratchetKey: PrivateKey, text: Plaintext)
    : (enc: Enc)
    ensures enc.Pkmsg? && enc.oneTimePreKeyId == Some(id)
  {
    var bundle := X3dh.Bundle(Pub(me.private), me.signedPreKeyId, Pub(me.signedPreKey), true, Some(id), Some(Pub(k)));
    var x := X3dh.Initiator(peer, bundle, ephemeral).value;
    var sent := Encrypt(InitAlice(x.secret, Pub(me.signedPreKey), ratchetKey), text).1;
    Pkmsg(x.oneTimePreKeyId, x.signedPreKeyId, x.ephemeral, x.identity, Envelope(sent.value, Pub(peer), Pub(me.private)))
  }

  lemma {:induction false} NamedOpens(st: Stores, me: Identity, a: Arrival, id: nat, k: PrivateKey, peer: PrivateKey, ephemeral: PrivateKey,
                                      ratchetKey: PrivateKey, text: Plaintext)
    requires ValidStores(st) && a.sender.server != "lid" && Lookup(st.oneTimePreKeys, id) == Some(k)
    requires a.enc == FirstSent(me, id, k, peer, ephemeral, ratchetKey, text)
    ensures Handle(st, me, a).1 == Some(text)
  {
    var bundle := X3dh.Bundle(Pub(me.private), me.signedPreKeyId, Pub(me.signedPreKey), true, Some(id), Some(Pub(k)));
    var secret, m := SecretOf(st, me, a.enc), a.enc.message;
    X3dh.Agreement(peer, ephemeral, me.private, bundle, me.signedPreKey, Some(k), Some(k));
    DhAgrees(ratchetKey, me.signedPreKey);
    FirstTried(me, secret, m.header, a.newKey);
    assert Advance(FirstChain(me, secret, m.header.dh), 0) == FirstChain(me, secret, m.header.dh);
    OpenedIff(InitBob(secret, me.signedPreKey), m.header, m.ciphertext, Verifier(m, a.enc.identityKey, Pub(me.private)), a.newKey);
  }

  lemma {:induction false} RefillOne(pool: Pool, k: PrivateKey)
    requires pool == map[]
    ensures Lookup(Refilled(pool, [k]), 1) == Some(k) && Refilled(pool, [k]).Keys == {1}
  {
    RefilledAt(pool, [k], 1);
    forall id | id in Refilled(pool, [k])
      ensures id == 1
    {
      RefilledAt(pool, [k], id);
    }
  }

  /** From an empty pool and one key an upload: the second upload gives out id 1 again after a message used it up, and
      a second message that names id 1 opens. */
  lemma {:induction false} IdReused(me: Identity, st: Stores, k: PrivateKey, k': PrivateKey, sender: Jid, peer: PrivateKey,
                                    ephemeral: PrivateKey, ratchetKey: PrivateKey, text: Plaintext, newKey: PrivateKey)
    returns (states: seq<Stores>, steps: seq<Step>)
    requires GoodStores(st) && st.oneTimePreKeys == map[] && sender.server == "s.whatsapp.net"
    ensures var enc, enc' := FirstSent(me, 1, k, peer, ephemeral, ratchetKey, text), FirstSent(me, 1, k', peer, ephemeral, ratchetKey, text);
            steps == [Refills([k]), Arrives(Arrival(EMPTY_LID_MAP, sender, enc, newKey)),
                      Refills([k']), Arrives(Arrival(EMPTY_LID_MAP, sender, enc', newKey))]
    ensures IsInbox(me, states, steps) && states[0] == st
    ensures UsesPreKey(me, states, steps, 1, 1) && UsesPreKey(me, states, steps, 3, 1) && Reuses(states, steps, 2)
  {
    var a := Arrival(EMPTY_LID_MAP, sender, FirstSent(me, 1, k, peer, ephemeral, ratchetKey, text), newKey);
    var a' := Arrival(EMPTY_LID_MAP, sender, FirstSent(me, 1, k', peer, ephemeral, ratchetKey, text), newKey);
    states, steps := RefillTwice(me, st, k, k', a, a');
    RefillsOne(me, states, steps, 0, k);
    NamedUses(me, states, steps, 1, a, 1, k, peer, ephemeral, ratchetKey, text);
    assert states[2].oneTimePreKeys == map[];
    RefillsOne(me, states, steps, 2, k');
    NamedUses(me, states, steps, 3, a', 1, k', peer, ephemeral, ratchetKey, text);
    assert GivesOut(states, steps, 2, 1) && WasIn(states, 2, 1);
  }

  lemma {:induction false} RefillsOne(me: Identity, states: seq<Stores>, steps: seq<Step>, i: nat, k: PrivateKey)
    requires IsInbox(me, states, steps) && i < |steps| && steps[i] == Refills([k]) && states[i].oneTimePreKeys == map[]
    ensures Lookup(states[i + 1].oneTimePreKeys, 1) == Some(k) && states[i + 1].oneTimePreKeys.Keys == {1}
  {
    InboxGood(me, states, steps, i);
    assert StepIs(me, states, steps, i);
    RefillOne(states[i].oneTimePreKeys, k);
  }

  lemma {:induction false} NamedUses(me: Identity, states: seq<Stores>, steps: seq<Step>, i: nat, a: Arrival, id: nat, k: PrivateKey, peer: PrivateKey,
                                     ephemeral: PrivateKey, ratchetKey: PrivateKey, text: Plaintext)
    requires IsInbox(me, states, steps) && i < |steps| && steps[i] == Arrives(a) && a.sender.server != "lid"
    requires a.enc == FirstSent(me, id, k, peer, ephemeral, ratchetKey, text) && Lookup(states[i].oneTimePreKeys, id) == Some(k)
    ensures UsesPreKey(me, states, steps, i, id) && states[i + 1].oneTimePreKeys == states[i].oneTimePreKeys - {id}
  {
    InboxGood(me, states, steps, i);
    NamedOpens(states[i], me, a, id, k, peer, ephemeral, ratchetKey, text);
    assert UsesPreKey(me, states, steps, i, id);
    PoolAt(me, states, steps, i);
  }

  lemma {:induction false} RefillTwice(me: Identity, st: Stores, k: PrivateKey, k': PrivateKey, a: Arrival, a': Arrival)
    returns (states: seq<Stores>, steps: seq<Step>)
    requires GoodStores(st)
    ensures IsInbox(me, states, steps) && states[0] == st && steps == [Refills([k]), Arrives(a), Refills([k']), Arrives(a')]
  {
    var states0, steps0: seq<Step> := [st], [];
    assert IsInbox(me, states0, steps0);
    var states1 := OneMore(me, states0, steps0, Refills([k]));
    var states2 := OneMore(me, states1, steps0 + [Refills([k])], Arrives(a));
    var states3 := OneMore(me, states2, steps0 + [Refills([k])] + [Arrives(a)], Refills([k']));
    states := OneMore(me, states3, steps0 + [Refills([k])] + [Arrives(a)] + [Refills([k'])], Arrives(a'));
    steps := [Refills([k]), Arrives(a), Refills([k']), Arrives(a')];
    assert steps0 + [Refills([k])] + [Arrives(a)] + [Refills([k'])] + [Arrives(a')] == steps;
    assert states0[0] == st;
  }
}
