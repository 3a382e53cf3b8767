/** The pool of one-time prekeys of src/pywhats/signal/experimental/prekey_store.py and how
    src/pywhats/messaging/prekey.py fills it. */
module PreKeyPool {
  import opened Outcomes
  import opened SymbolicCrypto

  type Pool = map<nat, PrivateKey>

  predicate IsMax(ids: set<nat>, r: nat) {
    r in ids && forall id | id in ids :: id <= r
  }

  /** The highest id in the pool, or 0. */
  ghost function MaxId(pool: Pool): (r: nat)
    ensures pool == map[] ==> r == 0
    ensures pool != map[] ==> r in pool
    ensures forall id | id in pool :: id <= r
  {
    if pool == map[] then 0
    else
      MaxExists(pool.Keys);
      var r: nat :| IsMax(pool.Keys, r);
      r
  }

  lemma {:induction false} MaxExists(ids: set<nat>)
    requires ids != {}
    ensures exists r :: IsMax(ids, r)
    decreases ids
  {
    var k :| k in ids;
    var rest := ids - {k};
    if rest == {} {
      assert ids == {k};
      assert IsMax(ids, k);
    } else {
      MaxExists(rest);
      var r :| IsMax(rest, r);
      MaxOfTwo(ids, rest, k, r);
    }
  }

  lemma {:induction false} MaxOfTwo(ids: set<nat>, rest: set<nat>, k: nat, r: nat)
    requires k in ids && rest == ids - {k} && IsMax(rest, r)
    ensures IsMax(ids, if k <= r then r else k)
  {
    forall id | id in ids
      ensures id <= if k <= r then r else k
    {
      if id != k {
        assert id in rest;
      }
    }
  }

  /** The given keys saved under the ids that follow `base`. */
  function SavedFrom(pool: Pool, base: nat, keys: seq<PrivateKey>): Pool
    decreases |keys|
  {
    if keys == [] then pool
    else SavedFrom(pool, base, keys[..|keys| - 1])[base + |keys| := keys[|keys| - 1]]
  }

  /** The pool after an upload of newly generated keys. */
  ghost function Refilled(pool: Pool, keys: seq<PrivateKey>): Pool {
    SavedFrom(pool, MaxId(pool), keys)
  }

  lemma {:induction false} SavedAt(pool: Pool, base: nat, keys: seq<PrivateKey>, id: nat)
    ensures id in SavedFrom(pool, base, keys) <==> id in pool || base < id <= base + |keys|
    ensures base < id <= base + |keys| ==> SavedFrom(pool, base, keys)[id] == keys[id - base - 1]
    ensures id in pool && !(base < id <= base + |keys|) ==> SavedFrom(pool, base, keys)[id] == pool[id]
    decreases |keys|
  {
    if keys != [] {
      SavedAt(pool, base, keys[..|keys| - 1], id);
    }
  }

  /** An upload keeps every key and puts each new one under an id of its own. */
  lemma {:induction false} RefilledAt(pool: Pool, keys: seq<PrivateKey>, id: nat)
    ensures var base := MaxId(pool);
            && (id in Refilled(pool, keys) <==> id in pool || base < id <= base + |keys|)
            && (id in pool ==> id <= base && Refilled(pool, keys)[id] == pool[id])
            && (base < id <= base + |keys| ==> Refilled(pool, keys)[id] == keys[id - base - 1])
  {
    SavedAt(pool, MaxId(pool), keys, id);
  }

  class InMemoryPreKeyStore {
    var pool: Pool

    constructor ()
      ensures pool == map[]
    {
      pool := map[];
    }

    method Load(id: nat) returns (r: Option<PrivateKey>)
      ensures r == if id in pool then Some(pool[id]) else None
    {
      r := if id in pool then Some(pool[id]) else None;
    }

    method Save(id: nat, key: PrivateKey)
      modifies this
      ensures pool == old(pool)[id := key]
    {
      pool := pool[id := key];
    }

    method Delete(id: nat)
      modifies this
      ensures pool == old(pool) - {id}
    {
      pool := pool - {id};
    }

    method HighestId() returns (r: nat)
      ensures r == MaxId(pool)
    {
      r := 0;
      var rest := pool.Keys;
      while rest != {}
        invariant rest <= pool.Keys
        invariant r == 0 || r in pool
        invariant forall id | id in pool && id !in rest :: id <= r
        decreases rest
      {
        var id :| id in rest;
        r := if id > r then id else r;
        rest := rest - {id};
      }
    }

    /** `keys` are the newly generated ones. */
    method Upload(keys: seq<PrivateKey>) returns (count: nat)
      modifies this
      ensures pool == Refilled(old(pool), keys) && count == |keys|
    {
      var base := HighestId();
      for i := 0 to |keys|
        invariant pool == SavedFrom(old(pool), base, keys[..i])
      {
        assert keys[..i + 1][..i] == keys[..i];
        Save(base + i + 1, keys[i]);
      }
      assert keys[..|keys|] == keys;
      count := |keys|;
    }
  }
}
