/** Results of partial operations, shared by every module. */
module Outcomes {
  datatype Option<+T> = None | Some(value: T)
}

/** Symbolic cryptography.  Every primitive is a free constructor, so it is injective and two
    differently built keys are different; X25519 obeys its one law, `DhAgrees`. */
module SymbolicCrypto {
  import opened Outcomes

  type PrivateKey = nat

  datatype PublicKey = Pub(owner: PrivateKey)

  datatype Key =
    | DhOutput(low: PrivateKey, high: PrivateKey)
    | X3dhSecret(material: seq<Key>)
    | RootKey(root: Key, dh: Key)       // first half of KDF_RK
    | ChainKey(root: Key, dh: Key)      // second half of KDF_RK
    | MessageKey(chain: Key)            // HMAC(ck, 0x01)
    | NextChainKey(chain: Key)          // HMAC(ck, 0x02)
    | MacKey(message: Key)              // the MAC part of the 80 derived bytes

  function Dh(private: PrivateKey, peer: PublicKey): (k: Key) {
    if private <= peer.owner then DhOutput(private, peer.owner) else DhOutput(peer.owner, private)
  }

  lemma {:induction false} DhAgrees(a: PrivateKey, b: PrivateKey)
    ensures Dh(a, Pub(b)) == Dh(b, Pub(a))
  {
  }

  /** The chain key after `n` steps of KDF_CK. */
  function Advance(chain: Key, n: nat): Key {
    if n == 0 then chain else NextChainKey(Advance(chain, n - 1))
  }

  lemma {:induction false} AdvanceStep(chain: Key, n: nat)
    ensures Advance(NextChainKey(chain), n) == Advance(chain, n + 1)
  {
    if n > 0 {
      AdvanceStep(chain, n - 1);
    }
  }

  lemma {:induction false} AdvanceAdd(chain: Key, i: nat, j: nat)
    ensures Advance(Advance(chain, i), j) == Advance(chain, i + j)
  {
    if j > 0 {
      AdvanceAdd(chain, i, j - 1);
    }
  }

  /** Two positions on chains that start at KDF_RK outputs coincide only if chain and index do. */
  lemma {:induction false} AdvanceInjective(c: Key, i: nat, d: Key, j: nat)
    requires c.ChainKey? && d.ChainKey?
    requires Advance(c, i) == Advance(d, j)
    ensures c == d && i == j
  {
    if i > 0 && j > 0 {
      AdvanceInjective(c, i - 1, d, j - 1);
    }
  }

  /** Where a chain key's chain starts, and how far along it is. */
  function Origin(k: Key): Key {
    if k.NextChainKey? then Origin(k.chain) else k
  }

  function Index(k: Key): nat {
    if k.NextChainKey? then 1 + Index(k.chain) else 0
  }

  lemma {:induction false} SamePlace(k: Key, l: Key)
    requires Origin(k) == Origin(l) && Index(k) == Index(l)
    ensures k == l
  {
    if k.NextChainKey? {
      SamePlace(k.chain, l.chain);
    }
  }

  lemma {:induction false} AdvancedPlace(chain: Key, n: nat)
    ensures Origin(Advance(chain, n)) == Origin(chain) && Index(Advance(chain, n)) == Index(chain) + n
  {
    if n > 0 {
      AdvancedPlace(chain, n - 1);
    }
  }

  /** How many times KDF_RK went into a root key. */
  function RootDepth(k: Key): nat {
    if k.RootKey? then 1 + RootDepth(k.root) else 0
  }

  /** The secret from which a key of a session was derived. */
  function Base(k: Key): Key {
    match k
    case RootKey(root, _) => Base(root)
    case ChainKey(root, _) => Base(root)
    case NextChainKey(chain) => Base(chain)
    case MessageKey(chain) => Base(chain)
    case MacKey(message) => Base(message)
    case _ => k
  }

  lemma {:induction false} AdvancedBase(chain: Key, n: nat)
    ensures Base(Advance(chain, n)) == Base(chain)
  {
    if n > 0 {
      AdvancedBase(chain, n - 1);
    }
  }
}
