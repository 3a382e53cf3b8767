/** Persistence of ratchet states (src/pywhats/signal/experimental/store.py).  Base64 and JSON are
    taken as faithful; what matters is that the skipped keys travel as a list. */
module SessionStore {
  import opened Outcomes
  import opened SymbolicCrypto
  import opened Ratchet

  const SCHEMA_VERSION: nat := 1

  datatype Record = Record(
    schema: nat, dhs: PrivateKey, dhr: Option<PublicKey>, rk: Key, cks: Option<Key>, ckr: Option<Key>,
    ns: nat, nr: nat, pn: nat, maxSkip: nat, skipped: seq<SkippedKey>)

  function Serialize(s: State): Record {
    Record(SCHEMA_VERSION, s.dhs, s.dhr, s.rk, s.cks, s.ckr, s.ns, s.nr, s.pn, s.maxSkip, s.skipped)
  }

  /** The dictionary built by assigning the entries one by one. */
  function Fill(entries: seq<SkippedKey>): seq<SkippedKey>
    decreases |entries|
  {
    if entries == [] then []
    else PutKey(Fill(entries[..|entries| - 1]), entries[|entries| - 1])
  }

  /** `None` is the error for an unknown schema version. */
  function Deserialize(r: Record): Option<State> {
    if r.schema != SCHEMA_VERSION then None
    else Some(State(r.dhs, r.dhr, r.rk, r.cks, r.ckr, r.ns, r.nr, r.pn, Fill(r.skipped), r.maxSkip))
  }

  method DeserializeState(r: Record) returns (s: Option<State>)
    ensures s == Deserialize(r)
  {
    if r.schema != SCHEMA_VERSION {
      return None;
    }
    var skipped: seq<SkippedKey> := [];
    for i := 0 to |r.skipped|
      invariant skipped == Fill(r.skipped[..i])
    {
      assert r.skipped[..i + 1][..i] == r.skipped[..i];
      skipped := PutKey(skipped, r.skipped[i]);
    }
    assert r.skipped[..|r.skipped|] == r.skipped;
    s := Some(State(r.dhs, r.dhr, r.rk, r.cks, r.ckr, r.ns, r.nr, r.pn, skipped, r.maxSkip));
  }

  lemma {:induction false} FillDistinct(entries: seq<SkippedKey>)
    requires DistinctKeys(entries)
    ensures Fill(entries) == entries
    decreases |entries|
  {
    if entries != [] {
      var rest, last := entries[..|entries| - 1], entries[|entries| - 1];
      FillDistinct(rest);
      assert entries == rest + [last];
    }
  }

  /** A stored session comes back unchanged, its skipped keys in the same order, so that eviction
      goes on first in, first out across restarts. */
  lemma {:induction false} RoundTrip(s: State)
    requires DistinctKeys(s.skipped)
    ensures Deserialize(Serialize(s)) == Some(s)
  {
    FillDistinct(s.skipped);
  }

  /** A record is read exactly if it has schema version 1, and entries for one position count once, with the last value
      at the first place. */
  lemma {:induction false} ReadIff(r: Record)
    ensures Deserialize(r).Some? <==> r.schema == 1
    ensures Deserialize(r).Some? ==> DistinctKeys(Deserialize(r).value.skipped)
    ensures DistinctKeys(r.skipped) && r.schema == 1 ==> Serialize(Deserialize(r).value) == r
  {
    FillKeepsDistinct(r.skipped);
    if DistinctKeys(r.skipped) {
      FillDistinct(r.skipped);
    }
  }

  lemma {:induction false} FillKeepsDistinct(entries: seq<SkippedKey>)
    ensures DistinctKeys(Fill(entries))
    decreases |entries|
  {
    if entries != [] {
      FillKeepsDistinct(entries[..|entries| - 1]);
      PutKeyDistinct(Fill(entries[..|entries| - 1]), entries[|entries| - 1]);
    }
  }

  // ---- Every state a session can be in ----

  /** One operation on a session: the code's own, or a trip to disk and back. */
  datatype Operation =
    | Encrypting(plaintext: Plaintext)
    | Decrypting(header: Header, ciphertext: Ciphertext, verify: Key -> bool, newKey: PrivateKey)
    | Reloading

  ghost function Apply(s: State, op: Operation): State
    requires Valid(s)
  {
    match op
    case Encrypting(plaintext) => Encrypt(s, plaintext).0
    case Decrypting(h, ct, verify, newKey) => Decrypt(s, h, ct, verify, newKey).0
    case Reloading => if Deserialize(Serialize(s)).Some? then Deserialize(Serialize(s)).value else s
  }

  lemma {:induction false} ApplyBounded(s: State, op: Operation)
    requires Bounded(s)
    ensures Bounded(Apply(s, op))
  {
    match op
    case Encrypting(_) =>
    case Decrypting(h, ct, verify, newKey) => DecryptBounded(s, h, ct, verify, newKey);
    case Reloading => RoundTrip(s);
  }

  ghost predicate IsNew(s: State, secret: Key, peer: PublicKey, key: PrivateKey) {
    s == InitAlice(secret, peer, key) || s == InitBob(secret, key)
  }

  ghost predicate IsHistory(states: seq<State>, ops: seq<Operation>) {
    && |states| == |ops| + 1
    && (exists secret, peer, key :: IsNew(states[0], secret, peer, key))
    && forall i | 0 <= i < |ops| :: Valid(states[i]) && states[i + 1] == Apply(states[i], ops[i])
  }

  /** Whatever messages arrive, genuine or not, and however often the session is reloaded, it never
      holds more than 2000 skipped keys and never two for one message. */
  lemma {:induction false} HistoryBounded(states: seq<State>, ops: seq<Operation>, i: nat)
    requires IsHistory(states, ops) && i < |states|
    ensures Bounded(states[i]) && |states[i].skipped| <= 2000
  {
    if i == 0 {
      var secret, peer, key :| IsNew(states[0], secret, peer, key);
      assert states[0].skipped == [];
    } else {
      HistoryBounded(states, ops, i - 1);
      assert states[i - 1 + 1] == Apply(states[i - 1], ops[i - 1]);
      ApplyBounded(states[i - 1], ops[i - 1]);
    }
  }
}
