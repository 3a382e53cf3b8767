/** The Double Ratchet of src/pywhats/signal/experimental/ratchet.py: a specification of each
    operation on values. */
module Ratchet {
  import opened Outcomes
  import opened SymbolicCrypto

  const DEFAULT_MAX_SKIP: nat := 1000
  const MAX_SKIPPED_TOTAL: nat := 2000

  type Plaintext = seq<nat>

  datatype Header = Header(dh: PublicKey, pn: nat, n: nat)

  /** AES-CBC under the keys derived from `mk`. */
  datatype Ciphertext = Sealed(mk: Key, plaintext: Plaintext)

  datatype SkippedKey = SkippedKey(dh: PublicKey, n: nat, mk: Key)

  /** What `ratchet_decrypt` returns or raises. */
  datatype Outcome =
    | Opened(plaintext: Plaintext)
    | TooManySkipped
    | NoReceivingChain
    | BadMac
    | BadPadding

  /** The fields of a `RatchetState`; `skipped` is the insertion-ordered dictionary. */
  datatype State = State(
    dhs: PrivateKey, dhr: Option<PublicKey>,
    rk: Key, cks: Option<Key>, ckr: Option<Key>,
    ns: nat, nr: nat, pn: nat,
    skipped: seq<SkippedKey>, maxSkip: nat)

  /** The assertion inside the skipping loop of the program: a receiving chain has its key. */
  predicate Valid(s: State) {
    s.ckr.Some? ==> s.dhr.Some?
  }

  // ---- The insertion-ordered dictionary of skipped keys ----

  predicate Matches(e: SkippedKey, dh: PublicKey, n: nat) {
    e.dh == dh && e.n == n
  }

  function IndexOfKey(cache: seq<SkippedKey>, dh: PublicKey, n: nat): (i: nat)
    ensures i <= |cache|
    ensures i < |cache| ==> Matches(cache[i], dh, n)
    ensures forall j | 0 <= j < i :: !Matches(cache[j], dh, n)
  {
    if cache == [] then 0
    else if Matches(cache[0], dh, n) then 0
    else 1 + IndexOfKey(cache[1..], dh, n)
  }

  predicate HasKey(cache: seq<SkippedKey>, dh: PublicKey, n: nat) {
    IndexOfKey(cache, dh, n) < |cache|
  }

  predicate DistinctKeys(cache: seq<SkippedKey>) {
    forall i, j | 0 <= i < j < |cache| :: !Matches(cache[j], cache[i].dh, cache[i].n)
  }

  function RemoveAt(cache: seq<SkippedKey>, i: nat): seq<SkippedKey>
    requires i < |cache|
  {
    cache[..i] + cache[i + 1..]
  }

  /** Dictionary assignment: an existing key keeps its place. */
  function PutKey(cache: seq<SkippedKey>, e: SkippedKey): seq<SkippedKey> {
    var i := IndexOfKey(cache, e.dh, e.n);
    if i < |cache| then cache[i := e] else cache + [e]
  }

  /** The newest entries that fit. */
  function Newest(cache: seq<SkippedKey>): seq<SkippedKey> {
    if |cache| > MAX_SKIPPED_TOTAL then cache[|cache| - MAX_SKIPPED_TOTAL..] else cache
  }

  // ---- Operations ----

  function InitAlice(secret: Key, signedPreKey: PublicKey, newKey: PrivateKey): State {
    var dh := Dh(newKey, signedPreKey);
    State(newKey, Some(signedPreKey), RootKey(secret, dh), Some(ChainKey(secret, dh)), None,
          0, 0, 0, [], DEFAULT_MAX_SKIP)
  }

  function InitBob(secret: Key, signedPreKey: PrivateKey): State {
    State(signedPreKey, None, secret, None, None, 0, 0, 0, [], DEFAULT_MAX_SKIP)
  }

  datatype Sent = Sent(header: Header, ciphertext: Ciphertext, macKey: Key)

  /** The state after encrypting, and what goes on the wire; `None` if there is no sending chain. */
  function Encrypt(s: State, plaintext: Plaintext): (r: (State, Option<Sent>)) {
    if s.cks.None? then (s, None)
    else
      var mk := MessageKey(s.cks.value);
      (s.(cks := Some(NextChainKey(s.cks.value)), ns := s.ns + 1),
       Some(Sent(Header(Pub(s.dhs), s.pn, s.ns), Sealed(mk, plaintext), MacKey(mk))))
  }

  /** One turn of the skipping loop. */
  function SkipOne(s: State): State
    requires s.ckr.Some? && s.dhr.Some?
  {
    var ck := s.ckr.value;
    var put := PutKey(s.skipped, SkippedKey(s.dhr.value, s.nr, MessageKey(ck)));
    s.(ckr := Some(NextChainKey(ck)), nr := s.nr + 1,
       skipped := if |put| > MAX_SKIPPED_TOTAL then put[1..] else put)
  }

  function SkipTo(s: State, until: nat): (r: State)
    requires s.ckr.Some? && s.dhr.Some?
    ensures r.ckr.Some? && r.dhr == s.dhr && r.maxSkip == s.maxSkip
    decreases until - s.nr
  {
    if s.nr >= until then s else SkipTo(SkipOne(s), until)
  }

  /** The state after `_skip_message_keys`, and whether it returned normally. */
  function Skip(s: State, until: nat): (r: (State, bool))
    requires Valid(s)
    ensures Valid(r.0)
  {
    if s.ckr.None? then (s, true)
    else if s.nr + s.maxSkip < until then (s, false)
    else (SkipTo(s, until), true)
  }

  function DhRatchet(s: State, dh: PublicKey, newKey: PrivateKey): State {
    var shared := Dh(s.dhs, dh);
    var rk := RootKey(s.rk, shared);
    s.(pn := s.ns, ns := 0, nr := 0, dhr := Some(dh), dhs := newKey,
       ckr := Some(ChainKey(s.rk, shared)),
       rk := RootKey(rk, Dh(newKey, dh)), cks := Some(ChainKey(rk, Dh(newKey, dh))))
  }

  function Unseal(mk: Key, ct: Ciphertext, verify: Key -> bool): Outcome {
    if !verify(MacKey(mk)) then BadMac
    else if ct.mk != mk then BadPadding
    else Opened(ct.plaintext)
  }

  /** Step 2 of `ratchet_decrypt`: turn the DH ratchet if the header carries a new key. */
  function Turn(s: State, h: Header, newKey: PrivateKey): (r: (State, bool))
    requires Valid(s)
    ensures Valid(r.0)
  {
    if s.dhr == Some(h.dh) then (s, true)
    else
      var (s1, ok) := if s.ckr.Some? then Skip(s, h.pn) else (s, true);
      if ok then (DhRatchet(s1, h.dh, newKey), true) else (s1, false)
  }

  /** Steps 3 and 4: skip up to the message and derive its key. */
  function Take(s: State, h: Header, ct: Ciphertext, verify: Key -> bool): (r: (State, Outcome))
    requires Valid(s)
  {
    var (s1, ok) := Skip(s, h.n);
    if !ok then (s1, TooManySkipped)
    else if s1.ckr.None? then (s1, NoReceivingChain)
    else
      var ck := s1.ckr.value;
      (s1.(ckr := Some(NextChainKey(ck)), nr := s1.nr + 1), Unseal(MessageKey(ck), ct, verify))
  }

  /** The state `ratchet_decrypt` leaves behind, also when it raises, and its outcome.  `newKey` is
      the key pair a DH ratchet step would generate. */
  function Decrypt(s: State, h: Header, ct: Ciphertext, verify: Key -> bool, newKey: PrivateKey)
    : (r: (State, Outcome))
    requires Valid(s)
  {
    var i := IndexOfKey(s.skipped, h.dh, h.n);
    if i < |s.skipped| then
      (s.(skipped := RemoveAt(s.skipped, i)), Unseal(s.skipped[i].mk, ct, verify))
    else
      var (s1, ok) := Turn(s, h, newKey);
      if ok then Take(s1, h, ct, verify) else (s1, TooManySkipped)
  }

  // ---- The skipping loop in closed form ----

  /** Skipping touches only the receiving chain, its counter and the cache. */
  lemma {:induction false} SkipToChain(s: State, until: nat)
    requires s.ckr.Some? && s.dhr.Some?
    ensures var r := SkipTo(s, until);
            && r == s.(ckr := r.ckr, nr := r.nr, skipped := r.skipped)
            && r.nr == (if s.nr >= until then s.nr else until)
            && r.ckr == Some(Advance(s.ckr.value, r.nr - s.nr))
    decreases until - s.nr
  {
    if s.nr < until {
      var t := SkipOne(s);
      SkipToChain(t, until);
      SkipOneChain(s, t, SkipTo(t, until), until);
      assert SkipTo(s, until) == SkipTo(t, until);
    }
  }

  lemma {:induction false} SkipOneChain(s: State, t: State, r: State, until: nat)
    requires s.ckr.Some? && s.dhr.Some? && t == SkipOne(s) && s.nr < until
    requires r == t.(ckr := r.ckr, nr := r.nr, skipped := r.skipped) && r.nr == until
    requires r.ckr == Some(Advance(t.ckr.value, until - t.nr))
    ensures r == s.(ckr := r.ckr, nr := r.nr, skipped := r.skipped)
    ensures r.ckr == Some(Advance(s.ckr.value, until - s.nr))
  {
    AdvanceStep(s.ckr.value, until - s.nr - 1);
  }

  /** The entries that skipping derives, in order. */
  function Derived(dh: PublicKey, chain: Key, from: nat, count: nat): (r: seq<SkippedKey>)
    ensures |r| == count
    decreases count
  {
    if count == 0 then []
    else [SkippedKey(dh, from, MessageKey(chain))] + Derived(dh, NextChainKey(chain), from + 1, count - 1)
  }

  lemma {:induction false} DerivedAt(dh: PublicKey, chain: Key, from: nat, count: nat, i: nat)
    requires i < count
    ensures Derived(dh, chain, from, count)[i] == SkippedKey(dh, from + i, MessageKey(Advance(chain, i)))
    decreases i
  {
    if i > 0 {
      DerivedAt(dh, NextChainKey(chain), from + 1, count - 1, i - 1);
      AdvanceStep(chain, i - 1);
    }
  }

  ghost predicate NoneCachedFrom(cache: seq<SkippedKey>, dh: PublicKey, from: nat) {
    forall i | 0 <= i < |cache| :: cache[i].dh == dh ==> cache[i].n < from
  }

  /** The state satisfies what skipping needs to append: room, a chain, no key of it cached yet. */
  ghost predicate Appending(s: State) {
    && s.ckr.Some? && s.dhr.Some? && |s.skipped| <= MAX_SKIPPED_TOTAL
    && NoneCachedFrom(s.skipped, s.dhr.value, s.nr)
  }

  lemma {:induction false} SkipOneCache(s: State)
    requires Appending(s)
    ensures Appending(SkipOne(s))
    ensures SkipOne(s).skipped
         == Newest(s.skipped + [SkippedKey(s.dhr.value, s.nr, MessageKey(s.ckr.value))])
  {
  }

  /** First in, first out: skipping appends the derived keys in order and keeps the newest 2000. */
  lemma {:induction false} SkipToCache(s: State, until: nat)
    requires Appending(s) && s.nr <= until
    ensures SkipTo(s, until).skipped
         == Newest(s.skipped + Derived(s.dhr.value, s.ckr.value, s.nr, until - s.nr))
    decreases until - s.nr
  {
    if s.nr == until {
      assert s.skipped + [] == s.skipped;
    } else {
      var e := SkippedKey(s.dhr.value, s.nr, MessageKey(s.ckr.value));
      var t := SkipOne(s);
      var rest := Derived(t.dhr.value, t.ckr.value, t.nr, until - t.nr);
      assert SkipTo(s, until) == SkipTo(t, until);
      assert Derived(s.dhr.value, s.ckr.value, s.nr, until - s.nr) == [e] + rest;
      assert SkipTo(t, until).skipped == Newest(Newest(s.skipped + [e]) + rest) by {
        SkipOneCache(s);
        SkipToCache(t, until);
      }
      assert Newest(Newest(s.skipped + [e]) + rest) == Newest(s.skipped + ([e] + rest)) by {
        NewestOfNewest(s.skipped, e, rest);
      }
    }
  }

  lemma {:induction false} NewestOfNewest(a: seq<SkippedKey>, e: SkippedKey, b: seq<SkippedKey>)
    ensures Newest(Newest(a + [e]) + b) == Newest(a + ([e] + b))
  {
    NewestConcat(a + [e], b);
    assert a + [e] + b == a + ([e] + b);
  }

  lemma {:induction false} NewestConcat(a: seq<SkippedKey>, b: seq<SkippedKey>)
    ensures Newest(Newest(a) + b) == Newest(a + b)
  {
    if |a| > MAX_SKIPPED_TOTAL {
      var cut := |a| - MAX_SKIPPED_TOTAL;
      CutFront(a, b, cut);
    }
  }

  lemma {:induction false} CutFront(a: seq<SkippedKey>, b: seq<SkippedKey>, cut: nat)
    requires cut == |a| - MAX_SKIPPED_TOTAL
    ensures Newest(a[cut..] + b) == Newest(a + b)
  {
    var c := a[cut..] + b;
    assert (a + b)[cut..] == c;
    assert Newest(a + b) == (a + b)[|b| + cut..];
    assert Newest(c) == c[|b|..];
    assert c[|b|..] == (a + b)[cut + |b|..];
  }

  // ---- Bounds that hold whatever the messages are ----

  ghost predicate Bounded(s: State) {
    Valid(s) && |s.skipped| <= MAX_SKIPPED_TOTAL && DistinctKeys(s.skipped)
  }

  lemma {:induction false} PutKeyDistinct(cache: seq<SkippedKey>, e: SkippedKey)
    requires DistinctKeys(cache)
    ensures DistinctKeys(PutKey(cache, e))
  {
  }

  lemma {:induction false} SkipToBounded(s: State, until: nat)
    requires Bounded(s) && s.ckr.Some?
    ensures Bounded(SkipTo(s, until))
    decreases until - s.nr
  {
    if s.nr < until {
      PutKeyDistinct(s.skipped, SkippedKey(s.dhr.value, s.nr, MessageKey(s.ckr.value)));
      SkipToBounded(SkipOne(s), until);
    }
  }

  /** Any decrypt, successful or not, of any message keeps the cache within its bound. */
  lemma {:induction false} DecryptBounded(s: State, h: Header, ct: Ciphertext, verify: Key -> bool, newKey: PrivateKey)
    requires Bounded(s)
    ensures Bounded(Decrypt(s, h, ct, verify, newKey).0)
  {
    if !HasKey(s.skipped, h.dh, h.n) {
      if s.ckr.Some? {
        SkipToBounded(s, h.pn);
      }
      var t := Turn(s, h, newKey).0;
      assert Bounded(t);
      if t.ckr.Some? {
        SkipToBounded(t, h.n);
        SkipToChain(t, h.n);
      }
    }
  }

  /** How many keys a call to `_skip_message_keys` derives. */
  function SkipCost(s: State, until: nat): nat {
    if s.ckr.None? || s.nr + s.maxSkip < until || until <= s.nr then 0 else until - s.nr
  }

  /** How many skipped keys one decrypt derives, over both of its calls. */
  function DecryptCost(s: State, h: Header, newKey: PrivateKey): (cost: nat)
    requires Valid(s)
    ensures cost <= 2 * s.maxSkip
  {
    if HasKey(s.skipped, h.dh, h.n) then 0
    else if s.dhr == Some(h.dh) then SkipCost(s, h.n)
    else
      var (t, ok) := Turn(s, h, newKey);
      SkipCost(s, h.pn) +
      if ok then SkipCost(t, h.n) else 0
  }

  // ---- The key an incoming message is tried with ----

  /** The message key that `ratchet_decrypt` checks the MAC with, if it gets that far. */
  function TriedKey(s: State, h: Header, newKey: PrivateKey): Option<Key>
    requires Valid(s)
  {
    var i := IndexOfKey(s.skipped, h.dh, h.n);
    if i < |s.skipped| then Some(s.skipped[i].mk)
    else
      var (t, turned) := Turn(s, h, newKey);
      if !turned then None
      else
        var (u, skipped) := Skip(t, h.n);
        if !skipped || u.ckr.None? then None else Some(MessageKey(u.ckr.value))
  }

  /** A message opens exactly when it was authenticated and sealed with the key it is tried with. */
  lemma {:induction false} OpenedIff(s: State, h: Header, ct: Ciphertext, verify: Key -> bool, newKey: PrivateKey)
    requires Valid(s)
    ensures Decrypt(s, h, ct, verify, newKey).1.Opened?
       <==> TriedKey(s, h, newKey).Some? && verify(MacKey(TriedKey(s, h, newKey).value))
            && ct.mk == TriedKey(s, h, newKey).value
  {
  }
}
