/** The mutable `RatchetState` of src/pywhats/signal/experimental/ratchet.py, each method proved to
    move its fields exactly as the value-level specification says, on every path that raises too. */
module RatchetObject {
  import opened Outcomes
  import opened SymbolicCrypto
  import opened Ratchet

  lemma {:induction false} SkipToStep(s: State, until: nat, s': State)
    requires s.ckr.Some? && s.dhr.Some? && s.nr < until && s' == SkipOne(s)
    ensures SkipTo(s, until) == SkipTo(s', until)
  {
  }

  lemma {:induction false} SkipToDone(s: State, until: nat)
    requires s.ckr.Some? && s.dhr.Some? && until <= s.nr
    ensures SkipTo(s, until) == s
  {
  }

  class RatchetState {
    var dhs: PrivateKey
    var dhr: Option<PublicKey>
    var rk: Key
    var cks: Option<Key>
    var ckr: Option<Key>
    var ns: nat
    var nr: nat
    var pn: nat
    var skipped: seq<SkippedKey>
    const maxSkip: nat
    ghost var derivations: nat  // turns of the skipping loop so far

    function View(): State
      reads this
    {
      State(dhs, dhr, rk, cks, ckr, ns, nr, pn, skipped, maxSkip)
    }

    constructor Alice(secret: Key, signedPreKey: PublicKey, newKey: PrivateKey)
      ensures View() == InitAlice(secret, signedPreKey, newKey) && derivations == 0
    {
      var dh := Dh(newKey, signedPreKey);
      dhs, dhr := newKey, Some(signedPreKey);
      rk, cks, ckr := RootKey(secret, dh), Some(ChainKey(secret, dh)), None;
      ns, nr, pn, skipped, maxSkip := 0, 0, 0, [], DEFAULT_MAX_SKIP;
      derivations := 0;
    }

    constructor Bob(secret: Key, signedPreKey: PrivateKey)
      ensures View() == InitBob(secret, signedPreKey) && derivations == 0
    {
      dhs, dhr := signedPreKey, None;
      rk, cks, ckr := secret, None, None;
      ns, nr, pn, skipped, maxSkip := 0, 0, 0, [], DEFAULT_MAX_SKIP;
      derivations := 0;
    }

    /** A copy of a stored state. */
    constructor Load(s: State)
      ensures View() == s && derivations == 0
    {
      dhs, dhr := s.dhs, s.dhr;
      rk, cks, ckr := s.rk, s.cks, s.ckr;
      ns, nr, pn, skipped, maxSkip := s.ns, s.nr, s.pn, s.skipped, s.maxSkip;
      derivations := 0;
    }

    /** RatchetEncrypt, section 3.4 of the Double Ratchet specification. */
    method RatchetEncrypt(plaintext: Plaintext) returns (r: Option<Sent>)
      modifies this
      ensures (View(), r) == Encrypt(old(View()), plaintext)
      ensures derivations == old(derivations)
    {
      if cks.None? {
        return None;
      }
      var mk := MessageKey(cks.value);
      cks := Some(NextChainKey(cks.value));
      var header := Header(Pub(dhs), pn, ns);
      ns := ns + 1;
      r := Some(Sent(header, Sealed(mk, plaintext), MacKey(mk)));
    }

    /** One turn of the loop of SkipMessageKeys. */
    method SkipOneKey()
      requires Valid(View()) && ckr.Some?
      modifies this
      ensures View() == SkipOne(old(View())) && derivations == old(derivations) + 1
    {
      var mk := MessageKey(ckr.value);
      ckr := Some(NextChainKey(ckr.value));
      skipped := PutKey(skipped, SkippedKey(dhr.value, nr, mk));
      nr := nr + 1;
      if |skipped| > MAX_SKIPPED_TOTAL {
        skipped := skipped[1..];
      }
      derivations := derivations + 1;
    }

    /** SkipMessageKeys, section 3.5 of the Double Ratchet specification. */
    method SkipMessageKeys(until: nat) returns (ok: bool)
      requires Valid(View())
      modifies this
      ensures (View(), ok) == Skip(old(View()), until)
      ensures derivations == old(derivations) + SkipCost(old(View()), until)
    {
      if ckr.None? {
        return true;
      }
      if nr + maxSkip < until {
        return false;
      }
      ghost var start, goal := View(), SkipTo(View(), until);
      while nr < until
        invariant Valid(View()) && ckr.Some? && start.nr <= nr && (nr <= until || nr == start.nr)
        invariant SkipTo(View(), until) == goal
        invariant derivations == old(derivations) + nr - start.nr
      {
        ghost var before := View();
        SkipOneKey();
        SkipToStep(before, until, View());
      }
      SkipToDone(View(), until);
      ok := true;
    }

    /** DHRatchet, section 3.5 of the Double Ratchet specification. */
    method TurnDhRatchet(dh: PublicKey, newKey: PrivateKey)
      modifies this
      ensures View() == DhRatchet(old(View()), dh, newKey)
      ensures derivations == old(derivations)
    {
      pn := ns;
      ns := 0;
      nr := 0;
      dhr := Some(dh);
      var shared := Dh(dhs, dh);
      rk, ckr := RootKey(rk, shared), Some(ChainKey(rk, shared));
      dhs := newKey;
      shared := Dh(dhs, dh);
      rk, cks := RootKey(rk, shared), Some(ChainKey(rk, shared));
    }

    /** RatchetDecrypt, section 3.5 of the Double Ratchet specification. */
    method RatchetDecrypt(h: Header, ct: Ciphertext, verify: Key -> bool, newKey: PrivateKey)
      returns (r: Outcome)
      requires Valid(View())
      modifies this
      ensures (View(), r) == Decrypt(old(View()), h, ct, verify, newKey)
      ensures derivations == old(derivations) + DecryptCost(old(View()), h, newKey)
    {
      var i := IndexOfKey(skipped, h.dh, h.n);
      if i < |skipped| {
        var mk := skipped[i].mk;
        skipped := RemoveAt(skipped, i);
        return Unseal(mk, ct, verify);
      }
      if dhr != Some(h.dh) {
        if ckr.Some? {
          var ok := SkipMessageKeys(h.pn);
          if !ok {
            return TooManySkipped;
          }
        }
        TurnDhRatchet(h.dh, newKey);
      }
      assert (View(), true) == Turn(old(View()), h, newKey);
      var ok := SkipMessageKeys(h.n);
      if !ok {
        return TooManySkipped;
      }
      if ckr.None? {
        return NoReceivingChain;
      }
      var mk := MessageKey(ckr.value);
      ckr := Some(NextChainKey(ckr.value));
      nr := nr + 1;
      r := Unseal(mk, ct, verify);
    }
  }
}
