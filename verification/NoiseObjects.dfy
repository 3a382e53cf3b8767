/** The objects of src/pywhats/socket/noise.py with their fields updated in place, each method proved
    to compute what the functions on values say.  A method that raises returns None. */
module NoiseObjects {
  import opened Outcomes
  import opened SymbolicCrypto
  import opened NoiseTerms
  import opened Noise
  import T = NoiseTransport

  class CipherState {
    var k: Option<CipherKey>
    var n: nat

    constructor (key: Option<CipherKey>)
      ensures Value() == Cipher(key, 0)
    {
      k, n := key, 0;
    }

    function Value(): Cipher
      reads this
    {
      Cipher(k, n)
    }

    method InitializeKey(key: Option<CipherKey>)
      modifies this
      ensures Value() == Cipher(key, 0)
    {
      k := key;
      n := 0;
    }

    method Encrypt(ad: Ad, plain: seq<Sym>) returns (ct: seq<Sym>)
      modifies this
      ensures (Value(), ct) == EncryptWithAd(old(Value()), ad, plain)
    {
      if k.None? {
        return plain;
      }
      ct := Seal(Box(k.value, n, ad, plain));
      n := n + 1;
    }

    /** A rejected ciphertext leaves the counter as it was. */
    method Decrypt(ad: Ad, ct: seq<Sym>) returns (plain: Option<seq<Sym>>)
      modifies this
      ensures var d := DecryptWithAd(old(Value()), ad, ct);
              if d.Raised? then plain.None? && Value() == old(Value()) else Value() == d.state && plain == Some(d.value)
    {
      if k.None? {
        return Some(ct);
      }
      plain := Open(k.value, n, ad, ct);
      if plain.Some? {
        n := n + 1;
      }
    }

    method Rekey() returns (done: bool)
      modifies this
      ensures done == old(k).Some?
      ensures Value() == if done then Cipher(Some(Rekeyed(old(k).value)), old(n)) else old(Value())
    {
      if k.None? {
        return false;
      }
      k := Some(Rekeyed(k.value));
      done := true;
    }

    method SetNonce(nonce: nat)
      modifies this
      ensures Value() == Cipher(old(k), nonce)
    {
      n := nonce;
    }
  }

  class SymmetricState {
    const cs: CipherState
    var ck: ChainingKey
    var h: Digest

    constructor (name: seq<Sym>)
      ensures fresh(cs) && Value() == InitSymmetric(name)
    {
      cs := new CipherState(None);
      h := NameDigest(name);
      ck := FromDigest(NameDigest(name));
    }

    function Value(): Symmetric
      reads this, cs
    {
      Symmetric(cs.Value(), ck, h)
    }

    method Mix(ikm: Shared)
      modifies this, cs
      ensures Value() == MixKey(old(Value()), ikm)
    {
      var next, temp := Chained(ck, ikm), TempKey(ck, ikm);
      ck := next;
      cs.InitializeKey(Some(temp));
    }

    method Hash(data: seq<Sym>)
      modifies this
      ensures Value() == MixHash(old(Value()), data)
    {
      h := Mixed(h, data);
    }

    method EncryptThenHash(plain: seq<Sym>) returns (ct: seq<Sym>)
      modifies this, cs
      ensures (Value(), ct) == EncryptAndHash(old(Value()), plain)
    {
      ct := cs.Encrypt(Transcript(h), plain);
      Hash(ct);
    }

    method DecryptThenHash(ct: seq<Sym>) returns (plain: Option<seq<Sym>>)
      modifies this, cs
      ensures var d := DecryptAndHash(old(Value()), ct);
              if d.Raised? then plain.None? else Value() == d.state && plain == Some(d.value)
    {
      plain := cs.Decrypt(Transcript(h), ct);
      if plain.Some? {
        Hash(ct);
      }
    }

    method SplitCiphers() returns (c1: CipherState, c2: CipherState)
      ensures fresh(c1) && fresh(c2) && c1 != c2 && (c1.Value(), c2.Value()) == Split(Value())
    {
      c1 := new CipherState(Some(FirstHalf(ck)));
      c2 := new CipherState(Some(SecondHalf(ck)));
    }
  }

  /** What is written, or left to read, once the tokens before have been dealt with. */
  function Prefixed(out: seq<Sym>, step: Step<Handshake, seq<Sym>>): Step<Handshake, seq<Sym>> {
    if step.Raised? then Raised else Did(step.state, out + step.value)
  }

  lemma {:induction false} WriteFrom(hs: Handshake, tokens: seq<Token>, j: nat, eph: PrivateKey, out: seq<Sym>)
    requires j < |tokens|
    ensures var first := WriteToken(hs, tokens[j], eph);
            Prefixed(out, WriteTokens(hs, tokens[j..], eph))
            == if first.Raised? then Raised
               else Prefixed(out + first.value, WriteTokens(first.state, tokens[j + 1..], eph))
  {
    assert tokens[j..][1..] == tokens[j + 1..];
    var first := WriteToken(hs, tokens[j], eph);
    if first.Did? {
      var others := WriteTokens(first.state, tokens[j + 1..], eph);
      if others.Did? {
        assert out + (first.value + others.value) == out + first.value + others.value;
      }
    }
  }

  lemma {:induction false} ReadFrom(hs: Handshake, tokens: seq<Token>, j: nat, message: seq<Sym>)
    requires j < |tokens|
    ensures var first := ReadToken(hs, tokens[j], message);
            ReadTokens(hs, tokens[j..], message)
            == if first.Raised? then Raised else ReadTokens(first.state, tokens[j + 1..], first.value)
  {
    assert tokens[j..][1..] == tokens[j + 1..];
  }

  /** The initiator. */
  class HandshakeState {
    const ss: SymmetricState
    const s: PrivateKey
    var e: Option<PrivateKey>
    var re: Option<seq<Sym>>
    var rs: Option<seq<Sym>>
    var messages: seq<seq<Token>>

    constructor (name: seq<Sym>, prologue: seq<Sym>, s: PrivateKey)
      ensures fresh(ss) && fresh(ss.cs) && Value() == InitHandshake(name, prologue, s, true)
    {
      ss := new SymmetricState(name);
      this.s := s;
      e, re, rs, messages := None, None, None, XX;
      new;
      ss.Hash(prologue);
    }

    function Value(): Handshake
      reads this, ss, ss.cs
    {
      Handshake(ss.Value(), s, e, re, rs, messages, true)
    }

    /** `ee`, `es` and `se`; fails where the assertions of the source do. */
    method MixDh(token: Token) returns (done: bool)
      requires token != E && token != S
      modifies this, ss, ss.cs
      ensures var mixed := MixToken(old(Value()), token);
              done == mixed.Some? && Value() == if done then mixed.value else old(Value())
    {
      var dh: Shared;
      if token == EE {
        if e.None? || re.None? {
          return false;
        }
        dh := SharedSecret(e.value, re.value);
      } else if token == ES {
        if e.None? || rs.None? {
          return false;
        }
        dh := SharedSecret(e.value, rs.value);
      } else {
        if re.None? {
          return false;
        }
        dh := SharedSecret(s, re.value);
      }
      ss.Mix(dh);
      done := true;
    }

    method Put(token: Token, eph: PrivateKey) returns (out: Option<seq<Sym>>)
      modifies this, ss, ss.cs
      ensures var w := WriteToken(old(Value()), token, eph);
              if w.Raised? then out.None? else out == Some(w.value) && Value() == w.state
    {
      if token == E {
        e := Some(eph);
        ss.Hash(PubBytes(eph));
        out := Some(PubBytes(eph));
      } else if token == S {
        var ct := ss.EncryptThenHash(PubBytes(s));
        out := Some(ct);
      } else {
        var done := MixDh(token);
        out := if done then Some([]) else None;
      }
    }

    method WriteOut(payload: seq<Sym>, eph: PrivateKey)
      returns (out: Option<seq<Sym>>, split: Option<(CipherState, CipherState)>)
      modifies this, ss, ss.cs
      ensures var w := WriteMessage(old(Value()), payload, eph);
              if w.Raised? then out.None?
              else out == Some(w.value.bytes) && Value() == w.state && split.Some? == w.value.split.Some?
      ensures out.Some? && split.Some? ==> fresh(split.value.0) && fresh(split.value.1)
      ensures out.Some? && split.Some? ==>
                Some((split.value.0.Value(), split.value.1.Value())) == WriteMessage(old(Value()), payload, eph).value.split
    {
      split := None;
      if messages == [] {
        return None, None;
      }
      var tokens := messages[0];
      messages := messages[1..];
      var bytes := PutTokens(tokens, eph);
      if bytes.None? {
        return None, None;
      }
      var ct := PutPayload(payload);
      out := Some(bytes.value + ct);
      if messages == [] {
        var c1, c2 := ss.SplitCiphers();
        split := Some((c1, c2));
      }
    }

    method PutTokens(tokens: seq<Token>, eph: PrivateKey) returns (out: Option<seq<Sym>>)
      modifies this, ss, ss.cs
      ensures var w := WriteTokens(old(Value()), tokens, eph);
              if w.Raised? then out.None? else out == Some(w.value) && Value() == w.state
    {
      ghost var all := WriteTokens(Value(), tokens, eph);
      var bytes := [];
      var j := 0;
      assert tokens[0..] == tokens;
      assert all.Did? ==> [] + all.value == all.value;
      while j < |tokens|
        invariant 0 <= j <= |tokens|
        invariant all == Prefixed(bytes, WriteTokens(Value(), tokens[j..], eph))
      {
        WriteFrom(Value(), tokens, j, eph, bytes);
        var next := Put(tokens[j], eph);
        if next.None? {
          return None;
        }
        bytes := bytes + next.value;
        j := j + 1;
      }
      assert bytes + [] == bytes;
      out := Some(bytes);
    }

    method PutPayload(payload: seq<Sym>) returns (ct: seq<Sym>)
      modifies this, ss, ss.cs
      ensures (Value(), ct) == WritePayload(old(Value()), payload)
    {
      if payload != [] || ss.cs.k.Some? {
        ct := ss.EncryptThenHash(payload);
      } else {
        ct := [];
      }
    }

    /** The offset after the token. */
    method Take(token: Token, message: seq<Sym>, offset: nat) returns (next: Option<nat>)
      requires offset <= |message|
      modifies this, ss, ss.cs
      ensures next.Some? ==> offset <= next.value <= |message|
      ensures var r := ReadToken(old(Value()), token, message[offset..]);
              if r.Raised? then next.None?
              else next.Some? && message[next.value..] == r.value && Value() == r.state
    {
      if token == E {
        if |message| - offset < DHLEN {
          return None;
        }
        var key := message[offset..offset + DHLEN];
        assert key == message[offset..][..DHLEN];
        re := Some(key);
        ss.Hash(key);
        next := Some(offset + DHLEN);
      } else if token == S {
        next := TakeStatic(message, offset);
      } else {
        var done := MixDh(token);
        next := if done then Some(offset) else None;
      }
    }

    method TakeStatic(message: seq<Sym>, offset: nat) returns (next: Option<nat>)
      requires offset <= |message|
      modifies this, ss, ss.cs
      ensures next.Some? ==> offset <= next.value <= |message|
      ensures var r := ReadToken(old(Value()), S, message[offset..]);
              if r.Raised? then next.None?
              else next.Some? && message[next.value..] == r.value && Value() == r.state
    {
      var need := DHLEN + if ss.cs.k.Some? then TAG_LEN else 0;
      if |message| - offset < need {
        return None;
      }
      var chunk := message[offset..offset + need];
      assert chunk == message[offset..][..need];
      assert message[offset..][need..] == message[offset + need..];
      rs := ss.DecryptThenHash(chunk);
      if rs.None? || |rs.value| != DHLEN {
        return None;
      }
      next := Some(offset + need);
    }

    method ReadIn(message: seq<Sym>) returns (payload: Option<seq<Sym>>, split: Option<(CipherState, CipherState)>)
      modifies this, ss, ss.cs
      ensures var r := ReadMessage(old(Value()), message);
              if r.Raised? then payload.None?
              else payload == Some(r.value.bytes) && Value() == r.state && split.Some? == r.value.split.Some?
      ensures payload.Some? && split.Some? ==> fresh(split.value.0) && fresh(split.value.1)
      ensures payload.Some? && split.Some? ==>
                Some((split.value.0.Value(), split.value.1.Value())) == ReadMessage(old(Value()), message).value.split
    {
      split := None;
      if messages == [] {
        return None, None;
      }
      var tokens := messages[0];
      messages := messages[1..];
      var offset := TakeTokens(tokens, message);
      if offset.None? {
        return None, None;
      }
      payload := TakePayload(message[offset.value..]);
      if payload.None? {
        return None, None;
      }
      if messages == [] {
        var c1, c2 := ss.SplitCiphers();
        split := Some((c1, c2));
      }
    }

    method TakeTokens(tokens: seq<Token>, message: seq<Sym>) returns (end: Option<nat>)
      modifies this, ss, ss.cs
      ensures end.Some? ==> end.value <= |message|
      ensures var r := ReadTokens(old(Value()), tokens, message);
              if r.Raised? then end.None? else end.Some? && message[end.value..] == r.value && Value() == r.state
    {
      ghost var all := ReadTokens(Value(), tokens, message);
      var offset: nat, j := 0, 0;
      assert tokens[0..] == tokens && message[0..] == message;
      while j < |tokens|
        invariant 0 <= j <= |tokens| && offset <= |message|
        invariant all == ReadTokens(Value(), tokens[j..], message[offset..])
      {
        ReadFrom(Value(), tokens, j, message[offset..]);
        var next := Take(tokens[j], message, offset);
        if next.None? {
          return None;
        }
        offset := next.value;
        j := j + 1;
      }
      end := Some(offset);
    }

    method TakePayload(rest: seq<Sym>) returns (payload: Option<seq<Sym>>)
      modifies this, ss, ss.cs
      ensures var r := ReadPayload(old(Value()), rest);
              if r.Raised? then payload.None? else payload == Some(r.value) && Value() == r.state
    {
      if rest != [] || ss.cs.k.Some? {
        payload := ss.DecryptThenHash(rest);
      } else {
        payload := Some([]);
      }
    }
  }

  /** One lock per direction makes each send and each receive atomic for its own cipher. */
  class Transport {
    const sending: CipherState
    const receiving: CipherState

    constructor (sending: CipherState, receiving: CipherState)
      ensures this.sending == sending && this.receiving == receiving
    {
      this.sending := sending;
      this.receiving := receiving;
    }

    /** The frame handed to the channel. */
    method Send(plain: seq<Sym>) returns (frame: Option<seq<Sym>>)
      modifies sending
      ensures var s := T.Send(old(sending.Value()), plain);
              if s.Raised? then frame.None? && sending.Value() == old(sending.Value())
              else frame == Some(s.value) && sending.Value() == s.state
    {
      if sending.n >= REKEY_INTERVAL {
        var done := sending.Rekey();
        if !done {
          return None;
        }
        sending.SetNonce(0);
      }
      var ct := sending.Encrypt(NoAd, plain);
      frame := Some(ct);
    }

    /** `frame` is what the channel delivers, None if it raises. */
    method Recv(frame: Option<seq<Sym>>) returns (plain: Option<seq<Sym>>)
      modifies receiving
      ensures (receiving.Value(), plain) == T.Recv(old(receiving.Value()), frame)
    {
      if receiving.n >= REKEY_INTERVAL {
        var done := receiving.Rekey();
        if !done {
          return None;
        }
        receiving.SetNonce(0);
      }
      if frame.None? {
        return None;
      }
      plain := receiving.Decrypt(NoAd, frame.value);
    }
  }
}
