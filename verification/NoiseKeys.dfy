/** Which Diffie-Hellman outputs enter which keys of the handshake of src/pywhats/socket/noise.py: every message
    byte for byte, written out without the token interpreter. */
module NoiseKeys {
  import opened Outcomes
  import opened SymbolicCrypto
  import opened NoiseTerms
  import opened Noise
  import opened NoiseTheorems

  /** The secret two key pairs agree on. */
  function Between(a: PrivateKey, b: PrivateKey): Shared {
    if a <= b then Agreed(a, b) else Agreed(b, a)
  }

  lemma {:induction false} BetweenIs(a: PrivateKey, b: PrivateKey)
    ensures SharedSecret(a, PubBytes(b)) == Between(a, b) == Between(b, a)
  {
    OwnerOfPub(b);
  }

  // ---- The messages, written out ----

  /** Chaining key and transcript hash between two messages. */
  datatype Chain = Chain(ck: ChainingKey, h: Digest)

  /** The seal on the responder's static key `s` and on the payload of the second message, for the ephemeral keys
      `ei` of the initiator and `er` of the responder. */
  function StaticSeal(c: Chain, ei: PrivateKey, er: PrivateKey, s: PrivateKey): seq<Sym> {
    Seal(Box(TempKey(c.ck, Between(ei, er)), 0, Transcript(Mixed(c.h, PubBytes(er))), PubBytes(s)))
  }

  function StaticHash(c: Chain, ei: PrivateKey, er: PrivateKey, s: PrivateKey): Digest {
    Mixed(Mixed(c.h, PubBytes(er)), StaticSeal(c, ei, er, s))
  }

  function PayloadKey(c: Chain, ei: PrivateKey, er: PrivateKey, s: PrivateKey): CipherKey {
    TempKey(Chained(c.ck, Between(ei, er)), Between(ei, s))
  }

  function PayloadSeal(c: Chain, ei: PrivateKey, er: PrivateKey, s: PrivateKey, payload: seq<Sym>): seq<Sym> {
    Seal(Box(PayloadKey(c, ei, er, s), 0, Transcript(StaticHash(c, ei, er, s)), payload))
  }

  /** The second message. */
  function SecondWire(c: Chain, ei: PrivateKey, er: PrivateKey, s: PrivateKey, payload: seq<Sym>): seq<Sym> {
    PubBytes(er) + StaticSeal(c, ei, er, s) + PayloadSeal(c, ei, er, s, payload)
  }

  function AfterSecond(c: Chain, ei: PrivateKey, er: PrivateKey, s: PrivateKey, payload: seq<Sym>): Chain {
    Chain(Chained(Chained(c.ck, Between(ei, er)), Between(ei, s)),
          Mixed(StaticHash(c, ei, er, s), PayloadSeal(c, ei, er, s, payload)))
  }

  /** The initiator's static key goes out under the key `k` of the second payload, as its second use. */
  function InitiatorSeal(c: Chain, k: CipherKey, s: PrivateKey): seq<Sym> {
    Seal(Box(k, 1, Transcript(c.h), PubBytes(s)))
  }

  function LastSeal(c: Chain, k: CipherKey, s: PrivateKey, er: PrivateKey, payload: seq<Sym>): seq<Sym> {
    Seal(Box(TempKey(c.ck, Between(s, er)), 0, Transcript(Mixed(c.h, InitiatorSeal(c, k, s))), payload))
  }

  /** The third message. */
  function ThirdWire(c: Chain, k: CipherKey, s: PrivateKey, er: PrivateKey, payload: seq<Sym>): seq<Sym> {
    InitiatorSeal(c, k, s) + LastSeal(c, k, s, er, payload)
  }

  function AfterThird(c: Chain, k: CipherKey, s: PrivateKey, er: PrivateKey, payload: seq<Sym>): Chain {
    Chain(Chained(c.ck, Between(s, er)), Mixed(Mixed(c.h, InitiatorSeal(c, k, s)), LastSeal(c, k, s, er, payload)))
  }

  // ---- The second message at the initiator ----

  lemma {:induction false} SecondTokensRead(i: Handshake, message: seq<Sym>)
    ensures ReadTokens(i, [E, EE, S, ES], message)
         == (var a := ReadToken(i, E, message);
             if a.Raised? then Raised
             else
               var b := ReadToken(a.state, EE, a.value);
               if b.Raised? then Raised
               else
                 var d := ReadToken(b.state, S, b.value);
                 if d.Raised? then Raised else ReadToken(d.state, ES, d.value))
  {
    assert [E, EE, S, ES][1..] == [EE, S, ES] && [EE, S, ES][1..] == [S, ES] && [S, ES][1..] == [ES] && [ES][1..] == [];
    var a := ReadToken(i, E, message);
    if a.Did? {
      var b := ReadToken(a.state, EE, a.value);
      if b.Did? {
        var d := ReadToken(b.state, S, b.value);
        if d.Did? {
          LastToken(d.state, ES, d.value);
        }
      }
    }
  }

  lemma {:induction false} LastToken(i: Handshake, token: Token, message: seq<Sym>)
    ensures ReadTokens(i, [token], message) == ReadToken(i, token, message)
  {
    assert [token][1..] == [];
  }

  /** An initiator that waits for the second message. */
  ghost predicate AwaitsSecond(i: Handshake, ei: PrivateKey, c: Chain) {
    i.initiator && i.e == Some(ei) && i.messages == XX[1..] && i.ss == Symmetric(Cipher(None, i.ss.cs.n), c.ck, c.h)
  }

  /** It has read the ephemeral key `er` and the static key `s`. */
  function WithStatic(i: Handshake, c: Chain, ei: PrivateKey, er: PrivateKey, s: PrivateKey): Handshake {
    i.(re := Some(PubBytes(er)), rs := Some(PubBytes(s)),
       ss := Symmetric(Cipher(Some(TempKey(c.ck, Between(ei, er))), 1), Chained(c.ck, Between(ei, er)), StaticHash(c, ei, er, s)))
  }

  /** `E, EE` */
  lemma {:induction false} EphemeralRead(i: Handshake, c: Chain, ei: PrivateKey, message: seq<Sym>, er: PrivateKey)
    requires i.initiator && i.e == Some(ei) && i.ss.ck == c.ck && i.ss.h == c.h && |message| >= DHLEN && message[..DHLEN] == PubBytes(er)
    ensures var a := ReadToken(i, E, message);
            a.Did? && a.value == message[DHLEN..]
            && ReadToken(a.state, EE, a.value)
               == Did(i.(re := Some(PubBytes(er)),
                         ss := Symmetric(Cipher(Some(TempKey(c.ck, Between(ei, er))), 0), Chained(c.ck, Between(ei, er)),
                                         Mixed(c.h, PubBytes(er)))), message[DHLEN..])
  {
    BetweenIs(ei, er);
  }

  /** `S` */
  lemma {:induction false} StaticRead(b: Handshake, k: CipherKey, h: Digest, message: seq<Sym>, s: PrivateKey)
    requires b.ss == Symmetric(Cipher(Some(k), b.ss.cs.n), b.ss.ck, h)
    ensures var seal, d := Seal(Box(k, b.ss.cs.n, Transcript(h), PubBytes(s))), ReadToken(b, S, message);
            && ((d.Did? && d.state.rs == Some(PubBytes(s))) <==> |message| >= DHLEN + TAG_LEN && message[..DHLEN + TAG_LEN] == seal)
            && (d.Did? && d.state.rs == Some(PubBytes(s)) ==>
                  d == Did(b.(rs := Some(PubBytes(s)), ss := Symmetric(Cipher(Some(k), b.ss.cs.n + 1), b.ss.ck, Mixed(h, seal))),
                           message[DHLEN + TAG_LEN..]))
  {
    var need := DHLEN + TAG_LEN;
    if |message| >= need {
      var plain := Open(k, b.ss.cs.n, Transcript(h), message[..need]);
      assert plain == Some(PubBytes(s)) <==> message[..need] == Seal(Box(k, b.ss.cs.n, Transcript(h), PubBytes(s)));
    }
  }

  /** The payload under a fresh key. */
  lemma {:induction false} PayloadRead(d: Handshake, k: CipherKey, message: seq<Sym>, payload: seq<Sym>)
    requires d.ss.cs == Cipher(Some(k), 0)
    ensures var seal, r := Seal(Box(k, 0, Transcript(d.ss.h), payload)), ReadPayload(d, message);
            && ((r.Did? && r.value == payload) <==> message == seal)
            && (message == seal ==> r == Did(d.(ss := Symmetric(Cipher(Some(k), 1), d.ss.ck, Mixed(d.ss.h, seal))), payload))
  {
    var plain := Open(k, 0, Transcript(d.ss.h), message);
    assert plain == Some(payload) <==> message == Seal(Box(k, 0, Transcript(d.ss.h), payload));
  }

  /** What the initiator has read as far as the static key. */
  lemma {:induction false} SecondStatic(i: Handshake, c: Chain, ei: PrivateKey, message: seq<Sym>, er: PrivateKey, s: PrivateKey)
    requires i.initiator && i.e == Some(ei) && i.ss == Symmetric(Cipher(None, i.ss.cs.n), c.ck, c.h)
    requires |message| >= DHLEN && message[..DHLEN] == PubBytes(er)
    ensures var d, rest, key := ReadTokens(i, [E, EE, S, ES], message), message[DHLEN..], Between(ei, s);
            && ((d.Did? && d.state.rs == Some(PubBytes(s)))
                <==> |rest| >= DHLEN + TAG_LEN && rest[..DHLEN + TAG_LEN] == StaticSeal(c, ei, er, s))
            && (d.Did? && d.state.rs == Some(PubBytes(s)) ==>
                  d == Did(SecondMixed(i, c, ei, er, s), rest[DHLEN + TAG_LEN..]))
  {
    var rest := message[DHLEN..];
    SecondTokensRead(i, message);
    EphemeralRead(i, c, ei, message, er);
    var b := ReadToken(ReadToken(i, E, message).state, EE, rest);
    StaticRead(b.state, TempKey(c.ck, Between(ei, er)), Mixed(c.h, PubBytes(er)), rest, s);
    BetweenIs(ei, s);
    var d := ReadToken(b.state, S, rest);
    if d.Did? && d.state.rs == Some(PubBytes(s)) {
      assert d.state == WithStatic(i, c, ei, er, s);
    }
  }

  /** After `ES`. */
  function SecondMixed(i: Handshake, c: Chain, ei: PrivateKey, er: PrivateKey, s: PrivateKey): Handshake {
    WithStatic(i, c, ei, er, s).(
      ss := Symmetric(Cipher(Some(PayloadKey(c, ei, er, s)), 0), Chained(Chained(c.ck, Between(ei, er)), Between(ei, s)),
                      StaticHash(c, ei, er, s)))
  }

  lemma {:induction false} Parts(message: seq<Sym>, a: seq<Sym>, b: seq<Sym>)
    ensures message == a + b <==> |message| >= |a| && message[..|a|] == a && message[|a|..] == b
  {
    if |message| >= |a| && message[..|a|] == a && message[|a|..] == b {
      assert message == message[..|a|] + message[|a|..];
    }
  }

  lemma {:induction false} SecondParts(c: Chain, ei: PrivateKey, er: PrivateKey, s: PrivateKey, payload: seq<Sym>, message: seq<Sym>)
    ensures message == SecondWire(c, ei, er, s, payload)
       <==> && |message| >= DHLEN && message[..DHLEN] == PubBytes(er)
            && var rest := message[DHLEN..];
               && |rest| >= DHLEN + TAG_LEN && rest[..DHLEN + TAG_LEN] == StaticSeal(c, ei, er, s)
               && rest[DHLEN + TAG_LEN..] == PayloadSeal(c, ei, er, s, payload)
  {
    var x, y, z := PubBytes(er), StaticSeal(c, ei, er, s), PayloadSeal(c, ei, er, s, payload);
    Parts(message, x, y + z);
    if |message| >= DHLEN {
      Parts(message[DHLEN..], y, z);
    }
    assert x + y + z == x + (y + z);
  }

  lemma {:induction false} SecondKeyRead(i: Handshake, message: seq<Sym>)
    requires ReadTokens(i, [E, EE, S, ES], message).Did?
    ensures |message| >= DHLEN && ReadTokens(i, [E, EE, S, ES], message).state.re == Some(message[..DHLEN])
  {
    SecondTokensRead(i, message);
  }

  /** The second message at the initiator: it is accepted with the ephemeral key of `er`, the static key of `s` and
      a payload exactly if it is, byte for byte, that payload and that static key sealed under the secrets of the
      initiator's ephemeral key with `er`, and with `s`. */
  lemma {:induction false} SecondReadIff(i: Handshake, c: Chain, ei: PrivateKey, message: seq<Sym>, er: PrivateKey, s: PrivateKey,
                                         payload: seq<Sym>)
    requires AwaitsSecond(i, ei, c)
    ensures var g, wire := ReadMessage(i, message), SecondWire(c, ei, er, s, payload);
            && ((g.Did? && g.state.re == Some(PubBytes(er)) && g.state.rs == Some(PubBytes(s)) && g.value.bytes == payload)
                <==> message == wire)
            && (message == wire ==> g == Did(SecondDone(i, c, ei, er, s, payload), Leg(payload, None)))
  {
    var i' := i.(messages := XX[2..]);
    assert i.messages[0] == [E, EE, S, ES] && i.messages[1..] == XX[2..];
    var g, d := ReadMessage(i, message), ReadTokens(i', [E, EE, S, ES], message);
    SecondParts(c, ei, er, s, payload, message);
    if d.Did? {
      SecondKeyRead(i', message);
    }
    if |message| >= DHLEN && message[..DHLEN] == PubBytes(er) {
      SecondStatic(i', c, ei, message, er, s);
      if d.Did? && d.state.rs == Some(PubBytes(s)) {
        PayloadRead(d.state, PayloadKey(c, ei, er, s), d.value, payload);
      }
    }
  }

  function SecondDone(i: Handshake, c: Chain, ei: PrivateKey, er: PrivateKey, s: PrivateKey, payload: seq<Sym>): Handshake {
    var after := AfterSecond(c, ei, er, s, payload);
    i.(messages := XX[2..], re := Some(PubBytes(er)), rs := Some(PubBytes(s)),
       ss := Symmetric(Cipher(Some(PayloadKey(c, ei, er, s)), 1), after.ck, after.h))
  }

  // ---- The third message at the responder ----

  ghost predicate AwaitsThird(r: Handshake, er: PrivateKey, c: Chain, k: CipherKey) {
    !r.initiator && r.e == Some(er) && r.messages == XX[2..] && r.ss == Symmetric(Cipher(Some(k), 1), c.ck, c.h)
  }

  lemma {:induction false} ThirdTokensRead(r: Handshake, message: seq<Sym>)
    ensures ReadTokens(r, [S, SE], message)
         == (var d := ReadToken(r, S, message); if d.Raised? then Raised else ReadToken(d.state, SE, d.value))
  {
    assert [S, SE][1..] == [SE];
    var d := ReadToken(r, S, message);
    if d.Did? {
      LastToken(d.state, SE, d.value);
    }
  }

  function ThirdDone(hs: Handshake, c: Chain, k: CipherKey, s: PrivateKey, er: PrivateKey, payload: seq<Sym>): Handshake {
    var after := AfterThird(c, k, s, er, payload);
    hs.(messages := [], ss := Symmetric(Cipher(Some(TempKey(c.ck, Between(s, er))), 1), after.ck, after.h))
  }

  /** The mirror image: the third message is accepted with the static key of `s` and a payload exactly if it is that
      key sealed under the key of the second payload, and the payload under the secret of `s` with the responder's
      ephemeral key. */
  lemma {:induction false} ThirdReadIff(r: Handshake, c: Chain, k: CipherKey, er: PrivateKey, message: seq<Sym>, s: PrivateKey, payload: seq<Sym>)
    requires AwaitsThird(r, er, c, k)
    ensures var g, wire := ReadMessage(r, message), ThirdWire(c, k, s, er, payload);
            && ((g.Did? && g.state.rs == Some(PubBytes(s)) && g.value.bytes == payload) <==> message == wire)
            && (message == wire ==>
                  var done := ThirdDone(r, c, k, s, er, payload).(rs := Some(PubBytes(s)));
                  g == Did(done, Leg(payload, Some(Split(done.ss)))))
  {
    var r', need := r.(messages := []), DHLEN + TAG_LEN;
    assert r.messages[0] == [S, SE] && r.messages[1..] == [];
    ThirdTokensRead(r', message);
    StaticRead(r', k, c.h, message, s);
    Parts(message, InitiatorSeal(c, k, s), LastSeal(c, k, s, er, payload));
    var d := ReadToken(r', S, message);
    if d.Did? && d.state.rs == Some(PubBytes(s)) {
      BetweenIs(er, s);
      var e := ReadToken(d.state, SE, d.value);
      PayloadRead(e.state, TempKey(c.ck, Between(s, er)), e.value, payload);
    }
  }

  // ---- What is written ----

  lemma {:induction false} PayloadWritten(hs: Handshake, k: CipherKey, payload: seq<Sym>)
    requires hs.ss.cs == Cipher(Some(k), 0)
    ensures var seal := Seal(Box(k, 0, Transcript(hs.ss.h), payload));
            WritePayload(hs, payload) == (hs.(ss := Symmetric(Cipher(Some(k), 1), hs.ss.ck, Mixed(hs.ss.h, seal))), seal)
  {
  }

  /** A responder that has read the first message. */
  ghost predicate AwaitsReply(r: Handshake, ei: PrivateKey, c: Chain) {
    !r.initiator && r.re == Some(PubBytes(ei)) && r.messages == XX[1..] && r.ss == Symmetric(Cipher(None, r.ss.cs.n), c.ck, c.h)
  }

  lemma {:induction false} SecondTokensWritten(r: Handshake, c: Chain, ei: PrivateKey, er: PrivateKey)
    requires !r.initiator && r.re == Some(PubBytes(ei)) && r.ss == Symmetric(Cipher(None, r.ss.cs.n), c.ck, c.h)
    ensures WriteTokens(r, [E, EE, S, ES], er)
         == Did(r.(e := Some(er),
                   ss := Symmetric(Cipher(Some(PayloadKey(c, ei, er, r.s)), 0),
                                   Chained(Chained(c.ck, Between(ei, er)), Between(ei, r.s)), StaticHash(c, ei, er, r.s))),
                PubBytes(er) + StaticSeal(c, ei, er, r.s))
  {
    BetweenIs(er, ei);
    BetweenIs(r.s, ei);
    var a := WriteToken(r, E, er);
    var b := WriteToken(a.state, EE, er);
    var d := WriteToken(b.state, S, er);
    var e := WriteToken(d.state, ES, er);
    var none: seq<Token> := [];
    WriteCons(d.state, ES, none, er, [ES], []);
    WriteCons(b.state, S, [ES], er, [S, ES], d.value);
    WriteCons(a.state, EE, [S, ES], er, [EE, S, ES], d.value);
    WriteCons(r, E, [EE, S, ES], er, [E, EE, S, ES], a.value + d.value);
  }

  lemma {:induction false} SecondWritten(r: Handshake, c: Chain, ei: PrivateKey, er: PrivateKey, payload: seq<Sym>)
    requires AwaitsReply(r, ei, c)
    ensures var after := AfterSecond(c, ei, er, r.s, payload);
            WriteMessage(r, payload, er)
            == Did(r.(messages := XX[2..], e := Some(er),
                      ss := Symmetric(Cipher(Some(PayloadKey(c, ei, er, r.s)), 1), after.ck, after.h)),
                   Leg(SecondWire(c, ei, er, r.s, payload), None))
  {
    var r' := r.(messages := XX[2..]);
    assert r.messages[0] == [E, EE, S, ES] && r.messages[1..] == XX[2..];
    SecondTokensWritten(r', c, ei, er);
    PayloadWritten(WriteTokens(r', [E, EE, S, ES], er).state, PayloadKey(c, ei, er, r.s), payload);
  }

  /** The initiator's third message, whatever responder it has heard from. */
  lemma {:induction false} ThirdWritten(i: Handshake, c: Chain, k: CipherKey, er: PrivateKey, payload: seq<Sym>, eph: PrivateKey)
    requires i.initiator && i.re == Some(PubBytes(er)) && i.messages == XX[2..] && i.ss == Symmetric(Cipher(Some(k), 1), c.ck, c.h)
    ensures var done := ThirdDone(i, c, k, i.s, er, payload);
            WriteMessage(i, payload, eph) == Did(done, Leg(ThirdWire(c, k, i.s, er, payload), Some(Split(done.ss))))
  {
    var i' := i.(messages := []);
    assert i.messages[0] == [S, SE] && i.messages[1..] == [];
    BetweenIs(i.s, er);
    var a := WriteToken(i', S, eph);
    var b := WriteToken(a.state, SE, eph);
    var none: seq<Token> := [];
    WriteCons(a.state, SE, none, eph, [SE], []);
    WriteCons(i', S, [SE], eph, [S, SE], a.value);
    PayloadWritten(b.state, TempKey(c.ck, Between(i.s, er)), payload);
  }

  // ---- The whole handshake ----

  /** Names of at most 32 bytes count with zeroes after them; longer ones are told apart by their hash. */
  lemma {:induction false} NameDigestIff(x: seq<Sym>, y: seq<Sym>)
    ensures NameDigest(x) == NameDigest(y)
       <==> || (|x| > 32 && |y| > 32 && x == y)
            || (|x| <= 32 && |y| <= 32 && x + seq(32 - |x|, _ => Octet(0)) == y + seq(32 - |y|, _ => Octet(0)))
  {
    if |x| <= 32 && |y| <= 32 {
      var p, q := x + seq(32 - |x|, _ => Octet(0)), y + seq(32 - |y|, _ => Octet(0));
      assert NameDigest(x) == Padded(p) && NameDigest(y) == Padded(q);
    }
  }

  /** Chaining key and transcript after the first message. */
  function AfterFirst(name: seq<Sym>, prologue: seq<Sym>, ei: PrivateKey, payload: seq<Sym>): Chain {
    var h := Mixed(Mixed(NameDigest(name), prologue), PubBytes(ei));
    Chain(FromDigest(NameDigest(name)), if payload == [] then h else Mixed(h, payload))
  }

  /** The three messages and the keys of a handshake, in terms of the four key pairs alone: the chaining key takes in
      the secrets of the two ephemeral keys, of the initiator's ephemeral with the responder's static key, and of the
      initiator's static with the responder's ephemeral key, in this order. */
  lemma {:induction false} HandshakeKeys(name: seq<Sym>, prologue: seq<Sym>, si: PrivateKey, sr: PrivateKey, ei: PrivateKey, er: PrivateKey,
                                         p1: seq<Sym>, p2: seq<Sym>, p3: seq<Sym>)
    ensures var done := Perform(InitHandshake(name, prologue, si, true), InitHandshake(name, prologue, sr, false), ei, er, p1, p2, p3);
            var c1 := AfterFirst(name, prologue, ei, p1);
            var c2, k := AfterSecond(c1, ei, er, sr, p2), PayloadKey(c1, ei, er, sr);
            && done.Completed? && done.i.ss == done.r.ss
            && done.i.ss.ck == Chained(Chained(Chained(FromDigest(NameDigest(name)), Between(ei, er)), Between(ei, sr)), Between(si, er))
            && done.i.ss.h == AfterThird(c2, k, si, er, p3).h
            && done.written == [Leg(PubBytes(ei) + p1, None), Leg(SecondWire(c1, ei, er, sr, p2), None),
                                Leg(ThirdWire(c2, k, si, er, p3),
                                    Some((Cipher(Some(FirstHalf(done.i.ss.ck)), 0), Cipher(Some(SecondHalf(done.i.ss.ck)), 0))))]
  {
    var i0, r0 := InitHandshake(name, prologue, si, true), InitHandshake(name, prologue, sr, false);
    var c1 := AfterFirst(name, prologue, ei, p1);
    var c2, k := AfterSecond(c1, ei, er, sr, p2), PayloadKey(c1, ei, er, sr);
    WriteFirst(i0, p1, ei);
    ReadFirst(r0, PubBytes(ei) + p1, PubBytes(ei), p1);
    var i1 := WriteMessage(i0, p1, ei).state;
    var r1 := ReadMessage(r0, PubBytes(ei) + p1).state;
    assert i1 == FirstDone(i0, c1).(e := Some(ei));
    assert r1 == FirstDone(r0, c1).(re := Some(PubBytes(ei)));
    LaterLegs(i0, r0, i1, r1, c1, ei, er, p2, p3);
  }

  function FirstDone(hs: Handshake, c: Chain): Handshake {
    hs.(messages := XX[1..], ss := Symmetric(Cipher(None, 0), c.ck, c.h))
  }

  lemma {:induction false} LaterLegs(i0: Handshake, r0: Handshake, i1: Handshake, r1: Handshake, c1: Chain, ei: PrivateKey, er: PrivateKey,
                                     p2: seq<Sym>, p3: seq<Sym>)
    requires i0.initiator && !r0.initiator
    requires i1 == FirstDone(i0, c1).(e := Some(ei)) && r1 == FirstDone(r0, c1).(re := Some(PubBytes(ei)))
    ensures var c2, k := AfterSecond(c1, ei, er, r0.s, p2), PayloadKey(c1, ei, er, r0.s);
            var w2 := WriteMessage(r1, p2, er);
            && w2.Did? && w2.value == Leg(SecondWire(c1, ei, er, r0.s, p2), None)
            && var g2 := ReadMessage(i1, w2.value.bytes);
            && g2.Did?
            && var w3 := WriteMessage(g2.state, p3, ei);
            && w3.Did? && w3.value == Leg(ThirdWire(c2, k, i0.s, er, p3), Some(Split(w3.state.ss)))
            && w3.state.ss.ck == AfterThird(c2, k, i0.s, er, p3).ck && w3.state.ss.h == AfterThird(c2, k, i0.s, er, p3).h
            && var g3 := ReadMessage(w2.state, w3.value.bytes);
            g3.Did? && g3.state.ss == w3.state.ss
  {
    var c2, k := AfterSecond(c1, ei, er, r0.s, p2), PayloadKey(c1, ei, er, r0.s);
    var wire2 := SecondWire(c1, ei, er, r0.s, p2);
    SecondWritten(r1, c1, ei, er, p2);
    SecondReadIff(i1, c1, ei, wire2, er, r0.s, p2);
    var r2, i2 := WriteMessage(r1, p2, er).state, ReadMessage(i1, wire2).state;
    ThirdWritten(i2, c2, k, er, p3, ei);
    ThirdReadIff(r2, c2, k, er, ThirdWire(c2, k, i0.s, er, p3), i0.s, p3);
  }
}
