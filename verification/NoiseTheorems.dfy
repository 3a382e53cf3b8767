/** The handshake: initiator and mirrored responder stay in step, whatever they send. */
module NoiseTheorems {
  import opened Sequences
  import opened Outcomes
  import opened SymbolicCrypto
  import opened NoiseTerms
  import opened Noise

  /** What each side knows of the other's keys is what the other side has. */
  ghost predicate KeysMirror(a: Handshake, b: Handshake) {
    && (a.re.Some? <==> b.e.Some?) && (b.e.Some? ==> a.re.value == PubBytes(b.e.value))
    && (a.rs.Some? ==> a.rs.value == PubBytes(b.s))
  }

  ghost predicate Mirror(a: Handshake, b: Handshake) {
    a.initiator != b.initiator && a.messages == b.messages && KeysMirror(a, b) && KeysMirror(b, a)
  }

  ghost predicate InStep(a: Handshake, b: Handshake) {
    a.ss == b.ss && Mirror(a, b)
  }

  /** The token's Diffie-Hellman uses the static key of the other side. */
  predicate UsesPeerStatic(hs: Handshake, token: Token) {
    (token == ES && hs.initiator) || (token == SE && !hs.initiator)
  }

  lemma {:induction false} TokenDhAgrees(a: Handshake, b: Handshake, token: Token)
    requires Mirror(a, b) && TokenDh(a, token).Some? && (UsesPeerStatic(b, token) ==> b.rs.Some?)
    ensures TokenDh(b, token) == TokenDh(a, token)
  {
    match token
    case EE => SharedAgrees(a.e.value, b.e.value);
    case ES =>
      if a.initiator { SharedAgrees(a.e.value, b.s); } else { SharedAgrees(a.s, b.e.value); }
    case SE =>
      if a.initiator { SharedAgrees(a.s, b.e.value); } else { SharedAgrees(a.e.value, b.s); }
    case _ =>
  }

  lemma {:induction false} Front(x: seq<Sym>, rest: seq<Sym>)
    ensures (x + rest)[..|x|] == x && (x + rest)[|x|..] == rest
  {
  }

  /** Decrypting what was encrypted, in the same symmetric state. */
  lemma {:induction false} SealedBack(s: Symmetric, plain: seq<Sym>)
    ensures DecryptAndHash(s, EncryptAndHash(s, plain).1) == Did(EncryptAndHash(s, plain).0, plain)
    ensures |EncryptAndHash(s, plain).1| == |plain| + if s.cs.k.Some? then TAG_LEN else 0
  {
    if s.cs.k.Some? {
      var c := Seal(Box(s.cs.k.value, s.cs.n, Transcript(s.h), plain));
      assert Open(s.cs.k.value, s.cs.n, Transcript(s.h), c) == Some(plain);
    }
  }

  /** One token, written and read back in step. */
  lemma {:induction false} TokenBack(a: Handshake, b: Handshake, token: Token, eph: PrivateKey, rest: seq<Sym>)
    requires InStep(a, b) && WriteToken(a, token, eph).Did? && (UsesPeerStatic(b, token) ==> b.rs.Some?)
    ensures var w := WriteToken(a, token, eph); var r := ReadToken(b, token, w.value + rest);
            r.Did? && r.value == rest && InStep(w.state, r.state) && (token == S || b.rs.Some? ==> r.state.rs.Some?)
  {
    var w := WriteToken(a, token, eph);
    Front(w.value, rest);
    match token
    case E =>
    case S =>
      SealedBack(a.ss, PubBytes(a.s));
    case _ =>
      TokenDhAgrees(a, b, token);
      assert [] + rest == rest;
  }

  lemma {:induction false} PayloadBack(a: Handshake, b: Handshake, payload: seq<Sym>)
    requires InStep(a, b)
    ensures var (w, ct) := WritePayload(a, payload); var r := ReadPayload(b, ct);
            r.Did? && r.value == payload && InStep(w, r.state)
            && w.messages == a.messages && (b.rs.Some? ==> r.state.rs.Some?)
  {
    SealedBack(a.ss, payload);
  }

  /** Every token that needs the other side's static key comes after that key is known. */
  predicate Supplied(initiator: bool, known: bool, tokens: seq<Token>)
    decreases |tokens|
  {
    tokens != [] ==>
      && ((tokens[0] == ES && initiator) || (tokens[0] == SE && !initiator) ==> known)
      && Supplied(initiator, known || tokens[0] == S, tokens[1..])
  }

  /** The reader, having consumed exactly the tokens, is in step with the writer. */
  ghost predicate ReadBack(w: Handshake, b: Handshake, r: Step<Handshake, seq<Sym>>, rest: seq<Sym>, learns: bool) {
    && r.Did? && r.value == rest && InStep(w, r.state)
    && (b.rs.Some? || learns ==> r.state.rs.Some?) && r.state.s == b.s && r.state.initiator == b.initiator
  }

  lemma {:induction false} ReadCons(b: Handshake, tokens: seq<Token>, message: seq<Sym>, b1: Handshake, m1: seq<Sym>)
    requires tokens != [] && ReadToken(b, tokens[0], message) == Did(b1, m1)
    ensures ReadTokens(b, tokens, message) == ReadTokens(b1, tokens[1..], m1)
  {
  }

  lemma {:induction false} WriteParts(a: Handshake, tokens: seq<Token>, eph: PrivateKey, rest: seq<Sym>)
    requires tokens != [] && WriteTokens(a, tokens, eph).Did?
    ensures var first := WriteToken(a, tokens[0], eph);
            && first.Did? && var others := WriteTokens(first.state, tokens[1..], eph);
            others.Did? && WriteTokens(a, tokens, eph).state == others.state
            && WriteTokens(a, tokens, eph).value + rest == first.value + (others.value + rest)
  {
    var first := WriteToken(a, tokens[0], eph);
    var others := WriteTokens(first.state, tokens[1..], eph);
    assert first.value + others.value + rest == first.value + (others.value + rest);
  }

  lemma {:induction false} TokensBack(a: Handshake, b: Handshake, tokens: seq<Token>, eph: PrivateKey, rest: seq<Sym>)
    requires InStep(a, b) && WriteTokens(a, tokens, eph).Did? && Supplied(b.initiator, b.rs.Some?, tokens)
    ensures var w := WriteTokens(a, tokens, eph);
            ReadBack(w.state, b, ReadTokens(b, tokens, w.value + rest), rest, S in tokens)
    decreases |tokens|
  {
    if tokens == [] {
      assert [] + rest == rest;
    } else {
      WriteParts(a, tokens, eph, rest);
      var first := WriteToken(a, tokens[0], eph);
      var mid := WriteTokens(first.state, tokens[1..], eph).value + rest;
      TokenBack(a, b, tokens[0], eph, mid);
      var b1 := ReadToken(b, tokens[0], first.value + mid).state;
      assert b1.s == b.s && b1.initiator == b.initiator && (b1.rs.Some? <==> b.rs.Some? || tokens[0] == S);
      ReadCons(b, tokens, first.value + mid, b1, mid);
      TokensBack(first.state, b1, tokens[1..], eph, rest);
    }
  }

  /** One whole message: read back with its payload, both sides in step after it. */
  lemma {:induction false} MessageBack(a: Handshake, b: Handshake, payload: seq<Sym>, eph: PrivateKey)
    requires InStep(a, b) && WriteMessage(a, payload, eph).Did? && Supplied(b.initiator, b.rs.Some?, b.messages[0])
    ensures var w := WriteMessage(a, payload, eph); var r := ReadMessage(b, w.value.bytes);
            r.Did? && r.value == Leg(payload, w.value.split) && InStep(w.state, r.state)
            && (b.rs.Some? || S in b.messages[0] ==> r.state.rs.Some?)
            && r.state.s == b.s && r.state.initiator == b.initiator
  {
    var a', b' := a.(messages := a.messages[1..]), b.(messages := b.messages[1..]);
    var w := WriteTokens(a', a.messages[0], eph);
    var (done, ct) := WritePayload(w.state, payload);
    TokensBack(a', b', a.messages[0], eph, ct);
    PayloadBack(w.state, ReadTokens(b', a.messages[0], w.value + ct).state, payload);
  }

  // ---- A whole handshake ----

  datatype Ended =
    | Failed(leg: nat, reading: bool)
    | Completed(i: Handshake, r: Handshake, written: seq<Leg>, read: seq<Leg>)

  /** Three messages, delivered as written: the initiator's, the responder's, the initiator's. */
  function Perform(i0: Handshake, r0: Handshake, ei: PrivateKey, er: PrivateKey,
                   p1: seq<Sym>, p2: seq<Sym>, p3: seq<Sym>): Ended {
    var w1 := WriteMessage(i0, p1, ei);
    if w1.Raised? then Failed(1, false)
    else
      var g1 := ReadMessage(r0, w1.value.bytes);
      if g1.Raised? then Failed(1, true)
      else
        var w2 := WriteMessage(g1.state, p2, er);
        if w2.Raised? then Failed(2, false)
        else
          var g2 := ReadMessage(w1.state, w2.value.bytes);
          if g2.Raised? then Failed(2, true)
          else
            var w3 := WriteMessage(g2.state, p3, ei);
            if w3.Raised? then Failed(3, false)
            else
              var g3 := ReadMessage(w2.state, w3.value.bytes);
              if g3.Raised? then Failed(3, true)
              else Completed(w3.state, g3.state, [w1.value, w2.value, w3.value], [g1.value, g2.value, g3.value])
  }

  lemma {:induction false} FirstWrites(hs: Handshake, payload: seq<Sym>, eph: PrivateKey)
    requires hs.messages == XX
    ensures var w := WriteMessage(hs, payload, eph);
            w.Did? && w.state.messages == XX[1..] && w.value.split.None? && w.state.e == Some(eph)
            && w.state.s == hs.s && w.state.rs == hs.rs && w.state.initiator == hs.initiator
  {
    assert WriteTokens(hs.(messages := hs.messages[1..]), [E], eph).Did?;
  }

  lemma {:induction false} WriteCons(hs: Handshake, token: Token, tail: seq<Token>, eph: PrivateKey, tokens: seq<Token>, out: seq<Sym>)
    requires tokens == [token] + tail && WriteToken(hs, token, eph).Did?
    requires var first := WriteToken(hs, token, eph);
             var others := WriteTokens(first.state, tail, eph); others.Did? && out == first.value + others.value
    ensures WriteTokens(hs, tokens, eph) == Did(WriteTokens(WriteToken(hs, token, eph).state, tail, eph).state, out)
  {
    assert tokens[1..] == tail;
  }

  /** What `E, EE, S, ES` writes, and where it leaves the writer. */
  lemma {:induction false} SecondTokens(hs: Handshake, eph: PrivateKey)
    requires hs.re.Some? && !hs.initiator
    ensures var w := WriteTokens(hs, [E, EE, S, ES], eph);
            w.Did? && w.state.messages == hs.messages && w.state.e == Some(eph) && w.state.s == hs.s
            && w.state.re == hs.re && w.state.rs == hs.rs && w.state.initiator == hs.initiator
            && var h1 := Mixed(hs.ss.h, PubBytes(eph));
            var k := TempKey(hs.ss.ck, SharedSecret(eph, hs.re.value));
            w.value == PubBytes(eph) + Seal(Box(k, 0, Transcript(h1), PubBytes(hs.s)))
  {
    var a := WriteToken(hs, E, eph);
    var b := WriteToken(a.state, EE, eph);
    var c := WriteToken(b.state, S, eph);
    var d := WriteToken(c.state, ES, eph);
    WriteCons(c.state, ES, [], eph, [ES], []);
    WriteCons(b.state, S, [ES], eph, [S, ES], c.value);
    WriteCons(a.state, EE, [S, ES], eph, [EE, S, ES], c.value);
    WriteCons(hs, E, [EE, S, ES], eph, [E, EE, S, ES], a.value + c.value);
  }

  lemma {:induction false} ThirdTokens(hs: Handshake, eph: PrivateKey)
    requires hs.re.Some? && hs.initiator
    ensures var w := WriteTokens(hs, [S, SE], eph);
            w.Did? && w.state.messages == hs.messages && w.state.s == hs.s && w.state.rs == hs.rs
  {
    var a := WriteToken(hs, S, eph);
    var b := WriteToken(a.state, SE, eph);
    WriteCons(a.state, SE, [], eph, [SE], []);
    WriteCons(hs, S, [SE], eph, [S, SE], a.value);
  }

  lemma {:induction false} SuppliedInXX()
    ensures Supplied(false, false, XX[0]) && Supplied(true, false, XX[1]) && Supplied(false, false, XX[2])
  {
    assert [E][1..] == [];
    assert [ES][1..] == [] && [S, ES][1..] == [ES] && [EE, S, ES][1..] == [S, ES] && [E, EE, S, ES][1..] == [EE, S, ES];
    assert Supplied(true, true, [ES]);
    assert Supplied(true, false, [S, ES]);
    assert [SE][1..] == [] && [S, SE][1..] == [SE];
    assert Supplied(false, true, [SE]);
  }

  lemma {:induction false} SuppliedMore(initiator: bool, tokens: seq<Token>)
    requires Supplied(initiator, false, tokens)
    ensures Supplied(initiator, true, tokens)
    decreases |tokens|
  {
    if tokens != [] && tokens[0] != S {
      SuppliedMore(initiator, tokens[1..]);
    }
  }

  lemma {:induction false} SuppliedAlways(known: bool)
    ensures Supplied(false, known, XX[0]) && Supplied(true, known, XX[1]) && Supplied(false, known, XX[2])
  {
    SuppliedInXX();
    SuppliedMore(false, XX[0]);
    SuppliedMore(true, XX[1]);
    SuppliedMore(false, XX[2]);
  }

  lemma {:induction false} SecondWrites(hs: Handshake, payload: seq<Sym>, eph: PrivateKey)
    requires hs.messages == XX[1..] && hs.re.Some? && !hs.initiator
    ensures var w := WriteMessage(hs, payload, eph);
            w.Did? && w.state.messages == XX[2..] && w.value.split.None? && w.state.e == Some(eph)
            && w.state.s == hs.s && w.state.re == hs.re && w.state.rs == hs.rs && w.state.initiator == hs.initiator
  {
    SecondTokens(hs.(messages := hs.messages[1..]), eph);
  }

  lemma {:induction false} ThirdWrites(hs: Handshake, payload: seq<Sym>, eph: PrivateKey)
    requires hs.messages == XX[2..] && hs.re.Some? && hs.initiator
    ensures var w := WriteMessage(hs, payload, eph);
            w.Did? && w.state.messages == [] && w.value.split == Some(Split(w.state.ss)) && w.state.s == hs.s
            && w.state.rs == hs.rs
  {
    ThirdTokens(hs.(messages := hs.messages[1..]), eph);
  }

  /** In step after `n` messages, with the keys learnt by then. */
  ghost predicate Stage(i: Handshake, r: Handshake, si: PrivateKey, sr: PrivateKey, n: nat)
    requires n <= 3
  {
    && InStep(i, r) && i.initiator && i.messages == XX[n..] && i.s == si && r.s == sr
    && (n >= 1 ==> r.re.Some?) && (n >= 2 ==> i.re.Some? && i.rs.Some?) && (n >= 3 ==> r.rs.Some?)
  }

  lemma {:induction false} FirstLeg(i: Handshake, r: Handshake, payload: seq<Sym>, eph: PrivateKey)
    requires Stage(i, r, i.s, r.s, 0)
    ensures var w := WriteMessage(i, payload, eph);
            w.Did? && w.value.split.None?
            && var g := ReadMessage(r, w.value.bytes);
            g.Did? && g.value == Leg(payload, None) && Stage(w.state, g.state, i.s, r.s, 1)
  {
    SuppliedAlways(r.rs.Some?);
    FirstWrites(i, payload, eph);
    MessageBack(i, r, payload, eph);
  }

  lemma {:induction false} SecondLeg(i: Handshake, r: Handshake, payload: seq<Sym>, eph: PrivateKey)
    requires Stage(i, r, i.s, r.s, 1)
    ensures var w := WriteMessage(r, payload, eph);
            w.Did? && w.value.split.None?
            && var g := ReadMessage(i, w.value.bytes);
            g.Did? && g.value == Leg(payload, None) && Stage(g.state, w.state, i.s, r.s, 2)
  {
    SuppliedAlways(i.rs.Some?);
    SecondWrites(r, payload, eph);
    MessageBack(r, i, payload, eph);
    var w := WriteMessage(r, payload, eph);
    StageTwo(i, r, w.state, ReadMessage(i, w.value.bytes).state);
  }

  lemma {:induction false} StageTwo(i: Handshake, r: Handshake, w: Handshake, g: Handshake)
    requires Stage(i, r, i.s, r.s, 1) && InStep(w, g) && w.e.Some? && w.re.Some? && w.messages == XX[2..]
    requires w.s == r.s && g.s == i.s && g.initiator && g.rs.Some?
    ensures Stage(g, w, i.s, r.s, 2)
  {
  }

  lemma {:induction false} ThirdLeg(i: Handshake, r: Handshake, payload: seq<Sym>, eph: PrivateKey)
    requires Stage(i, r, i.s, r.s, 2)
    ensures var w := WriteMessage(i, payload, eph);
            w.Did? && w.value.split == Some(Split(w.state.ss))
            && var g := ReadMessage(r, w.value.bytes);
            g.Did? && g.value == Leg(payload, w.value.split) && Stage(w.state, g.state, i.s, r.s, 3)
  {
    SuppliedAlways(r.rs.Some?);
    ThirdWrites(i, payload, eph);
    MessageBack(i, r, payload, eph);
  }

  /** Two parties in step complete the handshake: same hash and chaining key, each payload recovered,
      each other's static keys learnt, and the transport ciphers on the third message only. */
  lemma {:induction false} HandshakeAgrees(i0: Handshake, r0: Handshake, ei: PrivateKey, er: PrivateKey,
                        p1: seq<Sym>, p2: seq<Sym>, p3: seq<Sym>)
    requires InStep(i0, r0) && i0.initiator && i0.messages == XX
    ensures var done := Perform(i0, r0, ei, er, p1, p2, p3);
            && done.Completed? && done.i.ss == done.r.ss
            && done.i.rs == Some(PubBytes(r0.s)) && done.r.rs == Some(PubBytes(i0.s))
            && done.read == [Leg(p1, None), Leg(p2, None), Leg(p3, Some(Split(done.i.ss)))]
            && done.written[0].split.None? && done.written[1].split.None?
            && done.written[2].split == done.read[2].split
  {
    FirstLeg(i0, r0, p1, ei);
    var w1 := WriteMessage(i0, p1, ei);
    var r1 := ReadMessage(r0, w1.value.bytes).state;
    SecondLeg(w1.state, r1, p2, er);
    var w2 := WriteMessage(r1, p2, er);
    var i2 := ReadMessage(w1.state, w2.value.bytes).state;
    ThirdLeg(i2, w2.state, p3, ei);
  }

  // ---- Different prologues ----

  /** Keyless on both sides, with different transcripts. */
  ghost predicate Apart(a: Handshake, b: Handshake) {
    a.ss.h != b.ss.h && a.ss.cs.k.None? && b.ss.cs.k.None? && Mirror(a, b)
  }

  lemma {:induction false} ReadFirst(b: Handshake, message: seq<Sym>, public: seq<Sym>, payload: seq<Sym>)
    requires b.messages == XX && b.ss.cs.k.None? && |public| == DHLEN && message == public + payload
    ensures var b1 := b.(messages := XX[1..], re := Some(public), ss := MixHash(b.ss, public));
            ReadMessage(b, message)
            == Did(if payload == [] then b1 else b1.(ss := MixHash(b1.ss, payload)), Leg(payload, None))
  {
    Front(public, payload);
    var b1 := b.(messages := XX[1..], re := Some(public), ss := MixHash(b.ss, public));
    assert XX[0][1..] == [];
    assert ReadTokens(b.(messages := XX[1..]), [E], message) == Did(b1, payload);
  }

  lemma {:induction false} WriteFirst(a: Handshake, payload: seq<Sym>, eph: PrivateKey)
    requires a.messages == XX && a.ss.cs.k.None?
    ensures var a1 := a.(messages := XX[1..], e := Some(eph), ss := MixHash(a.ss, PubBytes(eph)));
            WriteMessage(a, payload, eph)
            == Did(if payload == [] then a1 else a1.(ss := MixHash(a1.ss, payload)), Leg(PubBytes(eph) + payload, None))
  {
    var a0 := a.(messages := XX[1..]);
    var a1 := a0.(e := Some(eph), ss := MixHash(a.ss, PubBytes(eph)));
    WriteCons(a0, E, [], eph, [E], PubBytes(eph));
    assert WriteTokens(a0, XX[0], eph) == Did(a1, PubBytes(eph));
    assert PubBytes(eph) + [] == PubBytes(eph);
  }

  lemma {:induction false} FirstLegApart(i: Handshake, r: Handshake, payload: seq<Sym>, eph: PrivateKey)
    requires Apart(i, r) && i.initiator && i.messages == XX
    ensures var w := WriteMessage(i, payload, eph);
            w.Did?
            && var g := ReadMessage(r, w.value.bytes);
            g.Did? && Apart(w.state, g.state) && w.state.initiator && w.state.messages == XX[1..] && g.state.re.Some?
  {
    WriteFirst(i, payload, eph);
    ReadFirst(r, PubBytes(eph) + payload, PubBytes(eph), payload);
  }

  /** The static key of the second message was sealed under another transcript. */
  lemma {:induction false} SecondTokensApart(i: Handshake, public: seq<Sym>, box: Box, rest: seq<Sym>, message: seq<Sym>)
    requires i.ss.cs.k.None? && |public| == DHLEN && |box.plain| == DHLEN
    requires message == public + Seal(box) + rest && box.ad != Transcript(Mixed(i.ss.h, public))
    ensures ReadTokens(i, [E, EE, S, ES], message).Raised?
  {
    var sealed := Seal(box);
    assert message == public + (sealed + rest);
    Front(public, sealed + rest);
    Front(sealed, rest);
    var i1 := ReadToken(i, E, message).state;
    assert [E, EE, S, ES][1..] == [EE, S, ES] && [EE, S, ES][1..] == [S, ES];
    var mixed := ReadToken(i1, EE, sealed + rest);
    if mixed.Did? {
      var i2 := mixed.state;
      assert i2.ss.h == Mixed(i.ss.h, public);
      var k := i2.ss.cs.k.value;
      assert ReadToken(i2, S, sealed + rest).Raised?;
    }
  }

  lemma {:induction false} SecondLegApart(i: Handshake, r: Handshake, payload: seq<Sym>, eph: PrivateKey)
    requires Apart(i, r) && i.initiator && i.messages == XX[1..] && r.re.Some?
    ensures var w := WriteMessage(r, payload, eph); w.Did? && ReadMessage(i, w.value.bytes).Raised?
  {
    var r', i' := r.(messages := XX[2..]), i.(messages := XX[2..]);
    SecondTokens(r', eph);
    var w := WriteTokens(r', XX[1], eph);
    var (done, ct) := WritePayload(w.state, payload);
    var box := Box(TempKey(r.ss.ck, SharedSecret(eph, r.re.value)), 0, Transcript(Mixed(r.ss.h, PubBytes(eph))), PubBytes(r.s));
    SecondTokensApart(i', PubBytes(eph), box, ct, w.value + ct);
  }

  /** The handshake completes exactly when both sides started from the same protocol name digest and
      prologue; otherwise the initiator rejects the second message. */
  lemma {:induction false} HandshakeIff(nameI: seq<Sym>, nameR: seq<Sym>, prologueI: seq<Sym>, prologueR: seq<Sym>,
                     si: PrivateKey, sr: PrivateKey, ei: PrivateKey, er: PrivateKey,
                     p1: seq<Sym>, p2: seq<Sym>, p3: seq<Sym>)
    ensures var done := Perform(InitHandshake(nameI, prologueI, si, true), InitHandshake(nameR, prologueR, sr, false),
                                ei, er, p1, p2, p3);
            if NameDigest(nameI) == NameDigest(nameR) && prologueI == prologueR then done.Completed?
            else done == Failed(2, true)
  {
    var i0, r0 := InitHandshake(nameI, prologueI, si, true), InitHandshake(nameR, prologueR, sr, false);
    if NameDigest(nameI) == NameDigest(nameR) && prologueI == prologueR {
      HandshakeAgrees(i0, r0, ei, er, p1, p2, p3);
    } else {
      FirstLegApart(i0, r0, p1, ei);
      var w1 := WriteMessage(i0, p1, ei);
      var r1 := ReadMessage(r0, w1.value.bytes).state;
      SecondLegApart(w1.state, r1, p2, er);
    }
  }

  // ---- Only what the other side wrote is accepted ----

  lemma {:induction false} OpenedOnly(s: Symmetric, ct: seq<Sym>)
    requires DecryptAndHash(s, ct).Did?
    ensures EncryptAndHash(s, DecryptAndHash(s, ct).value) == (DecryptAndHash(s, ct).state, ct)
  {
  }

  lemma {:induction false} TokenOnly(a: Handshake, b: Handshake, token: Token, eph: PrivateKey, message: seq<Sym>)
    requires InStep(a, b) && ReadToken(b, token, message).Did? && !UsesPeerStatic(a, token)
    requires token == E ==> ReadToken(b, token, message).state.re == Some(PubBytes(eph))
    requires token == S ==> ReadToken(b, token, message).state.rs == Some(PubBytes(a.s))
    ensures var r := ReadToken(b, token, message); var w := WriteToken(a, token, eph);
            w.Did? && message == w.value + r.value && InStep(w.state, r.state)
            && w.state.s == a.s && w.state.initiator == a.initiator
  {
    match token
    case E =>
    case S =>
      var need := DHLEN + if b.ss.cs.k.Some? then TAG_LEN else 0;
      OpenedOnly(b.ss, message[..need]);
    case _ =>
      TokenDhAgrees(b, a, token);
      assert message == [] + message;
  }

  predicate AtMostOnce(tokens: seq<Token>)
    decreases |tokens|
  {
    tokens != [] ==>
      (tokens[0] == E || tokens[0] == S ==> tokens[0] !in tokens[1..]) && AtMostOnce(tokens[1..])
  }

  lemma {:induction false} ReadKeeps(b: Handshake, tokens: seq<Token>, message: seq<Sym>)
    requires ReadTokens(b, tokens, message).Did?
    ensures E !in tokens ==> ReadTokens(b, tokens, message).state.re == b.re
    ensures S !in tokens ==> ReadTokens(b, tokens, message).state.rs == b.rs
    decreases |tokens|
  {
    if tokens != [] {
      var first := ReadToken(b, tokens[0], message);
      ReadKeeps(first.state, tokens[1..], first.value);
    }
  }

  lemma {:induction false} TokensOnly(a: Handshake, b: Handshake, tokens: seq<Token>, eph: PrivateKey, message: seq<Sym>)
    requires InStep(a, b) && ReadTokens(b, tokens, message).Did? && AtMostOnce(tokens)
    requires forall token | token in tokens :: !UsesPeerStatic(a, token)
    requires E in tokens ==> ReadTokens(b, tokens, message).state.re == Some(PubBytes(eph))
    requires S in tokens ==> ReadTokens(b, tokens, message).state.rs == Some(PubBytes(a.s))
    ensures var r := ReadTokens(b, tokens, message); var w := WriteTokens(a, tokens, eph);
            w.Did? && message == w.value + r.value && InStep(w.state, r.state)
    decreases |tokens|
  {
    if tokens == [] {
      assert message == [] + message;
    } else {
      var r := ReadToken(b, tokens[0], message);
      ReadKeeps(r.state, tokens[1..], r.value);
      TokenOnly(a, b, tokens[0], eph, message);
      var w := WriteToken(a, tokens[0], eph);
      forall token | token in tokens[1..]
        ensures !UsesPeerStatic(w.state, token)
      {
        assert token in tokens && !UsesPeerStatic(a, token);
      }
      TokensOnly(w.state, r.state, tokens[1..], eph, r.value);
      var others := WriteTokens(w.state, tokens[1..], eph);
      WrittenCons(a, tokens, eph, message, r.value, ReadTokens(b, tokens, message).value);
    }
  }

  lemma {:induction false} WrittenCons(a: Handshake, tokens: seq<Token>, eph: PrivateKey, message: seq<Sym>, mid: seq<Sym>, rest: seq<Sym>)
    requires tokens != [] && WriteToken(a, tokens[0], eph).Did?
    requires var w := WriteToken(a, tokens[0], eph); var others := WriteTokens(w.state, tokens[1..], eph);
             others.Did? && message == w.value + mid && mid == others.value + rest
    ensures var w := WriteToken(a, tokens[0], eph); var others := WriteTokens(w.state, tokens[1..], eph);
            WriteTokens(a, tokens, eph) == Did(others.state, w.value + others.value)
            && message == w.value + others.value + rest
  {
    var w := WriteToken(a, tokens[0], eph);
    var others := WriteTokens(w.state, tokens[1..], eph);
    Associates(w.value, others.value, rest);
  }

  lemma {:induction false} PayloadOnly(a: Handshake, b: Handshake, message: seq<Sym>)
    requires InStep(a, b) && ReadPayload(b, message).Did?
    ensures var r := ReadPayload(b, message); var (w, ct) := WritePayload(a, r.value);
            ct == message && InStep(w, r.state) && r.state.re == b.re && r.state.rs == b.rs
  {
    if message != [] || b.ss.cs.k.Some? {
      OpenedOnly(b.ss, message);
    }
  }

  /** A message that is accepted, with genuine keys in it, is byte for byte what the other side
      writes for the payload it yields. */
  lemma {:induction false} MessageOnly(a: Handshake, b: Handshake, eph: PrivateKey, message: seq<Sym>)
    requires InStep(a, b) && ReadMessage(b, message).Did? && AtMostOnce(b.messages[0])
    requires forall token | token in b.messages[0] :: !UsesPeerStatic(a, token)
    requires E in b.messages[0] ==> ReadMessage(b, message).state.re == Some(PubBytes(eph))
    requires S in b.messages[0] ==> ReadMessage(b, message).state.rs == Some(PubBytes(a.s))
    ensures var r := ReadMessage(b, message); var w := WriteMessage(a, r.value.bytes, eph);
            w.Did? && w.value == Leg(message, r.value.split) && InStep(w.state, r.state)
  {
    var a', b' := a.(messages := a.messages[1..]), b.(messages := b.messages[1..]);
    var r := ReadTokens(b', b.messages[0], message);
    assert ReadPayload(r.state, r.value).state.re == r.state.re && ReadPayload(r.state, r.value).state.rs == r.state.rs;
    TokensOnly(a', b', b.messages[0], eph, message);
    PayloadOnly(WriteTokens(a', b.messages[0], eph).state, r.state, r.value);
  }

  /** The second message: accepted with the responder's static key and the ephemeral key of `er`
      exactly when the responder, drawing `er`, writes it for some payload. */
  lemma {:induction false} SecondLegOnly(i: Handshake, r: Handshake, er: PrivateKey, message: seq<Sym>)
    requires Stage(i, r, i.s, r.s, 1)
    ensures var g := ReadMessage(i, message);
            (g.Did? && g.state.re == Some(PubBytes(er)) && g.state.rs == Some(PubBytes(r.s)))
            <==> exists payload :: WriteMessage(r, payload, er).Did? && WriteMessage(r, payload, er).value.bytes == message
  {
    var g := ReadMessage(i, message);
    if g.Did? && g.state.re == Some(PubBytes(er)) && g.state.rs == Some(PubBytes(r.s)) {
      SecondOnce();
      MessageOnly(r, i, er, message);
      assert WriteMessage(r, g.value.bytes, er).value.bytes == message;
    }
    if payload :| WriteMessage(r, payload, er).Did? && WriteMessage(r, payload, er).value.bytes == message {
      SecondLeg(i, r, payload, er);
      SecondWrites(r, payload, er);
    }
  }

  lemma {:induction false} SecondOnce()
    ensures AtMostOnce(XX[1]) && AtMostOnce(XX[2])
  {
    assert [E, EE, S, ES][1..] == [EE, S, ES] && [EE, S, ES][1..] == [S, ES] && [S, ES][1..] == [ES] && [ES][1..] == [];
    assert AtMostOnce([ES]) && AtMostOnce([S, ES]) && AtMostOnce([EE, S, ES]);
    assert [S, SE][1..] == [SE] && [SE][1..] == [];
    assert AtMostOnce([SE]);
  }

  /** The third message: accepted with the initiator's static key exactly when the initiator writes
      it for some payload. */
  lemma {:induction false} ThirdLegOnly(i: Handshake, r: Handshake, eph: PrivateKey, message: seq<Sym>)
    requires Stage(i, r, i.s, r.s, 2)
    ensures var g := ReadMessage(r, message);
            (g.Did? && g.state.rs == Some(PubBytes(i.s)))
            <==> exists payload :: WriteMessage(i, payload, eph).Did? && WriteMessage(i, payload, eph).value.bytes == message
  {
    var g := ReadMessage(r, message);
    if g.Did? && g.state.rs == Some(PubBytes(i.s)) {
      SecondOnce();
      MessageOnly(i, r, eph, message);
      assert WriteMessage(i, g.value.bytes, eph).value.bytes == message;
    }
    if payload :| WriteMessage(i, payload, eph).Did? && WriteMessage(i, payload, eph).value.bytes == message {
      ThirdLeg(i, r, payload, eph);
    }
  }
}
