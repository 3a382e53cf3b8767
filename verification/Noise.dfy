/** Symbolic bytes for the Noise transport.  A message is a sequence of symbols, one per byte, so
    that lengths and offsets are those of the wire; each primitive is a free constructor. */
module NoiseTerms {
  import opened Outcomes
  import opened Bytes
  import opened SymbolicCrypto

  const DHLEN: nat := 32
  const HASHLEN: nat := 32
  const TAG_LEN: nat := 16

  /** One byte on the wire: an ordinary one, one of a public key, or one of an AEAD output. */
  datatype Sym = Octet(value: Byte) | KeyByte(owner: PrivateKey, i: int) | BoxByte(box: Box, i: int)

  datatype Box = Box(key: CipherKey, nonce: nat, ad: Ad, plain: seq<Sym>)

  datatype Ad = NoAd | Transcript(h: Digest)

  datatype Digest = Padded(name: seq<Sym>) | Hashed(name: seq<Sym>) | Mixed(h: Digest, data: seq<Sym>)

  datatype ChainingKey = FromDigest(h: Digest) | Chained(ck: ChainingKey, ikm: Shared)

  datatype CipherKey =
    | TempKey(ck: ChainingKey, ikm: Shared)
    | FirstHalf(ck: ChainingKey)
    | SecondHalf(ck: ChainingKey)
    | Rekeyed(key: CipherKey)

  /** An X25519 output: with a genuine public key it is symmetric in the two owners. */
  datatype Shared = Agreed(low: PrivateKey, high: PrivateKey) | Foreign(private: PrivateKey, public: seq<Sym>)

  function PubBytes(sk: PrivateKey): (p: seq<Sym>)
    ensures |p| == DHLEN && forall i | 0 <= i < |p| :: p[i] == KeyByte(sk, i)
  {
    seq(DHLEN, i => KeyByte(sk, i))
  }

  function Owner(public: seq<Sym>): (r: Option<PrivateKey>)
    ensures r.Some? <==> exists sk :: public == PubBytes(sk)
    ensures r.Some? ==> public == PubBytes(r.value)
  {
    if public != [] && public[0].KeyByte? && public == PubBytes(public[0].owner) then Some(public[0].owner) else None
  }

  lemma {:induction false} OwnerOfPub(sk: PrivateKey)
    ensures Owner(PubBytes(sk)) == Some(sk)
  {
    assert PubBytes(sk)[0] == KeyByte(sk, 0);
  }

  function SharedSecret(private: PrivateKey, public: seq<Sym>): Shared {
    match Owner(public)
    case None => Foreign(private, public)
    case Some(peer) => if private <= peer then Agreed(private, peer) else Agreed(peer, private)
  }

  lemma {:induction false} SharedAgrees(a: PrivateKey, b: PrivateKey)
    ensures SharedSecret(a, PubBytes(b)) == SharedSecret(b, PubBytes(a))
  {
    OwnerOfPub(a);
    OwnerOfPub(b);
  }

  /** AEAD encryption: as many bytes as the plaintext and a tag. */
  function Seal(box: Box): (c: seq<Sym>)
    ensures |c| == |box.plain| + TAG_LEN && forall i | 0 <= i < |c| :: c[i] == BoxByte(box, i)
  {
    seq(|box.plain| + TAG_LEN, i => BoxByte(box, i))
  }

  /** AEAD decryption accepts exactly the encryptions under the same key, nonce and data. */
  function Open(key: CipherKey, nonce: nat, ad: Ad, c: seq<Sym>): (r: Option<seq<Sym>>)
    ensures forall plain :: r == Some(plain) <==> c == Seal(Box(key, nonce, ad, plain))
  {
    var r :=
      if c != [] && c[0].BoxByte? && c[0].box.key == key && c[0].box.nonce == nonce && c[0].box.ad == ad
         && c == Seal(c[0].box)
      then Some(c[0].box.plain) else None;
    assert forall plain :: c == Seal(Box(key, nonce, ad, plain)) ==> c[0] == BoxByte(Box(key, nonce, ad, plain), 0);
    r
  }
}

/** The handshake and transport ciphers of src/pywhats/socket/noise.py on values, for both roles of
    the XX pattern. */
module Noise {
  import opened Outcomes
  import opened SymbolicCrypto
  import opened NoiseTerms

  const REKEY_INTERVAL: nat := 0x8000_0000
  const MAX_NONCE: nat := 0xFFFF_FFFF_FFFF_FFFF

  // ---- Section 5.1 of the Noise specification: CipherState ----

  datatype Cipher = Cipher(k: Option<CipherKey>, n: nat)

  datatype Step<S, T> = Raised | Did(state: S, value: T)

  function EncryptWithAd(c: Cipher, ad: Ad, plain: seq<Sym>): (Cipher, seq<Sym>) {
    if c.k.None? then (c, plain) else (c.(n := c.n + 1), Seal(Box(c.k.value, c.n, ad, plain)))
  }

  function DecryptWithAd(c: Cipher, ad: Ad, ct: seq<Sym>): Step<Cipher, seq<Sym>> {
    if c.k.None? then Did(c, ct)
    else
      var plain := Open(c.k.value, c.n, ad, ct);
      if plain.None? then Raised else Did(c.(n := c.n + 1), plain.value)
  }

  // ---- Section 5.2: SymmetricState ----

  datatype Symmetric = Symmetric(cs: Cipher, ck: ChainingKey, h: Digest)

  function NameDigest(name: seq<Sym>): Digest {
    if |name| <= HASHLEN then Padded(name + seq(HASHLEN - |name|, _ => Octet(0))) else Hashed(name)
  }

  function InitSymmetric(name: seq<Sym>): Symmetric {
    Symmetric(Cipher(None, 0), FromDigest(NameDigest(name)), NameDigest(name))
  }

  function MixKey(s: Symmetric, ikm: Shared): Symmetric {
    s.(cs := Cipher(Some(TempKey(s.ck, ikm)), 0), ck := Chained(s.ck, ikm))
  }

  function MixHash(s: Symmetric, data: seq<Sym>): Symmetric {
    s.(h := Mixed(s.h, data))
  }

  function EncryptAndHash(s: Symmetric, plain: seq<Sym>): (Symmetric, seq<Sym>) {
    var (cs, ct) := EncryptWithAd(s.cs, Transcript(s.h), plain);
    (MixHash(s.(cs := cs), ct), ct)
  }

  function DecryptAndHash(s: Symmetric, ct: seq<Sym>): Step<Symmetric, seq<Sym>> {
    var d := DecryptWithAd(s.cs, Transcript(s.h), ct);
    if d.Raised? then Raised else Did(MixHash(s.(cs := d.state), ct), d.value)
  }

  function Split(s: Symmetric): (Cipher, Cipher) {
    (Cipher(Some(FirstHalf(s.ck)), 0), Cipher(Some(SecondHalf(s.ck)), 0))
  }

  // ---- Section 5.3: HandshakeState ----

  datatype Token = E | S | EE | ES | SE

  const XX: seq<seq<Token>> := [[E], [E, EE, S, ES], [S, SE]]

  /** `initiator` distinguishes the two roles; the program is always the initiator. */
  datatype Handshake = Handshake(
    ss: Symmetric, s: PrivateKey, e: Option<PrivateKey>, re: Option<seq<Sym>>, rs: Option<seq<Sym>>,
    messages: seq<seq<Token>>, initiator: bool)

  function InitHandshake(name: seq<Sym>, prologue: seq<Sym>, s: PrivateKey, initiator: bool): Handshake {
    Handshake(MixHash(InitSymmetric(name), prologue), s, None, None, None, XX, initiator)
  }

  /** The Diffie-Hellman of a token; None where a key it needs is not there yet. */
  function TokenDh(hs: Handshake, token: Token): Option<Shared> {
    match token
    case EE => if hs.e.Some? && hs.re.Some? then Some(SharedSecret(hs.e.value, hs.re.value)) else None
    case ES =>
      if hs.initiator
      then if hs.e.Some? && hs.rs.Some? then Some(SharedSecret(hs.e.value, hs.rs.value)) else None
      else if hs.re.Some? then Some(SharedSecret(hs.s, hs.re.value)) else None
    case SE =>
      if hs.initiator
      then if hs.re.Some? then Some(SharedSecret(hs.s, hs.re.value)) else None
      else if hs.e.Some? && hs.rs.Some? then Some(SharedSecret(hs.e.value, hs.rs.value)) else None
    case _ => None
  }

  function MixToken(hs: Handshake, token: Token): Option<Handshake> {
    var dh := TokenDh(hs, token);
    if dh.None? then None else Some(hs.(ss := MixKey(hs.ss, dh.value)))
  }

  function WriteToken(hs: Handshake, token: Token, eph: PrivateKey): Step<Handshake, seq<Sym>> {
    match token
    case E => Did(hs.(e := Some(eph), ss := MixHash(hs.ss, PubBytes(eph))), PubBytes(eph))
    case S => var (ss, ct) := EncryptAndHash(hs.ss, PubBytes(hs.s)); Did(hs.(ss := ss), ct)
    case _ => var mixed := MixToken(hs, token); if mixed.None? then Raised else Did(mixed.value, [])
  }

  /** The value is what is left of the message. */
  function ReadToken(hs: Handshake, token: Token, message: seq<Sym>): Step<Handshake, seq<Sym>> {
    match token
    case E =>
      if |message| < DHLEN then Raised
      else Did(hs.(re := Some(message[..DHLEN]), ss := MixHash(hs.ss, message[..DHLEN])), message[DHLEN..])
    case S =>
      var need := DHLEN + if hs.ss.cs.k.Some? then TAG_LEN else 0;
      if |message| < need then Raised
      else
        var d := DecryptAndHash(hs.ss, message[..need]);
        if d.Raised? || |d.value| != DHLEN then Raised
        else Did(hs.(ss := d.state, rs := Some(d.value)), message[need..])
    case _ => var mixed := MixToken(hs, token); if mixed.None? then Raised else Did(mixed.value, message)
  }

  function WriteTokens(hs: Handshake, tokens: seq<Token>, eph: PrivateKey): Step<Handshake, seq<Sym>>
    decreases |tokens|
  {
    if tokens == [] then Did(hs, [])
    else
      var first := WriteToken(hs, tokens[0], eph);
      if first.Raised? then Raised
      else
        var others := WriteTokens(first.state, tokens[1..], eph);
        if others.Raised? then Raised else Did(others.state, first.value + others.value)
  }

  function ReadTokens(hs: Handshake, tokens: seq<Token>, message: seq<Sym>): Step<Handshake, seq<Sym>>
    decreases |tokens|
  {
    if tokens == [] then Did(hs, message)
    else
      var first := ReadToken(hs, tokens[0], message);
      if first.Raised? then Raised else ReadTokens(first.state, tokens[1..], first.value)
  }

  /** The payload is skipped when it is empty and no key is set. */
  function WritePayload(hs: Handshake, payload: seq<Sym>): (Handshake, seq<Sym>) {
    if payload != [] || hs.ss.cs.k.Some?
    then var (ss, ct) := EncryptAndHash(hs.ss, payload); (hs.(ss := ss), ct)
    else (hs, [])
  }

  function ReadPayload(hs: Handshake, message: seq<Sym>): Step<Handshake, seq<Sym>> {
    if message != [] || hs.ss.cs.k.Some?
    then var d := DecryptAndHash(hs.ss, message); if d.Raised? then Raised else Did(hs.(ss := d.state), d.value)
    else Did(hs, [])
  }

  /** Bytes (or a payload), and the transport ciphers once the last message has been processed. */
  datatype Leg = Leg(bytes: seq<Sym>, split: Option<(Cipher, Cipher)>)

  function Finish(hs: Handshake, bytes: seq<Sym>): Step<Handshake, Leg> {
    Did(hs, Leg(bytes, if hs.messages == [] then Some(Split(hs.ss)) else None))
  }

  function WriteMessage(hs: Handshake, payload: seq<Sym>, eph: PrivateKey): Step<Handshake, Leg> {
    if hs.messages == [] then Raised
    else
      var tokens := WriteTokens(hs.(messages := hs.messages[1..]), hs.messages[0], eph);
      if tokens.Raised? then Raised
      else
        var (done, ct) := WritePayload(tokens.state, payload);
        Finish(done, tokens.value + ct)
  }

  function ReadMessage(hs: Handshake, message: seq<Sym>): Step<Handshake, Leg> {
    if hs.messages == [] then Raised
    else
      var tokens := ReadTokens(hs.(messages := hs.messages[1..]), hs.messages[0], message);
      if tokens.Raised? then Raised
      else
        var d := ReadPayload(tokens.state, tokens.value);
        if d.Raised? then Raised else Finish(d.state, d.value)
  }
}
