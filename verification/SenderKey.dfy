/** Group sender keys: one hash chain per sender, distributed with every stanza, fast-forwarded by
    the receiver (src/pywhats/signal/experimental/sender_key.py). */
module SenderKey {
  import opened Outcomes
  import opened Bytes
  import opened SymbolicCrypto

  const VERSION_BYTE: Byte := 0x33
  const DJB_TYPE: Byte := 0x05
  const MAX_JUMP: nat := 2000
  const SIGNATURE_LEN: nat := 64

  // ---- PKCS#7 ----

  function PadBytes(n: nat): (p: seq<Byte>)
    requires n <= 16
    ensures |p| == n && forall i | 0 <= i < n :: p[i] == n
  {
    seq(n, _ => n)
  }

  function PadLength(n: nat): nat {
    16 - n % 16
  }

  function Pad(plain: seq<Byte>): (p: seq<Byte>) {
    plain + PadBytes(PadLength(|plain|))
  }

  function Unpad(padded: seq<Byte>): Option<seq<Byte>>
    requires padded != []
  {
    var n := padded[|padded| - 1] as nat;
    if n < 1 || n > 16 || n > |padded| || padded[|padded| - n..] != PadBytes(n) then None
    else Some(padded[..|padded| - n])
  }

  /** Removing the padding undoes adding it, and accepts nothing else among whole blocks. */
  lemma {:induction false} PaddingExact(padded: seq<Byte>, plain: seq<Byte>)
    requires padded != [] && |padded| % 16 == 0
    ensures Unpad(padded) == Some(plain) <==> padded == Pad(plain)
  {
    var n := padded[|padded| - 1] as nat;
    if Unpad(padded) == Some(plain) {
      assert padded == padded[..|padded| - n] + padded[|padded| - n..];
      assert PadLength(|plain|) == n;
    }
    if padded == Pad(plain) {
      var p := PadLength(|plain|);
      assert padded[|padded| - 1] == PadBytes(p)[p - 1];
      assert padded[|padded| - p..] == PadBytes(p) && padded[..|padded| - p] == plain;
    }
  }

  lemma {:induction false} PadWhole(plain: seq<Byte>)
    ensures Pad(plain) != [] && |Pad(plain)| % 16 == 0 && Unpad(Pad(plain)) == Some(plain)
  {
    PaddingExact(Pad(plain), plain);
  }

  // ---- The primitives ----

  datatype Body = Body(id: nat, iteration: nat, ciphertext: seq<Byte>)

  datatype Distribution = Distribution(id: nat, iteration: nat, chainKey: Key, signingKey: seq<Byte>)

  /** AES-CBC under a derived key, XEdDSA, and the two protobuf codecs. */
  datatype Suite = Suite(
    encrypt: (Key, seq<Byte>) -> seq<Byte>, decrypt: (Key, seq<Byte>) -> seq<Byte>,
    public: PrivateKey -> seq<Byte>,
    sign: (PrivateKey, seq<Byte>) -> seq<Byte>, verify: (seq<Byte>, seq<Byte>, seq<Byte>) -> bool,
    putBody: Body -> seq<Byte>, getBody: seq<Byte> -> Option<Body>,
    putDist: Distribution -> seq<Byte>, getDist: seq<Byte> -> Option<Distribution>)

  /** Only the inverse laws; in particular nothing about what a wrong key or a forgery does. */
  ghost predicate SuiteOk(u: Suite) {
    && (forall k, p: seq<Byte> :: |u.encrypt(k, p)| == |p| && u.decrypt(k, u.encrypt(k, p)) == p)
    && (forall s :: |u.public(s)| == 32)
    && (forall s, m :: |u.sign(s, m)| == SIGNATURE_LEN && u.verify(u.public(s), m, u.sign(s, m)))
    && (forall b :: u.getBody(u.putBody(b)) == Some(b))
    && (forall d :: u.getDist(u.putDist(d)) == Some(d))
  }

  // ---- States and messages ----

  datatype State = State(
    id: nat, iteration: nat, chainKey: Key, signingPublic: seq<Byte>, signingPrivate: Option<PrivateKey>)

  datatype Failure =
    NoPrivateKey | BadKey | Malformed | TooShort | BadSignature | TooOld | JumpTooLarge | NotBlocks | BadPadding

  datatype Result<T> = Ok(value: T) | Err(failure: Failure)

  /** The Signal form of a public key. */
  function SignalForm(public: seq<Byte>): Option<seq<Byte>> {
    if |public| == 33 then if public[0] == DJB_TYPE then Some(public) else None
    else if |public| == 32 then Some([DJB_TYPE] + public)
    else None
  }

  function StripType(public: seq<Byte>): Option<seq<Byte>> {
    if |public| == 33 && public[0] == DJB_TYPE then Some(public[1..])
    else if |public| == 32 then Some(public)
    else None
  }

  function BuildDistribution(u: Suite, st: State): Result<seq<Byte>> {
    match SignalForm(st.signingPublic)
    case None => Err(BadKey)
    case Some(key) => Ok([VERSION_BYTE] + u.putDist(Distribution(st.id, st.iteration, st.chainKey, key)))
  }

  function Tail(data: seq<Byte>): seq<Byte> {
    if data == [] then [] else data[1..]
  }

  function ProcessDistribution(u: Suite, data: seq<Byte>): Result<State> {
    match u.getDist(Tail(data))
    case None => Err(Malformed)
    case Some(d) =>
      match StripType(d.signingKey)
      case None => Err(BadKey)
      case Some(key) => Ok(State(d.id, d.iteration, d.chainKey, key, None))
  }

  function GroupEncrypt(u: Suite, st: State, plain: seq<Byte>): Result<(seq<Byte>, State)> {
    if st.signingPrivate.None? then Err(NoPrivateKey)
    else
      var ciphertext := u.encrypt(MessageKey(st.chainKey), Pad(plain));
      var serialized := [VERSION_BYTE] + u.putBody(Body(st.id, st.iteration, ciphertext));
      Ok((serialized + u.sign(st.signingPrivate.value, serialized),
          st.(iteration := st.iteration + 1, chainKey := NextChainKey(st.chainKey))))
  }

  function CbcDecrypt(u: Suite, key: Key, ciphertext: seq<Byte>): Result<seq<Byte>> {
    if ciphertext == [] || |ciphertext| % 16 != 0 then Err(NotBlocks)
    else
      var padded := u.decrypt(key, ciphertext);
      if padded == [] || Unpad(padded).None? then Err(BadPadding) else Ok(Unpad(padded).value)
  }

  function GroupDecrypt(u: Suite, st: State, skmsg: seq<Byte>): Result<(seq<Byte>, State)> {
    if |skmsg| < SIGNATURE_LEN then Err(TooShort)
    else
      var end := |skmsg| - SIGNATURE_LEN;
      if !u.verify(st.signingPublic, skmsg[..end], skmsg[end..]) then Err(BadSignature)
      else
        var body := u.getBody(Tail(skmsg[..end]));
        if body.None? then Err(Malformed)
        else OpenBody(u, st, body.value)
  }

  function OpenBody(u: Suite, st: State, body: Body): Result<(seq<Byte>, State)> {
    if body.iteration < st.iteration then Err(TooOld)
    else if body.iteration - st.iteration > MAX_JUMP then Err(JumpTooLarge)
    else
      var chainKey := Advance(st.chainKey, body.iteration - st.iteration);
      var plain := CbcDecrypt(u, MessageKey(chainKey), body.ciphertext);
      if plain.Err? then Err(plain.failure)
      else Ok((plain.value, st.(iteration := body.iteration + 1, chainKey := NextChainKey(chainKey))))
  }

  /** The chain is fast-forwarded step by step, at most 2000 of them. */
  method Decrypt(u: Suite, st: State, skmsg: seq<Byte>) returns (r: Result<(seq<Byte>, State)>)
    ensures r == GroupDecrypt(u, st, skmsg)
  {
    if |skmsg| < SIGNATURE_LEN {
      return Err(TooShort);
    }
    var end := |skmsg| - SIGNATURE_LEN;
    if !u.verify(st.signingPublic, skmsg[..end], skmsg[end..]) {
      return Err(BadSignature);
    }
    var body := u.getBody(Tail(skmsg[..end]));
    if body.None? {
      return Err(Malformed);
    }
    var target := body.value.iteration;
    if target < st.iteration {
      return Err(TooOld);
    }
    if target - st.iteration > MAX_JUMP {
      return Err(JumpTooLarge);
    }
    var chainKey, iteration := st.chainKey, st.iteration;
    while iteration < target
      invariant st.iteration <= iteration <= target
      invariant chainKey == Advance(st.chainKey, iteration - st.iteration)
    {
      chainKey := NextChainKey(chainKey);
      iteration := iteration + 1;
    }
    var plain := CbcDecrypt(u, MessageKey(chainKey), body.value.ciphertext);
    if plain.Err? {
      return Err(plain.failure);
    }
    r := Ok((plain.value, st.(iteration := iteration + 1, chainKey := NextChainKey(chainKey))));
  }

  // ---- What is on the wire, and what is refused ----

  /** What a sender puts on the wire: the version byte, the chain's id, the iteration and the padded plaintext under the
      iteration's key, and a signature over all of it. */
  lemma {:induction false} SkmsgIs(u: Suite, st: State, plain: seq<Byte>)
    requires SuiteOk(u) && st.signingPrivate.Some?
    ensures GroupEncrypt(u, st, plain).Ok?
    ensures var skmsg := GroupEncrypt(u, st, plain).value.0;
            && |skmsg| > 64 && skmsg[0] == 0x33
            && var signed, signature := skmsg[..|skmsg| - 64], skmsg[|skmsg| - 64..];
               && u.verify(u.public(st.signingPrivate.value), signed, signature)
               && exists ciphertext :: u.getBody(signed[1..]) == Some(Body(st.id, st.iteration, ciphertext))
                                       && u.decrypt(MessageKey(st.chainKey), ciphertext) == Pad(plain)
  {
    var ciphertext := u.encrypt(MessageKey(st.chainKey), Pad(plain));
    var body := Body(st.id, st.iteration, ciphertext);
    var serialized := [VERSION_BYTE] + u.putBody(body);
    var signature := u.sign(st.signingPrivate.value, serialized);
    var skmsg := serialized + signature;
    assert |signature| == 64;
    assert skmsg[..|skmsg| - 64] == serialized && skmsg[|skmsg| - 64..] == signature;
    assert serialized[1..] == u.putBody(body);
    assert u.getBody(u.putBody(body)) == Some(body);
    assert u.decrypt(MessageKey(st.chainKey), ciphertext) == Pad(plain);
  }

  /** A message is refused for its signature exactly if its last 64 bytes are no signature over the rest under the key
      that was distributed. */
  lemma {:induction false} SignatureIff(u: Suite, st: State, signed: seq<Byte>, signature: seq<Byte>)
    requires |signature| == 64
    ensures GroupDecrypt(u, st, signed + signature) == Err(BadSignature) <==> !u.verify(st.signingPublic, signed, signature)
  {
    var skmsg := signed + signature;
    assert skmsg[..|skmsg| - 64] == signed && skmsg[|skmsg| - 64..] == signature;
  }

  // ---- One sender, one receiver ----

  /** The sender's chain seen from its start: the state `n` messages later. */
  function Later(st: State, n: nat): State {
    st.(iteration := st.iteration + n, chainKey := Advance(st.chainKey, n))
  }

  ghost predicate Sending(u: Suite, st: State) {
    st.signingPrivate.Some? && st.signingPublic == u.public(st.signingPrivate.value)
  }

  /** What a receiver of the same chain holds. */
  function Receiving(st: State): State {
    st.(signingPrivate := None)
  }

  lemma {:induction false} EncryptAdvances(u: Suite, st: State, n: nat, plain: seq<Byte>)
    requires Sending(u, st)
    ensures GroupEncrypt(u, Later(st, n), plain).Ok? && GroupEncrypt(u, Later(st, n), plain).value.1 == Later(st, n + 1)
  {
  }

  /** A distribution message gives the receiver the sender's chain as it is now. */
  lemma {:induction false} Distributed(u: Suite, st: State)
    requires SuiteOk(u) && Sending(u, st)
    ensures BuildDistribution(u, st).Ok?
    ensures ProcessDistribution(u, BuildDistribution(u, st).value) == Ok(Receiving(st))
  {
    var key := [DJB_TYPE] + st.signingPublic;
    var d := Distribution(st.id, st.iteration, st.chainKey, key);
    assert ([VERSION_BYTE] + u.putDist(d))[1..] == u.putDist(d);
    assert StripType(key) == Some(st.signingPublic);
  }

  /** The signature and the body of a message come apart as they were put together. */
  lemma {:induction false} Framed(u: Suite, st: State, r: State, plain: seq<Byte>)
    requires SuiteOk(u) && Sending(u, st) && r.signingPublic == st.signingPublic
    ensures GroupEncrypt(u, st, plain).Ok?
    ensures GroupDecrypt(u, r, GroupEncrypt(u, st, plain).value.0)
         == OpenBody(u, r, Body(st.id, st.iteration, u.encrypt(MessageKey(st.chainKey), Pad(plain))))
  {
    var body := Body(st.id, st.iteration, u.encrypt(MessageKey(st.chainKey), Pad(plain)));
    var serialized := [VERSION_BYTE] + u.putBody(body);
    var signature := u.sign(st.signingPrivate.value, serialized);
    var skmsg := serialized + signature;
    assert |signature| == SIGNATURE_LEN;
    assert skmsg[..|skmsg| - SIGNATURE_LEN] == serialized && skmsg[|skmsg| - SIGNATURE_LEN..] == signature;
    assert Tail(serialized) == u.putBody(body);
    assert u.getBody(u.putBody(body)) == Some(body);
  }

  /** Message `i` of the chain at a receiver standing at `n`: decrypted exactly when it is not older
      and at most 2000 ahead, to its plaintext, leaving the receiver just behind it. */
  lemma {:induction false} DecryptAt(u: Suite, st: State, n: nat, i: nat, plain: seq<Byte>)
    requires SuiteOk(u) && Sending(u, st)
    ensures GroupEncrypt(u, Later(st, i), plain).Ok?
    ensures var r := GroupDecrypt(u, Receiving(Later(st, n)), GroupEncrypt(u, Later(st, i), plain).value.0);
            r == if i < n then Err(TooOld)
                 else if i - n > MAX_JUMP then Err(JumpTooLarge)
                 else Ok((plain, Receiving(Later(st, i + 1))))
  {
    var sender, receiver := Later(st, i), Receiving(Later(st, n));
    Framed(u, sender, receiver, plain);
    if n <= i && i - n <= MAX_JUMP {
      AdvanceAdd(st.chainKey, n, i - n);
      var key := MessageKey(Advance(st.chainKey, i));
      PadWhole(plain);
      assert |u.encrypt(key, Pad(plain))| == |Pad(plain)| && u.decrypt(key, u.encrypt(key, Pad(plain))) == Pad(plain);
      assert CbcDecrypt(u, key, u.encrypt(key, Pad(plain))) == Ok(plain);
    }
  }

  // ---- Runs between two distributions ----

  /** The messages of a run, delivered by number in any order, and what came out of each. */
  function DeliverAll(u: Suite, r: State, messages: seq<seq<Byte>>): (State, seq<Option<seq<Byte>>>)
    decreases |messages|
  {
    if messages == [] then (r, [])
    else
      var (before, out) := DeliverAll(u, r, messages[..|messages| - 1]);
      match GroupDecrypt(u, before, messages[|messages| - 1])
      case Err(_) => (before, out + [None])
      case Ok((plain, after)) => (after, out + [Some(plain)])
  }

  /** Not older than where the receiver stands, and at most 2000 ahead. */
  predicate Fits(n: nat, i: nat) {
    n <= i && i - n <= MAX_JUMP
  }

  /** Where the receiver stands after the numbers `order`, from `n`. */
  function Reached(n: nat, order: seq<nat>): (r: nat)
    ensures r >= n
    decreases |order|
  {
    if order == [] then n
    else
      var before, i := Reached(n, order[..|order| - 1]), order[|order| - 1];
      if Fits(before, i) then i + 1 else before
  }

  predicate Accepted(n: nat, order: seq<nat>, j: nat)
    requires j < |order|
  {
    Fits(Reached(n, order[..j]), order[j])
  }

  /** The messages that carry `plains`, in order. */
  ghost predicate Carries(u: Suite, st: State, messages: seq<seq<Byte>>, plains: seq<seq<Byte>>, order: seq<nat>) {
    && |messages| == |order| == |plains|
    && forall j | 0 <= j < |order| ::
         IsMessage(u, st, order[j], plains[j], messages[j])
  }

  ghost predicate IsMessage(u: Suite, st: State, i: nat, plain: seq<Byte>, skmsg: seq<Byte>) {
    var r := GroupEncrypt(u, Later(st, i), plain);
    r.Ok? && skmsg == r.value.0
  }

  /** The last delivery of a run. */
  lemma {:induction false} LastDelivery(u: Suite, r: State, st: State, n: nat, i: nat, plain: seq<Byte>, messages: seq<seq<Byte>>,
                     before: seq<Option<seq<Byte>>>)
    requires SuiteOk(u) && Sending(u, st) && messages != []
    requires DeliverAll(u, r, messages[..|messages| - 1]) == (Receiving(Later(st, n)), before)
    requires IsMessage(u, st, i, plain, messages[|messages| - 1])
    ensures var fits := Fits(n, i);
            DeliverAll(u, r, messages)
            == (Receiving(Later(st, if fits then i + 1 else n)), before + [if fits then Some(plain) else None])
  {
    DecryptAt(u, st, n, i, plain);
  }

  /** Acceptance depends only on what came before. */
  lemma {:induction false} AcceptedBefore(n: nat, order: seq<nat>, k: nat, j: nat)
    requires j < k <= |order|
    ensures Accepted(n, order[..k], j) == Accepted(n, order, j)
  {
    assert order[..k][..j] == order[..j];
  }

  /** What came out is the plaintext of each accepted delivery, and nothing of the others. */
  ghost predicate Matches(n: nat, order: seq<nat>, plains: seq<seq<Byte>>, out: seq<Option<seq<Byte>>>) {
    && |out| == |order| == |plains|
    && forall j | 0 <= j < |order| :: out[j] == if Accepted(n, order, j) then Some(plains[j]) else None
  }

  lemma {:induction false} MatchesLast(n: nat, order: seq<nat>, plains: seq<seq<Byte>>, before: seq<Option<seq<Byte>>>, last: Option<seq<Byte>>)
    requires order != [] && |plains| == |order|
    requires Matches(n, order[..|order| - 1], plains[..|order| - 1], before)
    requires last == if Accepted(n, order, |order| - 1) then Some(plains[|order| - 1]) else None
    ensures Matches(n, order, plains, before + [last])
  {
    var k := |order| - 1;
    forall j | 0 <= j < k
      ensures (before + [last])[j] == if Accepted(n, order, j) then Some(plains[j]) else None
    {
      AcceptedBefore(n, order, k, j);
      assert plains[..k][j] == plains[j];
    }
  }

  lemma {:induction false} RunLast(u: Suite, st: State, n: nat, r: State, messages: seq<seq<Byte>>, plains: seq<seq<Byte>>, order: seq<nat>,
                at: nat, before: seq<Option<seq<Byte>>>)
    requires SuiteOk(u) && Sending(u, st) && |messages| == |order| == |plains| > 0
    requires var k := |order| - 1;
             && DeliverAll(u, r, messages[..k]) == (Receiving(Later(st, at)), before)
             && at == Reached(n, order[..k]) && Matches(n, order[..k], plains[..k], before)
             && IsMessage(u, st, order[k], plains[k], messages[k])
    ensures DeliverAll(u, r, messages).0 == Receiving(Later(st, Reached(n, order)))
    ensures Matches(n, order, plains, DeliverAll(u, r, messages).1)
  {
    var k := |order| - 1;
    var last := if Fits(at, order[k]) then Some(plains[k]) else None;
    MatchesLast(n, order, plains, before, last);
    LastDelivery(u, r, st, at, order[k], plains[k], messages, before);
  }

  /** Any deliveries at all: the accepted ones come out as they went in, the others change nothing. */
  lemma {:induction false} RunOutcomes(u: Suite, st: State, n: nat, r: State, messages: seq<seq<Byte>>, plains: seq<seq<Byte>>, order: seq<nat>)
    requires SuiteOk(u) && Sending(u, st) && Carries(u, st, messages, plains, order) && r == Receiving(Later(st, n))
    ensures DeliverAll(u, r, messages).0 == Receiving(Later(st, Reached(n, order)))
    ensures Matches(n, order, plains, DeliverAll(u, r, messages).1)
    decreases |order|
  {
    if order != [] {
      var k := |order| - 1;
      RunOutcomes(u, st, n, r, messages[..k], plains[..k], order[..k]);
      assert IsMessage(u, st, order[k], plains[k], messages[k]);
      RunLast(u, st, n, r, messages, plains, order, Reached(n, order[..k]), DeliverAll(u, r, messages[..k]).1);
    }
  }

  lemma {:induction false} ReachedPast(n: nat, order: seq<nat>, i: nat, j: nat)
    requires i < j <= |order| && Accepted(n, order, i)
    ensures order[i] < Reached(n, order[..j])
    decreases j
  {
    if j == i + 1 {
      assert order[..j][..i] == order[..i];
    } else {
      ReachedPast(n, order, i, j - 1);
      assert order[..j][..j - 1] == order[..j - 1];
    }
  }

  /** The numbers accepted go up, so none is accepted twice. */
  lemma {:induction false} AcceptedOnce(n: nat, order: seq<nat>, i: nat, j: nat)
    requires i < j < |order| && Accepted(n, order, i) && Accepted(n, order, j)
    ensures order[i] < order[j]
  {
    ReachedPast(n, order, i, j);
  }

  function Least(n: nat, order: seq<nat>, j: nat): nat
    requires j <= |order|
  {
    if j == 0 then n else order[j - 1] + 1
  }

  /** Going up from `n` with at most 2000 left out each time. */
  predicate Rising(n: nat, order: seq<nat>) {
    forall j | 0 <= j < |order| :: Fits(Least(n, order, j), order[j])
  }

  lemma {:induction false} RisingInit(n: nat, order: seq<nat>)
    requires order != []
    ensures var k := |order| - 1; Rising(n, order) <==> Rising(n, order[..k]) && Fits(Least(n, order, k), order[k])
  {
    var k := |order| - 1;
    assert forall j | 0 <= j < k :: Least(n, order[..k], j) == Least(n, order, j);
  }

  predicate AllAccepted(n: nat, order: seq<nat>) {
    forall j | 0 <= j < |order| :: Accepted(n, order, j)
  }

  lemma {:induction false} AllAcceptedInit(n: nat, order: seq<nat>)
    requires order != []
    ensures var k := |order| - 1; AllAccepted(n, order) <==> AllAccepted(n, order[..k]) && Accepted(n, order, k)
  {
    var k := |order| - 1;
    forall j | 0 <= j < k
      ensures Accepted(n, order[..k], j) == Accepted(n, order, j)
    {
      AcceptedBefore(n, order, k, j);
    }
  }

  /** A run is accepted in full exactly when it rises with gaps of at most 2000. */
  lemma {:induction false} RisingAccepted(n: nat, order: seq<nat>)
    ensures AllAccepted(n, order) <==> Rising(n, order)
    ensures Rising(n, order) ==> Reached(n, order) == Least(n, order, |order|)
    decreases |order|
  {
    if order != [] {
      var k := |order| - 1;
      var init := order[..k];
      RisingAccepted(n, init);
      RisingInit(n, order);
      AllAcceptedInit(n, order);
      LeastInit(n, order, k);
      if Rising(n, init) {
        assert Accepted(n, order, k) == Fits(Least(n, order, k), order[k]);
      }
    }
  }

  lemma {:induction false} LeastInit(n: nat, order: seq<nat>, k: nat)
    requires k < |order|
    ensures Least(n, order[..k], k) == Least(n, order, k)
  {
  }
}
