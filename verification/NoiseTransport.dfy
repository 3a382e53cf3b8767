/** The encrypted transport after the handshake: counters, rekeying and rejected frames. */
module NoiseTransport {
  import opened Outcomes
  import opened NoiseTerms
  import opened Noise
  import opened Arithmetic

  /** Rekeys first once the counter has reached the interval; None where the cipher has no key. */
  function Refresh(c: Cipher): Option<Cipher> {
    if c.n < REKEY_INTERVAL then Some(c)
    else if c.k.None? then None
    else Some(Cipher(Some(Rekeyed(c.k.value)), 0))
  }

  /** The frame handed to the channel; the counter has advanced even if the channel then fails. */
  function Send(c: Cipher, plain: seq<Sym>): Step<Cipher, seq<Sym>> {
    match Refresh(c)
    case None => Raised
    case Some(ready) => var (after, ct) := EncryptWithAd(ready, NoAd, plain); Did(after, ct)
  }

  /** No frame is a channel that fails; the rekey has happened by then. */
  function Recv(c: Cipher, frame: Option<seq<Sym>>): (Cipher, Option<seq<Sym>>) {
    match Refresh(c)
    case None => (c, None)
    case Some(ready) =>
      if frame.None? then (ready, None)
      else
        var d := DecryptWithAd(ready, NoAd, frame.value);
        if d.Raised? then (ready, None) else (d.state, Some(d.value))
  }

  // ---- The schedule of keys and nonces ----

  function RekeyTimes(k: CipherKey, j: nat): CipherKey {
    if j == 0 then k else Rekeyed(RekeyTimes(k, j - 1))
  }

  /** Frame number `i` of a direction whose first key is `k`. */
  function Frame(k: CipherKey, i: nat, plain: seq<Sym>): seq<Sym> {
    Seal(FrameBox(k, i, plain))
  }

  function FrameBox(k: CipherKey, i: nat, plain: seq<Sym>): Box {
    Box(RekeyTimes(k, i / REKEY_INTERVAL), i % REKEY_INTERVAL, NoAd, plain)
  }

  /** `i` frames done: at a boundary the rekey may or may not have happened yet. */
  ghost predicate Position(c: Cipher, k: CipherKey, i: nat) {
    || c == Cipher(Some(RekeyTimes(k, i / REKEY_INTERVAL)), i % REKEY_INTERVAL)
    || (i > 0 && i % REKEY_INTERVAL == 0
        && c == Cipher(Some(RekeyTimes(k, i / REKEY_INTERVAL - 1)), REKEY_INTERVAL))
  }

  lemma {:induction false} RefreshAt(c: Cipher, k: CipherKey, i: nat)
    requires Position(c, k, i)
    ensures Refresh(c) == Some(Cipher(Some(RekeyTimes(k, i / REKEY_INTERVAL)), i % REKEY_INTERVAL))
  {
  }

  lemma {:induction false} Advanced(k: CipherKey, i: nat)
    ensures Position(Cipher(Some(RekeyTimes(k, i / REKEY_INTERVAL)), i % REKEY_INTERVAL + 1), k, i + 1)
  {
    var q, r := i / REKEY_INTERVAL, i % REKEY_INTERVAL;
    assert i == q * REKEY_INTERVAL + r;
    NextQuotient(q, r, REKEY_INTERVAL);
  }

  lemma {:induction false} NextQuotient(q: nat, r: nat, m: nat)
    requires r < m
    ensures (q * m + r + 1) / m == (if r + 1 < m then q else q + 1)
    ensures (q * m + r + 1) % m == (if r + 1 < m then r + 1 else 0)
  {
    if r + 1 < m {
      Quotient(q * m + r + 1, q, r + 1, m);
    } else {
      assert q * m + r + 1 == (q + 1) * m;
      Quotient(q * m + r + 1, q + 1, 0, m);
    }
  }

  /** Sending from position `i` uses the `i`-th key and nonce and moves to the next position. */
  lemma {:induction false} SendAt(c: Cipher, k: CipherKey, i: nat, plain: seq<Sym>)
    requires Position(c, k, i)
    ensures Send(c, plain).Did? && Send(c, plain).value == Frame(k, i, plain)
    ensures Position(Send(c, plain).state, k, i + 1)
  {
    RefreshAt(c, k, i);
    Advanced(k, i);
  }

  /** Receiving at position `i` accepts exactly a frame with the `i`-th key and nonce; anything else,
      at the rekey boundary too, leaves the position as it was. */
  lemma {:induction false} RecvAt(c: Cipher, k: CipherKey, i: nat, frame: Option<seq<Sym>>)
    requires Position(c, k, i)
    ensures forall plain :: Recv(c, frame).1 == Some(plain) <==> frame == Some(Frame(k, i, plain))
    ensures Position(Recv(c, frame).0, k, if Recv(c, frame).1.Some? then i + 1 else i)
  {
    RefreshAt(c, k, i);
    Advanced(k, i);
  }

  /** The last frame before the rekey and the first after it. */
  lemma {:induction false} Boundary(k: CipherKey, plain: seq<Sym>)
    ensures Frame(k, 0x7FFF_FFFF, plain) == Seal(Box(k, 0x7FFF_FFFF, NoAd, plain))
    ensures Frame(k, 0x8000_0000, plain) == Seal(Box(Rekeyed(k), 0, NoAd, plain))
  {
    assert RekeyTimes(k, 0) == k && RekeyTimes(k, 1) == Rekeyed(k);
  }

  // ---- Whole runs ----

  /** The frames of successive sends. */
  function SendAll(c: Cipher, plains: seq<seq<Sym>>): Step<Cipher, seq<seq<Sym>>>
    decreases |plains|
  {
    if plains == [] then Did(c, [])
    else
      var init := SendAll(c, plains[..|plains| - 1]);
      if init.Raised? then Raised
      else
        var last := Send(init.state, plains[|plains| - 1]);
        if last.Raised? then Raised else Did(last.state, init.value + [last.value])
  }

  /** The `i`-th frame of a direction is sealed under the key rekeyed `i / 2^31` times with nonce
      `i mod 2^31`. */
  lemma {:induction false} FrameNumber(c: Cipher, k: CipherKey, plains: seq<seq<Sym>>)
    requires c == Cipher(Some(k), 0)
    ensures SendAll(c, plains).Did? && |SendAll(c, plains).value| == |plains|
    ensures forall i | 0 <= i < |plains| :: SendAll(c, plains).value[i] == Frame(k, i, plains[i])
    ensures Position(SendAll(c, plains).state, k, |plains|)
    decreases |plains|
  {
    if plains != [] {
      var init := plains[..|plains| - 1];
      FrameNumber(c, k, init);
      SendAt(SendAll(c, init).state, k, |init|, plains[|init|]);
    }
  }

  lemma {:induction false} RekeyInjective(k: CipherKey, l: CipherKey, i: nat, j: nat)
    requires !k.Rekeyed? && !l.Rekeyed? && RekeyTimes(k, i) == RekeyTimes(l, j)
    ensures k == l && i == j
    decreases i
  {
    if i > 0 && j > 0 {
      RekeyInjective(k, l, i - 1, j - 1);
    }
  }

  /** No key and nonce are used for two frames, of either direction, and no frame uses the nonce
      that rekeying is reserved for. */
  lemma {:induction false} NoNonceReuse(k: CipherKey, l: CipherKey, i: nat, j: nat, p: seq<Sym>, q: seq<Sym>)
    requires !k.Rekeyed? && !l.Rekeyed?
    ensures FrameBox(k, i, p).nonce < REKEY_INTERVAL < MAX_NONCE
    ensures FrameBox(k, i, p).key == FrameBox(l, j, q).key && FrameBox(k, i, p).nonce == FrameBox(l, j, q).nonce
       <==> k == l && i == j
  {
    if FrameBox(k, i, p).key == FrameBox(l, j, q).key && FrameBox(k, i, p).nonce == FrameBox(l, j, q).nonce {
      RekeyInjective(k, l, i / REKEY_INTERVAL, j / REKEY_INTERVAL);
      assert i == i / REKEY_INTERVAL * REKEY_INTERVAL + i % REKEY_INTERVAL;
      assert j == j / REKEY_INTERVAL * REKEY_INTERVAL + j % REKEY_INTERVAL;
    }
  }

  function RecvAll(c: Cipher, frames: seq<Option<seq<Sym>>>): (Cipher, seq<seq<Sym>>)
    decreases |frames|
  {
    if frames == [] then (c, [])
    else
      var (init, plains) := RecvAll(c, frames[..|frames| - 1]);
      var (last, plain) := Recv(init, frames[|frames| - 1]);
      (last, if plain.Some? then plains + [plain.value] else plains)
  }

  /** The frame was sent, or was not made with a key of this direction, or never came. */
  ghost predicate Honest(k: CipherKey, plains: seq<seq<Sym>>, frame: Option<seq<Sym>>) {
    frame.Some?
    ==> || (exists i | 0 <= i < |plains| :: frame.value == Frame(k, i, plains[i]))
        || (forall i: nat, plain :: frame.value != Frame(k, i, plain))
  }

  /** The frame is the one sent as number `n`. */
  ghost predicate IsNext(k: CipherKey, plains: seq<seq<Sym>>, n: nat, frame: Option<seq<Sym>>) {
    n < |plains| && frame == Some(Frame(k, n, plains[n]))
  }

  /** How many of the sent frames came, each after the one before it. */
  ghost function InOrder(k: CipherKey, plains: seq<seq<Sym>>, frames: seq<Option<seq<Sym>>>): (n: nat)
    ensures n <= |plains|
    decreases |frames|
  {
    if frames == [] then 0
    else
      var n := InOrder(k, plains, frames[..|frames| - 1]);
      if IsNext(k, plains, n, frames[|frames| - 1]) then n + 1 else n
  }

  lemma {:induction false} FrameIs(k: CipherKey, i: nat, j: nat, p: seq<Sym>, q: seq<Sym>)
    requires !k.Rekeyed? && Frame(k, i, p) == Frame(k, j, q)
    ensures i == j && p == q
  {
    assert Seal(FrameBox(k, i, p))[0] == BoxByte(FrameBox(k, i, p), 0);
    assert Seal(FrameBox(k, j, q))[0] == BoxByte(FrameBox(k, j, q), 0);
    NoNonceReuse(k, k, i, j, p, q);
  }

  lemma {:induction false} ReceivedStep(c: Cipher, k: CipherKey, plains: seq<seq<Sym>>, n: nat, frame: Option<seq<Sym>>)
    requires Position(c, k, n) && !k.Rekeyed? && n <= |plains| && Honest(k, plains, frame)
    ensures var next := IsNext(k, plains, n, frame);
            Recv(c, frame).1 == (if next then Some(plains[n]) else None)
            && Position(Recv(c, frame).0, k, if next then n + 1 else n)
  {
    RecvAt(c, k, n, frame);
    var got := Recv(c, frame).1;
    if got.Some? {
      assert frame == Some(Frame(k, n, got.value));
      var i :| 0 <= i < |plains| && frame.value == Frame(k, i, plains[i]);
      FrameIs(k, n, i, got.value, plains[i]);
    }
  }

  /** Whatever is injected, repeated or lost, the receiver has accepted exactly the longest prefix of
      what was sent that came in order, and stands ready for the next frame of it. */
  lemma {:induction false} ReceivedPrefix(c: Cipher, k: CipherKey, plains: seq<seq<Sym>>, frames: seq<Option<seq<Sym>>>)
    requires c == Cipher(Some(k), 0) && !k.Rekeyed?
    requires forall i | 0 <= i < |frames| :: Honest(k, plains, frames[i])
    ensures var n := InOrder(k, plains, frames);
            RecvAll(c, frames).1 == plains[..n] && Position(RecvAll(c, frames).0, k, n)
    decreases |frames|
  {
    if frames != [] {
      var init := frames[..|frames| - 1];
      ReceivedPrefix(c, k, plains, init);
      var at, n, frame := RecvAll(c, init).0, InOrder(k, plains, init), frames[|frames| - 1];
      ReceivedStep(at, k, plains, n, frame);
      var (after, out) := Recv(at, frame);
      RecvAllLast(c, frames, at, plains[..n], after, out);
      PrefixGrows(plains, n, out);
    }
  }

  lemma {:induction false} RecvAllLast(c: Cipher, frames: seq<Option<seq<Sym>>>, at: Cipher, got: seq<seq<Sym>>, after: Cipher, out: Option<seq<Sym>>)
    requires frames != [] && RecvAll(c, frames[..|frames| - 1]) == (at, got)
    requires Recv(at, frames[|frames| - 1]) == (after, out)
    ensures RecvAll(c, frames) == (after, if out.Some? then got + [out.value] else got)
  {
  }

  lemma {:induction false} PrefixGrows(plains: seq<seq<Sym>>, n: nat, out: Option<seq<Sym>>)
    requires n <= |plains| && (out.Some? ==> n < |plains| && out.value == plains[n])
    ensures (if out.Some? then plains[..n] + [out.value] else plains[..n]) == plains[..if out.Some? then n + 1 else n]
  {
  }
}
