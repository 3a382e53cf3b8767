/** Exactly which skipped keys a delivery evicts: those beyond the newest 2000, oldest first. */
module RatchetEviction {
  import opened Outcomes
  import opened SymbolicCrypto
  import opened Ratchet
  import opened Messages
  import opened RatchetRun
  import opened RatchetSystem

  // ---- Lists of keys ----

  /** The keys of epoch `d` from `from` on. */
  function KeysOf(log: Log, d: nat, from: nat, count: nat): (r: seq<SkippedKey>)
    requires 1 <= d < |log.keys|
    ensures |r| == count
  {
    Derived(Pub(log.keys[d]), Advance(ChainAt(log, d), from), from, count)
  }

  lemma {:induction false} KeysOfAt(log: Log, d: nat, from: nat, count: nat, i: nat)
    requires 1 <= d < |log.keys| && i < count
    ensures KeysOf(log, d, from, count)[i] == SkippedKey(Pub(log.keys[d]), from + i, KeyAt(log, Position(d, from + i)))
  {
    DerivedAt(Pub(log.keys[d]), Advance(ChainAt(log, d), from), from, count, i);
    AdvanceAdd(ChainAt(log, d), from, i);
  }

  lemma {:induction false} HasKeyAt(cache: seq<SkippedKey>, i: nat, dh: PublicKey, n: nat)
    requires i < |cache| && Matches(cache[i], dh, n)
    ensures HasKey(cache, dh, n)
  {
  }

  lemma {:induction false} KeysOfHas(log: Log, d: nat, from: nat, count: nat, dh: PublicKey, n: nat)
    requires 1 <= d < |log.keys|
    ensures HasKey(KeysOf(log, d, from, count), dh, n) <==> dh == Pub(log.keys[d]) && from <= n < from + count
  {
    var keys := KeysOf(log, d, from, count);
    if HasKey(keys, dh, n) {
      KeysOfAt(log, d, from, count, IndexOfKey(keys, dh, n));
    }
    if dh == Pub(log.keys[d]) && from <= n < from + count {
      KeysOfAt(log, d, from, count, n - from);
      HasKeyAt(keys, n - from, dh, n);
    }
  }

  lemma {:induction false} ConcatHas(a: seq<SkippedKey>, b: seq<SkippedKey>, dh: PublicKey, n: nat)
    ensures HasKey(a + b, dh, n) <==> HasKey(a, dh, n) || HasKey(b, dh, n)
  {
    var i := IndexOfKey(a + b, dh, n);
    if i < |a| {
      HasKeyAt(a, i, dh, n);
    } else if i < |a + b| {
      HasKeyAt(b, i - |a|, dh, n);
    }
    if HasKey(a, dh, n) {
      HasKeyAt(a + b, IndexOfKey(a, dh, n), dh, n);
    }
    if HasKey(b, dh, n) {
      HasKeyAt(a + b, |a| + IndexOfKey(b, dh, n), dh, n);
    }
  }

  lemma {:induction false} ConcatDistinct(log: Log, cache: seq<SkippedKey>, d: nat, from: nat, count: nat)
    requires 1 <= d < |log.keys| && DistinctKeys(cache) && NoneCachedFrom(cache, Pub(log.keys[d]), from)
    ensures DistinctKeys(cache + KeysOf(log, d, from, count))
  {
    var all := cache + KeysOf(log, d, from, count);
    forall i, j | 0 <= i < j < |all|
      ensures !Matches(all[j], all[i].dh, all[i].n)
    {
      if j >= |cache| {
        KeysOfAt(log, d, from, count, j - |cache|);
        if i >= |cache| {
          KeysOfAt(log, d, from, count, i - |cache|);
        }
      }
    }
  }

  /** The newest 2000 hold a key exactly if it is not one of the oldest beyond them. */
  lemma {:induction false} NewestHas(all: seq<SkippedKey>, dh: PublicKey, n: nat)
    requires DistinctKeys(all) && HasKey(all, dh, n)
    ensures HasKey(Newest(all), dh, n) <==> IndexOfKey(all, dh, n) >= |all| - MAX_SKIPPED_TOTAL
  {
    var i := IndexOfKey(all, dh, n);
    var cut := if |all| > MAX_SKIPPED_TOTAL then |all| - MAX_SKIPPED_TOTAL else 0;
    var newest := Newest(all);
    assert newest == all[cut..];
    if i >= cut {
      assert newest[i - cut] == all[i];
      HasKeyAt(newest, i - cut, dh, n);
    }
  }

  // ---- What a delivery would keep if it could ----

  /** The chain of epoch `e - 1` from where the party stands to its end. */
  function Closing(log: Log, s: State, e: nat): seq<SkippedKey>
    requires e < |log.keys| == |log.sent| && (e >= 2 ==> s.nr <= |log.sent[e - 1]|)
  {
    if e >= 2 then KeysOf(log, e - 1, s.nr, |log.sent[e - 1]| - s.nr) else []
  }

  /** Every key held before and every key skipped on the way to `q`, in the order they were derived. */
  function Wanted(log: Log, s: State, e: nat, q: Position): seq<SkippedKey>
    requires e < |log.keys| == |log.sent| && (e >= 2 ==> s.nr <= |log.sent[e - 1]|) && q.epoch < |log.keys|
  {
    if HasKey(s.skipped, Pub(log.keys[q.epoch]), q.n) then
      RemoveAt(s.skipped, IndexOfKey(s.skipped, Pub(log.keys[q.epoch]), q.n))
    else if q.epoch == e + 1 then s.skipped + Closing(log, s, e) + KeysOf(log, e + 1, 0, q.n)
    else if 2 <= e && q.epoch == e - 1 && s.nr <= q.n then s.skipped + KeysOf(log, e - 1, s.nr, q.n - s.nr)
    else s.skipped
  }

  /** `s'` keeps the newest 2000 of what it would like to keep, and what is lost is the rest. */
  ghost predicate KeepsNewest(log: Log, s: State, e: nat, log': Log, s': State, e': nat, q: Position)
    requires e < |log.keys| == |log.sent| && (e >= 2 ==> s.nr <= |log.sent[e - 1]|) && q.epoch < |log.keys|
  {
    var all := Wanted(log, s, e, q);
    && s'.skipped == Newest(all) && DistinctKeys(all)
    && forall r :: r in Lost(log, s, e, log', s', e', q) <==> IsOldest(log, all, r)
  }

  /** The key of `r` is in the list, with 2000 or more after it. */
  ghost predicate IsOldest(log: Log, all: seq<SkippedKey>, r: Position) {
    r.epoch < |log.keys| && IndexOfKey(all, Pub(log.keys[r.epoch]), r.n) < |all| - MAX_SKIPPED_TOTAL
  }

  /** The key of `r` is wanted exactly if it was held, or is skipped by the step, and is not used. */
  ghost predicate WantedIff(log: Log, s: State, e: nat, log': Log, s': State, e': nat, q: Position, all: seq<SkippedKey>, r: Position)
    requires r.epoch < |log.keys|
  {
    HasKey(all, Pub(log.keys[r.epoch]), r.n)
    <==> r != q && (Held(log, s, r) || (Passed(log', s', e', r) && !Passed(log, s, e, r)))
  }

  lemma {:induction false} LostIff(log: Log, s: State, e: nat, log': Log, s': State, e': nat, q: Position, all: seq<SkippedKey>, r: Position)
    requires Extends(log, log') && s'.skipped == Newest(all) && DistinctKeys(all) && r.epoch < |log.keys|
    requires WantedIff(log, s, e, log', s', e', q, all, r)
    ensures r in Lost(log, s, e, log', s', e', q) <==> IsOldest(log, all, r)
  {
    var dh := Pub(log.keys[r.epoch]);
    assert log'.keys[r.epoch] == log'.keys[..|log.keys|][r.epoch];
    if HasKey(all, dh, r.n) {
      NewestHas(all, dh, r.n);
    }
  }

  lemma {:induction false} LostAll(log: Log, s: State, e: nat, log': Log, s': State, e': nat, q: Position, all: seq<SkippedKey>)
    requires Extends(log, log') && s'.skipped == Newest(all) && DistinctKeys(all) && e' <= |log.keys|
    requires forall r: Position | r.epoch < |log.keys| :: WantedIff(log, s, e, log', s', e', q, all, r)
    ensures forall r :: r in Lost(log, s, e, log', s', e', q) <==> IsOldest(log, all, r)
  {
    forall r
      ensures r in Lost(log, s, e, log', s', e', q) <==> IsOldest(log, all, r)
    {
      if r.epoch < |log.keys| {
        LostIff(log, s, e, log', s', e', q, all, r);
      }
    }
  }

  // ---- The three kinds of delivery ----

  lemma {:induction false} RemovedHas(cache: seq<SkippedKey>, i: nat, dh: PublicKey, n: nat)
    requires DistinctKeys(cache) && i < |cache|
    ensures HasKey(RemoveAt(cache, i), dh, n) <==> HasKey(cache, dh, n) && !Matches(cache[i], dh, n)
    ensures DistinctKeys(RemoveAt(cache, i))
  {
    var rest := RemoveAt(cache, i);
    assert forall j | 0 <= j < |rest| :: rest[j] == cache[if j < i then j else j + 1];
    if HasKey(rest, dh, n) {
      var j := IndexOfKey(rest, dh, n);
      HasKeyAt(cache, if j < i then j else j + 1, dh, n);
    }
    if HasKey(cache, dh, n) && !Matches(cache[i], dh, n) {
      var k := IndexOfKey(cache, dh, n);
      HasKeyAt(rest, if k < i then k else k - 1, dh, n);
    }
  }

  lemma {:induction false} HeldKeepsNewest(log: Log, s: State, e: nat, q: Position, s': State)
    requires WellFormed(log) && PartyOk(log, s, e) && Held(log, s, q)
    requires s' == s.(skipped := RemoveAt(s.skipped, IndexOfKey(s.skipped, Pub(log.keys[q.epoch]), q.n)))
    ensures KeepsNewest(log, s, e, log, s', e, q)
  {
    var all, i := Wanted(log, s, e, q), IndexOfKey(s.skipped, Pub(log.keys[q.epoch]), q.n);
    RemovedHas(s.skipped, i, Pub(0), 0);
    forall r: Position | r.epoch < |log.keys|
      ensures WantedIff(log, s, e, log, s', e, q, all, r)
    {
      RemovedHas(s.skipped, i, Pub(log.keys[r.epoch]), r.n);
    }
    KeepsIntro(log, s, e, log, s', e, q, all);
  }

  lemma {:induction false} CurrentNone(log: Log, s: State, e: nat)
    requires WellFormed(log) && PartyOk(log, s, e) && 2 <= e
    ensures NoneCachedFrom(s.skipped, Pub(log.keys[e - 1]), s.nr)
  {
    NoneCached(log, s, e, e - 1, s.nr);
  }

  lemma {:induction false} CurrentWanted(log: Log, s: State, e: nat, q: Position, s': State, r: Position)
    requires WellFormed(log) && PartyOk(log, s, e) && 2 <= e && q.epoch == e - 1 && s.nr <= q.n && !Held(log, s, q)
    requires s'.nr == q.n + 1 && r.epoch < |log.keys|
    ensures WantedIff(log, s, e, log, s', e, q, s.skipped + KeysOf(log, e - 1, s.nr, q.n - s.nr), r)
  {
    var dh := Pub(log.keys[r.epoch]);
    ConcatHas(s.skipped, KeysOf(log, e - 1, s.nr, q.n - s.nr), dh, r.n);
    KeysOfHas(log, e - 1, s.nr, q.n - s.nr, dh, r.n);
    PassedAfterTake(log, s, s', e, q.n);
    assert dh == Pub(log.keys[e - 1]) <==> r.epoch == e - 1;
    if Held(log, s, r) {
      HeldEntry(log, s, e, r);
    }
  }

  /** `all` is the cache followed by the keys of epoch `d`. */
  ghost predicate IsConcat(log: Log, cache: seq<SkippedKey>, d: nat, from: nat, count: nat, all: seq<SkippedKey>) {
    1 <= d < |log.keys| && all == cache + KeysOf(log, d, from, count)
  }

  lemma {:induction false} WantedCurrent(log: Log, s: State, e: nat, q: Position, all: seq<SkippedKey>)
    requires WellFormed(log) && FieldsOk(log, s, e) && 2 <= e && q.epoch == e - 1 && s.nr <= q.n && !Held(log, s, q)
    requires all == Wanted(log, s, e, q)
    ensures IsConcat(log, s.skipped, e - 1, s.nr, q.n - s.nr, all)
  {
  }

  lemma {:induction false} AppendedNewest(log: Log, cache: seq<SkippedKey>, d: nat, from: nat, count: nat, all: seq<SkippedKey>)
    requires IsConcat(log, cache, d, from, count, all)
    ensures Appended(log, cache, d, from, count) == Newest(all)
  {
  }

  lemma {:induction false} CurrentKeepsNewest(log: Log, s: State, e: nat, q: Position, s': State)
    requires WellFormed(log) && PartyOk(log, s, e) && 2 <= e && q.epoch == e - 1 && s.nr <= q.n && !Held(log, s, q)
    requires s'.nr == q.n + 1 && s'.skipped == Appended(log, s.skipped, e - 1, s.nr, q.n - s.nr)
    ensures KeepsNewest(log, s, e, log, s', e, q)
  {
    var all := Wanted(log, s, e, q);
    WantedCurrent(log, s, e, q, all);
    CurrentDistinct(log, s, e, q.n - s.nr, all);
    AppendedNewest(log, s.skipped, e - 1, s.nr, q.n - s.nr, all);
    CurrentWantedAll(log, s, e, q, s', all);
    KeepsIntro(log, s, e, log, s', e, q, all);
  }

  lemma {:induction false} CurrentDistinct(log: Log, s: State, e: nat, count: nat, all: seq<SkippedKey>)
    requires WellFormed(log) && PartyOk(log, s, e) && 2 <= e && IsConcat(log, s.skipped, e - 1, s.nr, count, all)
    ensures DistinctKeys(all)
  {
    CurrentNone(log, s, e);
    ConcatDistinct(log, s.skipped, e - 1, s.nr, count);
  }

  lemma {:induction false} KeepsIntro(log: Log, s: State, e: nat, log': Log, s': State, e': nat, q: Position, all: seq<SkippedKey>)
    requires e < |log.keys| == |log.sent| && (e >= 2 ==> s.nr <= |log.sent[e - 1]|) && q.epoch < |log.keys| && e' <= |log.keys|
    requires all == Wanted(log, s, e, q) && s'.skipped == Newest(all) && DistinctKeys(all) && Extends(log, log')
    requires forall r: Position | r.epoch < |log.keys| :: WantedIff(log, s, e, log', s', e', q, all, r)
    ensures KeepsNewest(log, s, e, log', s', e', q)
  {
    LostAll(log, s, e, log', s', e', q, all);
  }

  lemma {:induction false} CurrentWantedAll(log: Log, s: State, e: nat, q: Position, s': State, all: seq<SkippedKey>)
    requires WellFormed(log) && PartyOk(log, s, e) && 2 <= e && q.epoch == e - 1 && s.nr <= q.n && !Held(log, s, q)
    requires s'.nr == q.n + 1 && IsConcat(log, s.skipped, e - 1, s.nr, q.n - s.nr, all)
    ensures forall r: Position | r.epoch < |log.keys| :: WantedIff(log, s, e, log, s', e, q, all, r)
  {
    forall r: Position | r.epoch < |log.keys|
      ensures WantedIff(log, s, e, log, s', e, q, all, r)
    {
      CurrentWanted(log, s, e, q, s', r);
    }
  }

  lemma {:induction false} ClosingHas(log: Log, s: State, e: nat, dh: PublicKey, n: nat)
    requires WellFormed(log) && PartyOk(log, s, e)
    ensures HasKey(s.skipped + Closing(log, s, e), dh, n)
       <==> HasKey(s.skipped, dh, n) || (e >= 2 && dh == Pub(log.keys[e - 1]) && s.nr <= n < |log.sent[e - 1]|)
  {
    ConcatHas(s.skipped, Closing(log, s, e), dh, n);
    if e >= 2 {
      KeysOfHas(log, e - 1, s.nr, |log.sent[e - 1]| - s.nr, dh, n);
    }
  }

  lemma {:induction false} ClosingDistinct(log: Log, s: State, e: nat)
    requires WellFormed(log) && PartyOk(log, s, e)
    ensures DistinctKeys(s.skipped + Closing(log, s, e))
  {
    if e >= 2 {
      CurrentNone(log, s, e);
      ConcatDistinct(log, s.skipped, e - 1, s.nr, |log.sent[e - 1]| - s.nr);
    } else {
      assert s.skipped + [] == s.skipped;
    }
  }

  lemma {:induction false} ClosingOld(log: Log, s: State, e: nat, c: seq<SkippedKey>)
    requires WellFormed(log) && PartyOk(log, s, e) && e + 1 < |log.keys| && c == s.skipped + Closing(log, s, e)
    ensures NoneCachedFrom(c, Pub(log.keys[e + 1]), 0)
  {
    forall i | 0 <= i < |c|
      ensures c[i].dh != Pub(log.keys[e + 1])
    {
      HasKeyAt(c, i, c[i].dh, c[i].n);
      ClosingHas(log, s, e, c[i].dh, c[i].n);
      if HasKey(s.skipped, c[i].dh, c[i].n) {
        HeldOld(log, s, e, c[i].dh, c[i].n);
      }
    }
  }

  lemma {:induction false} HeldOld(log: Log, s: State, e: nat, dh: PublicKey, n: nat)
    requires WellFormed(log) && PartyOk(log, s, e) && e + 1 < |log.keys| && HasKey(s.skipped, dh, n)
    ensures dh != Pub(log.keys[e + 1])
  {
    assert EntryOk(log, s, e, s.skipped[IndexOfKey(s.skipped, dh, n)]);
  }

  lemma {:induction false} NewWanted(log: Log, s: State, e: nat, q: Position, newKey: PrivateKey, s': State, r: Position)
    requires WellFormed(log) && PartyOk(log, s, e) && q.epoch == e + 1 == |log.keys| - 1 && !Held(log, s, q)
    requires s'.nr == q.n + 1 && r.epoch < |log.keys|
    ensures WantedIff(log, s, e, Opening(log, newKey), s', e + 2, q, s.skipped + Closing(log, s, e) + KeysOf(log, e + 1, 0, q.n), r)
  {
    var dh := Pub(log.keys[r.epoch]);
    ConcatHas(s.skipped + Closing(log, s, e), KeysOf(log, e + 1, 0, q.n), dh, r.n);
    ClosingHas(log, s, e, dh, r.n);
    KeysOfHas(log, e + 1, 0, q.n, dh, r.n);
    PassedAfterTurn(log, s, e, newKey, s', q.n);
    assert dh == Pub(log.keys[e + 1]) <==> r.epoch == e + 1;
    assert e >= 2 ==> (dh == Pub(log.keys[e - 1]) <==> r.epoch == e - 1);
  }

  lemma {:induction false} NewNewest(log: Log, s: State, e: nat, q: Position)
    requires WellFormed(log) && PartyOk(log, s, e) && q.epoch == e + 1 == |log.keys| - 1 && !Held(log, s, q)
    ensures Appended(log, ClosedCache(log, s, e), e + 1, 0, q.n) == Newest(Wanted(log, s, e, q))
  {
    var c, keys := s.skipped + Closing(log, s, e), KeysOf(log, e + 1, 0, q.n);
    assert ClosedCache(log, s, e) == Newest(c) by {
      if e < 2 {
        assert s.skipped + [] == s.skipped;
      }
    }
    NewestConcat(c, keys);
  }

  lemma {:induction false} NewDistinct(log: Log, s: State, e: nat, q: Position, c: seq<SkippedKey>)
    requires WellFormed(log) && PartyOk(log, s, e) && e + 1 < |log.keys| && c == s.skipped + Closing(log, s, e)
    ensures DistinctKeys(c + KeysOf(log, e + 1, 0, q.n))
  {
    ClosingDistinct(log, s, e);
    ClosingOld(log, s, e, c);
    ConcatDistinct(log, c, e + 1, 0, q.n);
  }

  lemma {:induction false} NewKeepsNewest(log: Log, s: State, e: nat, q: Position, newKey: PrivateKey, s': State)
    requires WellFormed(log) && PartyOk(log, s, e) && q.epoch == e + 1 == |log.keys| - 1 && !Held(log, s, q) && newKey !in log.keys
    requires s'.nr == q.n + 1 && s'.skipped == Appended(log, ClosedCache(log, s, e), e + 1, 0, q.n)
    ensures KeepsNewest(log, s, e, Opening(log, newKey), s', e + 2, q)
  {
    var log', all := Opening(log, newKey), Wanted(log, s, e, q);
    NewNewest(log, s, e, q);
    NewDistinct(log, s, e, q, s.skipped + Closing(log, s, e));
    OpeningExtends(log, newKey);
    forall r: Position | r.epoch < |log.keys|
      ensures WantedIff(log, s, e, log', s', e + 2, q, all, r)
    {
      NewWanted(log, s, e, q, newKey, s', r);
    }
    KeepsIntro(log, s, e, log', s', e + 2, q, all);
  }

  // ---- Any delivery ----

  lemma {:induction false} DeliveryKeepsNewest(log: Log, s: State, e: nat, q: Position, plaintext: Plaintext, newKey: PrivateKey, s': State)
    requires WellFormed(log) && PartyOk(log, s, e) && |log.keys| <= e + 2
    requires IsSent(log, q) && q.epoch % 2 != e % 2 && q.epoch >= 1 && newKey !in log.keys
    requires Received(log, s, q, plaintext, newKey) == (s', Opened(plaintext))
    ensures if s'.dhs == s.dhs then KeepsNewest(log, s, e, log, s', e, q)
            else s'.dhs == newKey && e + 2 == |log.keys| && KeepsNewest(log, s, e, Opening(log, newKey), s', e + 2, q)
  {
    OutcomeAt(log, s, e, q, plaintext, newKey);
    if Held(log, s, q) {
      HeldOpens(log, s, e, q, plaintext, newKey);
      HeldKeepsNewest(log, s, e, q, s');
    } else {
      Ahead(log, s, e, q);
      if q.epoch == e + 1 {
        NewEpoch(log, s, e, q, plaintext, newKey);
        ArrivedCache(log, s, e, newKey, q.n);
        TurnToNewEpoch(log, s, e, MessageAt(log, q, plaintext).header, newKey);
        NewKeepsNewest(log, s, e, q, newKey, s');
      } else {
        CurrentChain(log, s, e, q, plaintext, newKey);
        CurrentCache(log, s, e, q.n);
        CurrentKeepsNewest(log, s, e, q, s');
      }
    }
  }

  lemma {:induction false} DeliveryFacts(sys: System, q: Position, newKey: PrivateKey, s': State, p: nat, plaintext: Plaintext, e: nat)
    requires Invariant(sys) && IsSent(sys.log, q) && newKey !in sys.log.keys
    requires Delivery(sys, q, newKey).0 == s' && Delivery(sys, q, newKey).1.Opened?
    requires p == Receiver(q) && plaintext == sys.log.sent[q.epoch][q.n].plaintext && e == Own(sys.log, p)
    ensures PartyOk(sys.log, sys.parties[p], e) && |sys.log.keys| <= e + 2 && q.epoch % 2 != e % 2 && q.epoch >= 1
    ensures Received(sys.log, sys.parties[p], q, plaintext, newKey) == (s', Opened(plaintext))
  {
    OwnFacts(sys.log, p);
    PartiesOf(sys, p);
    DeliveryIs(sys, q, newKey);
    DeliveryOutcome(sys, q, newKey);
  }

  lemma {:induction false} WantedFacts(sys: System, q: Position)
    requires Invariant(sys) && IsSent(sys.log, q)
    ensures var s, e := sys.parties[Receiver(q)], Own(sys.log, Receiver(q));
            e < |sys.log.keys| == |sys.log.sent| && (e >= 2 ==> s.nr <= |sys.log.sent[e - 1]|) && q.epoch < |sys.log.keys|
  {
    var p := Receiver(q);
    PartiesOf(sys, p);
    assert FieldsOk(sys.log, sys.parties[p], Own(sys.log, p));
  }

  /** What the receiver of `q` holds and would skip. */
  ghost function WantedBy(sys: System, q: Position): seq<SkippedKey>
    requires Invariant(sys) && IsSent(sys.log, q)
  {
    WantedFacts(sys, q);
    Wanted(sys.log, sys.parties[Receiver(q)], Own(sys.log, Receiver(q)), q)
  }

  /** A delivery that opens leaves exactly the newest 2000 of the keys held and skipped, and evicts
      exactly the others: a position is evicted if and only if 2000 or more keys come after its own. */
  lemma {:induction false} EvictedExactly(sys: System, q: Position, newKey: PrivateKey)
    requires Invariant(sys) && IsSent(sys.log, q) && newKey !in sys.log.keys && Delivery(sys, q, newKey).1.Opened?
    ensures var sys' := AfterDelivery(sys, q, newKey);
            && sys'.parties[Receiver(q)].skipped == Newest(WantedBy(sys, q))
            && forall r :: r in sys'.evicted <==> r in sys.evicted || IsOldest(sys.log, WantedBy(sys, q), r)
  {
    var p, plaintext := Receiver(q), sys.log.sent[q.epoch][q.n].plaintext;
    var s', e := Delivery(sys, q, newKey).0, Own(sys.log, p);
    DeliveryFacts(sys, q, newKey, s', p, plaintext, e);
    DeliveryKeepsNewest(sys.log, sys.parties[p], e, q, plaintext, newKey, s');
    if s'.dhs != sys.parties[p].dhs {
      OwnAfterOpening(sys.log, newKey, p);
    }
    var log' := LogAfter(sys, p, s');
    SavedLost(sys, q, s', p, e, log', WantedBy(sys, q), Saved(sys, q, s'));
  }

  lemma {:induction false} SavedLost(sys: System, q: Position, s': State, p: nat, e: nat, log': Log, all: seq<SkippedKey>, sys': System)
    requires Shape(sys) && p == Receiver(q) && e == Own(sys.log, p) && log' == LogAfter(sys, p, s') && |log'.keys| >= 2
    requires s'.skipped == Newest(all) && sys' == Saved(sys, q, s')
    requires forall r :: r in Lost(sys.log, sys.parties[p], e, log', s', Own(log', p), q) <==> IsOldest(sys.log, all, r)
    ensures sys'.parties[p].skipped == Newest(all)
    ensures forall r :: r in sys'.evicted <==> r in sys.evicted || IsOldest(sys.log, all, r)
  {
  }
}
