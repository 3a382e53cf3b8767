/** Exactly when the incremental hash of a patch or a snapshot is the hash of what the store keeps of
    it, whatever the operations, versions and sizes, and inputs for which it is not. */
module AppStateExact {
  import opened Outcomes
  import opened Addressing
  import opened Bytes
  import opened LtHash
  import opened Patches
  import opened AppStateStore
  import opened AppStateSync

  // ---- Sums tell multisets apart up to 2^16 ----

  /** Every item occurs equally often, up to multiples of 2^16. */
  ghost predicate Congruent(a: multiset<Item>, b: multiset<Item>) {
    forall x :: a[x] % 0x1_0000 == b[x] % 0x1_0000
  }

  /** One in lane 0. */
  function Unit(): Digest {
    [1] + seq(127, _ => 0)
  }

  /** An expansion that counts one item in lane 0. */
  function Marking(x: Item): Item -> Digest {
    y => if y == x then Unit() else Zero()
  }

  lemma {:induction false} SumMarking(xs: seq<Item>, x: Item)
    ensures Sum(Marking(x), xs, 0) == multiset(xs)[x]
    decreases |xs|
  {
    if xs != [] {
      var rest, last := xs[..|xs| - 1], xs[|xs| - 1];
      SumMarking(rest, x);
      assert xs == rest + [last];
    }
  }

  function Drop(xs: seq<Item>, x: Item): seq<Item>
    decreases |xs|
  {
    if xs == [] then []
    else
      var rest, last := xs[..|xs| - 1], xs[|xs| - 1];
      Drop(rest, x) + if last == x then [] else [last]
  }

  function Product(n: nat, lane: nat): nat {
    if n == 0 then 0 else Product(n - 1, lane) + lane
  }

  lemma {:induction false} DropCounts(xs: seq<Item>, x: Item, y: Item)
    ensures multiset(Drop(xs, x))[y] == if y == x then 0 else multiset(xs)[y]
    ensures x in xs ==> |Drop(xs, x)| < |xs|
    ensures |Drop(xs, x)| <= |xs|
    decreases |xs|
  {
    if xs != [] {
      var rest, last := xs[..|xs| - 1], xs[|xs| - 1];
      DropCounts(rest, x, y);
      assert xs == rest + [last];
    }
  }

  function Count(xs: seq<Item>, x: Item): nat
    decreases |xs|
  {
    if xs == [] then 0 else Count(xs[..|xs| - 1], x) + if xs[|xs| - 1] == x then 1 else 0
  }

  lemma {:induction false} CountIs(xs: seq<Item>, x: Item)
    ensures Count(xs, x) == multiset(xs)[x]
    decreases |xs|
  {
    if xs != [] {
      var rest, last := xs[..|xs| - 1], xs[|xs| - 1];
      CountIs(rest, x);
      assert xs == rest + [last];
    }
  }

  lemma {:induction false} DropSum(expand: Item -> Digest, xs: seq<Item>, x: Item, i: nat)
    requires i < LANES
    ensures Sum(expand, xs, i) == Sum(expand, Drop(xs, x), i) + Product(Count(xs, x), Lane(expand(x), i))
    decreases |xs|
  {
    if xs != [] {
      var rest, last := xs[..|xs| - 1], xs[|xs| - 1];
      DropSum(expand, rest, x, i);
      if last == x {
        assert Drop(xs, x) == Drop(rest, x) + [] == Drop(rest, x);
      } else {
        SumPushed(expand, Drop(rest, x), last, i);
      }
    }
  }

  lemma {:induction false} SumPushed(expand: Item -> Digest, xs: seq<Item>, last: Item, i: nat)
    requires i < LANES
    ensures Sum(expand, xs + [last], i) == Sum(expand, xs, i) + Lane(expand(last), i)
  {
    assert (xs + [last])[..|xs|] == xs;
  }

  lemma {:induction false} ProductIs(n: nat, lane: nat)
    ensures Product(n, lane) == n * lane
  {
    if n > 0 {
      ProductIs(n - 1, lane);
    }
  }

  lemma {:induction false} WrapProduct(m: nat, n: nat, lane: nat)
    requires m % 0x1_0000 == n % 0x1_0000
    ensures Wrap(Product(m, lane)) == Wrap(Product(n, lane))
  {
    var k := m / 0x1_0000 - n / 0x1_0000;
    assert m == n + 0x1_0000 * k;
    ProductIs(m, lane);
    ProductIs(n, lane);
    Distribute(n, k, lane);
    WrapMultiple(n * lane, k * lane);
  }

  lemma {:induction false} Distribute(n: int, k: int, lane: int)
    ensures (n + 0x1_0000 * k) * lane == n * lane + 0x1_0000 * (k * lane)
  {
    assert (n + 0x1_0000 * k) * lane == n * lane + (0x1_0000 * k) * lane;
  }

  lemma {:induction false} WrapMultiple(x: int, k: int)
    ensures Wrap(x + 0x1_0000 * k) == Wrap(x)
  {
  }

  lemma {:induction false} WrapTwo(a: int, b: int, c: int, d: int)
    requires Wrap(a) == Wrap(b) && Wrap(c) == Wrap(d)
    ensures Wrap(a + c) == Wrap(b + d)
  {
    WrapAdd(a, c);
    WrapAdd(b, c);
    WrapAdd(c, b);
    WrapAdd(d, b);
  }

  lemma {:induction false} DropCongruent(xs: seq<Item>, ys: seq<Item>, x: Item)
    requires Congruent(multiset(xs), multiset(ys))
    ensures Congruent(multiset(Drop(xs, x)), multiset(Drop(ys, x)))
  {
    forall y
      ensures multiset(Drop(xs, x))[y] % 0x1_0000 == multiset(Drop(ys, x))[y] % 0x1_0000
    {
      DropCounts(xs, x, y);
      DropCounts(ys, x, y);
      assert multiset(xs)[y] % 0x1_0000 == multiset(ys)[y] % 0x1_0000;
    }
  }

  lemma {:induction false} WithDropped(expand: Item -> Digest, xs: seq<Item>, ys: seq<Item>, x: Item, i: nat)
    requires i < LANES && Count(xs, x) % 0x1_0000 == Count(ys, x) % 0x1_0000
    requires Wrap(Sum(expand, Drop(xs, x), i)) == Wrap(Sum(expand, Drop(ys, x), i))
    ensures Wrap(Sum(expand, xs, i)) == Wrap(Sum(expand, ys, i))
  {
    DropSum(expand, xs, x, i);
    DropSum(expand, ys, x, i);
    WrapSums(Sum(expand, Drop(xs, x), i), Sum(expand, Drop(ys, x), i), Count(xs, x), Count(ys, x), Lane(expand(x), i));
  }

  lemma {:induction false} WrapSums(a: nat, b: nat, m: nat, n: nat, lane: nat)
    requires Wrap(a) == Wrap(b) && m % 0x1_0000 == n % 0x1_0000
    ensures Wrap(a + Product(m, lane)) == Wrap(b + Product(n, lane))
  {
    WrapProduct(m, n, lane);
    WrapTwo(a, b, Product(m, lane), Product(n, lane));
  }

  lemma {:induction false} CongruentSums(expand: Item -> Digest, xs: seq<Item>, ys: seq<Item>, i: nat)
    requires i < LANES && Congruent(multiset(xs), multiset(ys))
    ensures Wrap(Sum(expand, xs, i)) == Wrap(Sum(expand, ys, i))
    decreases |xs| + |ys|
  {
    if xs != [] || ys != [] {
      var x := if xs != [] then xs[0] else ys[0];
      DropCounts(xs, x, x);
      DropCounts(ys, x, x);
      DropCongruent(xs, ys, x);
      CongruentSums(expand, Drop(xs, x), Drop(ys, x), i);
      CountIs(xs, x);
      CountIs(ys, x);
      WithDropped(expand, xs, ys, x, i);
    }
  }

  /** The values of a map in some order, with their sums. */
  ghost predicate Lists(xs: seq<Item>, m: map<Item, Item>) {
    && multiset(xs) == Values(m)
    && forall expand, i | 0 <= i < LANES :: Sum(expand, xs, i) == MapSum(expand, m, i)
  }

  lemma {:induction false} Listed(m: map<Item, Item>) returns (xs: seq<Item>)
    ensures Lists(xs, m)
    decreases m
  {
    if m == map[] {
      xs := [];
      assert m.Keys == {};
    } else {
      var k :| k in m;
      var m' := m - {k};
      var rest := Listed(m');
      xs := rest + [m[k]];
      ValuesRemove(m, m.Keys, k);
      assert m.Keys - {k} == m'.Keys;
      ValuesAgree(m, m', m'.Keys);
      forall expand, i | 0 <= i < LANES
        ensures Sum(expand, xs, i) == MapSum(expand, m, i)
      {
        MapSumRemove(expand, m, i, k);
        SumConcat(expand, rest, [m[k]], i);
        SumOne(expand, m[k], i);
      }
    }
  }

  ghost predicate HashOf(expand: Item -> Digest, d: Digest, xs: seq<Item>) {
    forall i | 0 <= i < LANES :: Lane(d, i) == Wrap(Sum(expand, xs, i))
  }

  lemma {:induction false} HashExists(expand: Item -> Digest, xs: seq<Item>) returns (d: Digest)
    ensures HashOf(expand, d, xs)
  {
    d := SubtractThenAdd(expand, Zero(), xs, []);
    forall i | 0 <= i < LANES
      ensures Lane(d, i) == Wrap(Sum(expand, xs, i))
    {
      SubtractThenAddLane(expand, Zero(), xs, [], i);
    }
  }

  /** Under every expansion the hash of the items is the hash of the map, exactly when each value
      occurs equally often in both, up to multiples of 2^16. */
  lemma {:induction false} HashIff(xs: seq<Item>, m: map<Item, Item>)
    ensures (forall expand, d | HashOf(expand, d, xs) :: Summarises(expand, d, m)) <==> Congruent(multiset(xs), Values(m))
  {
    var ys := Listed(m);
    if Congruent(multiset(xs), Values(m)) {
      forall expand, d, i | HashOf(expand, d, xs) && 0 <= i < LANES
        ensures Lane(d, i) == Wrap(MapSum(expand, m, i))
      {
        CongruentSums(expand, xs, ys, i);
        assert Sum(expand, ys, i) == MapSum(expand, m, i);
      }
    }
    if forall expand, d | HashOf(expand, d, xs) :: Summarises(expand, d, m) {
      forall x
        ensures multiset(xs)[x] % 0x1_0000 == Values(m)[x] % 0x1_0000
      {
        var d := HashExists(Marking(x), xs);
        assert Summarises(Marking(x), d, m);
        assert Sum(Marking(x), ys, 0) == MapSum(Marking(x), m, 0);
        SumMarking(xs, x);
        SumMarking(ys, x);
      }
    }
  }

  // ---- Patches ----

  /** What the store keeps of a collection after a patch; the hash written with it plays no part. */
  function Stored(st: Memory, name: string, version: int, muts: seq<Mutation>): map<Item, Item> {
    Collection(Persist(st, name, HashState(version, Zero()), muts), name)
  }

  /** Whatever the expansion, the patch takes an agreeing hash to an agreeing hash. */
  ghost predicate PatchSafe(st: Memory, name: string, version: int, muts: seq<Mutation>) {
    forall expand, base | Summarises(expand, base, Collection(st, name)) ::
      Summarises(expand, UpdateHash(expand, base, muts, Collection(st, name)), Stored(st, name, version, muts))
  }

  lemma {:induction false} SummaryIsHash(expand: Item -> Digest, d: Digest, xs: seq<Item>, m: map<Item, Item>)
    requires Lists(xs, m)
    ensures Summarises(expand, d, m) <==> HashOf(expand, d, xs)
  {
    assert forall i | 0 <= i < LANES :: Sum(expand, xs, i) == MapSum(expand, m, i);
  }

  /** For any patch, any store and any version: safe exactly when the map that is hashed and the map
      that is kept hold each value equally often, up to multiples of 2^16. */
  lemma {:induction false} PatchHashIff(st: Memory, name: string, version: int, muts: seq<Mutation>)
    ensures PatchSafe(st, name, version, muts)
       <==> Congruent(Values(Replay(Collection(st, name), Hashed(muts))), Values(Stored(st, name, version, muts)))
  {
    var c, kept := Collection(st, name), Stored(st, name, version, muts);
    var hashed := Replay(c, Hashed(muts));
    var xs := Listed(hashed);
    HashIff(xs, kept);
    if Congruent(multiset(xs), Values(kept)) {
      forall expand, base | Summarises(expand, base, c)
        ensures Summarises(expand, UpdateHash(expand, base, muts, c), kept)
      {
        UpdateHashOfAny(expand, base, muts, c);
        SummaryIsHash(expand, UpdateHash(expand, base, muts, c), xs, hashed);
      }
    }
    if PatchSafe(st, name, version, muts) {
      forall expand, d | HashOf(expand, d, xs)
        ensures Summarises(expand, d, kept)
      {
        SafeHash(st, name, version, muts, expand, d, xs);
      }
    }
  }

  lemma {:induction false} SafeHash(st: Memory, name: string, version: int, muts: seq<Mutation>, expand: Item -> Digest, d: Digest, xs: seq<Item>)
    requires PatchSafe(st, name, version, muts) && HashOf(expand, d, xs)
    requires Lists(xs, Replay(Collection(st, name), Hashed(muts)))
    ensures Summarises(expand, d, Stored(st, name, version, muts))
  {
    var c := Collection(st, name);
    var hashed := Replay(c, Hashed(muts));
    var ys := Listed(c);
    var base := HashExists(expand, ys);
    SummaryIsHash(expand, base, ys, c);
    UpdateHashOfAny(expand, base, muts, c);
    SummaryIsHash(expand, d, xs, hashed);
    SummaryUnique(expand, d, UpdateHash(expand, base, muts, c), hashed);
  }

  /** A patch that fits is safe, whatever its size. */
  lemma {:induction false} FittingSafe(st: Memory, name: string, version: int, muts: seq<Mutation>)
    requires PatchFits(st, name, version, muts)
    ensures PatchSafe(st, name, version, muts)
  {
    FitsIff(st, name, HashState(version, Zero()), muts);
    PatchHashIff(st, name, version, muts);
  }

  // ---- Fewer than 2^16 mutations ----

  ghost function NamedIndexes(muts: seq<Mutation>): set<Item> {
    set i | 0 <= i < |muts| :: muts[i].index
  }

  lemma {:induction false} NamedBound(muts: seq<Mutation>)
    ensures |NamedIndexes(muts)| <= |muts|
    decreases |muts|
  {
    if muts != [] {
      var rest, last := muts[..|muts| - 1], muts[|muts| - 1];
      NamedBound(rest);
      NamedLast(muts, rest);
    }
  }

  lemma {:induction false} NamedLast(muts: seq<Mutation>, rest: seq<Mutation>)
    requires muts != [] && rest == muts[..|muts| - 1]
    ensures NamedIndexes(muts) == NamedIndexes(rest) + {muts[|muts| - 1].index}
  {
    forall x
      ensures x in NamedIndexes(muts) <==> x in NamedIndexes(rest) || x == muts[|muts| - 1].index
    {
      if x in NamedIndexes(rest) {
        var i :| 0 <= i < |rest| && rest[i].index == x;
        assert muts[i] == rest[i];
      }
      if x in NamedIndexes(muts) {
        var i :| 0 <= i < |muts| && muts[i].index == x;
        if i < |rest| {
          assert rest[i] == muts[i];
        }
      }
    }
  }

  lemma {:induction false} UnnamedKept(c: map<Item, Item>, muts: seq<Mutation>, index: Item)
    requires index !in NamedIndexes(muts)
    ensures Lookup(Replay(c, muts), index) == Lookup(c, index)
    decreases |muts|
  {
    if muts != [] {
      NamedLast(muts, muts[..|muts| - 1]);
      UnnamedKept(c, muts[..|muts| - 1], index);
    }
  }

  lemma {:induction false} ValuesSplit(m: map<Item, Item>, a: set<Item>, b: set<Item>)
    requires a <= m.Keys && b <= m.Keys && a !! b
    ensures ValuesAt(m, a + b) == ValuesAt(m, a) + ValuesAt(m, b)
    decreases a
  {
    if a == {} {
      assert a + b == b;
    } else {
      var k :| k in a;
      var a', all := a - {k}, a + b;
      ValuesSplit(m, a', b);
      ValuesRemove(m, all, k);
      ValuesRemove(m, a, k);
      assert all - {k} == a' + b;
      JoinedValues(m[k], ValuesAt(m, a'), ValuesAt(m, b), ValuesAt(m, a), ValuesAt(m, a' + b), ValuesAt(m, all));
    }
  }

  lemma {:induction false} JoinedValues(v: Item, a': multiset<Item>, b: multiset<Item>, a: multiset<Item>, rest: multiset<Item>, all: multiset<Item>)
    requires rest == a' + b && all == multiset{v} + rest && a == multiset{v} + a'
    ensures all == a + b
  {
  }

  lemma {:induction false} ValuesSize(m: map<Item, Item>, keys: set<Item>)
    requires keys <= m.Keys
    ensures |ValuesAt(m, keys)| == |keys|
    decreases keys
  {
    if keys != {} {
      var k :| k in keys;
      ValuesRemove(m, keys, k);
      ValuesSize(m, keys - {k});
    }
  }

  /** The values of a map at some of its keys. */
  ghost function ValuesOn(m: map<Item, Item>, keys: set<Item>): multiset<Item> {
    ValuesAt(m, m.Keys * keys)
  }

  /** Maps that agree outside some keys hold their values equally often, exactly or up to multiples of 2^16,
      if and only if they do so at those keys. */
  lemma {:induction false} SameElsewhere(m: map<Item, Item>, m': map<Item, Item>, keys: set<Item>)
    requires forall k | k !in keys :: Lookup(m, k) == Lookup(m', k)
    ensures Congruent(Values(m), Values(m')) <==> Congruent(ValuesOn(m, keys), ValuesOn(m', keys))
    ensures Values(m) == Values(m') <==> ValuesOn(m, keys) == ValuesOn(m', keys)
    ensures |ValuesOn(m, keys)| <= |keys| && |ValuesOn(m', keys)| <= |keys|
  {
    var a, b, b' := m.Keys - keys, m.Keys * keys, m'.Keys * keys;
    SameOutside(m, m', keys, a);
    ValuesParts(m, a, b, keys);
    ValuesParts(m', a, b', keys);
    CongruentParts(ValuesAt(m, a), ValuesAt(m, b), ValuesAt(m', b'));
  }

  lemma {:induction false} CongruentParts(rest: multiset<Item>, part: multiset<Item>, part': multiset<Item>)
    ensures Congruent(rest + part, rest + part') <==> Congruent(part, part')
    ensures rest + part == rest + part' <==> part == part'
  {
    CongruentWith(rest, part, part');
    if Congruent(rest + part, rest + part') {
      CongruentWithout(rest, part, part');
    }
    if rest + part == rest + part' {
      assert part == rest + part - rest == part';
    }
  }

  lemma {:induction false} CongruentWithout(rest: multiset<Item>, part: multiset<Item>, part': multiset<Item>)
    requires Congruent(rest + part, rest + part')
    ensures Congruent(part, part')
  {
    forall x
      ensures part[x] % 0x1_0000 == part'[x] % 0x1_0000
    {
      assert (rest + part)[x] % 0x1_0000 == (rest + part')[x] % 0x1_0000;
      SameRemainder(rest[x], part[x], part'[x]);
    }
  }

  lemma {:induction false} CongruentWith(rest: multiset<Item>, part: multiset<Item>, part': multiset<Item>)
    ensures Congruent(part, part') ==> Congruent(rest + part, rest + part')
  {
    if Congruent(part, part') {
      forall x
        ensures (rest + part)[x] % 0x1_0000 == (rest + part')[x] % 0x1_0000
      {
        assert part[x] % 0x1_0000 == part'[x] % 0x1_0000;
        SameSum(rest[x], part[x], part'[x]);
        assert (rest + part)[x] == rest[x] + part[x] && (rest + part')[x] == rest[x] + part'[x];
      }
    }
  }

  lemma {:induction false} SameSum(rest: nat, a: nat, b: nat)
    requires a % 0x1_0000 == b % 0x1_0000
    ensures (rest + a) % 0x1_0000 == (rest + b) % 0x1_0000
  {
    WrapAdd(a, rest);
    WrapAdd(b, rest);
  }

  lemma {:induction false} ValuesParts(m: map<Item, Item>, a: set<Item>, b: set<Item>, named: set<Item>)
    requires a == m.Keys - named && b == m.Keys * named
    ensures Values(m) == ValuesAt(m, a) + ValuesAt(m, b) && |ValuesAt(m, b)| <= |named|
  {
    assert a + b == m.Keys;
    ValuesSplit(m, a, b);
    PartBound(m, b, named);
  }

  lemma {:induction false} SameOutside(m: map<Item, Item>, m': map<Item, Item>, named: set<Item>, a: set<Item>)
    requires a == m.Keys - named && forall k | k !in named :: Lookup(m, k) == Lookup(m', k)
    ensures a == m'.Keys - named && ValuesAt(m, a) == ValuesAt(m', a)
  {
    forall k
      ensures k in a <==> k in m'.Keys - named
      ensures k in a ==> m[k] == m'[k]
    {
      if k !in named {
        assert Lookup(m, k) == Lookup(m', k);
      }
    }
    ValuesAgree(m, m', a);
  }

  /** Fewer than 2^16 values: counts up to multiples of 2^16 are counts. */
  lemma {:induction false} SmallParts(part: multiset<Item>, part': multiset<Item>)
    requires |part| < 0x1_0000 && |part'| < 0x1_0000
    ensures Congruent(part, part') <==> part == part'
  {
    if Congruent(part, part') {
      forall x
        ensures part[x] == part'[x]
      {
        CountBound(part, x);
        CountBound(part', x);
        assert part[x] % 0x1_0000 == part'[x] % 0x1_0000;
      }
    }
  }

  lemma {:induction false} PartBound(m: map<Item, Item>, part: set<Item>, named: set<Item>)
    requires part <= m.Keys && part <= named
    ensures |ValuesAt(m, part)| <= |named|
  {
    ValuesSize(m, part);
    assert named == part + (named - part);
  }

  lemma {:induction false} CountBound(a: multiset<Item>, x: Item)
    ensures a[x] <= |a|
  {
    var rest := a[x := 0];
    assert a == rest + multiset{}[x := a[x]];
  }

  lemma {:induction false} SameRemainder(rest: nat, a: nat, b: nat)
    requires (rest + a) % 0x1_0000 == (rest + b) % 0x1_0000
    ensures a % 0x1_0000 == b % 0x1_0000
  {
  }

  lemma {:induction false} DifferAtNamed(st: Memory, name: string, version: int, muts: seq<Mutation>, k: Item)
    requires k !in NamedIndexes(muts)
    ensures Lookup(Replay(Collection(st, name), Hashed(muts)), k) == Lookup(Stored(st, name, version, muts), k)
  {
    assert NamedIndexes(Hashed(muts)) == NamedIndexes(muts) by {
      forall x
        ensures x in NamedIndexes(Hashed(muts)) <==> x in NamedIndexes(muts)
      {
        if x in NamedIndexes(muts) {
          var i :| 0 <= i < |muts| && muts[i].index == x;
          assert Hashed(muts)[i].index == x;
        }
      }
    }
    UnnamedKept(Collection(st, name), Hashed(muts), k);
    UnnamedKept(Collection(st, name), muts, k);
    PersistLookup(st, name, HashState(version, Zero()), muts, k);
  }

  /** The indexes that do not fit. */
  ghost function Misfits(st: Memory, name: string, version: int, muts: seq<Mutation>): set<Item> {
    set index | index in NamedIndexes(muts) && !IndexFits(st, name, version, muts, index)
  }

  lemma {:induction false} FitsElsewhere(st: Memory, name: string, version: int, muts: seq<Mutation>, k: Item)
    requires k !in Misfits(st, name, version, muts)
    ensures Lookup(Replay(Collection(st, name), Hashed(muts)), k) == Lookup(Stored(st, name, version, muts), k)
  {
    if k in NamedIndexes(muts) {
      FitsAt(st, name, HashState(version, Zero()), muts, k);
    } else {
      DifferAtNamed(st, name, version, muts, k);
    }
  }

  lemma {:induction false} SameAtMisfits(st: Memory, name: string, version: int, muts: seq<Mutation>,
                                         hashed: map<Item, Item>, kept: map<Item, Item>, misfits: set<Item>)
    requires hashed == Replay(Collection(st, name), Hashed(muts)) && kept == Stored(st, name, version, muts)
    requires misfits == Misfits(st, name, version, muts)
    ensures forall k | k !in misfits :: Lookup(hashed, k) == Lookup(kept, k)
  {
    forall k | k !in misfits
      ensures Lookup(hashed, k) == Lookup(kept, k)
    {
      FitsElsewhere(st, name, version, muts, k);
    }
  }

  /** For any patch, any store and any version: safe exactly when, at the indexes that do not fit, what is hashed
      and what is kept hold each value equally often, up to multiples of 2^16. */
  lemma {:induction false} MisfitsIff(st: Memory, name: string, version: int, muts: seq<Mutation>)
    ensures PatchSafe(st, name, version, muts)
       <==> Congruent(ValuesOn(Replay(Collection(st, name), Hashed(muts)), Misfits(st, name, version, muts)),
                      ValuesOn(Stored(st, name, version, muts), Misfits(st, name, version, muts)))
  {
    var hashed, kept := Replay(Collection(st, name), Hashed(muts)), Stored(st, name, version, muts);
    var misfits := Misfits(st, name, version, muts);
    PatchHashIff(st, name, version, muts);
    SameAtMisfits(st, name, version, muts, hashed, kept, misfits);
    SameElsewhere(hashed, kept, misfits);
  }

  /** With fewer than 2^16 indexes that do not fit: safe exactly when no value stays whose index was last named by
      an unknown operation, and the values sent for the indexes held newer are, together, those they are held
      with. */
  lemma {:induction false} SmallPatchIff(st: Memory, name: string, version: int, muts: seq<Mutation>)
    requires |Misfits(st, name, version, muts)| < 0x1_0000
    ensures PatchSafe(st, name, version, muts)
       <==> && (forall index :: !Orphaned(Collection(st, name), muts, index))
            && ValuesOn(Replay(Collection(st, name), muts), Misfits(st, name, version, muts))
               == ValuesOn(Collection(st, name), Misfits(st, name, version, muts))
  {
    var c, misfits := Collection(st, name), Misfits(st, name, version, muts);
    var hashed, kept := Replay(c, Hashed(muts)), Stored(st, name, version, muts);
    PatchHashIff(st, name, version, muts);
    SameAtMisfits(st, name, version, muts, hashed, kept, misfits);
    SameElsewhere(hashed, kept, misfits);
    SmallParts(ValuesOn(hashed, misfits), ValuesOn(kept, misfits));
    if index :| Orphaned(c, muts, index) {
      OrphanKept(st, name, version, muts, index, hashed, kept);
      FewerKeys(hashed, kept);
    } else {
      StaleValues(st, name, version, muts, misfits);
    }
  }

  lemma {:induction false} HashedIsKept(st: Memory, name: string, version: int, muts: seq<Mutation>, x: Item)
    ensures x in Replay(Collection(st, name), Hashed(muts)) ==> x in Stored(st, name, version, muts)
    ensures Orphaned(Collection(st, name), muts, x) ==> x in Stored(st, name, version, muts) && x !in Replay(Collection(st, name), Hashed(muts))
  {
    HashedLookup(Collection(st, name), muts, x);
    PersistLookupStale(st, name, HashState(version, Zero()), muts, x);
  }

  /** A value that stays although its index was last named by an unknown operation is not hashed. */
  lemma {:induction false} OrphanKept(st: Memory, name: string, version: int, muts: seq<Mutation>, index: Item,
                                      hashed: map<Item, Item>, kept: map<Item, Item>)
    requires Orphaned(Collection(st, name), muts, index)
    requires hashed == Replay(Collection(st, name), Hashed(muts)) && kept == Stored(st, name, version, muts)
    ensures hashed.Keys < kept.Keys
  {
    forall x | x in hashed
      ensures x in kept
    {
      HashedIsKept(st, name, version, muts, x);
    }
    HashedIsKept(st, name, version, muts, index);
    ProperSubset(hashed.Keys, kept.Keys, index);
  }

  lemma {:induction false} ProperSubset(a: set<Item>, b: set<Item>, x: Item)
    requires (forall y | y in a :: y in b) && x in b && x !in a
    ensures a < b
  {
  }

  /** Without such values, what is hashed is the replayed map, and what does not fit stays as it was. */
  lemma {:induction false} StaleValues(st: Memory, name: string, version: int, muts: seq<Mutation>, misfits: set<Item>)
    requires misfits == Misfits(st, name, version, muts) && forall index :: !Orphaned(Collection(st, name), muts, index)
    ensures Replay(Collection(st, name), Hashed(muts)) == Replay(Collection(st, name), muts)
    ensures ValuesOn(Stored(st, name, version, muts), misfits) == ValuesOn(Collection(st, name), misfits)
  {
    var c, kept := Collection(st, name), Stored(st, name, version, muts);
    forall x
      ensures Lookup(Replay(c, Hashed(muts)), x) == Lookup(Replay(c, muts), x)
      ensures x in misfits ==> Lookup(kept, x) == Lookup(c, x)
    {
      HashedLookup(c, muts, x);
      PersistLookup(st, name, HashState(version, Zero()), muts, x);
    }
    SameLookups(Replay(c, Hashed(muts)), Replay(c, muts));
    SameOn(kept, c, misfits);
  }

  lemma {:induction false} SameOn(m: map<Item, Item>, m': map<Item, Item>, keys: set<Item>)
    requires forall k | k in keys :: Lookup(m, k) == Lookup(m', k)
    ensures ValuesOn(m, keys) == ValuesOn(m', keys)
  {
    forall k
      ensures k in m.Keys * keys <==> k in m'.Keys * keys
      ensures k in m.Keys * keys ==> m[k] == m'[k]
    {
      if k in keys {
        assert Lookup(m, k) == Lookup(m', k);
      }
    }
    assert m.Keys * keys == m'.Keys * keys;
    ValuesAgree(m, m', m.Keys * keys);
  }

  lemma {:induction false} FewerKeys(m: map<Item, Item>, m': map<Item, Item>)
    requires m.Keys < m'.Keys
    ensures Values(m) != Values(m')
  {
    ValuesSize(m, m.Keys);
    ValuesSize(m', m'.Keys);
    assert m'.Keys == m.Keys + (m'.Keys - m.Keys);
    var k :| k in m'.Keys && k !in m.Keys;
    assert k in m'.Keys - m.Keys;
  }

  /** Unknown operations: with nothing held newer and fewer than 2^16 indexes that do not fit, a patch is safe
      exactly when it leaves no value whose index it last names with an unknown operation. */
  lemma {:induction false} UnknownOperationIff(st: Memory, name: string, version: int, muts: seq<Mutation>)
    requires |Misfits(st, name, version, muts)| < 0x1_0000 && forall index :: !Stale(st, name, version, muts, index)
    ensures PatchSafe(st, name, version, muts) <==> forall index :: !Orphaned(Collection(st, name), muts, index)
  {
    SmallPatchIff(st, name, version, muts);
    if forall index :: !Orphaned(Collection(st, name), muts, index) {
      FittingSafe(st, name, version, muts);
    }
  }

  /** One SET: safe exactly when its index is not held at a newer version with another value. */
  lemma {:induction false} OneSetIff(st: Memory, name: string, version: int, mut: Mutation)
    requires mut.operation == SET
    ensures PatchSafe(st, name, version, [mut]) <==> !Stale(st, name, version, [mut], mut.index)
  {
    var c, muts := Collection(st, name), [mut];
    if Stale(st, name, version, muts, mut.index) {
      StaleKeeps(st, name, version, mut);
      OneReplayed(c, mut);
      ReplacedValue(c, mut.index, ValueMac(mut));
      var hashed, misfits := Replay(c, Hashed(muts)), Misfits(st, name, version, muts);
      PatchHashIff(st, name, version, muts);
      SameAtMisfits(st, name, version, muts, hashed, c, misfits);
      SameElsewhere(hashed, c, misfits);
      FewMisfits(st, name, version, muts);
      SmallParts(ValuesOn(hashed, misfits), ValuesOn(c, misfits));
    } else {
      forall index
        ensures IndexFits(st, name, version, muts, index)
      {
        OneNamed(mut, index);
      }
      FittingSafe(st, name, version, muts);
    }
  }

  lemma {:induction false} FewMisfits(st: Memory, name: string, version: int, muts: seq<Mutation>)
    ensures |Misfits(st, name, version, muts)| <= |muts|
  {
    NamedBound(muts);
    var named, misfits := NamedIndexes(muts), Misfits(st, name, version, muts);
    assert named == misfits + (named - misfits);
  }

  lemma {:induction false} OneReplayed(c: map<Item, Item>, mut: Mutation)
    requires mut.operation == SET
    ensures Replay(c, Hashed([mut])) == c[mut.index := ValueMac(mut)]
  {
    var none: seq<Mutation> := [];
    assert Hashed([mut]) == [mut] && [mut][..0] == none;
    assert Replay(c, none) == c;
  }

  lemma {:induction false} OneNamed(mut: Mutation, index: Item)
    ensures LastOn([mut], index) == if mut.index == index then Some(mut) else None
    ensures LastSet([mut], index) == if mut.operation == SET && mut.index == index then Some(ValueMac(mut)) else None
  {
    var none: seq<Mutation> := [];
    assert [mut][..0] == none;
    assert LastSet(none, index) == None && LastOn(none, index) == None;
  }

  lemma {:induction false} StaleKeeps(st: Memory, name: string, version: int, mut: Mutation)
    requires mut.operation == SET && Stale(st, name, version, [mut], mut.index)
    ensures var c := Collection(st, name);
            Stored(st, name, version, [mut]) == c && mut.index in c && c[mut.index] != ValueMac(mut)
  {
    var c, kept := Collection(st, name), Stored(st, name, version, [mut]);
    var none: seq<Mutation> := [];
    assert [mut][..|[mut]| - 1] == none;
    CollectionAt(st, name, mut.index);
    assert LastSet([mut], mut.index) == Some(ValueMac(mut));
    forall index
      ensures Lookup(kept, index) == Lookup(c, index)
    {
      PersistLookup(st, name, HashState(version, Zero()), [mut], index);
      assert Replay(c, [mut]) == c[mut.index := ValueMac(mut)];
    }
    SameLookups(kept, c);
  }

  lemma {:induction false} ReplacedValue(c: map<Item, Item>, k: Item, v: Item)
    requires k in c && c[k] != v
    ensures Values(c[k := v]) != Values(c)
  {
    var d, others := c[k := v], c.Keys - {k};
    assert d.Keys == c.Keys;
    ValuesRemove(c, c.Keys, k);
    ValuesRemove(d, d.Keys, k);
    ValuesAgree(c, d, others);
    assert Values(d)[v] == ValuesAt(c, others)[v] + 1;
  }

  // ---- Snapshots ----

  ghost predicate SnapshotSafe(st: Memory, name: string, version: int, records: seq<Mutation>) {
    forall expand, base | Summarises(expand, base, Collection(st, name)) ::
      Summarises(expand, SnapshotHash(expand, base, records), Stored(st, name, version, AsSets(records)))
  }

  /** The hash of a snapshot counts all that was stored and all that comes. */
  lemma {:induction false} SnapshotHashOf(expand: Item -> Digest, base: Digest, records: seq<Mutation>, c: map<Item, Item>, ys: seq<Item>)
    requires Lists(ys, c) && Summarises(expand, base, c)
    ensures HashOf(expand, SnapshotHash(expand, base, records), ys + Added(AsSets(records), |records|))
  {
    var added := Added(AsSets(records), |records|);
    forall i | 0 <= i < LANES
      ensures Lane(SnapshotHash(expand, base, records), i) == Wrap(Sum(expand, ys + added, i))
    {
      assert Sum(expand, ys, i) == MapSum(expand, c, i);
      SumConcat(expand, ys, added, i);
      LaneBalance(expand, base, added, [], i, MapSum(expand, c, i), Sum(expand, ys + added, i));
    }
  }

  /** For any snapshot onto any stored map: safe exactly when what was stored and what comes, together,
      hold each value as often as what is kept, up to multiples of 2^16. */
  lemma {:induction false} SnapshotHashIff(st: Memory, name: string, version: int, records: seq<Mutation>)
    ensures SnapshotSafe(st, name, version, records)
       <==> Congruent(Values(Collection(st, name)) + multiset(Added(AsSets(records), |records|)),
                      Values(Stored(st, name, version, AsSets(records))))
  {
    var c, kept := Collection(st, name), Stored(st, name, version, AsSets(records));
    var added := Added(AsSets(records), |records|);
    var ys := Listed(c);
    HashIff(ys + added, kept);
    assert multiset(ys + added) == Values(c) + multiset(added);
    forall expand, base | Summarises(expand, base, c)
      ensures HashOf(expand, SnapshotHash(expand, base, records), ys + added)
    {
      SnapshotHashOf(expand, base, records, c, ys);
    }
    if SnapshotSafe(st, name, version, records) {
      forall expand, d | HashOf(expand, d, ys + added)
        ensures Summarises(expand, d, kept)
      {
        var base := HashExists(expand, ys);
        SummaryIsHash(expand, base, ys, c);
        SnapshotHashOf(expand, base, records, c, ys);
        LanesDetermine(d, SnapshotHash(expand, base, records));
      }
    }
  }

  lemma {:induction false} AddedAll(muts: seq<Mutation>, n: nat)
    requires n <= |muts| && forall i | 0 <= i < |muts| :: muts[i].operation == SET
    ensures |Added(muts, n)| == n
  {
    if n > 0 {
      AddedAll(muts, n - 1);
    }
  }

  lemma {:induction false} ReplayLast(c: map<Item, Item>, muts: seq<Mutation>, n: nat)
    requires 0 < n <= |muts| && forall i | 0 <= i < |muts| :: muts[i].operation == SET
    ensures Replay(c, muts[..n]) == Replay(c, muts[..n - 1])[muts[n - 1].index := ValueMac(muts[n - 1])]
  {
    assert muts[..n][..n - 1] == muts[..n - 1];
  }

  lemma {:induction false} ReplayKeys(c: map<Item, Item>, muts: seq<Mutation>, n: nat)
    requires n <= |muts| && forall i | 0 <= i < |muts| :: muts[i].operation == SET
    ensures Replay(c, muts[..n]).Keys == c.Keys + NamedIndexes(muts[..n])
    decreases n
  {
    if n > 0 {
      ReplayLast(c, muts, n);
      ReplayKeys(c, muts, n - 1);
      assert muts[..n][..n - 1] == muts[..n - 1];
      NamedLast(muts[..n], muts[..n - 1]);
    }
  }

  lemma {:induction false} PutSize(m: map<Item, Item>, k: Item, v: Item)
    ensures |m[k := v]| == |m| + if k in m then 0 else 1
  {
    if k in m {
      assert m[k := v].Keys == m.Keys;
    } else {
      assert m[k := v].Keys == m.Keys + {k};
    }
  }

  /** No record's index is in the map when its turn comes. */
  ghost predicate AllNew(c: map<Item, Item>, muts: seq<Mutation>, n: nat)
    requires n <= |muts|
    decreases n
  {
    n == 0 || (AllNew(c, muts, n - 1) && muts[n - 1].index !in Replay(c, muts[..n - 1]))
  }

  lemma {:induction false} AllNewSize(c: map<Item, Item>, muts: seq<Mutation>, n: nat)
    requires n <= |muts| && forall i | 0 <= i < |muts| :: muts[i].operation == SET
    ensures |c| <= |Replay(c, muts[..n])| <= |c| + n
    ensures |Replay(c, muts[..n])| == |c| + n <==> AllNew(c, muts, n)
    decreases n
  {
    if n > 0 {
      AllNewSize(c, muts, n - 1);
      ReplayLast(c, muts, n);
      SizeStep(|c|, Replay(c, muts[..n - 1]), muts[n - 1].index, ValueMac(muts[n - 1]), n, AllNew(c, muts, n - 1), AllNew(c, muts, n));
    }
  }

  lemma {:induction false} AllNewFits(c: map<Item, Item>, muts: seq<Mutation>, n: nat)
    requires n <= |muts| && forall i | 0 <= i < |muts| :: muts[i].operation == SET
    ensures AllNew(c, muts, n) <==> SnapshotFits(c, muts[..n])
    decreases n
  {
    if n > 0 {
      AllNewFits(c, muts, n - 1);
      ReplayKeys(c, muts, n - 1);
      FitsLast(c, muts, n);
    }
  }

  /** The map grows by one for each record exactly when no index occurs twice or was there before. */
  lemma {:induction false} ReplaySize(c: map<Item, Item>, muts: seq<Mutation>, n: nat)
    requires n <= |muts| && forall i | 0 <= i < |muts| :: muts[i].operation == SET
    ensures |c| <= |Replay(c, muts[..n])| <= |c| + n
    ensures |Replay(c, muts[..n])| == |c| + n <==> SnapshotFits(c, muts[..n])
  {
    AllNewSize(c, muts, n);
    AllNewFits(c, muts, n);
  }

  lemma {:induction false} SizeStep(c: nat, m: map<Item, Item>, k: Item, v: Item, n: nat, before: bool, after: bool)
    requires n > 0 && c <= |m| <= c + n - 1 && (|m| == c + n - 1 <==> before) && (after <==> before && k !in m)
    ensures c <= |m[k := v]| <= c + n && (|m[k := v]| == c + n <==> after)
  {
    PutSize(m, k, v);
  }

  lemma {:induction false} FitsLast(c: map<Item, Item>, muts: seq<Mutation>, n: nat)
    requires 0 < n <= |muts|
    ensures SnapshotFits(c, muts[..n])
       <==> SnapshotFits(c, muts[..n - 1]) && muts[n - 1].index !in c && muts[n - 1].index !in NamedIndexes(muts[..n - 1])
  {
    var all, rest, last := muts[..n], muts[..n - 1], muts[n - 1];
    assert forall i | 0 <= i < n - 1 :: all[i] == rest[i];
    if SnapshotFits(c, all) {
      assert forall i | 0 <= i < n - 1 :: all[i].index != all[n - 1].index;
    }
    if SnapshotFits(c, rest) && last.index !in c && last.index !in NamedIndexes(rest) {
      assert forall i | 0 <= i < n - 1 :: rest[i].index in NamedIndexes(rest);
    }
  }

  lemma {:induction false} CongruentSizes(xs: seq<Item>, m: map<Item, Item>)
    requires Congruent(multiset(xs), Values(m))
    ensures |xs| % 0x1_0000 == |m| % 0x1_0000
  {
    var ys := Listed(m);
    CongruentSums(Counting(), xs, ys, 0);
    SumCounts(xs);
    SumCounts(ys);
    ValuesSize(m, m.Keys);
    assert |multiset(ys)| == |ys|;
  }

  /** An expansion that counts items in lane 0. */
  function Counting(): Item -> Digest {
    _ => Unit()
  }

  lemma {:induction false} SumCounts(items: seq<Item>)
    ensures Sum(Counting(), items, 0) == |items|
    decreases |items|
  {
    if items != [] {
      SumCounts(items[..|items| - 1]);
    }
  }

  /** For fewer than 2^16 records onto any stored map: safe exactly when no index occurs twice or is
      stored already. */
  lemma {:induction false} SmallSnapshotIff(st: Memory, name: string, version: int, records: seq<Mutation>)
    requires |records| < 0x1_0000
    ensures SnapshotSafe(st, name, version, records) <==> SnapshotFits(Collection(st, name), records)
  {
    if SnapshotFits(Collection(st, name), records) {
      FittingSnapshotSafe(st, name, version, records);
    }
    if SnapshotSafe(st, name, version, records) {
      SnapshotHashIff(st, name, version, records);
      var muts := AsSets(records);
      StoredSize(st, name, version, muts);
      AddedAll(muts, |records|);
      SafeSnapshotFits(Collection(st, name), Stored(st, name, version, muts), records, muts, Added(muts, |records|));
    }
  }

  /** A snapshot of new, distinct indexes is safe, whatever its size. */
  lemma {:induction false} FittingSnapshotSafe(st: Memory, name: string, version: int, records: seq<Mutation>)
    requires SnapshotFits(Collection(st, name), records)
    ensures SnapshotSafe(st, name, version, records)
  {
    var c := Collection(st, name);
    forall index
      ensures !Stale(st, name, version, AsSets(records), index)
    {
      NoneStale(st, name, version, records, index);
    }
    OldVersionIff(st, name, HashState(version, Zero()), AsSets(records));
    forall expand, base | Summarises(expand, base, c)
      ensures Summarises(expand, SnapshotHash(expand, base, records), Replay(c, AsSets(records)))
    {
      SnapshotSummarises(expand, base, records, c);
    }
  }

  lemma {:induction false} StoredSize(st: Memory, name: string, version: int, muts: seq<Mutation>)
    ensures |Stored(st, name, version, muts)| == |Replay(Collection(st, name), muts)|
  {
    var kept, replayed := Stored(st, name, version, muts), Replay(Collection(st, name), muts);
    forall index
      ensures index in kept <==> index in replayed
    {
      PersistLookupStale(st, name, HashState(version, Zero()), muts, index);
    }
    assert kept.Keys == replayed.Keys;
  }

  lemma {:induction false} SafeSnapshotFits(c: map<Item, Item>, kept: map<Item, Item>, records: seq<Mutation>,
                                            muts: seq<Mutation>, added: seq<Item>)
    requires |records| < 0x1_0000 && muts == AsSets(records) && |added| == |records| && |kept| == |Replay(c, muts)|
    requires Congruent(Values(c) + multiset(added), Values(kept))
    ensures SnapshotFits(c, records)
  {
    SafeSizes(c, added, kept);
    FitsBySize(c, records, muts, |kept|);
  }

  lemma {:induction false} SafeSizes(c: map<Item, Item>, added: seq<Item>, kept: map<Item, Item>)
    requires Congruent(Values(c) + multiset(added), Values(kept))
    ensures (|c| + |added|) % 0x1_0000 == |kept| % 0x1_0000
  {
    var ys := Listed(c);
    assert multiset(ys + added) == Values(c) + multiset(added);
    CongruentSizes(ys + added, kept);
    ListedSize(ys, c);
  }

  lemma {:induction false} ListedSize(ys: seq<Item>, c: map<Item, Item>)
    requires multiset(ys) == Values(c)
    ensures |ys| == |c|
  {
    ValuesSize(c, c.Keys);
    assert |multiset(ys)| == |ys|;
  }

  lemma {:induction false} FitsBySize(c: map<Item, Item>, records: seq<Mutation>, muts: seq<Mutation>, r: nat)
    requires muts == AsSets(records) && r == |Replay(c, muts)|
    requires |records| < 0x1_0000 && (|c| + |records|) % 0x1_0000 == r % 0x1_0000
    ensures SnapshotFits(c, records)
  {
    var n := |records|;
    assert muts[..n] == muts;
    ReplaySize(c, muts, n);
    SmallGap(|c|, n, r);
    assert forall i | 0 <= i < n :: muts[i].index == records[i].index;
  }

  lemma {:induction false} SmallGap(c: nat, n: nat, r: nat)
    requires n < 0x1_0000 && c <= r <= c + n && (c + n) % 0x1_0000 == r % 0x1_0000
    ensures r == c + n
  {
  }

  // ---- Inputs ----

  const NAME := "regular"

  /** The first patch from an empty store: one value under one index, at version 5. */
  function Reached(expand: Item -> Digest): Memory {
    ApplyPatch(expand, EMPTY_MEMORY, NAME, GetVersion(EMPTY_MEMORY, NAME), Patch(5, [Mutation(SET, [1], [2])], None)).0
  }

  /** One value under one index at version 5, and no other. */
  predicate HoldsOne(st: Memory) {
    st.macs == map[MacKey(NAME, [1]) := Entry(5, [2])]
  }

  lemma {:induction false} DeltasOne(first: Mutation)
    requires first.operation == SET
    ensures Deltas([first]) == ([MacEntry(first.index, ValueMac(first))], [])
  {
    var none: seq<Mutation> := [];
    assert [first][..0] == none;
    assert Deltas(none) == ([], []);
    var added: seq<MacEntry> := [];
    assert added + [MacEntry(first.index, ValueMac(first))] == [MacEntry(first.index, ValueMac(first))];
  }

  lemma {:induction false} PutOne(st: Memory, version: int, e: MacEntry)
    ensures PutMacs(st, NAME, version, [e]) == PutMac(st, NAME, version, e)
  {
    var none: seq<MacEntry> := [];
    assert [e][..0] == none;
    assert PutMacs(st, NAME, version, none) == st;
  }

  lemma {:induction false} PersistOne(state: HashState, first: Mutation)
    requires first.operation == SET
    ensures Persist(EMPTY_MEMORY, NAME, state, [first]).macs == map[MacKey(NAME, first.index) := Entry(state.version, ValueMac(first))]
  {
    DeltasOne(first);
    var st := DeleteMacs(PutVersion(EMPTY_MEMORY, NAME, state), NAME, []);
    assert st.macs == map[];
    PutOne(st, state.version, MacEntry(first.index, ValueMac(first)));
  }

  /** After it hash and map agree; the entries do not depend on the expansion. */
  lemma {:induction false} ReachedHolds(expand: Item -> Digest)
    ensures Agrees(expand, Reached(expand), NAME)
    ensures HoldsOne(Reached(expand))
  {
    var first := Mutation(SET, [1], [2]);
    var patch, cursor := Patch(5, [first], None), GetVersion(EMPTY_MEMORY, NAME);
    PersistOne(HashState(5, UpdateHash(expand, cursor.hash, [first], Collection(EMPTY_MEMORY, NAME))), first);
    assert Collection(EMPTY_MEMORY, NAME) == map[];
    EmptySummary(expand);
    forall index
      ensures IndexFits(EMPTY_MEMORY, NAME, 5, [first], index)
    {
      OneNamed(first, index);
    }
    PatchAgrees(expand, EMPTY_MEMORY, NAME, patch);
  }

  // Only the entries of a store matter.

  lemma {:induction false} EntriesMatter(st: Memory, st': Memory, name: string, state: HashState, muts: seq<Mutation>)
    requires st.macs == st'.macs
    ensures Collection(st, name) == Collection(st', name)
    ensures Collection(Persist(st, name, state, muts), name) == Stored(st', name, state.version, muts)
  {
    assert Collection(st, name) == Collection(st', name);
    forall index
      ensures Lookup(Collection(Persist(st, name, state, muts), name), index) == Lookup(Stored(st', name, state.version, muts), index)
    {
      PersistLookup(st, name, state, muts, index);
      PersistLookup(st', name, HashState(state.version, Zero()), muts, index);
    }
    SameLookups(Collection(Persist(st, name, state, muts), name), Stored(st', name, state.version, muts));
  }

  /** The patch breaks the agreement in the history that starts with the first patch. */
  ghost predicate PatchBreaks(expand: Item -> Digest, version: int, muts: seq<Mutation>) {
    var st := Reached(expand);
    && Agrees(expand, st, NAME)
    && !Agrees(expand, ApplyPatch(expand, st, NAME, GetVersion(st, NAME), Patch(version, muts, None)).0, NAME)
  }

  ghost predicate SnapshotBreaks(expand: Item -> Digest, version: int, records: seq<Mutation>) {
    var st := Reached(expand);
    && Agrees(expand, st, NAME)
    && !Agrees(expand, ApplySnapshot(expand, st, NAME, GetVersion(st, NAME), Snapshot(version, records, None)).0, NAME)
  }

  /** A patch that is not safe on the entries reached breaks the agreement there, under some expansion. */
  lemma {:induction false} UnsafeBreaks(e: Item -> Digest, version: int, muts: seq<Mutation>)
    requires !PatchSafe(Reached(e), NAME, version, muts)
    ensures exists expand :: PatchBreaks(expand, version, muts)
  {
    var c := Collection(Reached(e), NAME);
    var expand, base :| Summarises(expand, base, c)
      && !Summarises(expand, UpdateHash(expand, base, muts, c), Stored(Reached(e), NAME, version, muts));
    var st, state := Reached(expand), HashState(version, UpdateHash(expand, base, muts, c));
    ReachedHolds(e);
    ReachedHolds(expand);
    EntriesMatter(st, Reached(e), NAME, state, muts);
    SummaryUnique(expand, base, GetVersion(st, NAME).hash, c);
    PersistVersions(st, NAME, state, muts);
    assert PatchBreaks(expand, version, muts);
  }

  lemma {:induction false} UnsafeSnapshotBreaks(e: Item -> Digest, version: int, records: seq<Mutation>)
    requires !SnapshotSafe(Reached(e), NAME, version, records)
    ensures exists expand :: SnapshotBreaks(expand, version, records)
  {
    var c, muts := Collection(Reached(e), NAME), AsSets(records);
    var expand, base :| Summarises(expand, base, c)
      && !Summarises(expand, SnapshotHash(expand, base, records), Stored(Reached(e), NAME, version, muts));
    var st, state := Reached(expand), HashState(version, SnapshotHash(expand, base, records));
    ReachedHolds(e);
    ReachedHolds(expand);
    EntriesMatter(st, Reached(e), NAME, state, muts);
    SummaryUnique(expand, base, GetVersion(st, NAME).hash, c);
    PersistVersions(st, NAME, state, muts);
    assert SnapshotBreaks(expand, version, records);
  }

  lemma {:induction false} OlderSetUnsafe(st: Memory)
    requires HoldsOne(st)
    ensures !PatchSafe(st, NAME, 4, [Mutation(SET, [1], [3])])
  {
    var older := Mutation(SET, [1], [3]);
    OneSetIff(st, NAME, 4, older);
    OneNamed(older, [1]);
    assert Stale(st, NAME, 4, [older], [1]);
  }

  lemma {:induction false} UnknownOperationUnsafe(st: Memory)
    requires HoldsOne(st)
    ensures !PatchSafe(st, NAME, 6, [Mutation(2, [1], [])])
  {
    var unknown := Mutation(2, [1], []);
    var none: seq<Mutation> := [];
    assert [unknown][..0] == none;
    CollectionAt(st, NAME, [1]);
    forall index
      ensures !Stale(st, NAME, 6, [unknown], index)
    {
      OneNamed(unknown, index);
    }
    FewMisfits(st, NAME, 6, [unknown]);
    UnknownOperationIff(st, NAME, 6, [unknown]);
    OneNamed(unknown, [1]);
    assert Replay(Collection(st, NAME), [unknown]) == Replay(Collection(st, NAME), none);
    assert Orphaned(Collection(st, NAME), [unknown], [1]);
  }

  lemma {:induction false} SnapshotsUnsafe(st: Memory)
    requires HoldsOne(st)
    ensures !SnapshotSafe(st, NAME, 6, [Mutation(SET, [1], [3])])
    ensures !SnapshotSafe(st, NAME, 6, [Mutation(SET, [4], [3]), Mutation(SET, [4], [3])])
  {
    var again, twice := [Mutation(SET, [1], [3])], [Mutation(SET, [4], [3]), Mutation(SET, [4], [3])];
    CollectionAt(st, NAME, [1]);
    SmallSnapshotIff(st, NAME, 6, again);
    assert again[0].index in Collection(st, NAME);
    SmallSnapshotIff(st, NAME, 6, twice);
    assert twice[0].index == twice[1].index;
  }

  /** After the first patch an older SET of its index makes hash and map disagree. */
  lemma {:induction false} OlderSetFails()
    ensures exists expand :: PatchBreaks(expand, 4, [Mutation(SET, [1], [3])])
  {
    ReachedHolds(Counting());
    OlderSetUnsafe(Reached(Counting()));
    UnsafeBreaks(Counting(), 4, [Mutation(SET, [1], [3])]);
  }

  /** So does an operation 2 on it. */
  lemma {:induction false} UnknownOperationFails()
    ensures exists expand :: PatchBreaks(expand, 6, [Mutation(2, [1], [])])
  {
    ReachedHolds(Counting());
    UnknownOperationUnsafe(Reached(Counting()));
    UnsafeBreaks(Counting(), 6, [Mutation(2, [1], [])]);
  }

  /** So does a snapshot that holds it, and one that holds a new index twice. */
  lemma {:induction false} SnapshotFails()
    ensures exists expand :: SnapshotBreaks(expand, 6, [Mutation(SET, [1], [3])])
    ensures exists expand :: SnapshotBreaks(expand, 6, [Mutation(SET, [4], [3]), Mutation(SET, [4], [3])])
  {
    ReachedHolds(Counting());
    SnapshotsUnsafe(Reached(Counting()));
    UnsafeSnapshotBreaks(Counting(), 6, [Mutation(SET, [1], [3])]);
    UnsafeSnapshotBreaks(Counting(), 6, [Mutation(SET, [4], [3]), Mutation(SET, [4], [3])]);
  }
}
