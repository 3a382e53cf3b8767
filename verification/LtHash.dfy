module Bytes {
  type Byte = n: int | 0 <= n < 256
}

/** The 128-byte summation hash of src/pywhats/appstate/lthash.py: 64 little-endian 16-bit lanes,
    added and subtracted with wraparound.  HKDF is an arbitrary function `expand`. */
module LtHash {
  import opened Bytes

  type Item = seq<Byte>
  type Digest = d: seq<Byte> | |d| == 128 witness seq(128, _ => 0)

  const LANES: nat := 64

  function Zero(): Digest {
    seq(128, _ => 0)
  }

  function Lane(d: Digest, i: nat): (n: nat)
    requires i < LANES
    ensures n < 0x1_0000
  {
    d[2 * i] as int + 256 * (d[2 * i + 1] as int)
  }

  /** The low 16 bits, also of a negative number. */
  function Wrap(x: int): (r: nat)
    ensures r < 0x1_0000
  {
    x % 0x1_0000
  }

  lemma {:induction false} LanesDetermine(d: Digest, e: Digest)
    requires forall i | 0 <= i < LANES :: Lane(d, i) == Lane(e, i)
    ensures d == e
  {
    forall j | 0 <= j < 128
      ensures d[j] == e[j]
    {
      assert Lane(d, j / 2) == Lane(e, j / 2);
    }
  }

  function Signed(subtract: bool, x: int): int {
    if subtract then -x else x
  }

  /** Lane `i` of the result of folding one item in. */
  function NewLane(base: Digest, comp: Digest, subtract: bool, i: nat): (r: nat)
    requires i < LANES
    ensures r < 0x1_0000
  {
    Wrap(Lane(base, i) + Signed(subtract, Lane(comp, i)))
  }

  /** The first `n` lanes of the result, in bytes. */
  function PointwiseTo(base: Digest, comp: Digest, subtract: bool, n: nat): (r: seq<Byte>)
    requires n <= LANES
    ensures |r| == 2 * n
  {
    if n == 0 then []
    else
      var r := NewLane(base, comp, subtract, n - 1);
      PointwiseTo(base, comp, subtract, n - 1) + [r % 256, r / 256]
  }

  /** One item folded into the digest. */
  function Pointwise(base: Digest, comp: Digest, subtract: bool): Digest {
    PointwiseTo(base, comp, subtract, LANES)
  }

  lemma {:induction false} PointwiseToLane(base: Digest, comp: Digest, subtract: bool, n: nat, i: nat)
    requires i < n <= LANES
    ensures var d := PointwiseTo(base, comp, subtract, n);
            d[2 * i] as int + 256 * (d[2 * i + 1] as int) == NewLane(base, comp, subtract, i)
    decreases n
  {
    if i < n - 1 {
      PointwiseToLane(base, comp, subtract, n - 1, i);
    }
  }

  lemma {:induction false} PointwiseLane(base: Digest, comp: Digest, subtract: bool, i: nat)
    requires i < LANES
    ensures Lane(Pointwise(base, comp, subtract), i) == NewLane(base, comp, subtract, i)
  {
    PointwiseToLane(base, comp, subtract, LANES, i);
  }

  /** Each pair of bytes, the low one first, is the sum or difference modulo 2^16. */
  lemma {:induction false} PointwiseBytes(base: Digest, comp: Digest, subtract: bool, i: nat)
    requires i < 64
    ensures var d := Pointwise(base, comp, subtract);
            var x, y := base[2 * i] as int + 256 * base[2 * i + 1] as int, comp[2 * i] as int + 256 * comp[2 * i + 1] as int;
            var z := (if subtract then x - y else x + y) % 0x1_0000;
            d[2 * i] == z % 256 && d[2 * i + 1] == z / 256
  {
    PointwiseLane(base, comp, subtract, i);
    var d := Pointwise(base, comp, subtract);
    LaneBytes(d[2 * i], d[2 * i + 1], NewLane(base, comp, subtract, i));
  }

  lemma {:induction false} LaneBytes(low: Byte, high: Byte, z: nat)
    requires low as int + 256 * high as int == z
    ensures low == z % 256 && high == z / 256
  {
  }

  function Fold(expand: Item -> Digest, base: Digest, items: seq<Item>, subtract: bool): Digest
    decreases |items|
  {
    if items == [] then base
    else Pointwise(Fold(expand, base, items[..|items| - 1], subtract), expand(items[|items| - 1]), subtract)
  }

  function SubtractThenAdd(expand: Item -> Digest, base: Digest, added: seq<Item>, removed: seq<Item>): Digest {
    Fold(expand, Fold(expand, base, removed, true), added, false)
  }

  // ---- The in-place form ----

  method PointwiseInPlace(a: array<Byte>, comp: Digest, subtract: bool)
    requires a.Length == 128
    modifies a
    ensures a[..] == Pointwise(old(a[..]), comp, subtract)
  {
    ghost var base: Digest := a[..];
    ghost var n := 0;
    var i := 0;
    while i < 128
      invariant 0 <= i == 2 * n <= 128
      invariant a[..i] == PointwiseTo(base, comp, subtract, n)
      invariant forall j | i <= j < 128 :: a[j] == base[j]
    {
      var x := a[i] as int + 256 * (a[i + 1] as int);
      var y := comp[i] as int + 256 * (comp[i + 1] as int);
      var r := Wrap(if subtract then x - y else x + y);
      assert r == NewLane(base, comp, subtract, n);
      ghost var before := a[..i];
      a[i], a[i + 1] := r % 256, r / 256;
      i, n := i + 2, n + 1;
      assert a[..i] == before + [r % 256, r / 256];
    }
    assert a[..128] == a[..];
  }

  method FoldInPlace(a: array<Byte>, expand: Item -> Digest, items: seq<Item>, subtract: bool)
    requires a.Length == 128
    modifies a
    ensures a[..] == Fold(expand, old(a[..]), items, subtract)
  {
    for k := 0 to |items|
      invariant a[..] == Fold(expand, old(a[..]), items[..k], subtract)
    {
      assert items[..k + 1][..k] == items[..k];
      PointwiseInPlace(a, expand(items[k]), subtract);
    }
    assert items[..|items|] == items;
  }

  method ComputeSubtractThenAdd(expand: Item -> Digest, base: Digest, added: seq<Item>, removed: seq<Item>)
    returns (r: Digest)
    ensures r == SubtractThenAdd(expand, base, added, removed)
  {
    var out := new Byte[128](i requires 0 <= i < 128 => base[i]);
    assert out[..] == base;
    FoldInPlace(out, expand, removed, true);
    FoldInPlace(out, expand, added, false);
    r := out[..];
  }

  // ---- Lanes are sums modulo 2^16 ----

  function Sum(expand: Item -> Digest, items: seq<Item>, i: nat): nat
    requires i < LANES
    decreases |items|
  {
    if items == [] then 0
    else Sum(expand, items[..|items| - 1], i) + Lane(expand(items[|items| - 1]), i)
  }

  lemma {:induction false} WrapAdd(x: int, y: int)
    ensures Wrap(Wrap(x) + y) == Wrap(x + y)
  {
  }

  lemma {:induction false} WrapSmall(x: nat)
    requires x < 0x1_0000
    ensures Wrap(x) == x
  {
  }

  lemma {:induction false} FoldStep(expand: Item -> Digest, base: Digest, items: seq<Item>, subtract: bool, i: nat)
    requires i < LANES && items != []
    ensures Lane(Fold(expand, base, items, subtract), i)
         == NewLane(Fold(expand, base, items[..|items| - 1], subtract), expand(items[|items| - 1]), subtract, i)
  {
    PointwiseLane(Fold(expand, base, items[..|items| - 1], subtract), expand(items[|items| - 1]), subtract, i);
  }

  lemma {:induction false} FoldLane(expand: Item -> Digest, base: Digest, items: seq<Item>, subtract: bool, i: nat)
    requires i < LANES
    ensures Lane(Fold(expand, base, items, subtract), i) == Wrap(Lane(base, i) + Signed(subtract, Sum(expand, items, i)))
    decreases |items|
  {
    if items == [] {
      WrapSmall(Lane(base, i));
    } else {
      var rest, last := items[..|items| - 1], items[|items| - 1];
      var x, y := Lane(base, i) + Signed(subtract, Sum(expand, rest, i)), Signed(subtract, Lane(expand(last), i));
      assert Lane(base, i) + Signed(subtract, Sum(expand, items, i)) == x + y;
      assert Lane(Fold(expand, base, items, subtract), i) == Wrap(Wrap(x) + y) by {
        FoldStep(expand, base, items, subtract, i);
        FoldLane(expand, base, rest, subtract, i);
      }
      WrapAdd(x, y);
    }
  }

  /** Each lane of the result is the integer it should be, modulo 2^16. */
  lemma {:induction false} SubtractThenAddLane(expand: Item -> Digest, base: Digest, added: seq<Item>, removed: seq<Item>, i: nat)
    requires i < LANES
    ensures Lane(SubtractThenAdd(expand, base, added, removed), i)
         == Wrap(Lane(base, i) - Sum(expand, removed, i) + Sum(expand, added, i))
  {
    var mid := Fold(expand, base, removed, true);
    FoldLane(expand, base, removed, true, i);
    FoldLane(expand, mid, added, false, i);
    WrapAdd(Lane(base, i) - Sum(expand, removed, i), Sum(expand, added, i));
  }

  lemma {:induction false} SumConcat(expand: Item -> Digest, xs: seq<Item>, ys: seq<Item>, i: nat)
    requires i < LANES
    ensures Sum(expand, xs + ys, i) == Sum(expand, xs, i) + Sum(expand, ys, i)
    decreases |ys|
  {
    if ys == [] {
      assert xs + ys == xs;
    } else {
      assert (xs + ys)[..|xs + ys| - 1] == xs + ys[..|ys| - 1];
      SumConcat(expand, xs, ys[..|ys| - 1], i);
    }
  }

  lemma {:induction false} SumOne(expand: Item -> Digest, x: Item, i: nat)
    requires i < LANES
    ensures Sum(expand, [x], i) == Lane(expand(x), i)
  {
    var none: seq<Item> := [];
    assert [x][..0] == none;
  }

  lemma {:induction false} SumWithout(expand: Item -> Digest, xs: seq<Item>, k: nat, i: nat)
    requires k < |xs| && i < LANES
    ensures Sum(expand, xs, i) == Sum(expand, xs[..k] + xs[k + 1..], i) + Lane(expand(xs[k]), i)
  {
    assert xs == xs[..k] + ([xs[k]] + xs[k + 1..]);
    SumConcat(expand, xs[..k], [xs[k]] + xs[k + 1..], i);
    SumConcat(expand, [xs[k]], xs[k + 1..], i);
    SumConcat(expand, xs[..k], xs[k + 1..], i);
    SumOne(expand, xs[k], i);
  }

  lemma {:induction false} SumOfMultiset(expand: Item -> Digest, xs: seq<Item>, ys: seq<Item>, i: nat)
    requires i < LANES && multiset(xs) == multiset(ys)
    ensures Sum(expand, xs, i) == Sum(expand, ys, i)
    decreases |xs|
  {
    if xs == [] {
      assert ys == [] by {
        assert |multiset(ys)| == |ys|;
      }
    } else {
      var k := SameItem(xs, ys);
      var xs', ys' := xs[..0] + xs[1..], ys[..k] + ys[k + 1..];
      WithoutMultiset(xs, 0);
      WithoutMultiset(ys, k);
      assert multiset(xs') == multiset(ys');
      SumOfMultiset(expand, xs', ys', i);
      SumWithout(expand, xs, 0, i);
      SumWithout(expand, ys, k, i);
    }
  }

  lemma {:induction false} SameItem(xs: seq<Item>, ys: seq<Item>) returns (k: nat)
    requires xs != [] && multiset(xs) == multiset(ys)
    ensures k < |ys| && ys[k] == xs[0]
  {
    assert xs[0] in multiset(ys);
    k :| 0 <= k < |ys| && ys[k] == xs[0];
  }

  lemma {:induction false} WithoutMultiset(xs: seq<Item>, k: nat)
    requires k < |xs|
    ensures multiset(xs[..k] + xs[k + 1..]) == multiset(xs) - multiset{xs[k]}
  {
    assert xs == xs[..k] + [xs[k]] + xs[k + 1..];
  }

  // ---- What the module's documentation promises ----

  /** The order of the items does not matter. */
  lemma {:induction false} OrderIrrelevant(expand: Item -> Digest, base: Digest, a: seq<Item>, r: seq<Item>, a': seq<Item>, r': seq<Item>)
    requires multiset(a) == multiset(a') && multiset(r) == multiset(r')
    ensures SubtractThenAdd(expand, base, a, r) == SubtractThenAdd(expand, base, a', r')
  {
    forall i | 0 <= i < LANES
      ensures Lane(SubtractThenAdd(expand, base, a, r), i) == Lane(SubtractThenAdd(expand, base, a', r'), i)
    {
      SubtractThenAddLane(expand, base, a, r, i);
      SubtractThenAddLane(expand, base, a', r', i);
      SumOfMultiset(expand, a, a', i);
      SumOfMultiset(expand, r, r', i);
    }
    LanesDetermine(SubtractThenAdd(expand, base, a, r), SubtractThenAdd(expand, base, a', r'));
  }

  /** Two updates in a row are one update with both lists. */
  lemma {:induction false} UpdatesCompose(expand: Item -> Digest, base: Digest, a: seq<Item>, r: seq<Item>, a': seq<Item>, r': seq<Item>)
    ensures SubtractThenAdd(expand, SubtractThenAdd(expand, base, a, r), a', r')
         == SubtractThenAdd(expand, base, a + a', r + r')
  {
    var d := SubtractThenAdd(expand, base, a, r);
    var left, right := SubtractThenAdd(expand, d, a', r'), SubtractThenAdd(expand, base, a + a', r + r');
    forall i | 0 <= i < LANES
      ensures Lane(left, i) == Lane(right, i)
    {
      var x, y := Lane(base, i) - Sum(expand, r, i) + Sum(expand, a, i), Sum(expand, a', i) - Sum(expand, r', i);
      assert Lane(left, i) == Wrap(Wrap(x) + y) by {
        SubtractThenAddLane(expand, base, a, r, i);
        SubtractThenAddLane(expand, d, a', r', i);
      }
      assert Lane(right, i) == Wrap(x + y) by {
        SubtractThenAddLane(expand, base, a + a', r + r', i);
        SumConcat(expand, a, a', i);
        SumConcat(expand, r, r', i);
      }
      WrapAdd(x, y);
    }
    LanesDetermine(left, right);
  }

  /** Removing what was added, and adding what was removed, restores the digest. */
  lemma {:induction false} UpdateUndone(expand: Item -> Digest, base: Digest, a: seq<Item>, r: seq<Item>)
    ensures SubtractThenAdd(expand, SubtractThenAdd(expand, base, a, r), r, a) == base
  {
    var d := SubtractThenAdd(expand, base, a, r);
    forall i | 0 <= i < LANES
      ensures Lane(SubtractThenAdd(expand, d, r, a), i) == Lane(base, i)
    {
      var x, y := Lane(base, i) - Sum(expand, r, i) + Sum(expand, a, i), Sum(expand, r, i) - Sum(expand, a, i);
      assert Lane(SubtractThenAdd(expand, d, r, a), i) == Wrap(Wrap(x) + y) by {
        SubtractThenAddLane(expand, base, a, r, i);
        SubtractThenAddLane(expand, d, r, a, i);
      }
      WrapAdd(x, y);
      WrapSmall(Lane(base, i));
    }
    LanesDetermine(SubtractThenAdd(expand, d, r, a), base);
  }
}
