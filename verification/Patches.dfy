/** Folding a patch into the running hash (src/pywhats/appstate/patches.py) and splitting it into
    store updates (src/pywhats/appstate/fetch.py), both against one-at-a-time replay. */
module Patches {
  import opened Outcomes
  import opened Addressing
  import opened Bytes
  import opened LtHash

  const SET: int := 0
  const REMOVE: int := 1

  datatype Mutation = Mutation(operation: int, index: Item, blob: Item)

  /** `blob[-32:]`. */
  function ValueMac(m: Mutation): Item {
    if |m.blob| <= 32 then m.blob else m.blob[|m.blob| - 32..]
  }

  /** The last 32 bytes, or all there are. */
  lemma {:induction false} ValueMacIs(operation: int, index: Item, cipher: Item, mac: Item)
    requires |mac| == 32 || (cipher == [] && |mac| <= 32)
    ensures ValueMac(Mutation(operation, index, cipher + mac)) == mac
  {
    assert [] + mac == mac;
  }

  predicate OperationsOk(muts: seq<Mutation>) {
    forall i | 0 <= i < |muts| :: muts[i].operation == SET || muts[i].operation == REMOVE
  }

  /** The collection after the mutations, applied one at a time. */
  function Replay(m: map<Item, Item>, muts: seq<Mutation>): map<Item, Item>
    decreases |muts|
  {
    if muts == [] then m
    else ReplayOne(Replay(m, muts[..|muts| - 1]), muts[|muts| - 1])
  }

  function ReplayOne(m: map<Item, Item>, mut: Mutation): map<Item, Item> {
    if mut.operation == SET then m[mut.index := ValueMac(mut)]
    else if mut.operation == REMOVE then m - {mut.index}
    else m
  }

  /** The last SET or REMOVE of an index decides what is under it: the last 32 bytes of the SET's blob, or nothing;
      without one it stays as it was. */
  lemma {:induction false} ReplayIs(m: map<Item, Item>, before: seq<Mutation>, mut: Mutation, after: seq<Mutation>, index: Item)
    requires forall i | 0 <= i < |after| :: after[i].index != index || (after[i].operation != 0 && after[i].operation != 1)
    ensures mut.index == index && mut.operation == 0 ==> Lookup(Replay(m, before + [mut] + after), index) == Some(ValueMac(mut))
    ensures mut.index == index && mut.operation == 1 ==> Lookup(Replay(m, before + [mut] + after), index) == None
    ensures Lookup(Replay(m, after), index) == Lookup(m, index)
    decreases |after|
  {
    var all := before + [mut] + after;
    if after == [] {
      assert all[..|all| - 1] == before && all[|all| - 1] == mut;
    } else {
      var init := after[..|after| - 1];
      assert all[..|all| - 1] == before + [mut] + init && all[|all| - 1] == after[|after| - 1];
      ReplayIs(m, before, mut, init, index);
    }
  }

  // ---- The value a mutation replaces ----

  /** `_prev_set_value_mac`: search this patch backwards, then the store. */
  function PrevValue(muts: seq<Mutation>, n: nat, index: Item, stored: map<Item, Item>): Option<Item>
    requires n <= |muts|
  {
    if n == 0 then Lookup(stored, index)
    else if muts[n - 1].index == index then
      if muts[n - 1].operation == SET then Some(ValueMac(muts[n - 1])) else None
    else PrevValue(muts, n - 1, index, stored)
  }

  method FindPrevValue(muts: seq<Mutation>, n: nat, index: Item, stored: map<Item, Item>) returns (r: Option<Item>)
    requires n <= |muts|
    ensures r == PrevValue(muts, n, index, stored)
  {
    var j := n;
    while j > 0
      invariant 0 <= j <= n && PrevValue(muts, n, index, stored) == PrevValue(muts, j, index, stored)
    {
      j := j - 1;
      if muts[j].index == index {
        if muts[j].operation == SET {
          return Some(ValueMac(muts[j]));
        }
        return None;
      }
    }
    r := Lookup(stored, index);
  }

  /** The backward search with store fallback finds exactly the value live at that point. */
  lemma {:induction false} PrevValueIsLive(muts: seq<Mutation>, n: nat, index: Item, stored: map<Item, Item>)
    requires n <= |muts| && OperationsOk(muts)
    ensures PrevValue(muts, n, index, stored) == Lookup(Replay(stored, muts[..n]), index)
    decreases n
  {
    if n > 0 {
      assert muts[..n][..n - 1] == muts[..n - 1];
      PrevValueIsLive(muts, n - 1, index, stored);
    }
  }

  // ---- The hash of a patch ----

  /** The value MACs the first `n` mutations add. */
  function Added(muts: seq<Mutation>, n: nat): seq<Item>
    requires n <= |muts|
  {
    if n == 0 then []
    else Added(muts, n - 1) + if muts[n - 1].operation == SET then [ValueMac(muts[n - 1])] else []
  }

  /** The value MACs they replace. */
  function Removed(muts: seq<Mutation>, n: nat, stored: map<Item, Item>): seq<Item>
    requires n <= |muts|
  {
    if n == 0 then []
    else
      var prev := PrevValue(muts, n - 1, muts[n - 1].index, stored);
      Removed(muts, n - 1, stored) + if prev.Some? then [prev.value] else []
  }

  function UpdateHash(expand: Item -> Digest, base: Digest, muts: seq<Mutation>, stored: map<Item, Item>): Digest {
    SubtractThenAdd(expand, base, Added(muts, |muts|), Removed(muts, |muts|, stored))
  }

  method ComputeUpdateHash(expand: Item -> Digest, base: Digest, muts: seq<Mutation>, stored: map<Item, Item>)
    returns (r: Digest)
    ensures r == UpdateHash(expand, base, muts, stored)
  {
    var added: seq<Item>, removed: seq<Item> := [], [];
    for i := 0 to |muts|
      invariant added == Added(muts, i) && removed == Removed(muts, i, stored)
    {
      if muts[i].operation == SET {
        added := added + [ValueMac(muts[i])];
      }
      var prev := FindPrevValue(muts, i, muts[i].index, stored);
      if prev.Some? {
        removed := removed + [prev.value];
      }
    }
    r := ComputeSubtractThenAdd(expand, base, added, removed);
  }

  // ---- The hash summarises the collection ----

  /** The from-scratch sum of one lane over the collection. */
  ghost function MapSum(expand: Item -> Digest, m: map<Item, Item>, i: nat): nat
    requires i < LANES
  {
    if m == map[] then 0
    else
      var k :| k in m;
      Lane(expand(m[k]), i) + MapSum(expand, m - {k}, i)
  }

  lemma {:induction false} MapSumRemove(expand: Item -> Digest, m: map<Item, Item>, i: nat, k: Item)
    requires i < LANES && k in m
    ensures MapSum(expand, m, i) == Lane(expand(m[k]), i) + MapSum(expand, m - {k}, i)
    decreases m
  {
    var j :| j in m && MapSum(expand, m, i) == Lane(expand(m[j]), i) + MapSum(expand, m - {j}, i);
    if j != k {
      MapSumRemove(expand, m - {j}, i, k);
      MapSumRemove(expand, m - {k}, i, j);
      assert m - {j} - {k} == m - {k} - {j};
    }
  }

  function LaneOf(expand: Item -> Digest, v: Option<Item>, i: nat): nat
    requires i < LANES
  {
    if v.Some? then Lane(expand(v.value), i) else 0
  }

  lemma {:induction false} MapSumWithout(expand: Item -> Digest, m: map<Item, Item>, i: nat, k: Item)
    requires i < LANES
    ensures MapSum(expand, m, i) == MapSum(expand, m - {k}, i) + LaneOf(expand, Lookup(m, k), i)
  {
    if k in m {
      MapSumRemove(expand, m, i, k);
    } else {
      assert m - {k} == m;
    }
  }

  lemma {:induction false} MapSumPut(expand: Item -> Digest, m: map<Item, Item>, i: nat, k: Item, v: Item)
    requires i < LANES
    ensures MapSum(expand, m[k := v], i) == MapSum(expand, m - {k}, i) + Lane(expand(v), i)
  {
    MapSumWithout(expand, m[k := v], i, k);
    assert m[k := v] - {k} == m - {k};
  }

  /** The digest is the from-scratch hash of the collection. */
  ghost predicate Summarises(expand: Item -> Digest, d: Digest, m: map<Item, Item>) {
    forall i | 0 <= i < LANES :: Lane(d, i) == Wrap(MapSum(expand, m, i))
  }

  /** Only one digest summarises a collection. */
  lemma {:induction false} SummaryUnique(expand: Item -> Digest, d: Digest, e: Digest, m: map<Item, Item>)
    requires Summarises(expand, d, m) && Summarises(expand, e, m)
    ensures d == e
  {
    LanesDetermine(d, e);
  }

  lemma {:induction false} EmptySummary(expand: Item -> Digest)
    ensures Summarises(expand, Zero(), map[])
  {
  }

  /** Nothing is lost: what the collection gains is what the patch adds less what it replaces. */
  lemma {:induction false} PatchBalance(expand: Item -> Digest, muts: seq<Mutation>, n: nat, stored: map<Item, Item>, i: nat)
    requires n <= |muts| && OperationsOk(muts) && i < LANES
    ensures MapSum(expand, Replay(stored, muts[..n]), i) + Sum(expand, Removed(muts, n, stored), i)
         == MapSum(expand, stored, i) + Sum(expand, Added(muts, n), i)
    decreases n
  {
    if n > 0 {
      var mut, m, m' := muts[n - 1], Replay(stored, muts[..n - 1]), Replay(stored, muts[..n]);
      assert m' == ReplayOne(m, mut) by {
        assert muts[..n][..n - 1] == muts[..n - 1];
      }
      PatchBalance(expand, muts, n - 1, stored, i);
      assert PrevValue(muts, n - 1, mut.index, stored) == Lookup(m, mut.index) by {
        PrevValueIsLive(muts, n - 1, mut.index, stored);
      }
      RemovedSum(expand, muts, n, stored, i);
      AddedSum(expand, muts, n, i);
      MapSumStep(expand, m, mut, m', i);
    }
  }

  lemma {:induction false} MapSumStep(expand: Item -> Digest, m: map<Item, Item>, mut: Mutation, m': map<Item, Item>, i: nat)
    requires i < LANES && (mut.operation == SET || mut.operation == REMOVE) && m' == ReplayOne(m, mut)
    ensures MapSum(expand, m', i) + LaneOf(expand, Lookup(m, mut.index), i)
         == MapSum(expand, m, i) + if mut.operation == SET then Lane(expand(ValueMac(mut)), i) else 0
  {
    MapSumWithout(expand, m, i, mut.index);
    if mut.operation == SET {
      MapSumPut(expand, m, i, mut.index, ValueMac(mut));
    }
  }

  lemma {:induction false} SumAppend(expand: Item -> Digest, xs: seq<Item>, v: Option<Item>, i: nat)
    requires i < LANES
    ensures Sum(expand, xs + (if v.Some? then [v.value] else []), i) == Sum(expand, xs, i) + LaneOf(expand, v, i)
  {
    if v.Some? {
      SumConcat(expand, xs, [v.value], i);
      SumOne(expand, v.value, i);
    } else {
      assert xs + [] == xs;
    }
  }

  lemma {:induction false} RemovedSum(expand: Item -> Digest, muts: seq<Mutation>, n: nat, stored: map<Item, Item>, i: nat)
    requires 0 < n <= |muts| && i < LANES
    ensures Sum(expand, Removed(muts, n, stored), i)
         == Sum(expand, Removed(muts, n - 1, stored), i)
            + LaneOf(expand, PrevValue(muts, n - 1, muts[n - 1].index, stored), i)
  {
    SumAppend(expand, Removed(muts, n - 1, stored), PrevValue(muts, n - 1, muts[n - 1].index, stored), i);
  }

  lemma {:induction false} AddedSum(expand: Item -> Digest, muts: seq<Mutation>, n: nat, i: nat)
    requires 0 < n <= |muts| && i < LANES
    ensures Sum(expand, Added(muts, n), i)
         == Sum(expand, Added(muts, n - 1), i)
            + if muts[n - 1].operation == SET then Lane(expand(ValueMac(muts[n - 1])), i) else 0
  {
    SumAppend(expand, Added(muts, n - 1), if muts[n - 1].operation == SET then Some(ValueMac(muts[n - 1])) else None, i);
  }

  /** The incremental hash of a patch is the from-scratch hash of the collection it leads to. */
  lemma {:induction false} UpdateHashSummarises(expand: Item -> Digest, base: Digest, muts: seq<Mutation>, stored: map<Item, Item>)
    requires OperationsOk(muts) && Summarises(expand, base, stored)
    ensures Summarises(expand, UpdateHash(expand, base, muts, stored), Replay(stored, muts))
  {
    var d := UpdateHash(expand, base, muts, stored);
    forall i | 0 <= i < LANES
      ensures Lane(d, i) == Wrap(MapSum(expand, Replay(stored, muts), i))
    {
      UpdateHashLane(expand, base, muts, stored, i);
    }
  }

  lemma {:induction false} UpdateHashLane(expand: Item -> Digest, base: Digest, muts: seq<Mutation>, stored: map<Item, Item>, i: nat)
    requires i < LANES && OperationsOk(muts) && Lane(base, i) == Wrap(MapSum(expand, stored, i))
    ensures Lane(UpdateHash(expand, base, muts, stored), i) == Wrap(MapSum(expand, Replay(stored, muts), i))
  {
    var added, removed := Added(muts, |muts|), Removed(muts, |muts|, stored);
    assert muts[..|muts|] == muts;
    PatchBalance(expand, muts, |muts|, stored, i);
    LaneBalance(expand, base, added, removed, i, MapSum(expand, stored, i), MapSum(expand, Replay(stored, muts), i));
  }

  lemma {:induction false} LaneBalance(expand: Item -> Digest, base: Digest, added: seq<Item>, removed: seq<Item>, i: nat, x: nat, x': nat)
    requires i < LANES && Lane(base, i) == Wrap(x) && x' + Sum(expand, removed, i) == x + Sum(expand, added, i)
    ensures Lane(SubtractThenAdd(expand, base, added, removed), i) == Wrap(x')
  {
    SubtractThenAddLane(expand, base, added, removed, i);
    WrapAdd(x, x' - x);
  }

  // ---- Operations other than SET and REMOVE ----

  predicate IsKnown(mut: Mutation) {
    mut.operation == SET || mut.operation == REMOVE
  }

  /** The mutations as the hash takes them: whatever is not a SET takes its index's value out. */
  function Hashed(muts: seq<Mutation>): (r: seq<Mutation>)
    ensures |r| == |muts| && OperationsOk(r)
    ensures forall i | 0 <= i < |r| :: r[i] == if IsKnown(muts[i]) then muts[i] else muts[i].(operation := REMOVE)
  {
    seq(|muts|, i requires 0 <= i < |muts| => if IsKnown(muts[i]) then muts[i] else muts[i].(operation := REMOVE))
  }

  lemma {:induction false} HashedPrev(muts: seq<Mutation>, n: nat, index: Item, stored: map<Item, Item>)
    requires n <= |muts|
    ensures PrevValue(Hashed(muts), n, index, stored) == PrevValue(muts, n, index, stored)
  {
    if n > 0 {
      HashedPrev(muts, n - 1, index, stored);
    }
  }

  lemma {:induction false} HashedLists(muts: seq<Mutation>, n: nat, stored: map<Item, Item>)
    requires n <= |muts|
    ensures Added(Hashed(muts), n) == Added(muts, n) && Removed(Hashed(muts), n, stored) == Removed(muts, n, stored)
  {
    if n > 0 {
      HashedLists(muts, n - 1, stored);
      HashedPrev(muts, n - 1, muts[n - 1].index, stored);
    }
  }

  /** Whatever the operations, the hash of a patch is the from-scratch hash of one definite map. */
  lemma {:induction false} UpdateHashOfAny(expand: Item -> Digest, base: Digest, muts: seq<Mutation>, stored: map<Item, Item>)
    requires Summarises(expand, base, stored)
    ensures Summarises(expand, UpdateHash(expand, base, muts, stored), Replay(stored, Hashed(muts)))
  {
    HashedLists(muts, |muts|, stored);
    UpdateHashSummarises(expand, base, Hashed(muts), stored);
  }

  /** The last mutation of an index. */
  function LastOn(muts: seq<Mutation>, index: Item): Option<Mutation>
    decreases |muts|
  {
    if muts == [] then None
    else if muts[|muts| - 1].index == index then Some(muts[|muts| - 1])
    else LastOn(muts[..|muts| - 1], index)
  }

  /** The value is stored after the patch, but its index was last named by an unknown operation. */
  predicate Orphaned(stored: map<Item, Item>, muts: seq<Mutation>, index: Item) {
    index in Replay(stored, muts) && LastOn(muts, index).Some? && !IsKnown(LastOn(muts, index).value)
  }

  lemma {:induction false} HashedLookup(stored: map<Item, Item>, muts: seq<Mutation>, index: Item)
    ensures Lookup(Replay(stored, Hashed(muts)), index)
         == if Orphaned(stored, muts, index) then None else Lookup(Replay(stored, muts), index)
    decreases |muts|
  {
    if muts != [] {
      var rest := muts[..|muts| - 1];
      assert Hashed(muts)[..|muts| - 1] == Hashed(rest);
      HashedLookup(stored, rest, index);
    }
  }

  predicate Names(muts: seq<Mutation>, operation: int, index: Item) {
    exists i | 0 <= i < |muts| :: muts[i].operation == operation && muts[i].index == index
  }

  /** The value of the last SET of an index. */
  function LastSet(muts: seq<Mutation>, index: Item): Option<Item>
    decreases |muts|
  {
    if muts == [] then None
    else
      var last := muts[|muts| - 1];
      if last.operation == SET && last.index == index then Some(ValueMac(last)) else LastSet(muts[..|muts| - 1], index)
  }

  lemma {:induction false} ReplayUnremoved(stored: map<Item, Item>, muts: seq<Mutation>, index: Item)
    requires !Names(muts, REMOVE, index)
    ensures Lookup(Replay(stored, muts), index)
         == if LastSet(muts, index).Some? then LastSet(muts, index) else Lookup(stored, index)
    decreases |muts|
  {
    if muts != [] {
      var rest := muts[..|muts| - 1];
      assert !Names(rest, REMOVE, index);
      assert muts[|muts| - 1].operation != REMOVE || muts[|muts| - 1].index != index;
      ReplayUnremoved(stored, rest, index);
    }
  }

  // ---- Splitting a patch into store updates ----

  datatype MacEntry = MacEntry(index: Item, value: Item)

  function Without(entries: seq<MacEntry>, index: Item): seq<MacEntry>
    decreases |entries|
  {
    if entries == [] then []
    else
      var rest, last := entries[..|entries| - 1], entries[|entries| - 1];
      Without(rest, index) + if last.index == index then [] else [last]
  }

  /** `_compute_mac_deltas`: the entries to put and the indexes to delete. */
  function Deltas(muts: seq<Mutation>): (seq<MacEntry>, seq<Item>)
    decreases |muts|
  {
    if muts == [] then ([], [])
    else
      var (added, removed) := Deltas(muts[..|muts| - 1]);
      var mut := muts[|muts| - 1];
      if mut.operation == REMOVE then (Without(added, mut.index), removed + [mut.index])
      else if mut.operation == SET then (added + [MacEntry(mut.index, ValueMac(mut))], removed)
      else (added, removed)
  }

  method ComputeDeltas(muts: seq<Mutation>) returns (added: seq<MacEntry>, removed: seq<Item>)
    ensures (added, removed) == Deltas(muts)
  {
    added, removed := [], [];
    for i := 0 to |muts|
      invariant (added, removed) == Deltas(muts[..i])
    {
      assert muts[..i + 1][..i] == muts[..i];
      if muts[i].operation == REMOVE {
        removed := removed + [muts[i].index];
        added := Without(added, muts[i].index);
      } else if muts[i].operation == SET {
        added := added + [MacEntry(muts[i].index, ValueMac(muts[i]))];
      }
    }
    assert muts[..|muts|] == muts;
  }

  function PutEntries(m: map<Item, Item>, entries: seq<MacEntry>): map<Item, Item>
    decreases |entries|
  {
    if entries == [] then m
    else PutEntries(m, entries[..|entries| - 1])[entries[|entries| - 1].index := entries[|entries| - 1].value]
  }

  function DeleteIndexes(m: map<Item, Item>, indexes: seq<Item>): map<Item, Item> {
    map k | k in m && k !in indexes :: m[k]
  }

  lemma {:induction false} PutWithout(m: map<Item, Item>, entries: seq<MacEntry>, index: Item)
    ensures PutEntries(m - {index}, Without(entries, index)) == PutEntries(m, entries) - {index}
    decreases |entries|
  {
    if entries != [] {
      var rest, last := entries[..|entries| - 1], entries[|entries| - 1];
      var kept, all := PutEntries(m - {index}, Without(rest, index)), PutEntries(m, rest);
      assert kept == all - {index} by {
        PutWithout(m, rest, index);
      }
      assert PutEntries(m, entries) == all[last.index := last.value];
      if last.index == index {
        assert Without(entries, index) == Without(rest, index);
        assert all[last.index := last.value] - {index} == all - {index};
      } else {
        PutLast(m - {index}, Without(rest, index), last);
        assert all[last.index := last.value] - {index} == (all - {index})[last.index := last.value];
      }
    }
  }

  lemma {:induction false} PutLast(m: map<Item, Item>, entries: seq<MacEntry>, last: MacEntry)
    ensures PutEntries(m, entries + [last]) == PutEntries(m, entries)[last.index := last.value]
  {
    assert (entries + [last])[..|entries|] == entries;
  }

  /** Deleting the removed indexes and then putting the added entries leaves the replayed map. */
  lemma {:induction false} DeltasReplay(m: map<Item, Item>, muts: seq<Mutation>)
    ensures var (added, removed) := Deltas(muts);
            PutEntries(DeleteIndexes(m, removed), added) == Replay(m, muts)
    decreases |muts|
  {
    if muts == [] {
      assert DeleteIndexes(m, []) == m;
    } else {
      var rest, mut := muts[..|muts| - 1], muts[|muts| - 1];
      var (added, removed) := Deltas(rest);
      DeltasReplay(m, rest);
      if mut.operation == REMOVE {
        assert DeleteIndexes(m, removed + [mut.index]) == DeleteIndexes(m, removed) - {mut.index};
        PutWithout(DeleteIndexes(m, removed), added, mut.index);
      } else if mut.operation == SET {
        PutLast(DeleteIndexes(m, removed), added, MacEntry(mut.index, ValueMac(mut)));
      }
    }
  }

  lemma {:induction false} RemovedIndexes(muts: seq<Mutation>, index: Item)
    ensures index in Deltas(muts).1 <==> Names(muts, REMOVE, index)
    decreases |muts|
  {
    if muts != [] {
      var rest, last := muts[..|muts| - 1], muts[|muts| - 1];
      RemovedIndexes(rest, index);
      NamesLast(muts, REMOVE, index);
    }
  }

  lemma {:induction false} NamesLast(muts: seq<Mutation>, operation: int, index: Item)
    requires muts != []
    ensures var last := muts[|muts| - 1];
            Names(muts, operation, index)
            <==> Names(muts[..|muts| - 1], operation, index) || (last.operation == operation && last.index == index)
  {
    var rest := muts[..|muts| - 1];
    if Names(rest, operation, index) {
      var i :| 0 <= i < |rest| && rest[i].operation == operation && rest[i].index == index;
      assert muts[i] == rest[i];
    }
    if Names(muts, operation, index) {
      var i :| 0 <= i < |muts| && muts[i].operation == operation && muts[i].index == index;
      if i < |rest| {
        assert rest[i] == muts[i];
      }
    }
  }
}
