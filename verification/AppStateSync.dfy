/** Applying snapshots and patches to the store (src/pywhats/appstate/patches.py and
    src/pywhats/appstate/fetch.py), and exactly when stored hash and stored map stay in agreement. */
module AppStateSync {
  import opened Outcomes
  import opened Addressing
  import opened Bytes
  import opened LtHash
  import opened Patches
  import opened AppStateStore

  datatype Failure = KeyNotFound | MacMismatch

  /** `verdict` is what key lookup and MAC verification say when it arrives; the same patch may fail
      today and pass tomorrow. */
  datatype Patch = Patch(version: int, mutations: seq<Mutation>, verdict: Option<Failure>)
  datatype Snapshot = Snapshot(version: int, records: seq<Mutation>, verdict: Option<Failure>)

  datatype Result = Advanced(state: HashState) | Raised(failure: Failure)

  /** The index-to-value map of one collection. */
  function Collection(st: Memory, name: string): map<Item, Item> {
    map k | k in st.macs && k.name == name :: k.index := st.macs[k].value
  }

  function Persist(st: Memory, name: string, state: HashState, muts: seq<Mutation>): Memory {
    var (added, removed) := Deltas(muts);
    PutMacs(DeleteMacs(PutVersion(st, name, state), name, removed), name, state.version, added)
  }

  function ApplyPatch(expand: Item -> Digest, st: Memory, name: string, cursor: HashState, patch: Patch): (Memory, Result) {
    var state := HashState(patch.version, UpdateHash(expand, cursor.hash, patch.mutations, Collection(st, name)));
    if patch.verdict.Some? then (st, Raised(patch.verdict.value))
    else (Persist(st, name, state, patch.mutations), Advanced(state))
  }

  /** Every record of a snapshot is a SET. */
  function AsSets(records: seq<Mutation>): (r: seq<Mutation>)
    ensures |r| == |records|
    ensures forall i | 0 <= i < |r| :: r[i] == records[i].(operation := SET)
  {
    seq(|records|, i requires 0 <= i < |records| => records[i].(operation := SET))
  }

  function SnapshotHash(expand: Item -> Digest, base: Digest, records: seq<Mutation>): Digest {
    SubtractThenAdd(expand, base, Added(AsSets(records), |records|), [])
  }

  function ApplySnapshot(expand: Item -> Digest, st: Memory, name: string, cursor: HashState, s: Snapshot): (Memory, Result) {
    var state := HashState(s.version, SnapshotHash(expand, cursor.hash, s.records));
    if s.verdict.Some? then (st, Raised(s.verdict.value)) else (Persist(st, name, state, AsSets(s.records)), Advanced(state))
  }

  function ApplyPatches(expand: Item -> Digest, st: Memory, name: string, cursor: HashState, patches: seq<Patch>): (Memory, Result)
    decreases |patches|
  {
    if patches == [] then (st, Advanced(cursor))
    else
      var (st1, r) := ApplyPatches(expand, st, name, cursor, patches[..|patches| - 1]);
      if r.Raised? then (st1, r) else ApplyPatch(expand, st1, name, r.state, patches[|patches| - 1])
  }

  function ApplyList(expand: Item -> Digest, st: Memory, name: string, cursor: HashState, snapshot: Option<Snapshot>,
                     patches: seq<Patch>): (Memory, Result)
  {
    if snapshot.None? then ApplyPatches(expand, st, name, cursor, patches)
    else
      var (st1, r) := ApplySnapshot(expand, st, name, cursor, snapshot.value);
      if r.Raised? then (st1, r) else ApplyPatches(expand, st1, name, r.state, patches)
  }

  // ---- What persisting leaves at each index ----

  lemma {:induction false} CollectionAt(st: Memory, name: string, index: Item)
    ensures Lookup(Collection(st, name), index) == GetMac(st, name, index)
  {
    if MacKey(name, index) in st.macs {
      assert index in Collection(st, name);
    }
  }

  lemma {:induction false} SameLookups(c: map<Item, Item>, d: map<Item, Item>)
    requires forall i :: Lookup(c, i) == Lookup(d, i)
    ensures c == d
  {
    forall i
      ensures i in c <==> i in d
      ensures i in c ==> c[i] == d[i]
    {
      assert Lookup(c, i) == Lookup(d, i);
    }
  }

  /** The index is held at a newer version. */
  predicate Newer(st: Memory, k: MacKey, version: int) {
    k in st.macs && version < st.macs[k].version
  }

  lemma {:induction false} PutMacsLookup(st: Memory, name: string, version: int, entries: seq<MacEntry>, index: Item,
                                         c: map<Item, Item>)
    requires Lookup(c, index) == GetMac(st, name, index)
    ensures var st', k := PutMacs(st, name, version, entries), MacKey(name, index);
            && Newer(st', k, version) == Newer(st, k, version)
            && GetMac(st', name, index)
               == if Newer(st, k, version) then GetMac(st, name, index) else Lookup(PutEntries(c, entries), index)
    decreases |entries|
  {
    if entries != [] {
      PutMacsLookup(st, name, version, entries[..|entries| - 1], index, c);
    }
  }

  lemma {:induction false} PutMacsVersions(st: Memory, name: string, version: int, entries: seq<MacEntry>)
    ensures PutMacs(st, name, version, entries).versions == st.versions
    decreases |entries|
  {
    if entries != [] {
      PutMacsVersions(st, name, version, entries[..|entries| - 1]);
    }
  }

  lemma {:induction false} PersistVersions(st: Memory, name: string, state: HashState, muts: seq<Mutation>)
    ensures Persist(st, name, state, muts).versions == st.versions[name := state]
  {
    var (added, removed) := Deltas(muts);
    PutMacsVersions(DeleteMacs(PutVersion(st, name, state), name, removed), name, state.version, added);
  }

  /** Persisting replays the patch at an index, unless the index is held at a newer version and the
      patch does not remove it; then it stays as it was. */
  lemma {:induction false} PersistLookup(st: Memory, name: string, state: HashState, muts: seq<Mutation>, index: Item)
    ensures Lookup(Collection(Persist(st, name, state, muts), name), index)
         == if Newer(st, MacKey(name, index), state.version) && !Names(muts, REMOVE, index)
            then Lookup(Collection(st, name), index) else Lookup(Replay(Collection(st, name), muts), index)
  {
    var (added, removed) := Deltas(muts);
    var c := Collection(st, name);
    var st2 := DeleteMacs(PutVersion(st, name, state), name, removed);
    CollectionAt(st, name, index);
    CollectionAt(Persist(st, name, state, muts), name, index);
    RemovedIndexes(muts, index);
    PutMacsLookup(st2, name, state.version, added, index, DeleteIndexes(c, removed));
    DeltasReplay(c, muts);
  }

  /** The last SET of an index is not stored: the index is held at a newer version with another
      value, and the patch never removes it. */
  predicate Stale(st: Memory, name: string, version: int, muts: seq<Mutation>, index: Item) {
    var k := MacKey(name, index);
    && Newer(st, k, version) && !Names(muts, REMOVE, index)
    && LastSet(muts, index).Some? && LastSet(muts, index).value != st.macs[k].value
  }

  lemma {:induction false} PersistLookupStale(st: Memory, name: string, state: HashState, muts: seq<Mutation>, index: Item)
    ensures var kept, replayed := Collection(Persist(st, name, state, muts), name), Replay(Collection(st, name), muts);
            && (index in kept <==> index in replayed)
            && (Lookup(kept, index) != Lookup(replayed, index) <==> Stale(st, name, state.version, muts, index))
  {
    PersistLookup(st, name, state, muts, index);
    CollectionAt(st, name, index);
    if !Names(muts, REMOVE, index) {
      ReplayUnremoved(Collection(st, name), muts, index);
    }
  }

  /** Persisting any mutations at any version leaves the replayed map exactly when no index that the
      patch sets, and never removes, is held at a newer version with another value. */
  lemma {:induction false} OldVersionIff(st: Memory, name: string, state: HashState, muts: seq<Mutation>)
    ensures Collection(Persist(st, name, state, muts), name) == Replay(Collection(st, name), muts)
       <==> forall index :: !Stale(st, name, state.version, muts, index)
  {
    var kept, replayed := Collection(Persist(st, name, state, muts), name), Replay(Collection(st, name), muts);
    forall index
      ensures Lookup(kept, index) != Lookup(replayed, index) <==> Stale(st, name, state.version, muts, index)
    {
      PersistLookupStale(st, name, state, muts, index);
    }
    SameLookupsIff(kept, replayed);
  }

  // ---- When a patch keeps hash and map in agreement ----

  /** Nothing the patch sets is held newer, and nothing it leaves stored was last named by an unknown
      operation.  Both can be read off the patch and the store before it is applied. */
  ghost predicate PatchFits(st: Memory, name: string, version: int, muts: seq<Mutation>) {
    forall index :: IndexFits(st, name, version, muts, index)
  }

  predicate IndexFits(st: Memory, name: string, version: int, muts: seq<Mutation>, index: Item) {
    !Stale(st, name, version, muts, index) && !Orphaned(Collection(st, name), muts, index)
  }

  lemma {:induction false} FitsAt(st: Memory, name: string, state: HashState, muts: seq<Mutation>, index: Item)
    ensures Lookup(Collection(Persist(st, name, state, muts), name), index)
            == Lookup(Replay(Collection(st, name), Hashed(muts)), index)
       <==> IndexFits(st, name, state.version, muts, index)
  {
    PersistLookupStale(st, name, state, muts, index);
    HashedLookup(Collection(st, name), muts, index);
  }

  /** The map that is hashed and the map that is stored are the same exactly when the patch fits. */
  lemma {:induction false} FitsIff(st: Memory, name: string, state: HashState, muts: seq<Mutation>)
    ensures Collection(Persist(st, name, state, muts), name) == Replay(Collection(st, name), Hashed(muts))
       <==> PatchFits(st, name, state.version, muts)
  {
    var kept, hashed := Collection(Persist(st, name, state, muts), name), Replay(Collection(st, name), Hashed(muts));
    forall index
      ensures Lookup(kept, index) == Lookup(hashed, index)
         <==> IndexFits(st, name, state.version, muts, index)
    {
      FitsAt(st, name, state, muts, index);
    }
    SameLookupsIff(kept, hashed);
  }

  lemma {:induction false} SameLookupsIff(c: map<Item, Item>, d: map<Item, Item>)
    ensures c == d <==> forall i :: Lookup(c, i) == Lookup(d, i)
  {
    if forall i :: Lookup(c, i) == Lookup(d, i) {
      SameLookups(c, d);
    }
  }

  lemma {:induction false} FitsStored(st: Memory, name: string, state: HashState, muts: seq<Mutation>)
    requires PatchFits(st, name, state.version, muts)
    ensures Collection(Persist(st, name, state, muts), name) == Replay(Collection(st, name), muts)
  {
    forall index
      ensures !Stale(st, name, state.version, muts, index)
    {
      assert IndexFits(st, name, state.version, muts, index);
    }
    OldVersionIff(st, name, state, muts);
  }

  ghost predicate Agrees(expand: Item -> Digest, st: Memory, name: string) {
    Summarises(expand, GetVersion(st, name).hash, Collection(st, name))
  }

  /** A patch that fits keeps the agreement and replays itself on the map; one that raises changes
      nothing. */
  lemma {:induction false} PatchAgrees(expand: Item -> Digest, st: Memory, name: string, patch: Patch)
    requires Agrees(expand, st, name) && (patch.verdict.None? ==> PatchFits(st, name, patch.version, patch.mutations))
    ensures var (st', r) := ApplyPatch(expand, st, name, GetVersion(st, name), patch);
            && Agrees(expand, st', name)
            && (r.Advanced? ==> r.state == GetVersion(st', name) && r.state.version == patch.version
                                && Collection(st', name) == Replay(Collection(st, name), patch.mutations))
            && (r.Raised? ==> st' == st)
  {
    if patch.verdict.None? {
      var cursor := GetVersion(st, name);
      var state := HashState(patch.version, UpdateHash(expand, cursor.hash, patch.mutations, Collection(st, name)));
      UpdateHashOfAny(expand, cursor.hash, patch.mutations, Collection(st, name));
      PersistVersions(st, name, state, patch.mutations);
      FitsIff(st, name, state, patch.mutations);
      FitsStored(st, name, state, patch.mutations);
    }
  }

  // ---- Snapshots ----

  predicate DistinctIndexes(records: seq<Mutation>) {
    forall i, j | 0 <= i < j < |records| :: records[i].index != records[j].index
  }

  predicate NewIndexes(c: map<Item, Item>, records: seq<Mutation>) {
    forall i | 0 <= i < |records| :: records[i].index !in c
  }

  /** No index occurs twice or is stored already. */
  predicate SnapshotFits(c: map<Item, Item>, records: seq<Mutation>) {
    DistinctIndexes(records) && NewIndexes(c, records)
  }

  lemma {:induction false} NoPrevious(muts: seq<Mutation>, n: nat, index: Item, c: map<Item, Item>)
    requires n <= |muts| && index !in c && forall j | 0 <= j < n :: muts[j].index != index
    ensures PrevValue(muts, n, index, c) == None
  {
    if n > 0 {
      NoPrevious(muts, n - 1, index, c);
    }
  }

  lemma {:induction false} NothingRemoved(muts: seq<Mutation>, n: nat, c: map<Item, Item>)
    requires n <= |muts| && SnapshotFits(c, muts)
    ensures Removed(muts, n, c) == []
  {
    if n > 0 {
      NothingRemoved(muts, n - 1, c);
      NoPrevious(muts, n - 1, muts[n - 1].index, c);
    }
  }

  lemma {:induction false} SnapshotSummarises(expand: Item -> Digest, base: Digest, records: seq<Mutation>, c: map<Item, Item>)
    requires SnapshotFits(c, records) && Summarises(expand, base, c)
    ensures Summarises(expand, SnapshotHash(expand, base, records), Replay(c, AsSets(records)))
  {
    var muts := AsSets(records);
    NothingRemoved(muts, |muts|, c);
    UpdateHashSummarises(expand, base, muts, c);
  }

  lemma {:induction false} LastSetNamed(muts: seq<Mutation>, index: Item)
    requires LastSet(muts, index).Some?
    ensures Names(muts, SET, index)
    decreases |muts|
  {
    NamesLast(muts, SET, index);
    var last := muts[|muts| - 1];
    if !(last.operation == SET && last.index == index) {
      LastSetNamed(muts[..|muts| - 1], index);
    }
  }

  lemma {:induction false} NoneStale(st: Memory, name: string, version: int, records: seq<Mutation>, index: Item)
    requires NewIndexes(Collection(st, name), records)
    ensures !Stale(st, name, version, AsSets(records), index)
  {
    if LastSet(AsSets(records), index).Some? {
      LastSetNamed(AsSets(records), index);
      CollectionAt(st, name, index);
    }
  }

  lemma {:induction false} SnapshotAgrees(expand: Item -> Digest, st: Memory, name: string, s: Snapshot)
    requires Agrees(expand, st, name) && (s.verdict.None? ==> SnapshotFits(Collection(st, name), s.records))
    ensures var (st', r) := ApplySnapshot(expand, st, name, GetVersion(st, name), s);
            && Agrees(expand, st', name)
            && (r.Advanced? ==> r.state == GetVersion(st', name) && r.state.version == s.version
                                && Collection(st', name) == Replay(Collection(st, name), AsSets(s.records)))
            && (r.Raised? ==> st' == st)
  {
    if s.verdict.None? {
      var cursor, muts := GetVersion(st, name), AsSets(s.records);
      var state := HashState(s.version, SnapshotHash(expand, cursor.hash, s.records));
      SnapshotSummarises(expand, cursor.hash, s.records, Collection(st, name));
      PersistVersions(st, name, state, muts);
      forall index
        ensures !Stale(st, name, s.version, muts, index)
      {
        NoneStale(st, name, s.version, s.records, index);
      }
      OldVersionIff(st, name, state, muts);
    }
  }

  // ---- Lists of patches ----

  /** Every patch that is reached fits the store it is applied to. */
  ghost predicate PatchesFit(expand: Item -> Digest, st: Memory, name: string, cursor: HashState, patches: seq<Patch>)
    decreases |patches|
  {
    patches != [] ==>
      var rest, last := patches[..|patches| - 1], patches[|patches| - 1];
      var (st1, r) := ApplyPatches(expand, st, name, cursor, rest);
      && PatchesFit(expand, st, name, cursor, rest)
      && (r.Advanced? && last.verdict.None? ==> PatchFits(st1, name, last.version, last.mutations))
  }

  lemma {:induction false} PatchesAgree(expand: Item -> Digest, st: Memory, name: string, patches: seq<Patch>)
    requires Agrees(expand, st, name) && PatchesFit(expand, st, name, GetVersion(st, name), patches)
    ensures var (st', r) := ApplyPatches(expand, st, name, GetVersion(st, name), patches);
            Agrees(expand, st', name) && (r.Advanced? ==> r.state == GetVersion(st', name))
    decreases |patches|
  {
    if patches != [] {
      var rest, last := patches[..|patches| - 1], patches[|patches| - 1];
      PatchesAgree(expand, st, name, rest);
      var (st1, r) := ApplyPatches(expand, st, name, GetVersion(st, name), rest);
      if r.Advanced? {
        PatchAgrees(expand, st1, name, last);
      }
    }
  }

  /** A patch that raises leaves the cursor and the map as the patches before it left them. */
  lemma {:induction false} FailureKeepsPrefix(expand: Item -> Digest, st: Memory, name: string, cursor: HashState, patches: seq<Patch>)
    returns (k: nat)
    requires ApplyPatches(expand, st, name, cursor, patches).1.Raised?
    ensures k < |patches| && patches[k].verdict.Some?
    ensures ApplyPatches(expand, st, name, cursor, patches[..k]).1.Advanced?
    ensures ApplyPatches(expand, st, name, cursor, patches).0 == ApplyPatches(expand, st, name, cursor, patches[..k]).0
    decreases |patches|
  {
    k := |patches| - 1;
    if ApplyPatches(expand, st, name, cursor, patches[..k]).1.Raised? {
      var j := FailureKeepsPrefix(expand, st, name, cursor, patches[..k]);
      assert patches[..k][..j] == patches[..j];
      k := j;
    }
  }

  lemma {:induction false} PatchesCursor(expand: Item -> Digest, st: Memory, name: string, patches: seq<Patch>)
    ensures var (st', r) := ApplyPatches(expand, st, name, GetVersion(st, name), patches);
            r.Advanced? ==> r.state == GetVersion(st', name)
    decreases |patches|
  {
    if patches != [] {
      var rest, last := patches[..|patches| - 1], patches[|patches| - 1];
      PatchesCursor(expand, st, name, rest);
      var (st1, r) := ApplyPatches(expand, st, name, GetVersion(st, name), rest);
      if r.Advanced? {
        var state := HashState(last.version, UpdateHash(expand, r.state.hash, last.mutations, Collection(st1, name)));
        PersistVersions(st1, name, state, last.mutations);
      }
    }
  }

  lemma {:induction false} PatchesSplit(expand: Item -> Digest, st: Memory, name: string, cursor: HashState, patches: seq<Patch>, k: nat)
    requires k <= |patches| && ApplyPatches(expand, st, name, cursor, patches[..k]).1.Advanced?
    ensures var (st1, r) := ApplyPatches(expand, st, name, cursor, patches[..k]);
            ApplyPatches(expand, st, name, cursor, patches) == ApplyPatches(expand, st1, name, r.state, patches[k..])
    decreases |patches|
  {
    if k == |patches| {
      assert patches[..k] == patches && patches[k..] == [];
    } else {
      var n, cut := |patches| - 1, patches[k..];
      var rest := patches[..n];
      assert rest[..k] == patches[..k];
      PatchesSplit(expand, st, name, cursor, rest, k);
      var (st1, r) := ApplyPatches(expand, st, name, cursor, patches[..k]);
      assert cut[..|cut| - 1] == rest[k..] && cut[|cut| - 1] == patches[n];
      PatchesLast(expand, st, name, cursor, patches, rest, patches[n]);
      PatchesLast(expand, st1, name, r.state, cut, rest[k..], patches[n]);
    }
  }

  lemma {:induction false} PatchesLast(expand: Item -> Digest, st: Memory, name: string, cursor: HashState, patches: seq<Patch>, rest: seq<Patch>,
                    last: Patch)
    requires patches != [] && rest == patches[..|patches| - 1] && last == patches[|patches| - 1]
    ensures var (st1, r) := ApplyPatches(expand, st, name, cursor, rest);
            ApplyPatches(expand, st, name, cursor, patches)
            == if r.Raised? then (st1, r) else ApplyPatch(expand, st1, name, r.state, last)
  {
  }

  /** Where a list stopped because patch `k` raised, applying the patches from `k` on to the stored
      cursor, with the verdicts they get now, leads to exactly what applying all of them would have. */
  lemma {:induction false} Resumes(expand: Item -> Digest, st: Memory, name: string, patches: seq<Patch>, k: nat, failing: Patch)
    requires k < |patches| && failing.verdict.Some?
    requires ApplyPatches(expand, st, name, GetVersion(st, name), patches[..k]).1.Advanced?
    ensures var stopped := ApplyPatches(expand, st, name, GetVersion(st, name), patches[..k] + [failing]);
            && stopped.1 == Raised(failing.verdict.value)
            && ApplyPatches(expand, stopped.0, name, GetVersion(stopped.0, name), patches[k..])
               == ApplyPatches(expand, st, name, GetVersion(st, name), patches)
  {
    assert (patches[..k] + [failing])[..k] == patches[..k];
    PatchesCursor(expand, st, name, patches[..k]);
    PatchesSplit(expand, st, name, GetVersion(st, name), patches, k);
  }

  ghost predicate ListFits(expand: Item -> Digest, st: Memory, name: string, snapshot: Option<Snapshot>, patches: seq<Patch>) {
    if snapshot.None? then PatchesFit(expand, st, name, GetVersion(st, name), patches)
    else
      var s := snapshot.value;
      var (st1, r) := ApplySnapshot(expand, st, name, GetVersion(st, name), s);
      && (s.verdict.None? ==> SnapshotFits(Collection(st, name), s.records))
      && (r.Advanced? ==> PatchesFit(expand, st1, name, r.state, patches))
  }

  /** Whether it returns or raises, applying a response keeps the stored hash equal to the
      from-scratch hash of the stored map. */
  lemma {:induction false} ListAgrees(expand: Item -> Digest, st: Memory, name: string, snapshot: Option<Snapshot>, patches: seq<Patch>)
    requires Agrees(expand, st, name) && ListFits(expand, st, name, snapshot, patches)
    ensures var (st', r) := ApplyList(expand, st, name, GetVersion(st, name), snapshot, patches);
            Agrees(expand, st', name) && (r.Advanced? ==> r.state == GetVersion(st', name))
  {
    if snapshot.None? {
      PatchesAgree(expand, st, name, patches);
    } else {
      SnapshotAgrees(expand, st, name, snapshot.value);
      var (st1, r) := ApplySnapshot(expand, st, name, GetVersion(st, name), snapshot.value);
      if r.Advanced? {
        PatchesAgree(expand, st1, name, patches);
      }
    }
  }
}
