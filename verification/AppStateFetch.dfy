/** The fetch loop of src/pywhats/appstate/fetch.py over any sequence of server responses, for every
    collection at once. */
module AppStateFetch {
  import opened Outcomes
  import opened Addressing
  import opened Bytes
  import opened LtHash
  import opened Patches
  import opened AppStateStore
  import opened AppStateSync

  /** One `<collection>` response. */
  datatype Response = Response(snapshot: Option<Snapshot>, patches: seq<Patch>, hasMore: bool)

  /** The loop of `AppStateSyncer.fetch`; it ends when the server has no more, on any failure, or when
      the connection ends. */
  function FetchLoop(expand: Item -> Digest, st: Memory, name: string, state: HashState, responses: seq<Response>): Memory
    decreases |responses|
  {
    if responses == [] then st
    else
      var (st1, r) := ApplyList(expand, st, name, state, responses[0].snapshot, responses[0].patches);
      if r.Raised? || !responses[0].hasMore then st1 else FetchLoop(expand, st1, name, r.state, responses[1..])
  }

  datatype Call = Call(name: string, fullSync: bool, onlyIfNotSynced: bool, responses: seq<Response>)

  function Cleared(st: Memory, c: Call): Memory {
    if c.fullSync then DeleteVersion(st, c.name) else st
  }

  function Fetch(expand: Item -> Digest, st: Memory, c: Call): Memory {
    var st1 := Cleared(st, c);
    var state := GetVersion(st1, c.name);
    if state.version != 0 && c.onlyIfNotSynced then st1
    else FetchLoop(expand, st1, c.name, state, c.responses)
  }

  /** Every snapshot and patch that is reached fits the store it is applied to. */
  ghost predicate ResponsesFit(expand: Item -> Digest, st: Memory, name: string, responses: seq<Response>)
    decreases |responses|
  {
    responses == [] ||
    (&& ListFits(expand, st, name, responses[0].snapshot, responses[0].patches)
     && var (st1, r) := ApplyList(expand, st, name, GetVersion(st, name), responses[0].snapshot, responses[0].patches);
        (r.Advanced? && responses[0].hasMore ==> ResponsesFit(expand, st1, name, responses[1..])))
  }

  ghost predicate CallFits(expand: Item -> Digest, st: Memory, c: Call) {
    ResponsesFit(expand, Cleared(st, c), c.name, c.responses)
  }

  ghost predicate AllAgree(expand: Item -> Digest, st: Memory) {
    forall name :: Agrees(expand, st, name)
  }

  // ---- Other collections ----

  /** Outside `name` the two stores are the same. */
  ghost predicate SameElsewhere(st: Memory, st': Memory, name: string) {
    && (forall n | n != name :: GetVersion(st', n) == GetVersion(st, n))
    && (forall k: MacKey | k.name != name :: Lookup(st'.macs, k) == Lookup(st.macs, k))
  }

  lemma {:induction false} SameCollection(st: Memory, st': Memory, name: string, other: string)
    requires SameElsewhere(st, st', name) && other != name
    ensures Collection(st', other) == Collection(st, other)
  {
    forall i
      ensures Lookup(Collection(st', other), i) == Lookup(Collection(st, other), i)
    {
      CollectionAt(st, other, i);
      CollectionAt(st', other, i);
      assert Lookup(st'.macs, MacKey(other, i)) == Lookup(st.macs, MacKey(other, i));
    }
    SameLookups(Collection(st', other), Collection(st, other));
  }

  lemma {:induction false} PutMacsOther(st: Memory, name: string, version: int, entries: seq<MacEntry>, k: MacKey)
    requires k.name != name
    ensures Lookup(PutMacs(st, name, version, entries).macs, k) == Lookup(st.macs, k)
    decreases |entries|
  {
    if entries != [] {
      PutMacsOther(st, name, version, entries[..|entries| - 1], k);
    }
  }

  lemma {:induction false} PersistElsewhere(st: Memory, name: string, state: HashState, muts: seq<Mutation>)
    ensures SameElsewhere(st, Persist(st, name, state, muts), name)
  {
    var (added, removed) := Deltas(muts);
    forall k: MacKey | k.name != name
      ensures Lookup(Persist(st, name, state, muts).macs, k) == Lookup(st.macs, k)
    {
      PutMacsOther(DeleteMacs(PutVersion(st, name, state), name, removed), name, state.version, added, k);
    }
    PersistVersions(st, name, state, muts);
  }

  lemma {:induction false} PatchesElsewhere(expand: Item -> Digest, st: Memory, name: string, cursor: HashState, patches: seq<Patch>)
    ensures SameElsewhere(st, ApplyPatches(expand, st, name, cursor, patches).0, name)
    decreases |patches|
  {
    if patches != [] {
      var rest, last := patches[..|patches| - 1], patches[|patches| - 1];
      PatchesElsewhere(expand, st, name, cursor, rest);
      var (st1, r) := ApplyPatches(expand, st, name, cursor, rest);
      if r.Advanced? {
        var state := HashState(last.version, UpdateHash(expand, r.state.hash, last.mutations, Collection(st1, name)));
        PersistElsewhere(st1, name, state, last.mutations);
      }
    }
  }

  lemma {:induction false} ListElsewhere(expand: Item -> Digest, st: Memory, name: string, cursor: HashState, snapshot: Option<Snapshot>,
                      patches: seq<Patch>)
    ensures SameElsewhere(st, ApplyList(expand, st, name, cursor, snapshot, patches).0, name)
  {
    if snapshot.None? {
      PatchesElsewhere(expand, st, name, cursor, patches);
    } else {
      var s := snapshot.value;
      var (st1, r) := ApplySnapshot(expand, st, name, cursor, s);
      PersistElsewhere(st, name, HashState(s.version, SnapshotHash(expand, cursor.hash, s.records)), AsSets(s.records));
      if r.Advanced? {
        PatchesElsewhere(expand, st1, name, r.state, patches);
      }
    }
  }

  // ---- Every sequence of fetches ----

  lemma {:induction false} ElsewhereAgrees(expand: Item -> Digest, st: Memory, st': Memory, name: string)
    requires AllAgree(expand, st) && SameElsewhere(st, st', name) && Agrees(expand, st', name)
    ensures AllAgree(expand, st')
  {
    forall other
      ensures Agrees(expand, st', other)
    {
      if other != name {
        SameCollection(st, st', name, other);
        assert Agrees(expand, st, other);
      }
    }
  }

  lemma {:induction false} ListAllAgree(expand: Item -> Digest, st: Memory, name: string, snapshot: Option<Snapshot>, patches: seq<Patch>)
    requires AllAgree(expand, st) && ListFits(expand, st, name, snapshot, patches)
    ensures var (st', r) := ApplyList(expand, st, name, GetVersion(st, name), snapshot, patches);
            AllAgree(expand, st') && (r.Advanced? ==> r.state == GetVersion(st', name))
  {
    var st' := ApplyList(expand, st, name, GetVersion(st, name), snapshot, patches).0;
    ListAgrees(expand, st, name, snapshot, patches);
    ListElsewhere(expand, st, name, GetVersion(st, name), snapshot, patches);
    ElsewhereAgrees(expand, st, st', name);
  }

  lemma {:induction false} LoopAllAgree(expand: Item -> Digest, st: Memory, name: string, responses: seq<Response>)
    requires AllAgree(expand, st) && ResponsesFit(expand, st, name, responses)
    ensures AllAgree(expand, FetchLoop(expand, st, name, GetVersion(st, name), responses))
    decreases |responses|
  {
    if responses != [] {
      var r := responses[0];
      ListAllAgree(expand, st, name, r.snapshot, r.patches);
      var (st1, result) := ApplyList(expand, st, name, GetVersion(st, name), r.snapshot, r.patches);
      if result.Advanced? && r.hasMore {
        LoopAllAgree(expand, st1, name, responses[1..]);
      }
    }
  }

  lemma {:induction false} ClearedAllAgree(expand: Item -> Digest, st: Memory, name: string)
    requires AllAgree(expand, st)
    ensures AllAgree(expand, DeleteVersion(st, name))
  {
    var st' := DeleteVersion(st, name);
    EmptySummary(expand);
    assert Collection(st', name) == map[];
    ElsewhereAgrees(expand, st, st', name);
  }

  lemma {:induction false} FetchAllAgree(expand: Item -> Digest, st: Memory, c: Call)
    requires AllAgree(expand, st) && CallFits(expand, st, c)
    ensures AllAgree(expand, Fetch(expand, st, c))
  {
    if c.fullSync {
      ClearedAllAgree(expand, st, c.name);
    }
    LoopAllAgree(expand, Cleared(st, c), c.name, c.responses);
  }

  ghost predicate IsHistory(expand: Item -> Digest, states: seq<Memory>, calls: seq<Call>) {
    && |states| == |calls| + 1 && states[0] == EMPTY_MEMORY
    && forall i | 0 <= i < |calls| :: FetchAt(expand, states, calls, i)
  }

  ghost predicate FetchAt(expand: Item -> Digest, states: seq<Memory>, calls: seq<Call>, i: nat)
    requires i < |calls| && |states| == |calls| + 1
  {
    CallFits(expand, states[i], calls[i]) && states[i + 1] == Fetch(expand, states[i], calls[i])
  }

  lemma {:induction false} EmptyAgrees(expand: Item -> Digest)
    ensures AllAgree(expand, EMPTY_MEMORY)
  {
    EmptySummary(expand);
    forall name
      ensures Agrees(expand, EMPTY_MEMORY, name)
    {
      assert Collection(EMPTY_MEMORY, name) == map[];
    }
  }

  /** After any sequence of fetches, whichever of them failed and were tried again, the stored hash of
      every collection is the from-scratch hash of the values stored for it. */
  lemma {:induction false} HistoryAgrees(expand: Item -> Digest, states: seq<Memory>, calls: seq<Call>, i: nat)
    requires IsHistory(expand, states, calls) && i < |states|
    ensures AllAgree(expand, states[i])
  {
    if i == 0 {
      EmptyAgrees(expand);
    } else {
      HistoryAgrees(expand, states, calls, i - 1);
      assert FetchAt(expand, states, calls, i - 1);
      FetchAllAgree(expand, states[i - 1], calls[i - 1]);
    }
  }

  // ---- An orderly server ----

  /** The operations are SET or REMOVE and the version does not go back. */
  predicate PatchOk(version: int, patch: Patch) {
    OperationsOk(patch.mutations) && version <= patch.version
  }

  /** The version of the cursor that patch `i` is applied to. */
  function Before(version: int, patches: seq<Patch>, i: nat): int
    requires i <= |patches|
  {
    if i == 0 then version else patches[i - 1].version
  }

  ghost predicate PatchesOk(version: int, patches: seq<Patch>) {
    forall i | 0 <= i < |patches| :: PatchOk(Before(version, patches, i), patches[i])
  }

  /** Besides, a snapshot has distinct indexes and arrives for an empty collection. */
  ghost predicate ListOk(st: Memory, name: string, snapshot: Option<Snapshot>, patches: seq<Patch>) {
    && (snapshot.Some? ==> Collection(st, name) == map[] && DistinctIndexes(snapshot.value.records))
    && PatchesOk(if snapshot.Some? then snapshot.value.version else GetVersion(st, name).version, patches)
  }

  ghost predicate ResponsesOk(expand: Item -> Digest, st: Memory, name: string, responses: seq<Response>)
    decreases |responses|
  {
    responses == [] ||
    (&& ListOk(st, name, responses[0].snapshot, responses[0].patches)
     && var (st1, r) := ApplyList(expand, st, name, GetVersion(st, name), responses[0].snapshot, responses[0].patches);
        (r.Advanced? && responses[0].hasMore ==> ResponsesOk(expand, st1, name, responses[1..])))
  }

  /** Nothing is held beyond the cursor. */
  ghost predicate VersionsUpTo(st: Memory, name: string, version: int) {
    forall k | k in st.macs && k.name == name :: st.macs[k].version <= version
  }

  lemma {:induction false} PutMacsUpTo(st: Memory, name: string, version: int, entries: seq<MacEntry>)
    requires VersionsUpTo(st, name, version)
    ensures VersionsUpTo(PutMacs(st, name, version, entries), name, version)
    decreases |entries|
  {
    if entries != [] {
      PutMacsUpTo(st, name, version, entries[..|entries| - 1]);
    }
  }

  lemma {:induction false} PersistUpTo(st: Memory, name: string, state: HashState, muts: seq<Mutation>)
    requires VersionsUpTo(st, name, state.version)
    ensures VersionsUpTo(Persist(st, name, state, muts), name, state.version)
  {
    var (added, removed) := Deltas(muts);
    PutMacsUpTo(DeleteMacs(PutVersion(st, name, state), name, removed), name, state.version, added);
  }

  lemma {:induction false} LastOnKnown(muts: seq<Mutation>, index: Item)
    requires OperationsOk(muts) && LastOn(muts, index).Some?
    ensures IsKnown(LastOn(muts, index).value)
    decreases |muts|
  {
    if muts[|muts| - 1].index != index {
      LastOnKnown(muts[..|muts| - 1], index);
    }
  }

  lemma {:induction false} OrderlyPatch(st: Memory, name: string, version: int, muts: seq<Mutation>)
    requires VersionsUpTo(st, name, version) && OperationsOk(muts)
    ensures PatchFits(st, name, version, muts)
  {
    forall index
      ensures IndexFits(st, name, version, muts, index)
    {
      if LastOn(muts, index).Some? {
        LastOnKnown(muts, index);
      }
    }
  }

  lemma {:induction false} PrefixOk(version: int, patches: seq<Patch>)
    requires patches != [] && PatchesOk(version, patches)
    ensures var rest := patches[..|patches| - 1];
            PatchesOk(version, rest) && PatchOk(Before(version, rest, |rest|), patches[|patches| - 1])
  {
    var rest := patches[..|patches| - 1];
    forall i | 0 <= i < |rest|
      ensures PatchOk(Before(version, rest, i), rest[i])
    {
      assert PatchOk(Before(version, patches, i), patches[i]);
    }
    assert PatchOk(Before(version, patches, |rest|), patches[|rest|]);
  }

  lemma {:induction false} OrderlyPatches(expand: Item -> Digest, st: Memory, name: string, cursor: HashState, patches: seq<Patch>)
    requires VersionsUpTo(st, name, cursor.version) && PatchesOk(cursor.version, patches) && GetVersion(st, name) == cursor
    ensures PatchesFit(expand, st, name, cursor, patches)
    ensures var (st', r) := ApplyPatches(expand, st, name, cursor, patches);
            && VersionsUpTo(st', name, GetVersion(st', name).version)
            && (r.Advanced? ==> r.state == GetVersion(st', name) && r.state.version == Before(cursor.version, patches, |patches|))
    decreases |patches|
  {
    if patches != [] {
      var rest, last := patches[..|patches| - 1], patches[|patches| - 1];
      PrefixOk(cursor.version, patches);
      OrderlyPatches(expand, st, name, cursor, rest);
      var (st1, r) := ApplyPatches(expand, st, name, cursor, rest);
      if r.Advanced? {
        OrderlyPatch(st1, name, last.version, last.mutations);
        var state := HashState(last.version, UpdateHash(expand, r.state.hash, last.mutations, Collection(st1, name)));
        PersistUpTo(st1, name, state, last.mutations);
        PersistVersions(st1, name, state, last.mutations);
      }
    }
  }

  lemma {:induction false} EmptyUpTo(st: Memory, name: string, version: int)
    requires Collection(st, name) == map[]
    ensures VersionsUpTo(st, name, version)
  {
    forall k | k in st.macs
      ensures k.name != name
    {
      CollectionAt(st, name, k.index);
    }
  }

  lemma {:induction false} OrderlyList(expand: Item -> Digest, st: Memory, name: string, snapshot: Option<Snapshot>, patches: seq<Patch>)
    requires VersionsUpTo(st, name, GetVersion(st, name).version) && ListOk(st, name, snapshot, patches)
    ensures ListFits(expand, st, name, snapshot, patches)
    ensures var (st', r) := ApplyList(expand, st, name, GetVersion(st, name), snapshot, patches);
            VersionsUpTo(st', name, GetVersion(st', name).version) && (r.Advanced? ==> r.state == GetVersion(st', name))
  {
    var cursor := GetVersion(st, name);
    if snapshot.None? {
      OrderlyPatches(expand, st, name, cursor, patches);
    } else if snapshot.value.verdict.None? {
      var s := snapshot.value;
      var state := HashState(s.version, SnapshotHash(expand, cursor.hash, s.records));
      var st1 := Persist(st, name, state, AsSets(s.records));
      EmptyUpTo(st, name, s.version);
      PersistUpTo(st, name, state, AsSets(s.records));
      PersistVersions(st, name, state, AsSets(s.records));
      OrderlyPatches(expand, st1, name, state, patches);
    }
  }

  lemma {:induction false} OrderlyLoop(expand: Item -> Digest, st: Memory, name: string, responses: seq<Response>)
    requires VersionsUpTo(st, name, GetVersion(st, name).version) && ResponsesOk(expand, st, name, responses)
    ensures ResponsesFit(expand, st, name, responses)
    ensures var st' := FetchLoop(expand, st, name, GetVersion(st, name), responses);
            VersionsUpTo(st', name, GetVersion(st', name).version) && SameElsewhere(st, st', name)
    decreases |responses|
  {
    if responses != [] {
      var r := responses[0];
      OrderlyList(expand, st, name, r.snapshot, r.patches);
      ListElsewhere(expand, st, name, GetVersion(st, name), r.snapshot, r.patches);
      var (st1, result) := ApplyList(expand, st, name, GetVersion(st, name), r.snapshot, r.patches);
      if result.Advanced? && r.hasMore {
        OrderlyLoop(expand, st1, name, responses[1..]);
      }
    }
  }

  ghost predicate Tidy(st: Memory) {
    forall name :: VersionsUpTo(st, name, GetVersion(st, name).version)
  }

  lemma {:induction false} TidyElsewhere(st: Memory, st': Memory, name: string)
    requires Tidy(st) && SameElsewhere(st, st', name) && VersionsUpTo(st', name, GetVersion(st', name).version)
    ensures Tidy(st')
  {
    forall other, k | k in st'.macs && k.name == other
      ensures st'.macs[k].version <= GetVersion(st', other).version
    {
      if other != name {
        assert Lookup(st'.macs, k) == Lookup(st.macs, k);
        assert VersionsUpTo(st, other, GetVersion(st, other).version);
      }
    }
  }

  lemma {:induction false} OrderlyFetch(expand: Item -> Digest, st: Memory, c: Call)
    requires Tidy(st) && ResponsesOk(expand, Cleared(st, c), c.name, c.responses)
    ensures CallFits(expand, st, c) && Tidy(Fetch(expand, st, c))
  {
    var st1 := Cleared(st, c);
    TidyElsewhere(st, st1, c.name);
    OrderlyLoop(expand, st1, c.name, c.responses);
    TidyElsewhere(st1, FetchLoop(expand, st1, c.name, GetVersion(st1, c.name), c.responses), c.name);
  }

  ghost predicate OrderlyAt(expand: Item -> Digest, states: seq<Memory>, calls: seq<Call>, i: nat)
    requires i < |calls| && |states| == |calls| + 1
  {
    && ResponsesOk(expand, Cleared(states[i], calls[i]), calls[i].name, calls[i].responses)
    && states[i + 1] == Fetch(expand, states[i], calls[i])
  }

  /** A server that sends SET and REMOVE only, versions that do not go back, and snapshots with
      distinct indexes for empty collections never sends what does not fit. */
  lemma {:induction false} OrderlyHistory(expand: Item -> Digest, states: seq<Memory>, calls: seq<Call>, i: nat)
    requires |states| == |calls| + 1 && states[0] == EMPTY_MEMORY && i < |states|
    requires forall j | 0 <= j < |calls| :: OrderlyAt(expand, states, calls, j)
    ensures Tidy(states[i]) && forall j | 0 <= j < i :: FetchAt(expand, states, calls, j)
  {
    if i > 0 {
      OrderlyHistory(expand, states, calls, i - 1);
      OrderlyStep(expand, states, calls, i - 1);
    }
  }

  lemma {:induction false} OrderlyStep(expand: Item -> Digest, states: seq<Memory>, calls: seq<Call>, i: nat)
    requires |states| == |calls| + 1 && i < |calls| && OrderlyAt(expand, states, calls, i) && Tidy(states[i])
    ensures FetchAt(expand, states, calls, i) && Tidy(states[i + 1])
  {
    OrderlyFetch(expand, states[i], calls[i]);
  }
}
