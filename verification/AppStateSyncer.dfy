/** The imperative half of src/pywhats/appstate/fetch.py: the loops that decode, check and persist,
    on the mutable store. */
module AppStateSyncer {
  import opened Outcomes
  import opened Bytes
  import opened LtHash
  import opened Patches
  import opened AppStateStore
  import opened AppStateSync
  import opened AppStateFetch

  method PersistTo(store: InMemoryAppStateStore, name: string, state: HashState, muts: seq<Mutation>)
    modifies store
    ensures store.View() == Persist(old(store.View()), name, state, muts)
  {
    var added, removed := ComputeDeltas(muts);
    store.WriteVersion(name, state);
    if removed != [] {
      store.ClearMacs(name, removed);
    }
    assert store.View() == DeleteMacs(PutVersion(old(store.View()), name, state), name, removed);
    if added != [] {
      store.WriteMacs(name, state.version, added);
    }
  }

  method ApplyPatchList(expand: Item -> Digest, store: InMemoryAppStateStore, name: string, initial: HashState,
                        snapshot: Option<Snapshot>, patches: seq<Patch>)
    returns (r: Result)
    modifies store
    ensures (store.View(), r) == ApplyList(expand, old(store.View()), name, initial, snapshot, patches)
  {
    var state := initial;
    if snapshot.Some? {
      var s := snapshot.value;
      var muts := AsSets(s.records);
      var hash := ComputeSubtractThenAdd(expand, state.hash, Added(muts, |muts|), []);
      var next := HashState(s.version, hash);
      if s.verdict.Some? {
        return Raised(s.verdict.value);
      }
      PersistTo(store, name, next, muts);
      state := next;
    }
    ghost var start, cursor := store.View(), state;
    for i := 0 to |patches|
      invariant (store.View(), Advanced(state)) == ApplyPatches(expand, start, name, cursor, patches[..i])
    {
      assert patches[..i + 1][..i] == patches[..i];
      var patch := patches[i];
      var hash := ComputeUpdateHash(expand, state.hash, patch.mutations, Collection(store.View(), name));
      var next := HashState(patch.version, hash);
      if patch.verdict.Some? {
        RaisedPrefix(expand, start, name, cursor, patches, i + 1);
        return Raised(patch.verdict.value);
      }
      PersistTo(store, name, next, patch.mutations);
      state := next;
    }
    assert patches[..|patches|] == patches;
    r := Advanced(state);
  }

  /** Once a patch has raised, the ones after it are not looked at. */
  lemma {:induction false} RaisedPrefix(expand: Item -> Digest, st: Memory, name: string, cursor: HashState, patches: seq<Patch>, n: nat)
    requires n <= |patches| && ApplyPatches(expand, st, name, cursor, patches[..n]).1.Raised?
    ensures ApplyPatches(expand, st, name, cursor, patches) == ApplyPatches(expand, st, name, cursor, patches[..n])
    decreases |patches|
  {
    if n == |patches| {
      assert patches[..n] == patches;
    } else {
      var rest := patches[..|patches| - 1];
      assert rest[..n] == patches[..n];
      RaisedPrefix(expand, st, name, cursor, rest, n);
    }
  }

  method FetchCollection(expand: Item -> Digest, store: InMemoryAppStateStore, c: Call)
    modifies store
    ensures store.View() == Fetch(expand, old(store.View()), c)
  {
    if c.fullSync {
      store.ClearVersion(c.name);
    }
    var state := store.ReadVersion(c.name);
    if state.version != 0 && c.onlyIfNotSynced {
      return;
    }
    ghost var start, first := store.View(), state;
    var hasMore, i := true, 0;
    while hasMore && i < |c.responses|
      invariant i <= |c.responses|
      invariant hasMore ==> FetchLoop(expand, start, c.name, first, c.responses)
                            == FetchLoop(expand, store.View(), c.name, state, c.responses[i..])
      invariant !hasMore ==> FetchLoop(expand, start, c.name, first, c.responses) == store.View()
      decreases |c.responses| - i
    {
      var response := c.responses[i];
      assert c.responses[i..][0] == response && c.responses[i..][1..] == c.responses[i + 1..];
      hasMore := response.hasMore;
      var r := ApplyPatchList(expand, store, c.name, state, response.snapshot, response.patches);
      if r.Raised? {
        return;
      }
      state := r.state;
      i := i + 1;
    }
  }
}
