/** What a fetch of src/pywhats/appstate/fetch.py leaves in the store, in terms of what the server sent. */
module AppStateApplied {
  import opened Outcomes
  import opened Addressing
  import opened Bytes
  import opened LtHash
  import opened Patches
  import opened AppStateStore
  import opened AppStateSync
  import opened AppStateFetch

  // ---- What the server sent ----

  /** A snapshot or a patch: its version, its mutations, and whether it is accepted. */
  datatype Change = Change(version: int, mutations: seq<Mutation>, verdict: Option<Failure>)

  function OfPatch(p: Patch): Change {
    Change(p.version, p.mutations, p.verdict)
  }

  function OfPatches(patches: seq<Patch>): (r: seq<Change>)
    ensures |r| == |patches| && forall i | 0 <= i < |patches| :: r[i] == OfPatch(patches[i])
  {
    seq(|patches|, i requires 0 <= i < |patches| => OfPatch(patches[i]))
  }

  /** The snapshot first, as SETs, and then the patches. */
  function OfResponse(r: Response): seq<Change> {
    (if r.snapshot.Some? then [Change(r.snapshot.value.version, AsSets(r.snapshot.value.records), r.snapshot.value.verdict)] else [])
    + OfPatches(r.patches)
  }

  /** All changes of the responses up to and including the first that has no more to come. */
  function Sent(responses: seq<Response>): seq<Change>
    decreases |responses|
  {
    if responses == [] then []
    else OfResponse(responses[0]) + if responses[0].hasMore then Sent(responses[1..]) else []
  }

  /** The changes before the first that is not accepted. */
  function Accepted(changes: seq<Change>): (r: seq<Change>)
    ensures r <= changes && (forall i | 0 <= i < |r| :: r[i].verdict.None?) && (|r| < |changes| ==> changes[|r|].verdict.Some?)
  {
    if changes == [] || changes[0].verdict.Some? then [] else [changes[0]] + Accepted(changes[1..])
  }

  /** The map after all changes. */
  function ReplayAll(c: map<Item, Item>, changes: seq<Change>): map<Item, Item>
    decreases |changes|
  {
    if changes == [] then c else ReplayAll(Replay(c, changes[0].mutations), changes[1..])
  }

  /** The version of the last change, if there is one. */
  function LastVersion(version: int, changes: seq<Change>): int {
    if changes == [] then version else changes[|changes| - 1].version
  }

  /** The store holds the map and the version that the changes lead to. */
  ghost predicate Leads(st: Memory, name: string, changes: seq<Change>, st': Memory) {
    && Collection(st', name) == ReplayAll(Collection(st, name), changes)
    && GetVersion(st', name).version == LastVersion(GetVersion(st, name).version, changes)
  }

  lemma {:induction false} ReplayAllJoin(c: map<Item, Item>, a: seq<Change>, b: seq<Change>)
    ensures ReplayAll(c, a + b) == ReplayAll(ReplayAll(c, a), b)
    decreases |a|
  {
    if a == [] {
      assert a + b == b;
    } else {
      ReplayAllJoin(Replay(c, a[0].mutations), a[1..], b);
      assert (a + b)[1..] == a[1..] + b;
    }
  }

  lemma {:induction false} LeadsJoin(st: Memory, name: string, a: seq<Change>, st1: Memory, b: seq<Change>, st2: Memory)
    requires Leads(st, name, a, st1) && Leads(st1, name, b, st2)
    ensures Leads(st, name, a + b, st2)
  {
    ReplayAllJoin(Collection(st, name), a, b);
    if b == [] {
      assert a + b == a;
    }
  }

  lemma {:induction false} AcceptedJoin(a: seq<Change>, b: seq<Change>)
    ensures Accepted(a + b) == if |Accepted(a)| < |a| then Accepted(a) else a + Accepted(b)
    decreases |a|
  {
    if a == [] {
      assert a + b == b;
    } else {
      assert (a + b)[1..] == a[1..] + b;
      AcceptedJoin(a[1..], b);
    }
  }

  // ---- One change, one list, one response ----

  lemma {:induction false} PersistLeads(st: Memory, name: string, state: HashState, muts: seq<Mutation>)
    requires forall index :: !Stale(st, name, state.version, muts, index)
    ensures Leads(st, name, [Change(state.version, muts, None)], Persist(st, name, state, muts))
  {
    var change := Change(state.version, muts, None);
    OldVersionIff(st, name, state, muts);
    PersistVersions(st, name, state, muts);
    assert [change][1..] == [];
  }

  lemma {:induction false} StaysLeads(st: Memory, name: string)
    ensures Leads(st, name, [], st)
  {
  }

  lemma {:induction false} AcceptedOne(change: Change)
    ensures Accepted([change]) == if change.verdict.Some? then [] else [change]
  {
    assert [change][1..] == [];
    assert Accepted([]) == [];
  }

  lemma {:induction false} PatchLeads(expand: Item -> Digest, st: Memory, name: string, cursor: HashState, patch: Patch)
    requires patch.verdict.None? ==> PatchFits(st, name, patch.version, patch.mutations)
    ensures var (st', r) := ApplyPatch(expand, st, name, cursor, patch);
            && Leads(st, name, Accepted([OfPatch(patch)]), st')
            && (r.Advanced? <==> patch.verdict.None?) && (r.Advanced? ==> r.state == GetVersion(st', name))
  {
    AcceptedOne(OfPatch(patch));
    if patch.verdict.None? {
      var state := HashState(patch.version, UpdateHash(expand, cursor.hash, patch.mutations, Collection(st, name)));
      forall index
        ensures !Stale(st, name, patch.version, patch.mutations, index)
      {
        assert IndexFits(st, name, patch.version, patch.mutations, index);
      }
      PersistLeads(st, name, state, patch.mutations);
      PersistVersions(st, name, state, patch.mutations);
    } else {
      StaysLeads(st, name);
    }
  }

  /** What applying a list of changes does: all of them up to the first that is not accepted, which raises. */
  ghost predicate Applies(st: Memory, name: string, changes: seq<Change>, st': Memory, r: Result) {
    && Leads(st, name, Accepted(changes), st')
    && (r.Advanced? <==> Accepted(changes) == changes) && (r.Advanced? ==> r.state == GetVersion(st', name))
  }

  lemma {:induction false} AppliesJoin(st: Memory, name: string, a: seq<Change>, st1: Memory, r1: Result, b: seq<Change>, st2: Memory, r2: Result)
    requires Applies(st, name, a, st1, r1) && r1.Advanced? && Applies(st1, name, b, st2, r2)
    ensures Applies(st, name, a + b, st2, r2)
  {
    AcceptedJoin(a, b);
    LeadsJoin(st, name, a, st1, Accepted(b), st2);
    assert a + Accepted(b) == a + b <==> Accepted(b) == b by {
      assert |a + Accepted(b)| == |a| + |Accepted(b)|;
    }
  }

  lemma {:induction false} AppliesStopped(st: Memory, name: string, a: seq<Change>, st1: Memory, r1: Result, b: seq<Change>)
    requires Applies(st, name, a, st1, r1) && r1.Raised?
    ensures Applies(st, name, a + b, st1, r1)
  {
    AcceptedJoin(a, b);
    assert |Accepted(a)| < |a + b|;
  }

  lemma {:induction false} OfPatchesLast(patches: seq<Patch>)
    requires patches != []
    ensures OfPatches(patches) == OfPatches(patches[..|patches| - 1]) + [OfPatch(patches[|patches| - 1])]
  {
  }

  lemma {:induction false} PatchesApply(expand: Item -> Digest, st: Memory, name: string, cursor: HashState, patches: seq<Patch>)
    requires PatchesFit(expand, st, name, cursor, patches) && cursor == GetVersion(st, name)
    ensures var (st', r) := ApplyPatches(expand, st, name, cursor, patches);
            Applies(st, name, OfPatches(patches), st', r)
    decreases |patches|
  {
    if patches == [] {
      StaysLeads(st, name);
    } else {
      var rest, last := patches[..|patches| - 1], patches[|patches| - 1];
      PatchesApply(expand, st, name, cursor, rest);
      OfPatchesLast(patches);
      var (st1, r) := ApplyPatches(expand, st, name, cursor, rest);
      var (st2, r2) := ApplyPatches(expand, st, name, cursor, patches);
      if r.Raised? {
        AppliesStopped(st, name, OfPatches(rest), st1, r, [OfPatch(last)]);
      } else {
        PatchLeads(expand, st1, name, r.state, last);
        AcceptedOne(OfPatch(last));
        AppliesJoin(st, name, OfPatches(rest), st1, r, [OfPatch(last)], st2, r2);
      }
    }
  }

  lemma {:induction false} SnapshotApplies(expand: Item -> Digest, st: Memory, name: string, cursor: HashState, s: Snapshot)
    requires s.verdict.None? ==> SnapshotFits(Collection(st, name), s.records)
    ensures var (st', r) := ApplySnapshot(expand, st, name, cursor, s);
            Applies(st, name, [Change(s.version, AsSets(s.records), s.verdict)], st', r)
  {
    var muts := AsSets(s.records);
    AcceptedOne(Change(s.version, muts, s.verdict));
    if s.verdict.None? {
      var state := HashState(s.version, SnapshotHash(expand, cursor.hash, s.records));
      forall index
        ensures !Stale(st, name, s.version, muts, index)
      {
        NoneStale(st, name, s.version, s.records, index);
      }
      PersistLeads(st, name, state, muts);
      PersistVersions(st, name, state, muts);
    } else {
      StaysLeads(st, name);
    }
  }

  lemma {:induction false} ListApplies(expand: Item -> Digest, st: Memory, name: string, response: Response)
    requires ListFits(expand, st, name, response.snapshot, response.patches)
    ensures var (st', r) := ApplyList(expand, st, name, GetVersion(st, name), response.snapshot, response.patches);
            Applies(st, name, OfResponse(response), st', r)
  {
    var cursor := GetVersion(st, name);
    var none: seq<Change> := [];
    if response.snapshot.None? {
      PatchesApply(expand, st, name, cursor, response.patches);
      assert none + OfPatches(response.patches) == OfPatches(response.patches);
    } else {
      var s := response.snapshot.value;
      var first := Change(s.version, AsSets(s.records), s.verdict);
      SnapshotApplies(expand, st, name, cursor, s);
      var (st1, r1) := ApplySnapshot(expand, st, name, cursor, s);
      if r1.Raised? {
        AppliesStopped(st, name, [first], st1, r1, OfPatches(response.patches));
      } else {
        PatchesApply(expand, st1, name, r1.state, response.patches);
        var (st2, r2) := ApplyPatches(expand, st1, name, r1.state, response.patches);
        AppliesJoin(st, name, [first], st1, r1, OfPatches(response.patches), st2, r2);
      }
    }
  }

  lemma {:induction false} LoopLeads(expand: Item -> Digest, st: Memory, name: string, responses: seq<Response>)
    requires ResponsesFit(expand, st, name, responses)
    ensures Leads(st, name, Accepted(Sent(responses)), FetchLoop(expand, st, name, GetVersion(st, name), responses))
    decreases |responses|
  {
    if responses == [] {
      StaysLeads(st, name);
    } else {
      var first, rest := OfResponse(responses[0]), if responses[0].hasMore then Sent(responses[1..]) else [];
      ListApplies(expand, st, name, responses[0]);
      var (st1, r) := ApplyList(expand, st, name, GetVersion(st, name), responses[0].snapshot, responses[0].patches);
      AcceptedJoin(first, rest);
      if r.Advanced? {
        if responses[0].hasMore {
          LoopLeads(expand, st1, name, responses[1..]);
          LeadsJoin(st, name, first, st1, Accepted(rest), FetchLoop(expand, st1, name, r.state, responses[1..]));
        } else {
          assert first + Accepted(rest) == first;
        }
      }
    }
  }

  // ---- A whole fetch ----

  /** The map and the version that a fetch starts from. */
  function StartMap(st: Memory, c: Call): map<Item, Item> {
    if c.fullSync then map[] else Collection(st, c.name)
  }

  function StartVersion(st: Memory, c: Call): int {
    if c.fullSync then 0 else GetVersion(st, c.name).version
  }

  /** The collection was synced, and is to be left alone then. */
  predicate Skips(st: Memory, c: Call) {
    c.onlyIfNotSynced && StartVersion(st, c) != 0
  }

  lemma {:induction false} ClearedStart(st: Memory, c: Call)
    ensures Collection(Cleared(st, c), c.name) == StartMap(st, c) && GetVersion(Cleared(st, c), c.name).version == StartVersion(st, c)
  {
    if c.fullSync {
      assert Collection(Cleared(st, c), c.name) == map[];
    }
  }

  /** After a fetch whose changes fit, the collection is the replay of everything the server sent up to the end of
      its pages, or to the first snapshot or patch that was not accepted, from the stored map or under a full sync
      from the empty one; the cursor is at the last version applied.  A synced collection that is to be left alone
      stays as it was. */
  lemma {:induction false} FetchApplies(expand: Item -> Digest, st: Memory, c: Call)
    requires CallFits(expand, st, c)
    ensures var st', changes := Fetch(expand, st, c), if Skips(st, c) then [] else Accepted(Sent(c.responses));
            && Collection(st', c.name) == ReplayAll(StartMap(st, c), changes)
            && GetVersion(st', c.name).version == LastVersion(StartVersion(st, c), changes)
  {
    ClearedStart(st, c);
    LoopLeads(expand, Cleared(st, c), c.name, c.responses);
  }

  /** The responses have no influence exactly if the collection is skipped. */
  lemma {:induction false} IgnoredIff(expand: Item -> Digest, st: Memory, c: Call)
    ensures (forall responses :: Fetch(expand, st, c.(responses := responses)) == Fetch(expand, st, c.(responses := []))) <==> Skips(st, c)
  {
    ClearedStart(st, c);
    if !Skips(st, c) {
      var version := StartVersion(st, c) + 1;
      var patch := Patch(version, [], None);
      var c1, c0 := c.(responses := [Response(None, [patch], false)]), c.(responses := []);
      EmptyPatchFits(expand, Cleared(st, c), c.name, patch);
      FetchApplies(expand, st, c1);
      FetchApplies(expand, st, c0);
      SentOne(patch);
      assert Fetch(expand, st, c1) != Fetch(expand, st, c0);
    }
  }

  lemma {:induction false} SentOne(patch: Patch)
    requires patch.verdict.None?
    ensures Accepted(Sent([Response(None, [patch], false)])) == [OfPatch(patch)] && Accepted(Sent([])) == []
  {
    var response := Response(None, [patch], false);
    var none: seq<Change> := [];
    assert OfPatches([patch]) == [OfPatch(patch)];
    assert none + [OfPatch(patch)] == [OfPatch(patch)];
    assert OfResponse(response) == [OfPatch(patch)];
    assert [OfPatch(patch)] + none == [OfPatch(patch)];
    assert Sent([response]) == [OfPatch(patch)];
    AcceptedOne(OfPatch(patch));
  }

  lemma {:induction false} EmptyPatchFits(expand: Item -> Digest, st: Memory, name: string, patch: Patch)
    requires patch.mutations == []
    ensures ResponsesFit(expand, st, name, [Response(None, [patch], false)])
  {
    assert [patch][..0] == [];
    forall index
      ensures IndexFits(st, name, patch.version, [], index)
    {
    }
    assert PatchesFit(expand, st, name, GetVersion(st, name), [patch]);
  }

  // ---- Whole histories ----

  /** A collection as the server's changes define it: its map and its version. */
  datatype Replica = Replica(values: map<Item, Item>, version: int)

  function Started(r: Replica, c: Call): Replica {
    if c.fullSync then Replica(map[], 0) else r
  }

  /** What a fetch makes of it. */
  function Fetched(r: Replica, c: Call): Replica {
    var start, changes := Started(r, c), Accepted(Sent(c.responses));
    if c.onlyIfNotSynced && start.version != 0 then start
    else Replica(ReplayAll(start.values, changes), LastVersion(start.version, changes))
  }

  /** What the first `i` fetches make of the collection, which starts empty. */
  function ReplicaOf(calls: seq<Call>, i: nat, name: string): Replica
    requires i <= |calls|
  {
    if i == 0 then Replica(map[], 0)
    else
      var r := ReplicaOf(calls, i - 1, name);
      if calls[i - 1].name == name then Fetched(r, calls[i - 1]) else r
  }

  lemma {:induction false} LoopElsewhere(expand: Item -> Digest, st: Memory, name: string, state: HashState, responses: seq<Response>)
    ensures SameElsewhere(st, FetchLoop(expand, st, name, state, responses), name)
    decreases |responses|
  {
    if responses != [] {
      ListElsewhere(expand, st, name, state, responses[0].snapshot, responses[0].patches);
      var (st1, r) := ApplyList(expand, st, name, state, responses[0].snapshot, responses[0].patches);
      if r.Advanced? && responses[0].hasMore {
        LoopElsewhere(expand, st1, name, r.state, responses[1..]);
      }
    }
  }

  lemma {:induction false} FetchElsewhere(expand: Item -> Digest, st: Memory, c: Call)
    ensures SameElsewhere(st, Fetch(expand, st, c), c.name)
  {
    var st1 := Cleared(st, c);
    assert SameElsewhere(st, st1, c.name);
    LoopElsewhere(expand, st1, c.name, GetVersion(st1, c.name), c.responses);
  }

  function ReplicaIn(st: Memory, name: string): Replica {
    Replica(Collection(st, name), GetVersion(st, name).version)
  }

  lemma {:induction false} FetchReplica(expand: Item -> Digest, st: Memory, c: Call, st': Memory, name: string)
    requires CallFits(expand, st, c) && st' == Fetch(expand, st, c)
    ensures ReplicaIn(st', name) == if c.name == name then Fetched(ReplicaIn(st, name), c) else ReplicaIn(st, name)
  {
    if c.name == name {
      FetchApplies(expand, st, c);
    } else {
      FetchElsewhere(expand, st, c);
      SameCollection(st, st', c.name, name);
    }
  }

  /** After any sequence of fetches of any collections, failed or not, every collection and its version are what the
      accepted changes of its own fetches make of it. */
  lemma {:induction false} HistoryApplies(expand: Item -> Digest, states: seq<Memory>, calls: seq<Call>, i: nat, name: string)
    requires IsHistory(expand, states, calls) && i < |states|
    ensures ReplicaIn(states[i], name) == ReplicaOf(calls, i, name)
  {
    if i == 0 {
      assert Collection(EMPTY_MEMORY, name) == map[];
    } else {
      HistoryApplies(expand, states, calls, i - 1, name);
      assert FetchAt(expand, states, calls, i - 1);
      FetchReplica(expand, states[i - 1], calls[i - 1], states[i], name);
    }
  }
}
