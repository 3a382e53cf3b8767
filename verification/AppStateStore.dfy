/** The two implementations of the app-state store: the in-memory dictionaries of
    src/pywhats/appstate/store.py and the tables of src/pywhats/signal/experimental/sqlite_store.py. */
module AppStateStore {
  import opened Outcomes
  import opened Addressing
  import opened Bytes
  import opened LtHash
  import opened Patches

  datatype HashState = HashState(version: int, hash: Digest)

  function EmptyState(): HashState {
    HashState(0, Zero())
  }

  // ---- In memory: one entry per index ----

  datatype MacKey = MacKey(name: string, index: Item)
  datatype Entry = Entry(version: int, value: Item)

  datatype Memory = Memory(versions: map<string, HashState>, macs: map<MacKey, Entry>)

  const EMPTY_MEMORY := Memory(map[], map[])

  function GetVersion(st: Memory, name: string): HashState {
    if name in st.versions then st.versions[name] else EmptyState()
  }

  function PutVersion(st: Memory, name: string, state: HashState): Memory {
    st.(versions := st.versions[name := state])
  }

  function DeleteVersion(st: Memory, name: string): Memory {
    Memory(st.versions - {name}, map k | k in st.macs && k.name != name :: st.macs[k])
  }

  function GetMac(st: Memory, name: string, index: Item): Option<Item> {
    if MacKey(name, index) in st.macs then Some(st.macs[MacKey(name, index)].value) else None
  }

  /** Keep the value with the highest version. */
  function PutMac(st: Memory, name: string, version: int, e: MacEntry): Memory {
    var key := MacKey(name, e.index);
    if key in st.macs && version < st.macs[key].version then st
    else st.(macs := st.macs[key := Entry(version, e.value)])
  }

  function PutMacs(st: Memory, name: string, version: int, macs: seq<MacEntry>): Memory
    decreases |macs|
  {
    if macs == [] then st
    else PutMac(PutMacs(st, name, version, macs[..|macs| - 1]), name, version, macs[|macs| - 1])
  }

  function DeleteMacs(st: Memory, name: string, indexes: seq<Item>): Memory {
    Memory(st.versions, map k | k in st.macs && !(k.name == name && k.index in indexes) :: st.macs[k])
  }

  class InMemoryAppStateStore {
    var versions: map<string, HashState>
    var macs: map<MacKey, Entry>

    function View(): Memory
      reads this
    {
      Memory(versions, macs)
    }

    constructor ()
      ensures View() == EMPTY_MEMORY
    {
      versions, macs := map[], map[];
    }

    method ReadVersion(name: string) returns (r: HashState)
      ensures r == GetVersion(View(), name)
    {
      r := if name in versions then versions[name] else EmptyState();
    }

    method WriteVersion(name: string, state: HashState)
      modifies this
      ensures View() == PutVersion(old(View()), name, state)
    {
      versions := versions[name := state];
    }

    method ClearVersion(name: string)
      modifies this
      ensures View() == DeleteVersion(old(View()), name)
    {
      versions := versions - {name};
      macs := map k | k in macs && k.name != name :: macs[k];
    }

    method WriteMacs(name: string, version: int, entries: seq<MacEntry>)
      modifies this
      ensures View() == PutMacs(old(View()), name, version, entries)
    {
      for i := 0 to |entries|
        invariant View() == PutMacs(old(View()), name, version, entries[..i])
      {
        assert entries[..i + 1][..i] == entries[..i];
        var key := MacKey(name, entries[i].index);
        if key !in macs || version >= macs[key].version {
          macs := macs[key := Entry(version, entries[i].value)];
        }
      }
      assert entries[..|entries|] == entries;
    }

    method ClearMacs(name: string, indexes: seq<Item>)
      modifies this
      ensures View() == DeleteMacs(old(View()), name, indexes)
    {
      for i := 0 to |indexes|
        invariant View() == DeleteMacs(old(View()), name, indexes[..i])
      {
        macs := macs - {MacKey(name, indexes[i])};
        assert View().macs == DeleteMacs(old(View()), name, indexes[..i + 1]).macs;
      }
      assert indexes[..|indexes|] == indexes;
    }
  }

  // ---- SQL: one row per version and index ----

  datatype RowKey = RowKey(name: string, version: int, index: Item)

  datatype Tables = Tables(versions: map<string, HashState>, rows: map<RowKey, Item>)

  const EMPTY_TABLES := Tables(map[], map[])

  function SqlPutMacs(t: Tables, name: string, version: int, macs: seq<MacEntry>): Tables
    decreases |macs|
  {
    if macs == [] then t
    else
      var t1 := SqlPutMacs(t, name, version, macs[..|macs| - 1]);
      t1.(rows := t1.rows[RowKey(name, version, macs[|macs| - 1].index) := macs[|macs| - 1].value])
  }

  function SqlDeleteMacs(t: Tables, name: string, indexes: seq<Item>): Tables {
    Tables(t.versions, map k | k in t.rows && !(k.name == name && k.index in indexes) :: t.rows[k])
  }

  function SqlDeleteVersion(t: Tables, name: string): Tables {
    Tables(t.versions - {name}, map k | k in t.rows && k.name != name :: t.rows[k])
  }

  ghost predicate IsNewest(t: Tables, name: string, index: Item, version: int) {
    && RowKey(name, version, index) in t.rows
    && forall k | k in t.rows && k.name == name && k.index == index :: k.version <= version
  }

  /** `ORDER BY version DESC LIMIT 1`. */
  ghost function SqlGetMac(t: Tables, name: string, index: Item): Option<Item> {
    if exists version :: IsNewest(t, name, index, version) then
      var version :| IsNewest(t, name, index, version);
      Some(t.rows[RowKey(name, version, index)])
    else None
  }

  // ---- They agree ----

  datatype Command =
    | PutVersionCmd(name: string, state: HashState)
    | DeleteVersionCmd(name: string)
    | PutMacsCmd(name: string, version: int, macs: seq<MacEntry>)
    | DeleteMacsCmd(name: string, indexes: seq<Item>)

  function MemoryDo(st: Memory, c: Command): Memory {
    match c
    case PutVersionCmd(name, state) => PutVersion(st, name, state)
    case DeleteVersionCmd(name) => DeleteVersion(st, name)
    case PutMacsCmd(name, version, macs) => PutMacs(st, name, version, macs)
    case DeleteMacsCmd(name, indexes) => DeleteMacs(st, name, indexes)
  }

  function SqlDo(t: Tables, c: Command): Tables {
    match c
    case PutVersionCmd(name, state) => t.(versions := t.versions[name := state])
    case DeleteVersionCmd(name) => SqlDeleteVersion(t, name)
    case PutMacsCmd(name, version, macs) => SqlPutMacs(t, name, version, macs)
    case DeleteMacsCmd(name, indexes) => SqlDeleteMacs(t, name, indexes)
  }

  function MemoryRun(commands: seq<Command>): Memory
    decreases |commands|
  {
    if commands == [] then EMPTY_MEMORY else MemoryDo(MemoryRun(commands[..|commands| - 1]), commands[|commands| - 1])
  }

  function SqlRun(commands: seq<Command>): Tables
    decreases |commands|
  {
    if commands == [] then EMPTY_TABLES else SqlDo(SqlRun(commands[..|commands| - 1]), commands[|commands| - 1])
  }

  /** The entry in memory is the newest of the rows. */
  ghost predicate Same(st: Memory, t: Tables) {
    && st.versions == t.versions
    && (forall k | k in st.macs :: && IsNewest(t, k.name, k.index, st.macs[k].version)
                                   && t.rows[RowKey(k.name, st.macs[k].version, k.index)] == st.macs[k].value)
    && (forall r | r in t.rows :: MacKey(r.name, r.index) in st.macs)
  }

  lemma {:induction false} PutSame(st: Memory, t: Tables, name: string, version: int, macs: seq<MacEntry>)
    requires Same(st, t)
    ensures Same(PutMacs(st, name, version, macs), SqlPutMacs(t, name, version, macs))
    decreases |macs|
  {
    if macs != [] {
      PutSame(st, t, name, version, macs[..|macs| - 1]);
    }
  }

  lemma {:induction false} RunSame(commands: seq<Command>)
    ensures Same(MemoryRun(commands), SqlRun(commands))
    decreases |commands|
  {
    if commands != [] {
      var rest, c := commands[..|commands| - 1], commands[|commands| - 1];
      RunSame(rest);
      if c.PutMacsCmd? {
        PutSame(MemoryRun(rest), SqlRun(rest), c.name, c.version, c.macs);
      }
    }
  }

  /** After any sequence of updates, at any versions, every read gives the same answer. */
  lemma {:induction false} StoresAgree(commands: seq<Command>, name: string, index: Item)
    ensures var st, t := MemoryRun(commands), SqlRun(commands);
            && GetMac(st, name, index) == SqlGetMac(t, name, index)
            && GetVersion(st, name) == (if name in t.versions then t.versions[name] else EmptyState())
  {
    RunSame(commands);
    var st, t := MemoryRun(commands), SqlRun(commands);
    var k := MacKey(name, index);
    if k in st.macs {
      assert IsNewest(t, k.name, k.index, st.macs[k].version);
    }
  }
}
