/** Device addresses, the phone-number to LID map in its two implementations, and the migration of
    a Signal session between the two addresses of a device
    (src/pywhats/messaging/addressing.py, src/pywhats/signal/experimental/lid_map.py). */
module Addressing {
  import opened Outcomes

  datatype Jid = Jid(user: string, server: string, device: nat)

  /** Decimal digits, as `str` prints a non-negative integer. */
  function Decimal(n: nat): (s: string)
    ensures |s| >= 1
  {
    var digit := ['0' + (n % 10) as char];
    if n < 10 then digit else Decimal(n / 10) + digit
  }

  predicate IsDigit(c: char) {
    '0' <= c <= '9'
  }

  predicate IsDigits(s: string) {
    s != "" && forall i | 0 <= i < |s| :: IsDigit(s[i])
  }

  /** What `int` makes of decimal digits. */
  function Number(s: string): nat
    requires forall i | 0 <= i < |s| :: IsDigit(s[i])
    decreases |s|
  {
    if s == "" then 0 else assert IsDigit(s[|s| - 1]); 10 * Number(s[..|s| - 1]) + (s[|s| - 1] as int - '0' as int)
  }

  /** Printing a number gives digits, and reading them gives it back. */
  lemma {:induction false} DecimalBack(n: nat)
    ensures IsDigits(Decimal(n)) && Number(Decimal(n)) == n
  {
    var digit := ['0' + (n % 10) as char];
    if n < 10 {
      assert Decimal(n) == digit && digit[..0] == "";
    } else {
      DecimalBack(n / 10);
      assert Decimal(n)[..|Decimal(n)| - 1] == Decimal(n / 10);
    }
  }

  function SessionId(jid: Jid): string {
    jid.user + ":" + Decimal(jid.device) + "@" + jid.server
  }

  lemma {:induction false} CutAfter(x: string, y: string, x': string, y': string, c: char)
    requires x + [c] + y == x' + [c] + y'
    ensures |x| < |x'| ==> c in y
  {
    if |x| < |x'| {
      assert (x + [c] + y)[|x'|] == (x' + [c] + y')[|x'|];
      assert y[|x'| - |x| - 1] == c;
    }
  }

  /** Two ways of cutting one text at a character that the right-hand parts do not hold are one. */
  lemma {:induction false} LastCut(x: string, y: string, x': string, y': string, c: char)
    requires x + [c] + y == x' + [c] + y' && c !in y && c !in y'
    ensures x == x' && y == y'
  {
    var text := x + [c] + y;
    CutAfter(x, y, x', y', c);
    CutAfter(x', y', x, y, c);
    assert x == text[..|x|] && x' == text[..|x'|];
    assert y == text[|x| + 1..] && y' == text[|x'| + 1..];
  }

  /** Session ids tell addresses apart whose servers hold no '@', whatever the users hold. */
  lemma {:induction false} SessionIdInjective(a: Jid, b: Jid)
    requires '@' !in a.server && '@' !in b.server
    ensures SessionId(a) == SessionId(b) <==> a == b
  {
    if SessionId(a) == SessionId(b) {
      var x, y := a.user + ":" + Decimal(a.device), b.user + ":" + Decimal(b.device);
      assert x + ['@'] + a.server == SessionId(a) && y + ['@'] + b.server == SessionId(b);
      LastCut(x, a.server, y, b.server, '@');
      DecimalBack(a.device);
      DecimalBack(b.device);
      LastCut(a.user, Decimal(a.device), b.user, Decimal(b.device), ':');
    }
  }

  /** With an '@' in a server they need not. */
  lemma {:induction false} SessionIdsCollide()
    ensures SessionId(Jid("a", "b:2@c", 1)) == SessionId(Jid("a:1@b", "c", 2))
  {
    assert Decimal(1) == "1" && Decimal(2) == "2";
    assert SessionId(Jid("a", "b:2@c", 1)) == "a:1@b:2@c";
    assert SessionId(Jid("a:1@b", "c", 2)) == "a:1@b:2@c";
  }

  function Lookup<K, V>(m: map<K, V>, k: K): Option<V> {
    if k in m then Some(m[k]) else None
  }

  // ---- The bidirectional map ----

  datatype LidMap = LidMap(pnToLid: map<string, string>, lidToPn: map<string, string>)

  const EMPTY_LID_MAP := LidMap(map[], map[])

  function Put(m: LidMap, pn: string, lid: string): LidMap {
    var lidToPn := if pn in m.pnToLid && m.pnToLid[pn] != lid then m.lidToPn - {m.pnToLid[pn]} else m.lidToPn;
    var pnToLid := if lid in lidToPn && lidToPn[lid] != pn then m.pnToLid - {lidToPn[lid]} else m.pnToLid;
    LidMap(pnToLid[pn := lid], lidToPn[lid := pn])
  }

  /** Each map is the inverse of the other. */
  ghost predicate Inverse(m: LidMap) {
    && (forall pn | pn in m.pnToLid :: m.pnToLid[pn] in m.lidToPn && m.lidToPn[m.pnToLid[pn]] == pn)
    && (forall lid | lid in m.lidToPn :: m.lidToPn[lid] in m.pnToLid && m.pnToLid[m.lidToPn[lid]] == lid)
  }

  /** The `lid_map` table, by its primary key: delete every row that has either value, then insert. */
  function SqlPut(table: map<string, string>, pn: string, lid: string): map<string, string> {
    (map p | p in table && p != pn && table[p] != lid :: table[p])[pn := lid]
  }

  /** The row a `SELECT ... WHERE lid_user = ?` returns, if any. */
  ghost function SqlGetPn(table: map<string, string>, lid: string): Option<string> {
    if exists p :: p in table && table[p] == lid then
      var p :| p in table && table[p] == lid; Some(p)
    else None
  }

  datatype Pairing = Pairing(pn: string, lid: string)

  function PutAll(m: LidMap, pairings: seq<Pairing>): LidMap
    decreases |pairings|
  {
    if pairings == [] then m
    else var rest, last := pairings[..|pairings| - 1], pairings[|pairings| - 1];
         Put(PutAll(m, rest), last.pn, last.lid)
  }

  function SqlPutAll(table: map<string, string>, pairings: seq<Pairing>): map<string, string>
    decreases |pairings|
  {
    if pairings == [] then table
    else var rest, last := pairings[..|pairings| - 1], pairings[|pairings| - 1];
         SqlPut(SqlPutAll(table, rest), last.pn, last.lid)
  }

  lemma {:induction false} PutStep(m: LidMap, pn: string, lid: string)
    requires Inverse(m)
    ensures Inverse(Put(m, pn, lid)) && Put(m, pn, lid).pnToLid == SqlPut(m.pnToLid, pn, lid)
  {
  }

  /** A pairing replaces whatever either side was paired with, and nothing else. */
  lemma {:induction false} PutExactly(m: LidMap, pn: string, lid: string, p: string, l: string)
    requires Inverse(m)
    ensures Lookup(Put(m, pn, lid).pnToLid, p)
         == if p == pn then Some(lid) else if Lookup(m.pnToLid, p) == Some(lid) then None else Lookup(m.pnToLid, p)
    ensures Lookup(Put(m, pn, lid).lidToPn, l)
         == if l == lid then Some(pn) else if Lookup(m.lidToPn, l) == Some(pn) then None else Lookup(m.lidToPn, l)
  {
  }

  /** After any sequence of updates both directions agree with each other and with the SQL table. */
  lemma {:induction false} LidMapsAgree(pairings: seq<Pairing>)
    ensures var m, table := PutAll(EMPTY_LID_MAP, pairings), SqlPutAll(map[], pairings);
            && Inverse(m) && m.pnToLid == table
            && forall lid :: Lookup(m.lidToPn, lid) == SqlGetPn(table, lid)
    decreases |pairings|
  {
    if pairings != [] {
      var rest, last := pairings[..|pairings| - 1], pairings[|pairings| - 1];
      LidMapsAgree(rest);
      PutStep(PutAll(EMPTY_LID_MAP, rest), last.pn, last.lid);
    }
    var m := PutAll(EMPTY_LID_MAP, pairings);
    forall lid
      ensures Lookup(m.lidToPn, lid) == SqlGetPn(m.pnToLid, lid)
    {
      if lid in m.lidToPn {
        assert m.lidToPn[lid] in m.pnToLid;
      }
    }
  }

  class InMemoryLidMap {
    var pnToLid: map<string, string>
    var lidToPn: map<string, string>

    function View(): LidMap
      reads this
    {
      LidMap(pnToLid, lidToPn)
    }

    constructor ()
      ensures View() == EMPTY_LID_MAP
    {
      pnToLid, lidToPn := map[], map[];
    }

    method GetLid(pn: string) returns (r: Option<string>)
      ensures r == Lookup(View().pnToLid, pn)
    {
      r := Lookup(pnToLid, pn);
    }

    method GetPn(lid: string) returns (r: Option<string>)
      ensures r == Lookup(View().lidToPn, lid)
    {
      r := Lookup(lidToPn, lid);
    }

    method Set(pn: string, lid: string)
      modifies this
      ensures View() == Put(old(View()), pn, lid)
      ensures old(Inverse(View())) ==> Inverse(View())
    {
      if old(Inverse(View())) {
        PutStep(View(), pn, lid);
      }
      var oldLid := Lookup(pnToLid, pn);
      if oldLid.Some? && oldLid.value != lid {
        lidToPn := lidToPn - {oldLid.value};
      }
      var oldPn := Lookup(lidToPn, lid);
      if oldPn.Some? && oldPn.value != pn {
        pnToLid := pnToLid - {oldPn.value};
      }
      pnToLid := pnToLid[pn := lid];
      lidToPn := lidToPn[lid := pn];
    }
  }

  // ---- Migration ----

  /** Move the session at `from`, with its identity, to `to`; refuse if there is none or `to` is taken. */
  function Migrate<S, I>(sessions: map<string, S>, identities: map<string, I>, from: string, to: string)
    : (r: (map<string, S>, map<string, I>, bool))
  {
    if from !in sessions || to in sessions then (sessions, identities, false)
    else
      var moved := if from in identities then identities[to := identities[from]] else identities;
      (sessions[to := sessions[from]] - {from}, moved - {from}, true)
  }

  /** The values of a map, with repetition. */
  ghost function Values<K, V>(m: map<K, V>): multiset<V> {
    ValuesAt(m, m.Keys)
  }

  ghost function ValuesAt<K, V>(m: map<K, V>, keys: set<K>): multiset<V>
    requires keys <= m.Keys
  {
    if keys == {} then multiset{}
    else
      var k :| k in keys;
      multiset{m[k]} + ValuesAt(m, keys - {k})
  }

  lemma {:induction false} ValuesRemove<K, V>(m: map<K, V>, keys: set<K>, k: K)
    requires keys <= m.Keys && k in keys
    ensures ValuesAt(m, keys) == multiset{m[k]} + ValuesAt(m, keys - {k})
    decreases keys
  {
    var j :| j in keys && ValuesAt(m, keys) == multiset{m[j]} + ValuesAt(m, keys - {j});
    if j != k {
      ValuesRemove(m, keys - {j}, k);
      ValuesRemove(m, keys - {k}, j);
      assert keys - {j} - {k} == keys - {k} - {j};
    }
  }

  lemma {:induction false} ValuesAgree<K, V>(m: map<K, V>, m': map<K, V>, keys: set<K>)
    requires keys <= m.Keys && keys <= m'.Keys && forall k | k in keys :: m[k] == m'[k]
    ensures ValuesAt(m, keys) == ValuesAt(m', keys)
    decreases keys
  {
    if keys != {} {
      var k :| k in keys;
      ValuesRemove(m, keys, k);
      ValuesRemove(m', keys, k);
      ValuesAgree(m, m', keys - {k});
    }
  }

  lemma {:induction false} ValuesRename<K, V>(m: map<K, V>, from: K, to: K, m': map<K, V>)
    requires from in m && to !in m && m' == m[to := m[from]] - {from}
    ensures Values(m') == Values(m)
  {
    var others := m.Keys - {from};
    assert m'.Keys - {to} == others;
    ValuesRemove(m, m.Keys, from);
    ValuesRemove(m', m'.Keys, to);
    ValuesAgree(m, m', others);
  }

  /** A migration happens exactly when the alias has no session and the old address has one; no
      ratchet state is lost or copied. */
  lemma {:induction false} MigrateConserves<S, I>(sessions: map<string, S>, identities: map<string, I>, from: string, to: string)
    ensures Migrate(sessions, identities, from, to).2 <==> from in sessions && to !in sessions
    ensures Values(Migrate(sessions, identities, from, to).0) == Values(sessions)
  {
    if from in sessions && to !in sessions {
      ValuesRename(sessions, from, to, sessions[to := sessions[from]] - {from});
    }
  }

  /** A migrated session is at the alias with its identity and nothing is left at the old address;
      a refused one changes nothing. */
  lemma {:induction false} MigrateMoves<S, I>(sessions: map<string, S>, identities: map<string, I>, from: string, to: string)
    ensures var (sessions', identities', moved) := Migrate(sessions, identities, from, to);
            if !moved then sessions' == sessions && identities' == identities
            else
              && Lookup(sessions', to) == Lookup(sessions, from) && from !in sessions' && from !in identities'
              && (from in identities ==> Lookup(identities', to) == Lookup(identities, from))
  {
  }

  /** No other address is affected. */
  lemma {:induction false} MigrateFrame<S, I>(sessions: map<string, S>, identities: map<string, I>, from: string, to: string, k: string)
    requires k != from && k != to
    ensures var (sessions', identities', _) := Migrate(sessions, identities, from, to);
            Lookup(sessions', k) == Lookup(sessions, k) && Lookup(identities', k) == Lookup(identities, k)
  {
  }
}
