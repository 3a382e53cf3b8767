/** The imperative encoder and decoder: writers that append to one shared buffer, and a reader whose
    position advances, each proved to do what the functions of module Stanza say. */
module StanzaIo {
  import opened Sequences
  import opened Outcomes
  import opened Bytes
  import opened Addressing
  import opened Stanza
  import opened StanzaRoundTrip

  /** The buffer grew by exactly what the specification writes. */
  ghost predicate Wrote(before: seq<Byte>, after: seq<Byte>, done: bool, out: Option<seq<Byte>>) {
    done == out.Some? && (done ==> after == before + out.value)
  }

  /** What is still to be packed from position `i` on. */
  ghost function PackFrom(s: string, i: nat, alphabet: string): seq<Byte>
    requires i <= |s| && AlphabetOk(alphabet) && AllIn(s, alphabet)
  {
    if i == |s| then [] else assert AllIn(s[i..], alphabet); Pack(s[i..], alphabet)
  }

  lemma {:induction false} PackAt(s: string, i: nat, alphabet: string, hi: nat, lo: nat, next: seq<Byte>)
    requires i < |s| && AlphabetOk(alphabet) && AllIn(s, alphabet)
    requires hi == Symbol(alphabet, s[i]) && lo == if i + 1 < |s| then Symbol(alphabet, s[i + 1]) else 15
    requires next == PackFrom(s, if i + 1 < |s| then i + 2 else |s|, alphabet)
    ensures hi < 16 && lo < 16 && PackFrom(s, i, alphabet) == [16 * hi + lo] + next
  {
    var u := s[i..];
    assert AllIn(u, alphabet) && u[0] == s[i];
    if i + 1 < |s| {
      var v := s[i + 2..];
      assert u[2..] == v && u[1] == s[i + 1];
      assert v == "" || AllIn(v, alphabet);
      PackTwo(u, v, alphabet);
      assert next == Pack(v, alphabet);
    } else {
      SymbolBack(alphabet, s[i]);
      assert |u| == 1;
    }
  }

  lemma {:induction false} PackTwo(u: string, v: string, alphabet: string)
    requires |u| >= 2 && v == u[2..] && AlphabetOk(alphabet) && AllIn(u, alphabet) && (v == "" || AllIn(v, alphabet))
    ensures Symbol(alphabet, u[0]) < 16 && Symbol(alphabet, u[1]) < 16
    ensures Pack(u, alphabet) == [16 * Symbol(alphabet, u[0]) + Symbol(alphabet, u[1])] + Pack(v, alphabet)
  {
    SymbolBack(alphabet, u[0]);
    SymbolBack(alphabet, u[1]);
  }

  /** Appending a part and then the rest is appending both, and fails as soon as either does. */
  lemma {:induction false} WroteThen(b0: seq<Byte>, b1: seq<Byte>, b2: seq<Byte>, done: bool, first: Option<seq<Byte>>, second: Option<seq<Byte>>)
    requires Wrote(b0, b1, true, first) && Wrote(b1, b2, done, second)
    ensures Wrote(b0, b2, done, Then(first, second))
  {
  }

  lemma {:induction false} ThenRegroup(a: Option<seq<Byte>>, b: Option<seq<Byte>>, c: Option<seq<Byte>>)
    ensures Then(Then(a, b), c) == Then(a, Then(b, c))
  {
    if a.Some? && b.Some? && c.Some? {
      Associates(a.value, b.value, c.value);
    }
  }

  /** `rest` is what is still to be written of `all`. */
  ghost predicate Pending(before: seq<Byte>, now: seq<Byte>, all: Option<seq<Byte>>, rest: Option<seq<Byte>>) {
    all.Some? == rest.Some? && (all.Some? ==> before + all.value == now + rest.value)
  }

  lemma {:induction false} PendingStep(before: seq<Byte>, b0: seq<Byte>, b1: seq<Byte>, all: Option<seq<Byte>>, part: Option<seq<Byte>>, rest: Option<seq<Byte>>)
    requires Pending(before, b0, all, Then(part, rest)) && Wrote(b0, b1, true, part)
    ensures Pending(before, b1, all, rest)
  {
    if rest.Some? {
      Associates(b0, part.value, rest.value);
    }
  }

  lemma {:induction false} AttrsAt(t: Tables, attrs: seq<Attr>, i: nat)
    requires TablesOk(t) && i < |attrs|
    ensures WriteAttrs(t, attrs[i..])
         == Then(Then(WriteString(t, attrs[i].name), WriteValue(t, attrs[i].value)), WriteAttrs(t, attrs[i + 1..]))
  {
    assert attrs[i..][1..] == attrs[i + 1..];
  }

  lemma {:induction false} PendingAttr(t: Tables, attrs: seq<Attr>, i: nat, before: seq<Byte>, b0: seq<Byte>, b1: seq<Byte>,
                                       all: Option<seq<Byte>>)
    requires TablesOk(t) && i < |attrs| && Pending(before, b0, all, WriteAttrs(t, attrs[i..]))
    requires Wrote(b0, b1, true, Then(WriteString(t, attrs[i].name), WriteValue(t, attrs[i].value)))
    ensures Pending(before, b1, all, WriteAttrs(t, attrs[i + 1..]))
  {
    AttrsAt(t, attrs, i);
    PendingStep(before, b0, b1, all, Then(WriteString(t, attrs[i].name), WriteValue(t, attrs[i].value)), WriteAttrs(t, attrs[i + 1..]));
  }

  lemma {:induction false} PendingFailed(t: Tables, attrs: seq<Attr>, i: nat, before: seq<Byte>, b0: seq<Byte>, b1: seq<Byte>,
                                         all: Option<seq<Byte>>)
    requires TablesOk(t) && i < |attrs| && Pending(before, b0, all, WriteAttrs(t, attrs[i..]))
    requires Wrote(b0, b1, false, Then(WriteString(t, attrs[i].name), WriteValue(t, attrs[i].value)))
    ensures all.None?
  {
    AttrsAt(t, attrs, i);
  }

  function WriteUser(t: Tables, user: string): Option<seq<Byte>>
    requires TablesOk(t)
  {
    if user != "" then WriteString(t, user) else Some([LIST_EMPTY])
  }

  /** Every method returns false where the encoder raises. */
  class Writer {
    const t: Tables
    var buf: seq<Byte>

    constructor (t: Tables)
      ensures this.t == t && buf == []
    {
      this.t := t;
      buf := [];
    }

    method PutListHeader(count: nat) returns (done: bool)
      modifies this
      ensures Wrote(old(buf), buf, done, ListHeader(count))
    {
      if count == 0 {
        buf := buf + [LIST_EMPTY];
      } else if count < 256 {
        buf := buf + [LIST_8];
        buf := buf + [count];
      } else if count < 0x1_0000 {
        buf := buf + [LIST_16];
        buf := buf + [count / 256, count % 256];
      } else {
        return false;
      }
      done := true;
    }

    method PutBytes(data: seq<Byte>) returns (done: bool)
      modifies this
      ensures Wrote(old(buf), buf, done, WriteBytes(data))
    {
      var n := |data|;
      if n < 0x100 {
        buf := buf + [BINARY_8, n];
      } else if n < 0x10_0000 {
        buf := buf + [BINARY_20, n / 0x1_0000, n / 0x100 % 0x100, n % 0x100];
      } else if n < 0x1_0000_0000 {
        buf := buf + [BINARY_32, n / 0x100_0000, n / 0x1_0000 % 0x100, n / 0x100 % 0x100, n % 0x100];
      } else {
        return false;
      }
      buf := buf + data;
      done := true;
    }

    method PutPacked(s: string, tag: Byte, alphabet: string) returns (done: bool)
      requires AlphabetOk(alphabet) && AllIn(s, alphabet)
      modifies this
      ensures Wrote(old(buf), buf, done, WritePacked(s, tag, alphabet))
    {
      var n := |s|;
      var length := (n + 1) / 2;
      if length >= 0x80 {
        return false;
      }
      var header: seq<Byte> := [tag, (if n % 2 == 1 then 0x80 else 0) + length];
      Associates(buf, header, Pack(s, alphabet));
      buf := buf + header;
      PutSymbols(s, alphabet);
      done := true;
    }

    /** Two symbols a byte; an odd last one is filled up with ones. */
    method PutSymbols(s: string, alphabet: string)
      requires AlphabetOk(alphabet) && AllIn(s, alphabet)
      modifies this
      ensures buf == old(buf) + Pack(s, alphabet)
    {
      var i := 0;
      ghost var left := Pack(s, alphabet);
      assert s[0..] == s;
      while i < |s|
        invariant 0 <= i <= |s| && left == PackFrom(s, i, alphabet)
        invariant buf + left == old(buf) + Pack(s, alphabet)
      {
        var hi, lo := Symbol(alphabet, s[i]), 0x0F;
        if i + 1 < |s| {
          lo := Symbol(alphabet, s[i + 1]);
        }
        ghost var next := PackFrom(s, if i + 1 < |s| then i + 2 else |s|, alphabet);
        PackAt(s, i, alphabet, hi, lo, next);
        Associates(buf, [16 * hi + lo], next);
        buf, left := buf + [16 * hi + lo], next;
        i := if i + 1 < |s| then i + 2 else |s|;
      }
      assert left == [] && buf + [] == buf;
    }

    method PutString(s: string) returns (done: bool)
      requires TablesOk(t)
      modifies this
      ensures Wrote(old(buf), buf, done, WriteString(t, s))
      decreases |s|, 0
    {
      if s == "" {
        buf := buf + [BINARY_8, 0];
        return true;
      }
      var single := LookupSingle(t, s);
      if single.Some? {
        buf := buf + [single.value];
        return true;
      }
      var double := LookupDouble(t, s, 0);
      if double.Some? {
        var (dict, slot) := double.value;
        buf := buf + [DICTIONARY_0 + dict, slot];
        return true;
      }
      if '@' in s {
        done := PutJid(ParseJid(s));
        return;
      }
      AlphabetsOk();
      if AllIn(s, NIBBLE_ALPHABET) {
        done := PutPacked(s, NIBBLE_8, NIBBLE_ALPHABET);
      } else if AllIn(s, HEX_ALPHABET) {
        done := PutPacked(s, HEX_8, HEX_ALPHABET);
      } else {
        done := PutBytes(t.encode(s));
      }
    }

    method PutJid(jid: Jid) returns (done: bool)
      requires TablesOk(t)
      modifies this
      ensures Wrote(old(buf), buf, done, WriteJid(t, jid))
      decreases Max(|jid.user|, |jid.server|), 2
    {
      if jid.device != 0 {
        ghost var head: seq<Byte> := [AD_JID, ServerToAgent(jid.server), jid.device % 256];
        buf := buf + [AD_JID, ServerToAgent(jid.server), jid.device % 256];
        ghost var b1 := buf;
        done := PutString(jid.user);
        WroteThen(old(buf), b1, buf, done, Some(head), WriteString(t, jid.user));
        return;
      }
      buf := buf + [JID_PAIR];
      ghost var b1 := buf;
      done := PutUser(jid.user);
      if !done {
        return;
      }
      ghost var b2 := buf;
      done := PutString(jid.server);
      WroteThen(b1, b2, buf, done, WriteUser(t, jid.user), WriteString(t, jid.server));
      WroteThen(old(buf), b1, buf, done, Some([JID_PAIR]), Then(WriteUser(t, jid.user), WriteString(t, jid.server)));
    }

    method PutUser(user: string) returns (done: bool)
      requires TablesOk(t)
      modifies this
      ensures Wrote(old(buf), buf, done, WriteUser(t, user))
      decreases |user|, 1
    {
      if user != "" {
        done := PutString(user);
      } else {
        buf := buf + [LIST_EMPTY];
        done := true;
      }
    }

    method PutValue(v: Value) returns (done: bool)
      requires TablesOk(t)
      modifies this
      ensures Wrote(old(buf), buf, done, WriteValue(t, v))
    {
      match v
      case JidValue(jid) => done := PutJid(jid);
      case BoolValue(b) => done := PutString(BoolText(b));
      case IntValue(n) => done := PutString(IntText(n));
      case BytesValue(b) => done := PutBytes(b);
      case StrValue(s) => done := PutString(s);
    }

    method PutAttrs(attrs: seq<Attr>) returns (done: bool)
      requires TablesOk(t)
      modifies this
      ensures Wrote(old(buf), buf, done, WriteAttrs(t, attrs))
    {
      var i := 0;
      ghost var all := WriteAttrs(t, attrs);
      while i < |attrs|
        invariant 0 <= i <= |attrs|
        invariant Pending(old(buf), buf, all, WriteAttrs(t, attrs[i..]))
      {
        ghost var b0 := buf;
        done := PutAttr(attrs[i]);
        if !done {
          PendingFailed(t, attrs, i, old(buf), b0, buf, all);
          return;
        }
        PendingAttr(t, attrs, i, old(buf), b0, buf, all);
        i := i + 1;
      }
      done := true;
    }

    method PutAttr(a: Attr) returns (done: bool)
      requires TablesOk(t)
      modifies this
      ensures Wrote(old(buf), buf, done, Then(WriteString(t, a.name), WriteValue(t, a.value)))
    {
      done := PutString(a.name);
      if done {
        ghost var b1 := buf;
        done := PutValue(a.value);
        WroteThen(old(buf), b1, buf, done, WriteString(t, a.name), WriteValue(t, a.value));
      }
    }

    method PutNode(node: Node) returns (done: bool)
      requires TablesOk(t)
      modifies this
      ensures Wrote(old(buf), buf, done, WriteNode(t, node))
      decreases node, 1
    {
      done := PutListHeader(ItemCount(node));
      if done {
        ghost var b1 := buf;
        done := PutHead(node);
        if done {
          ghost var b2 := buf;
          if !node.content.NoContent? {
            done := PutContent(node.content);
          }
          WroteThen(b1, b2, buf, done, Then(WriteString(t, node.tag), WriteAttrs(t, node.attrs)), WriteContent(t, node.content));
          ThenRegroup(WriteString(t, node.tag), WriteAttrs(t, node.attrs), WriteContent(t, node.content));
          WroteThen(old(buf), b1, buf, done, ListHeader(ItemCount(node)),
                    Then(WriteString(t, node.tag), Then(WriteAttrs(t, node.attrs), WriteContent(t, node.content))));
        }
      }
    }

    /** The tag and the attributes. */
    method PutHead(node: Node) returns (done: bool)
      requires TablesOk(t)
      modifies this
      ensures Wrote(old(buf), buf, done, Then(WriteString(t, node.tag), WriteAttrs(t, node.attrs)))
    {
      done := PutString(node.tag);
      if done {
        ghost var b1 := buf;
        done := PutAttrs(node.attrs);
        WroteThen(old(buf), b1, buf, done, WriteString(t, node.tag), WriteAttrs(t, node.attrs));
      }
    }

    method PutContent(content: Content) returns (done: bool)
      requires TablesOk(t)
      modifies this
      ensures Wrote(old(buf), buf, done, WriteContent(t, content))
      decreases content, 1
    {
      match content
      case NoContent => done := true;
      case Data(data) => done := PutBytes(data);
      case Text(s) => done := PutString(s);
      case Children(nodes) =>
        done := PutListHeader(|nodes|);
        if done {
          done := PutNodes(nodes);
        }
    }

    method PutNodes(nodes: seq<Node>) returns (done: bool)
      requires TablesOk(t)
      modifies this
      ensures Wrote(old(buf), buf, done, WriteNodes(t, nodes))
      decreases nodes, 0
    {
      if nodes == [] {
        return true;
      }
      done := PutNode(nodes[0]);
      if done {
        done := PutNodes(nodes[1..]);
      }
    }
  }

  // ---- Reading ----

  /** The reader stands where the specification's parse ends, with its value; where the parse fails,
      so did the reader. */
  ghost predicate Reads<T>(b: seq<Byte>, pos: nat, got: Option<T>, p: Parse<T>) {
    pos <= |b| && got.Some? == p.Got? && (p.Got? ==> got.value == p.value && b[pos..] == p.rest)
  }

  lemma {:induction false} Suffixes(b: seq<Byte>, i: nat, j: nat)
    requires i + j <= |b|
    ensures b[i..][j..] == b[i + j..] && b[i..][..j] == b[i..i + j]
  {
  }

  /** Every method returns None where the decoder raises. */
  class Reader {
    const t: Tables
    const buf: seq<Byte>
    var pos: nat

    constructor (t: Tables, buf: seq<Byte>)
      ensures this.t == t && this.buf == buf && pos == 0
    {
      this.t := t;
      this.buf := buf;
      pos := 0;
    }

    predicate Valid()
      reads this
    {
      pos <= |buf|
    }

    method U8() returns (r: Option<Byte>)
      requires Valid()
      modifies this
      ensures Valid() && old(pos) <= pos && Reads(buf, pos, r, ReadByte(buf[old(pos)..]))
      ensures r.Some? ==> pos == old(pos) + 1 && r.value == buf[old(pos)]
    {
      if pos >= |buf| {
        return None;
      }
      r := Some(buf[pos]);
      Suffixes(buf, pos, 1);
      pos := pos + 1;
    }

    method Read(n: nat) returns (r: Option<seq<Byte>>)
      requires Valid()
      modifies this
      ensures Valid() && old(pos) <= pos && Reads(buf, pos, r, ReadBytes(buf[old(pos)..], n))
    {
      if pos + n > |buf| {
        return None;
      }
      r := Some(buf[pos..pos + n]);
      Suffixes(buf, pos, n);
      pos := pos + n;
    }

    method ListSize(tag: Byte) returns (r: Option<nat>)
      requires Valid()
      modifies this
      ensures Valid() && old(pos) <= pos && Reads(buf, pos, r, ReadListSize(buf[old(pos)..], tag))
    {
      ghost var start := pos;
      if tag == LIST_EMPTY {
        return Some(0);
      }
      if tag == LIST_8 {
        var n := U8();
        return if n.None? then None else Some(n.value);
      }
      if tag == LIST_16 {
        var hi := U8();
        if hi.None? {
          return None;
        }
        var lo := U8();
        if lo.None? {
          return None;
        }
        Suffixes(buf, start, 2);
        return Some(256 * (hi.value as int) + lo.value as int);
      }
      return None;
    }

    method Packed(alphabet: string) returns (r: Option<string>)
      requires Valid() && |alphabet| >= 16
      modifies this
      ensures Valid() && old(pos) <= pos && Reads(buf, pos, r, ReadPacked(buf[old(pos)..], alphabet))
    {
      var header := U8();
      if header.None? {
        return None;
      }
      r := Symbols(header.value % 0x80, header.value >= 0x80, alphabet);
    }

    /** The half bytes one by one; of an odd string the last one is dropped. */
    method Symbols(n: nat, odd: bool, alphabet: string) returns (r: Option<string>)
      requires Valid() && |alphabet| >= 16
      modifies this
      ensures Valid() && old(pos) <= pos
      ensures Reads(buf, pos, r, Unpacked(ReadBytes(buf[old(pos)..], n), odd, alphabet))
    {
      ghost var start, end := pos, pos + n;
      var out := "";
      var i := 0;
      while i < n
        invariant 0 <= i <= n && pos == start + i <= |buf| && end == start + n
        invariant Unpacking(buf, start, pos, end, odd, alphabet, out)
      {
        var b := U8();
        if b.None? {
          return None;
        }
        var more := HalfBytes(b.value, odd && i == n - 1, alphabet);
        UnpackAt(buf, start, start + i, end, odd, alphabet, out, more);
        out := out + more;
        i := i + 1;
      }
      UnpackDone(buf, start, n, odd, alphabet, out);
      r := Some(out);
    }

    method Payload(tag: Byte) returns (r: Option<seq<Byte>>)
      requires Valid()
      modifies this
      ensures Valid() && old(pos) <= pos && Reads(buf, pos, r, ReadPayload(t, buf[old(pos)..], tag))
    {
      ghost var start := pos;
      if tag == BINARY_8 {
        var n := U8();
        if n.None? {
          return None;
        }
        r := Read(n.value);
      } else if tag == BINARY_20 {
        var digits := Read(3);
        if digits.None? {
          return None;
        }
        var d := digits.value;
        Digits3(d[0] % 16, d[1], d[2]);
        r := Read(0x1_0000 * (d[0] as int % 16) + 0x100 * (d[1] as int) + d[2] as int);
      } else if tag == BINARY_32 {
        var digits := Read(4);
        if digits.None? {
          return None;
        }
        r := Read(Weighted(digits.value));
      } else if tag == NIBBLE_8 {
        var s := Packed(NIBBLE_ALPHABET);
        r := if s.None? then None else Some(t.encode(s.value));
      } else if tag == HEX_8 {
        var s := Packed(HEX_ALPHABET);
        r := if s.None? then None else Some(t.encode(s.value));
      } else {
        r := None;
      }
    }

    method Tagged(tag: Byte) returns (r: Option<string>)
      requires Valid()
      modifies this
      ensures Valid() && old(pos) <= pos && Reads(buf, pos, r, ReadTagged(t, buf[old(pos)..], tag))
    {
      if tag == 0 {
        r := Some("");
      } else if tag <= 235 {
        r := SingleAt(t, tag);
      } else if tag <= DICTIONARY_3 {
        var i := U8();
        r := if i.None? then None else DoubleAt(t, tag - DICTIONARY_0, i.value);
      } else {
        var data := Payload(tag);
        r := if data.None? then None else t.decode(data.value);
      }
    }

    method Str() returns (r: Option<string>)
      requires Valid()
      modifies this
      ensures Valid() && old(pos) <= pos && Reads(buf, pos, r, ReadString(t, buf[old(pos)..]))
    {
      var tag := U8();
      if tag.None? {
        return None;
      }
      r := Tagged(tag.value);
    }

    method JidPair() returns (r: Option<Jid>)
      requires Valid()
      modifies this
      ensures Valid() && old(pos) <= pos && Reads(buf, pos, r, ReadJidPair(t, buf[old(pos)..]))
    {
      var peek := U8();
      if peek.None? {
        return None;
      }
      var user := Some("");
      if peek.value != LIST_EMPTY {
        user := Tagged(peek.value);
        if user.None? {
          return None;
        }
      }
      var server := Str();
      r := if server.None? then None else Some(Jid(user.value, server.value, 0));
    }

    method AdJid() returns (r: Option<Jid>)
      requires Valid()
      modifies this
      ensures Valid() && old(pos) <= pos && Reads(buf, pos, r, ReadAdJid(t, buf[old(pos)..]))
    {
      ghost var start := pos;
      var agent := U8();
      if agent.None? {
        return None;
      }
      var device := U8();
      if device.None? {
        return None;
      }
      Suffixes(buf, start, 2);
      var user := Str();
      r := if user.None? then None else Some(Jid(user.value, AgentToServer(agent.value), device.value));
    }

    method AttrValue() returns (r: Option<Value>)
      requires Valid()
      modifies this
      ensures Valid() && old(pos) <= pos && Reads(buf, pos, r, ReadValue(t, buf[old(pos)..]))
    {
      var tag := U8();
      if tag.None? {
        return None;
      }
      if tag.value == JID_PAIR {
        var jid := JidPair();
        r := if jid.None? then None else Some(JidValue(jid.value));
      } else if tag.value == AD_JID {
        var jid := AdJid();
        r := if jid.None? then None else Some(JidValue(jid.value));
      } else {
        var s := Tagged(tag.value);
        r := if s.None? then None else Some(StrValue(s.value));
      }
    }

    method OneAttr() returns (r: Option<Attr>)
      requires Valid()
      modifies this
      ensures Valid() && old(pos) <= pos && Reads(buf, pos, r, ReadAttr(t, buf[old(pos)..]))
    {
      var name := Str();
      if name.None? {
        return None;
      }
      var value := AttrValue();
      r := if value.None? then None else Some(Attr(name.value, value.value));
    }

    method Attrs(n: nat) returns (r: Option<seq<Attr>>)
      requires Valid()
      modifies this
      ensures Valid() && old(pos) <= pos && Reads(buf, pos, r, ReadAttrs(t, buf[old(pos)..], n, []))
    {
      var attrs: seq<Attr> := [];
      ghost var left, all := n, ReadAttrs(t, buf[pos..], n, attrs);
      var i := 0;
      while i < n
        invariant 0 <= i <= n && old(pos) <= pos <= |buf|
        invariant left == n - i && ReadAttrs(t, buf[pos..], left, attrs) == all
      {
        ghost var at := pos;
        var a := OneAttr();
        ReadAttrsStep(t, buf, at, pos, left, attrs, a, all);
        if a.None? {
          return None;
        }
        attrs, left := PutAttr(attrs, a.value), left - 1;
        i := i + 1;
      }
      r := Some(attrs);
    }

    method Tree() returns (r: Option<Node>)
      requires Valid()
      modifies this
      ensures Valid() && old(pos) <= pos && Reads(buf, pos, r, ReadNode(t, buf[old(pos)..]))
      decreases |buf| - pos, 0
    {
      NodeIs(t, buf[pos..]);
      var listTag := U8();
      if listTag.None? {
        return None;
      }
      var count := ListSize(listTag.value);
      if count.None? || count.value == 0 {
        return None;
      }
      r := Named(count.value);
    }

    method Named(count: nat) returns (r: Option<Node>)
      requires Valid() && count > 0
      modifies this
      ensures Valid() && old(pos) <= pos && Reads(buf, pos, r, ReadNamed(t, buf[old(pos)..], count))
      decreases |buf| - pos, 3
    {
      var tag := Str();
      if tag.None? {
        return None;
      }
      var attrs := Attrs((count - 1) / 2);
      if attrs.None? {
        return None;
      }
      if count % 2 == 1 {
        return Some(Node(tag.value, attrs.value, NoContent));
      }
      var content := Body();
      r := if content.None? then None else Some(Node(tag.value, attrs.value, content.value));
    }

    method Body() returns (r: Option<Content>)
      requires Valid()
      modifies this
      ensures Valid() && old(pos) <= pos && Reads(buf, pos, r, ReadContent(t, buf[old(pos)..]))
      decreases |buf| - pos, 2
    {
      var tag := U8();
      if tag.None? {
        return None;
      }
      if tag.value == LIST_EMPTY || tag.value == LIST_8 || tag.value == LIST_16 {
        var n := ListSize(tag.value);
        if n.None? {
          return None;
        }
        var nodes := Trees(n.value);
        r := if nodes.None? then None else Some(Children(nodes.value));
      } else {
        var data := Payload(tag.value);
        r := if data.None? then None else Some(Data(data.value));
      }
    }

    method Trees(n: nat) returns (r: Option<seq<Node>>)
      requires Valid()
      modifies this
      ensures Valid() && old(pos) <= pos && Reads(buf, pos, r, ReadNodes(t, buf[old(pos)..], n))
      decreases |buf| - pos, 1, n
    {
      ghost var p0 := pos;
      if n == 0 {
        r := Some([]);
        NodesNone(t, buf, p0);
      } else {
        var first := Tree();
        ghost var p1 := pos;
        if first.None? {
          r := None;
          NodesFail(t, buf, p0, p1, n, first);
        } else {
          Consumed(t, buf, p0, p1, first);
          r := MoreTrees(n - 1, first.value, p0);
        }
      }
    }

    /** The others, after the first node, which was read from `p0`. */
    method MoreTrees(n: nat, first: Node, ghost p0: nat) returns (r: Option<seq<Node>>)
      requires Valid() && p0 < pos && Reads(buf, pos, Some(first), ReadNode(t, buf[p0..]))
      modifies this
      ensures Valid() && old(pos) <= pos && Reads(buf, pos, r, ReadNodes(t, buf[p0..], n + 1))
      decreases |buf| - pos, 4, n
    {
      ghost var p1 := pos;
      var others := Trees(n);
      r := if others.None? then None else Some([first] + others.value);
      NodesJoin(t, buf, p0, p1, pos, n + 1, Some(first), others);
    }
  }

  method Encode(t: Tables, z: Zlib, node: Node, compress: bool) returns (r: Option<seq<Byte>>)
    requires TablesOk(t)
    ensures r == EncodeFrame(t, z, node, compress)
  {
    var w := new Writer(t);
    var done := w.PutNode(node);
    if !done {
      return None;
    }
    ghost var out := WriteNode(t, node).value;
    assert [] + out == out;
    var flags: Byte, payload := 0, w.buf;
    if compress {
      flags := 2;
      payload := z.compress(payload);
    }
    r := Some([flags] + payload);
  }

  method Decode(t: Tables, z: Zlib, frame: seq<Byte>) returns (r: Option<Node>)
    ensures r == DecodeFrame(t, z, frame)
  {
    if frame == [] {
      return None;
    }
    var payload := Some(frame[1..]);
    if frame[0] / 2 % 2 == 1 {
      payload := z.decompress(frame[1..]);
    }
    if payload.None? {
      return None;
    }
    var reader := new Reader(t, payload.value);
    assert payload.value[0..] == payload.value;
    r := reader.Tree();
  }

  lemma {:induction false} Digits3(a: Byte, b: Byte, c: Byte)
    ensures Weighted([a, b, c]) == 0x1_0000 * (a as int) + 0x100 * (b as int) + c as int
  {
    Weighted3(a, b, c);
  }

  /** A node after its list header. */
  function ReadNamed(t: Tables, b: seq<Byte>, count: nat): Parse<Node>
    requires count > 0
  {
    var tag := ReadString(t, b);
    if tag.Fail? then Fail
    else
      var attrs := ReadAttrs(t, tag.rest, (count - 1) / 2, []);
      if attrs.Fail? then Fail
      else if count % 2 == 1 then Got(Node(tag.value, attrs.value, NoContent), attrs.rest)
      else
        var content := ReadContent(t, attrs.rest);
        if content.Fail? then Fail else Got(Node(tag.value, attrs.value, content.value), content.rest)
  }

  lemma {:induction false} NodeIs(t: Tables, b: seq<Byte>)
    ensures b == [] ==> ReadNode(t, b).Fail?
    ensures b != [] ==> var count := ReadListSize(b[1..], b[0]);
                        ReadNode(t, b) == if count.Fail? || count.value == 0 then Fail else ReadNamed(t, count.rest, count.value)
  {
  }

  lemma {:induction false} NodesNone(t: Tables, b: seq<Byte>, p: nat)
    requires p <= |b|
    ensures Reads(b, p, Some([]), ReadNodes(t, b[p..], 0))
  {
  }

  lemma {:induction false} Consumed(t: Tables, b: seq<Byte>, p0: nat, p1: nat, first: Option<Node>)
    requires p0 <= |b| && Reads(b, p1, first, ReadNode(t, b[p0..])) && first.Some?
    ensures p0 + 3 <= p1
  {
    assert |b[p1..]| + 3 <= |b[p0..]|;
  }

  lemma {:induction false} NodesFail(t: Tables, b: seq<Byte>, p0: nat, p1: nat, n: nat, first: Option<Node>)
    requires n > 0 && p0 <= |b| && Reads(b, p1, first, ReadNode(t, b[p0..])) && first.None?
    ensures ReadNodes(t, b[p0..], n).Fail?
  {
  }

  lemma {:induction false} NodesJoin(t: Tables, b: seq<Byte>, p0: nat, p1: nat, p2: nat, n: nat, first: Option<Node>, others: Option<seq<Node>>)
    requires n > 0 && p0 <= |b| && p1 <= |b| && Reads(b, p1, first, ReadNode(t, b[p0..])) && first.Some?
    requires Reads(b, p2, others, ReadNodes(t, b[p1..], n - 1))
    ensures Reads(b, p2, if others.None? then None else Some([first.value] + others.value), ReadNodes(t, b[p0..], n))
  {
    NodesAre(t, b[p0..], n, ReadNode(t, b[p0..]));
  }

  lemma {:induction false} NodesAre(t: Tables, b: seq<Byte>, n: nat, first: Parse<Node>)
    requires n > 0 && first == ReadNode(t, b) && first.Got?
    ensures var others := ReadNodes(t, first.rest, n - 1);
            ReadNodes(t, b, n) == if others.Fail? then Fail else Got([first.value] + others.value, others.rest)
  {
  }

  /** One name and value. */
  function ReadAttr(t: Tables, b: seq<Byte>): Parse<Attr> {
    var name := ReadString(t, b);
    if name.Fail? then Fail
    else
      var value := ReadValue(t, name.rest);
      if value.Fail? then Fail else Got(Attr(name.value, value.value), value.rest)
  }

  lemma {:induction false} ReadAttrsStep(t: Tables, b: seq<Byte>, p: nat, q: nat, n: nat, attrs: seq<Attr>, a: Option<Attr>, all: Parse<seq<Attr>>)
    requires n > 0 && p <= |b| && Reads(b, q, a, ReadAttr(t, b[p..])) && ReadAttrs(t, b[p..], n, attrs) == all
    ensures if a.None? then all.Fail? else ReadAttrs(t, b[q..], n - 1, PutAttr(attrs, a.value)) == all
  {
  }

  function Unpacked(p: Parse<seq<Byte>>, odd: bool, alphabet: string): Parse<string>
    requires |alphabet| >= 16
  {
    if p.Fail? then Fail else Got(Unpack(p.value, odd, alphabet), p.rest)
  }

  /** What has come out so far and what is still packed make up the whole, if it is all there. */
  ghost predicate Unpacking(b: seq<Byte>, start: nat, p: nat, end: nat, odd: bool, alphabet: string, out: string)
    requires |alphabet| >= 16
  {
    start <= p <= end <= |b| ==> out + Unpack(b[p..end], odd, alphabet) == Unpack(b[start..end], odd, alphabet)
  }

  /** The one or two symbols of a byte. */
  function HalfBytes(b: Byte, last: bool, alphabet: string): string
    requires |alphabet| >= 16
  {
    [alphabet[b / 16]] + if last then [] else [alphabet[b % 16]]
  }

  lemma {:induction false} UnpackAt(b: seq<Byte>, start: nat, p: nat, end: nat, odd: bool, alphabet: string, out: string, more: string)
    requires start <= p < |b| && p < end && |alphabet| >= 16
    requires more == HalfBytes(b[p], odd && p + 1 == end, alphabet)
    requires Unpacking(b, start, p, end, odd, alphabet, out)
    ensures Unpacking(b, start, p + 1, end, odd, alphabet, out + more)
  {
    if end <= |b| {
      var data, rest := b[p..end], b[p + 1..end];
      assert data[1..] == rest;
      UnpackFirst(data, rest, odd, alphabet);
      Associates(out, more, Unpack(rest, odd, alphabet));
    }
  }

  lemma {:induction false} UnpackFirst(data: seq<Byte>, rest: seq<Byte>, odd: bool, alphabet: string)
    requires data != [] && rest == data[1..] && |alphabet| >= 16
    ensures Unpack(data, odd, alphabet) == HalfBytes(data[0], odd && |data| == 1, alphabet) + Unpack(rest, odd, alphabet)
  {
    var tail := Unpack(rest, odd, alphabet);
    if odd && |data| == 1 {
      assert rest == [] && tail == "";
      assert Unpack(data, odd, alphabet) == [alphabet[data[0] / 16]];
    } else {
      var x, y := alphabet[data[0] / 16], alphabet[data[0] % 16];
      assert Unpack(data, odd, alphabet) == [x, y] + tail;
      assert HalfBytes(data[0], false, alphabet) == [x, y];
    }
  }

  lemma {:induction false} UnpackDone(b: seq<Byte>, start: nat, n: nat, odd: bool, alphabet: string, out: string)
    requires start + n <= |b| && |alphabet| >= 16 && Unpacking(b, start, start + n, start + n, odd, alphabet, out)
    ensures Unpacked(ReadBytes(b[start..], n), odd, alphabet) == Got(out, b[start + n..])
  {
    Suffixes(b, start, n);
    assert b[start + n..start + n] == [] && out + "" == out;
  }
}
