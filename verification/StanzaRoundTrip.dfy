/** What the decoder makes of everything the encoder can write, whatever bytes follow. */
module StanzaRoundTrip {
  import opened Sequences
  import opened Outcomes
  import opened Bytes
  import opened Addressing
  import opened Stanza

  /** What comes back of a string in text position: tags, attribute names, JID parts. */
  predicate Plain(t: Tables, s: string) {
    IsToken(t, s) || '@' !in s
  }

  /** What comes back of a JID: `None` if its encoding cannot be read. */
  function NormalJid(t: Tables, jid: Jid): Option<Jid> {
    if !Plain(t, jid.user) then None
    else if jid.device != 0 then Some(Jid(jid.user, AgentToServer(ServerToAgent(jid.server)), jid.device % 256))
    else if Plain(t, jid.server) then Some(jid) else None
  }

  function NormalValue(t: Tables, v: Value): Option<Value> {
    match v
    case JidValue(jid) => if NormalJid(t, jid).Some? then Some(JidValue(NormalJid(t, jid).value)) else None
    case BoolValue(b) => Some(StrValue(BoolText(b)))
    case IntValue(n) => Some(StrValue(IntText(n)))
    case BytesValue(b) => if t.decode(b).Some? then Some(StrValue(t.decode(b).value)) else None
    case StrValue(s) =>
      if Plain(t, s) then Some(v)
      else if NormalJid(t, ParseJid(s)).Some? then Some(JidValue(NormalJid(t, ParseJid(s)).value)) else None
  }

  function NormalAttrs(t: Tables, attrs: seq<Attr>): (r: Option<seq<Attr>>)
    ensures r.Some? ==> |r.value| == |attrs| && forall i | 0 <= i < |attrs| :: r.value[i].name == attrs[i].name
  {
    if attrs == [] then Some([])
    else
      var v, others := NormalValue(t, attrs[0].value), NormalAttrs(t, attrs[1..]);
      if Plain(t, attrs[0].name) && v.Some? && others.Some?
      then Some([Attr(attrs[0].name, v.value)] + others.value) else None
  }

  function NormalNode(t: Tables, node: Node): Option<Node>
    decreases node, 1
  {
    var attrs, content := NormalAttrs(t, node.attrs), NormalContent(t, node.content);
    if Plain(t, node.tag) && attrs.Some? && content.Some? then Some(Node(node.tag, attrs.value, content.value)) else None
  }

  function NormalContent(t: Tables, content: Content): Option<Content>
    decreases content, 1
  {
    match content
    case NoContent => Some(NoContent)
    case Data(data) => Some(content)
    case Text(s) => if IsToken(t, s) || '@' in s then None else Some(Data(t.encode(s)))
    case Children(nodes) => if NormalNodes(t, nodes).Some? then Some(Children(NormalNodes(t, nodes).value)) else None
  }

  function NormalNodes(t: Tables, nodes: seq<Node>): Option<seq<Node>>
    decreases nodes, 0
  {
    if nodes == [] then Some([])
    else
      var first, others := NormalNode(t, nodes[0]), NormalNodes(t, nodes[1..]);
      if first.Some? && others.Some? then Some([first.value] + others.value) else None
  }

  function Back<T>(v: Option<T>, rest: seq<Byte>): Parse<T> {
    if v.Some? then Got(v.value, rest) else Fail
  }

  // ---- Byte strings ----

  lemma {:induction false} Head(out: seq<Byte>, rest: seq<Byte>)
    requires out != []
    ensures (out + rest)[0] == out[0] && (out + rest)[1..] == out[1..] + rest
  {
  }

  lemma {:induction false} TakeBack(header: seq<Byte>, data: seq<Byte>, rest: seq<Byte>, b: seq<Byte>)
    requires b == header + data + rest
    ensures ReadBytes(b[|header|..], |data|) == Got(data, rest)
  {
    assert b[|header|..] == data + rest;
  }

  lemma {:induction false} Weighted3(a: Byte, b: Byte, c: Byte)
    ensures Weighted([a, b, c]) == (a as int) * 0x1_0000 + (b as int) * 0x100 + c as int
  {
    assert [a, b, c][..2] == [a, b] && [a, b][..1] == [a];
    assert Weighted([a]) == a as int;
  }

  lemma {:induction false} Weighted4(a: Byte, b: Byte, c: Byte, d: Byte)
    ensures Weighted([a, b, c, d]) == (a as int) * 0x100_0000 + (b as int) * 0x1_0000 + (c as int) * 0x100 + d as int
  {
    assert [a, b, c, d][..3] == [a, b, c];
    Weighted3(a, b, c);
  }

  lemma {:induction false} Length20(n: nat)
    requires n < 0x10_0000
    ensures n / 0x1_0000 < 16
    ensures n / 0x1_0000 * 0x1_0000 + n / 0x100 % 0x100 * 0x100 + n % 0x100 == n
  {
  }

  lemma {:induction false} Length32(n: nat)
    requires n < 0x1_0000_0000
    ensures n / 0x100_0000 < 0x100
    ensures n / 0x100_0000 * 0x100_0000 + n / 0x1_0000 % 0x100 * 0x1_0000 + n / 0x100 % 0x100 * 0x100 + n % 0x100 == n
  {
  }

  /** A length in three bytes, the first of which is below 16, and the data. */
  lemma {:induction false} Bytes20(t: Tables, data: seq<Byte>, rest: seq<Byte>, b: seq<Byte>)
    requires 0x100 <= |data| < 0x10_0000
    requires b == [|data| / 0x1_0000, |data| / 0x100 % 0x100, |data| % 0x100] + data + rest
    ensures ReadPayload(t, b, BINARY_20) == Got(data, rest)
  {
    var n := |data|;
    Length20(n);
    Weighted3(n / 0x1_0000, n / 0x100 % 0x100, n % 0x100);
    TakeBack([n / 0x1_0000, n / 0x100 % 0x100, n % 0x100], data, rest, b);
    assert [b[0] % 16, b[1], b[2]] == [n / 0x1_0000, n / 0x100 % 0x100, n % 0x100];
  }

  lemma {:induction false} Bytes32(t: Tables, data: seq<Byte>, rest: seq<Byte>, b: seq<Byte>, digits: seq<Byte>)
    requires |data| < 0x1_0000_0000
    requires digits == [|data| / 0x100_0000, |data| / 0x1_0000 % 0x100, |data| / 0x100 % 0x100, |data| % 0x100]
    requires b == digits + data + rest
    ensures ReadPayload(t, b, BINARY_32) == Got(data, rest)
  {
    var n := |data|;
    Length32(n);
    Weighted4(digits[0], digits[1], digits[2], digits[3]);
    assert digits == [digits[0], digits[1], digits[2], digits[3]];
    TakeBack(digits, data, rest, b);
    assert b[..4] == digits;
  }

  /** Each of the three length forms is read back exactly. */
  lemma {:induction false} BytesBack(t: Tables, data: seq<Byte>, rest: seq<Byte>)
    requires WriteBytes(data).Some?
    ensures var out := WriteBytes(data).value;
            && BINARY_8 <= out[0] <= BINARY_32
            && ReadPayload(t, out[1..] + rest, out[0]) == Got(data, rest)
  {
    var out, n := WriteBytes(data).value, |data|;
    var b := out[1..] + rest;
    if n < 0x100 {
      TakeBack([n], data, rest, b);
    } else if n < 0x10_0000 {
      Bytes20(t, data, rest, b);
    } else {
      Bytes32(t, data, rest, b, out[1..5]);
    }
  }

  // ---- Packed strings ----

  lemma {:induction false} SymbolBack(alphabet: string, c: char)
    requires AlphabetOk(alphabet) && c in alphabet && c != '\0'
    ensures Symbol(alphabet, c) < 16 && alphabet[Symbol(alphabet, c)] == c
  {
  }

  lemma {:induction false} UnpackOne(alphabet: string, hi: nat, lo: nat, tail: seq<Byte>, odd: bool)
    requires |alphabet| >= 16 && hi < 16 && lo < 16 && (odd ==> tail != [])
    ensures Unpack([16 * hi + lo] + tail, odd, alphabet) == [alphabet[hi], alphabet[lo]] + Unpack(tail, odd, alphabet)
  {
    var first: Byte := 16 * hi + lo;
    HalvesOf(hi, lo);
    UnpackHead(alphabet, first, tail, [first] + tail, odd);
  }

  lemma {:induction false} HalvesOf(hi: nat, lo: nat)
    requires hi < 16 && lo < 16
    ensures (16 * hi + lo) / 16 == hi && (16 * hi + lo) % 16 == lo
  {
  }

  lemma {:induction false} UnpackHead(alphabet: string, first: Byte, tail: seq<Byte>, data: seq<Byte>, odd: bool)
    requires |alphabet| >= 16 && data == [first] + tail && (odd ==> tail != [])
    ensures Unpack(data, odd, alphabet) == [alphabet[first / 16], alphabet[first % 16]] + Unpack(tail, odd, alphabet)
  {
    assert data[1..] == tail;
  }

  lemma {:induction false} PackLength(s: string, alphabet: string)
    requires AlphabetOk(alphabet) && (s == "" || AllIn(s, alphabet))
    ensures |Pack(s, alphabet)| == (|s| + 1) / 2
    decreases |s|
  {
    if |s| > 1 {
      PackLength(s[2..], alphabet);
    }
  }

  lemma {:induction false} UnpackPack(s: string, odd: bool, alphabet: string)
    requires AlphabetOk(alphabet) && (s == "" || AllIn(s, alphabet)) && odd == (|s| % 2 == 1)
    ensures Unpack(Pack(s, alphabet), odd, alphabet) == s
    decreases |s|
  {
    if |s| == 1 {
      SymbolBack(alphabet, s[0]);
    } else if s != "" {
      var tail := Pack(s[2..], alphabet);
      PackLength(s[2..], alphabet);
      UnpackPack(s[2..], odd, alphabet);
      assert odd ==> tail != [];
      UnpackTwo(s, alphabet, tail, odd);
    }
  }

  lemma {:induction false} UnpackTwo(s: string, alphabet: string, tail: seq<Byte>, odd: bool)
    requires AlphabetOk(alphabet) && |s| >= 2 && AllIn(s, alphabet) && (odd ==> tail != [])
    requires Unpack(tail, odd, alphabet) == s[2..]
    ensures Symbol(alphabet, s[0]) < 16 && Symbol(alphabet, s[1]) < 16
    ensures Unpack([16 * Symbol(alphabet, s[0]) + Symbol(alphabet, s[1])] + tail, odd, alphabet) == s
  {
    var hi, lo := Symbol(alphabet, s[0]), Symbol(alphabet, s[1]);
    SymbolBack(alphabet, s[0]);
    SymbolBack(alphabet, s[1]);
    UnpackOne(alphabet, hi, lo, tail, odd);
    assert [alphabet[hi], alphabet[lo]] + s[2..] == s;
  }

  lemma {:induction false} PackedBack(s: string, tag: Byte, alphabet: string, rest: seq<Byte>)
    requires AlphabetOk(alphabet) && AllIn(s, alphabet) && WritePacked(s, tag, alphabet).Some?
    ensures var out := WritePacked(s, tag, alphabet).value;
            out[0] == tag && ReadPacked(out[1..] + rest, alphabet) == Got(s, rest)
  {
    var out := WritePacked(s, tag, alphabet).value;
    var data, odd, b := Pack(s, alphabet), |s| % 2 == 1, out[1..] + rest;
    assert |data| == (|s| + 1) / 2 < 0x80 by {
      PackLength(s, alphabet);
    }
    assert out == [tag, (if odd then 0x80 else 0) + |data|] + data;
    HeaderByte(odd, |data|);
    assert Unpack(data, odd, alphabet) == s by {
      UnpackPack(s, odd, alphabet);
    }
    TakeBack([out[1]], data, rest, b);
  }

  lemma {:induction false} HeaderByte(odd: bool, n: nat)
    requires n < 0x80
    ensures var h := (if odd then 0x80 else 0) + n; h % 0x80 == n && (h >= 0x80 <==> odd)
  {
  }

  // ---- Strings and JIDs ----

  lemma {:induction false} TokenBack(t: Tables, s: string, rest: seq<Byte>)
    requires TablesOk(t) && IsToken(t, s)
    ensures WriteString(t, s).Some?
    ensures var out := WriteString(t, s).value;
            out != [] && 0 < out[0] <= DICTIONARY_3 && ReadTagged(t, out[1..] + rest, out[0]) == Got(s, rest)
  {
    var out := WriteString(t, s).value;
    if LookupSingle(t, s).Some? {
      assert out[1..] + rest == rest;
    } else {
      assert (out[1..] + rest)[0] == out[1] && (out[1..] + rest)[1..] == rest;
    }
  }

  /** A string that is neither a token nor a JID is written as bytes, packed or not. */
  lemma {:induction false} PayloadBack(t: Tables, s: string, rest: seq<Byte>)
    requires TablesOk(t) && !IsToken(t, s) && '@' !in s && WriteString(t, s).Some?
    ensures var out := WriteString(t, s).value;
            && out != [] && out[0] >= HEX_8
            && ReadPayload(t, out[1..] + rest, out[0]) == Got(t.encode(s), rest)
  {
    AlphabetsOk();
    var out := WriteString(t, s).value;
    if s == "" {
      TakeBack([0], [], rest, out[1..] + rest);
    } else if AllIn(s, NIBBLE_ALPHABET) {
      PackedBack(s, NIBBLE_8, NIBBLE_ALPHABET, rest);
    } else if AllIn(s, HEX_ALPHABET) {
      PackedBack(s, HEX_8, HEX_ALPHABET, rest);
    } else {
      BytesBack(t, t.encode(s), rest);
    }
  }

  /** A plain string is read back wherever a string may stand, and is never taken for a JID. */
  lemma {:induction false} PlainBack(t: Tables, s: string, rest: seq<Byte>)
    requires TablesOk(t) && Plain(t, s) && WriteString(t, s).Some?
    ensures var out := WriteString(t, s).value;
            && out != [] && out[0] != 0 && out[0] != JID_PAIR && out[0] != AD_JID
            && ReadTagged(t, out[1..] + rest, out[0]) == Got(s, rest)
            && ReadString(t, out + rest) == Got(s, rest)
  {
    if IsToken(t, s) {
      TokenBack(t, s, rest);
    } else {
      PayloadBack(t, s, rest);
    }
    Head(WriteString(t, s).value, rest);
  }

  /** Any other string is written as a JID, which the string reader refuses. */
  lemma {:induction false} NotPlain(t: Tables, s: string, rest: seq<Byte>)
    requires TablesOk(t) && !Plain(t, s) && WriteString(t, s).Some?
    ensures WriteString(t, s) == WriteJid(t, ParseJid(s))
    ensures var out := WriteString(t, s).value;
            && out != [] && (out[0] == JID_PAIR || out[0] == AD_JID)
            && ReadString(t, out + rest) == Fail
  {
    var out := WriteString(t, s).value;
    Head(out, rest);
  }

  lemma {:induction false} StringBack(t: Tables, s: string, rest: seq<Byte>)
    requires TablesOk(t) && WriteString(t, s).Some?
    ensures ReadString(t, WriteString(t, s).value + rest) == if Plain(t, s) then Got(s, rest) else Fail
  {
    if Plain(t, s) {
      PlainBack(t, s, rest);
    } else {
      NotPlain(t, s, rest);
    }
  }

  lemma {:induction false} AdJidBack(t: Tables, jid: Jid, rest: seq<Byte>)
    requires TablesOk(t) && jid.device != 0 && WriteJid(t, jid).Some?
    ensures var out := WriteJid(t, jid).value;
            out != [] && out[0] == AD_JID && ReadAdJid(t, out[1..] + rest) == Back(NormalJid(t, jid), rest)
  {
    var out, user := WriteJid(t, jid).value, WriteString(t, jid.user).value;
    var b := out[1..] + rest;
    assert b[2..] == user + rest;
    StringBack(t, jid.user, rest);
  }

  lemma {:induction false} JidPairBack(t: Tables, jid: Jid, rest: seq<Byte>)
    requires TablesOk(t) && jid.device == 0 && WriteJid(t, jid).Some?
    ensures var out := WriteJid(t, jid).value;
            out != [] && out[0] == JID_PAIR && ReadJidPair(t, out[1..] + rest) == Back(NormalJid(t, jid), rest)
  {
    var out, server := WriteJid(t, jid).value, WriteString(t, jid.server).value;
    var user := if jid.user != "" then WriteString(t, jid.user).value else [LIST_EMPTY];
    var b := out[1..] + rest;
    assert b == user + (server + rest);
    if jid.user != "" {
      StringBack(t, jid.user, server + rest);
    } else {
      Head(user, server + rest);
      assert ReadString(t, b) == Got("", server + rest);
    }
    StringBack(t, jid.server, rest);
  }

  /** A JID comes back as itself exactly when its parts are plain and, for a device, the device fits a
      byte and the server has an agent number. */
  lemma {:induction false} JidKept(t: Tables, jid: Jid)
    ensures NormalJid(t, jid) == Some(jid)
       <==> && Plain(t, jid.user)
            && if jid.device == 0 then Plain(t, jid.server)
               else jid.device < 256 && jid.server in {"s.whatsapp.net", "lid", "hosted", "hosted.lid"}
  {
  }

  lemma {:induction false} JidValueBack(t: Tables, jid: Jid, rest: seq<Byte>)
    requires TablesOk(t) && WriteJid(t, jid).Some?
    ensures ReadValue(t, WriteJid(t, jid).value + rest) == Back(NormalValue(t, JidValue(jid)), rest)
  {
    var out := WriteJid(t, jid).value;
    if jid.device != 0 {
      AdJidBack(t, jid, rest);
    } else {
      JidPairBack(t, jid, rest);
    }
    Head(out, rest);
  }

  lemma {:induction false} StrValueBack(t: Tables, s: string, rest: seq<Byte>)
    requires TablesOk(t) && WriteString(t, s).Some?
    ensures ReadValue(t, WriteString(t, s).value + rest) == Back(NormalValue(t, StrValue(s)), rest)
  {
    if Plain(t, s) {
      PlainBack(t, s, rest);
      Head(WriteString(t, s).value, rest);
    } else {
      NotPlain(t, s, rest);
      JidValueBack(t, ParseJid(s), rest);
    }
  }

  lemma {:induction false} DecimalPlain(n: nat)
    ensures '@' !in Decimal(n)
  {
    if n >= 10 {
      DecimalPlain(n / 10);
    }
  }

  lemma {:induction false} IntValueBack(t: Tables, n: int, rest: seq<Byte>)
    requires TablesOk(t) && WriteString(t, IntText(n)).Some?
    ensures ReadValue(t, WriteString(t, IntText(n)).value + rest) == Got(StrValue(IntText(n)), rest)
  {
    DecimalPlain(if n < 0 then -n else n);
    StrValueBack(t, IntText(n), rest);
  }

  lemma {:induction false} BytesValueBack(t: Tables, b: seq<Byte>, rest: seq<Byte>)
    requires WriteBytes(b).Some?
    ensures ReadValue(t, WriteBytes(b).value + rest) == Back(NormalValue(t, BytesValue(b)), rest)
  {
    BytesBack(t, b, rest);
    Head(WriteBytes(b).value, rest);
  }

  lemma {:induction false} ValueBack(t: Tables, v: Value, rest: seq<Byte>)
    requires TablesOk(t) && WriteValue(t, v).Some?
    ensures ReadValue(t, WriteValue(t, v).value + rest) == Back(NormalValue(t, v), rest)
  {
    match v
    case JidValue(jid) => JidValueBack(t, jid, rest);
    case BoolValue(b) => StrValueBack(t, BoolText(b), rest);
    case IntValue(n) => IntValueBack(t, n, rest);
    case BytesValue(b) => BytesValueBack(t, b, rest);
    case StrValue(s) => StrValueBack(t, s, rest);
  }

  // ---- Attributes, contents, nodes ----

  predicate DistinctNames(attrs: seq<Attr>) {
    forall i, j | 0 <= i < j < |attrs| :: attrs[i].name != attrs[j].name
  }

  /** Attributes are a dictionary in every node of the tree. */
  predicate TreeOk(node: Node)
    decreases node, 1
  {
    DistinctNames(node.attrs) && (node.content.Children? ==> ForestOk(node.content.nodes))
  }

  predicate ForestOk(nodes: seq<Node>)
    decreases nodes, 0
  {
    nodes != [] ==> TreeOk(nodes[0]) && ForestOk(nodes[1..])
  }

  lemma {:induction false} PutNewAttr(attrs: seq<Attr>, a: Attr)
    requires forall i | 0 <= i < |attrs| :: attrs[i].name != a.name
    ensures PutAttr(attrs, a) == attrs + [a]
  {
    if attrs != [] {
      PutNewAttr(attrs[1..], a);
      assert attrs + [a] == [attrs[0]] + (attrs[1..] + [a]);
    }
  }

  lemma {:induction false} AttrBack(t: Tables, a: Attr, b: seq<Byte>, rest: seq<Byte>)
    requires TablesOk(t) && WriteString(t, a.name).Some? && WriteValue(t, a.value).Some?
    requires b == WriteString(t, a.name).value + (WriteValue(t, a.value).value + rest)
    ensures AttrRead(t, a, b, rest)
  {
    StringBack(t, a.name, WriteValue(t, a.value).value + rest);
    ValueBack(t, a.value, rest);
  }

  lemma {:induction false} Regroup(x: seq<Byte>, y: seq<Byte>, z: seq<Byte>, rest: seq<Byte>)
    ensures x + y + z + rest == x + (y + (z + rest))
  {
    Associates(y, z, rest);
    Associates(x, y, z + rest);
    Associates(x + y, z, rest);
  }

  /** What reading one attribute gives, as `AttrBack` says it. */
  ghost predicate AttrRead(t: Tables, a: Attr, b: seq<Byte>, b': seq<Byte>) {
    var name := ReadString(t, b);
    if !Plain(t, a.name) then name.Fail?
    else name.Got? && name.value == a.name && ReadValue(t, name.rest) == Back(NormalValue(t, a.value), b')
  }

  /** One round of the attribute loop. */
  lemma {:induction false} AttrsStep(t: Tables, attrs: seq<Attr>, done: seq<Attr>, a: Attr, b: seq<Byte>, b': seq<Byte>, n: nat)
    requires attrs != [] && n == |attrs| && forall i | 0 <= i < |done| :: done[i].name != attrs[0].name
    requires AttrRead(t, attrs[0], b, b') && Plain(t, attrs[0].name)
    requires a.name == attrs[0].name && NormalValue(t, attrs[0].value) == Some(a.value)
    ensures ReadAttrs(t, b, n, done) == ReadAttrs(t, b', n - 1, done + [a])
  {
    PutNewAttr(done, a);
    var name := ReadString(t, b);
    assert ReadValue(t, name.rest) == Got(a.value, b');
    ReadAttrsUnfold(t, b, n, done, name.value, name.rest, a.value, b');
  }

  lemma {:induction false} ReadAttrsUnfold(t: Tables, b: seq<Byte>, n: nat, done: seq<Attr>, name: string, b1: seq<Byte>, v: Value,
                                           b': seq<Byte>)
    requires n > 0 && ReadString(t, b) == Got(name, b1) && ReadValue(t, b1) == Got(v, b')
    ensures ReadAttrs(t, b, n, done) == ReadAttrs(t, b', n - 1, PutAttr(done, Attr(name, v)))
  {
  }

  ghost predicate AttrsReadBack(t: Tables, attrs: seq<Attr>, done: seq<Attr>, b: seq<Byte>, rest: seq<Byte>) {
    var normal := NormalAttrs(t, attrs);
    ReadAttrs(t, b, |attrs|, done) == if normal.Some? then Got(done + normal.value, rest) else Fail
  }

  lemma {:induction false} NormalCons(t: Tables, attrs: seq<Attr>, a: Attr)
    requires attrs != [] && Plain(t, attrs[0].name) && NormalValue(t, attrs[0].value) == Some(a.value) && a.name == attrs[0].name
    ensures NormalAttrs(t, attrs)
         == if NormalAttrs(t, attrs[1..]).Some? then Some([a] + NormalAttrs(t, attrs[1..]).value) else None
  {
  }

  lemma {:induction false} AttrsJoin(all: Option<seq<Attr>>, tail: Option<seq<Attr>>, done: seq<Attr>, a: Attr, rest: seq<Byte>)
    requires all == if tail.Some? then Some([a] + tail.value) else None
    ensures (if tail.Some? then Got(done + [a] + tail.value, rest) else Fail)
         == (if all.Some? then Got(done + all.value, rest) else Fail)
  {
    if tail.Some? {
      assert done + ([a] + tail.value) == done + [a] + tail.value;
    }
  }

  /** The bytes of an attribute list: the first attribute, and then the others. */
  lemma {:induction false} AttrsBytes(t: Tables, attrs: seq<Attr>, b: seq<Byte>, rest: seq<Byte>)
    requires TablesOk(t) && attrs != [] && WriteAttrs(t, attrs).Some? && b == WriteAttrs(t, attrs).value + rest
    ensures WriteString(t, attrs[0].name).Some? && WriteValue(t, attrs[0].value).Some? && WriteAttrs(t, attrs[1..]).Some?
    ensures b == WriteString(t, attrs[0].name).value
                 + (WriteValue(t, attrs[0].value).value + (WriteAttrs(t, attrs[1..]).value + rest))
  {
    Regroup(WriteString(t, attrs[0].name).value, WriteValue(t, attrs[0].value).value, WriteAttrs(t, attrs[1..]).value, rest);
  }

  lemma {:induction false} ReadTail(t: Tables, others: seq<Attr>, done: seq<Attr>, b: seq<Byte>, b': seq<Byte>, rest: seq<Byte>, done': seq<Attr>,
                 n: nat, tail: Option<seq<Attr>>)
    requires n == |others| + 1 && ReadAttrs(t, b, n, done) == ReadAttrs(t, b', n - 1, done')
    requires AttrsReadBack(t, others, done', b', rest) && tail == NormalAttrs(t, others)
    ensures ReadAttrs(t, b, n, done) == if tail.Some? then Got(done' + tail.value, rest) else Fail
  {
  }

  lemma {:induction false} ReadAll(t: Tables, attrs: seq<Attr>, done: seq<Attr>, a: Attr, b: seq<Byte>, rest: seq<Byte>,
                n: nat, all: Option<seq<Attr>>, tail: Option<seq<Attr>>)
    requires all == NormalAttrs(t, attrs) && n == |attrs|
    requires all == if tail.Some? then Some([a] + tail.value) else None
    requires ReadAttrs(t, b, n, done) == if tail.Some? then Got(done + [a] + tail.value, rest) else Fail
    ensures AttrsReadBack(t, attrs, done, b, rest)
  {
    AttrsJoin(all, tail, done, a, rest);
  }

  lemma {:induction false} AttrsFirst(t: Tables, attrs: seq<Attr>, others: seq<Attr>, done: seq<Attr>, a: Attr, b: seq<Byte>, b': seq<Byte>,
                   rest: seq<Byte>, n: nat)
    requires attrs != [] && others == attrs[1..] && n == |attrs| == |others| + 1
    requires forall i | 0 <= i < |done| :: done[i].name != attrs[0].name
    requires AttrRead(t, attrs[0], b, b') && Plain(t, attrs[0].name)
    requires a.name == attrs[0].name && NormalValue(t, attrs[0].value) == Some(a.value)
    requires AttrsReadBack(t, others, done + [a], b', rest)
    ensures AttrsReadBack(t, attrs, done, b, rest)
  {
    var all, tail := NormalAttrs(t, attrs), NormalAttrs(t, others);
    AttrsStep(t, attrs, done, a, b, b', n);
    ReadTail(t, others, done, b, b', rest, done + [a], n, tail);
    NormalCons(t, attrs, a);
    ReadAll(t, attrs, done, a, b, rest, n, all, tail);
  }

  lemma {:induction false} AttrsFail(t: Tables, attrs: seq<Attr>, done: seq<Attr>, b: seq<Byte>, b': seq<Byte>, rest: seq<Byte>)
    requires attrs != [] && (!Plain(t, attrs[0].name) || NormalValue(t, attrs[0].value).None?)
    requires AttrRead(t, attrs[0], b, b')
    ensures AttrsReadBack(t, attrs, done, b, rest)
  {
  }

  lemma {:induction false} AttrsBack(t: Tables, attrs: seq<Attr>, done: seq<Attr>, b: seq<Byte>, rest: seq<Byte>)
    requires TablesOk(t) && WriteAttrs(t, attrs).Some? && b == WriteAttrs(t, attrs).value + rest
    requires DistinctNames(attrs)
    requires forall i, j | 0 <= i < |done| && 0 <= j < |attrs| :: done[i].name != attrs[j].name
    ensures AttrsReadBack(t, attrs, done, b, rest)
    decreases |attrs|
  {
    if attrs == [] {
      assert b == rest && done + [] == done;
    } else {
      var v := NormalValue(t, attrs[0].value);
      AttrsBytes(t, attrs, b, rest);
      var b' := WriteAttrs(t, attrs[1..]).value + rest;
      AttrBack(t, attrs[0], b, b');
      if Plain(t, attrs[0].name) && v.Some? {
        var a := Attr(attrs[0].name, v.value);
        AttrsBack(t, attrs[1..], done + [a], b', rest);
        AttrsFirst(t, attrs, attrs[1..], done, a, b, b', rest, |attrs|);
      } else {
        AttrsFail(t, attrs, done, b, b', rest);
      }
    }
  }

  lemma {:induction false} HeaderBack(n: nat, rest: seq<Byte>)
    requires ListHeader(n).Some?
    ensures var h := ListHeader(n).value;
            && h != [] && (h[0] == LIST_EMPTY || h[0] == LIST_8 || h[0] == LIST_16)
            && ReadListSize(h[1..] + rest, h[0]) == Got(n, rest)
  {
    var h := ListHeader(n).value;
    if n == 0 {
      assert h[1..] + rest == rest;
    } else if n < 256 {
      assert h[1..] + rest == [n] + rest;
    } else {
      assert h[1..] + rest == [n / 256, n % 256] + rest;
    }
  }

  lemma {:induction false} CountParts(attrs: nat, content: nat)
    requires content <= 1
    ensures var count := 1 + 2 * attrs + content;
            (count - 1) / 2 == attrs && (count % 2 == 1 <==> content == 0)
  {
  }

  lemma {:induction false} TextBack(t: Tables, s: string, rest: seq<Byte>)
    requires TablesOk(t) && WriteString(t, s).Some?
    ensures ReadContent(t, WriteString(t, s).value + rest) == Back(NormalContent(t, Text(s)), rest)
  {
    var out := WriteString(t, s).value;
    if IsToken(t, s) {
      TokenBack(t, s, rest);
    } else if '@' in s {
      NotPlain(t, s, rest);
    } else {
      PayloadBack(t, s, rest);
    }
    Head(out, rest);
  }

  lemma {:induction false} DataBack(t: Tables, data: seq<Byte>, rest: seq<Byte>)
    requires WriteBytes(data).Some?
    ensures ReadContent(t, WriteBytes(data).value + rest) == Got(Data(data), rest)
  {
    BytesBack(t, data, rest);
    Head(WriteBytes(data).value, rest);
  }

  lemma {:induction false} ContentBack(t: Tables, content: Content, rest: seq<Byte>)
    requires TablesOk(t) && WriteContent(t, content).Some? && !content.NoContent?
    requires content.Children? ==> ForestOk(content.nodes)
    ensures ReadContent(t, WriteContent(t, content).value + rest) == Back(NormalContent(t, content), rest)
    decreases content, 1
  {
    match content
    case Data(data) => DataBack(t, data, rest);
    case Text(s) => TextBack(t, s, rest);
    case Children(nodes) =>
      var h, body := ListHeader(|nodes|).value, WriteNodes(t, nodes).value;
      assert h + body + rest == h + (body + rest);
      HeaderBack(|nodes|, body + rest);
      Head(h, body + rest);
      NodesBack(t, nodes, rest);
  }

  lemma {:induction false} NodesBack(t: Tables, nodes: seq<Node>, rest: seq<Byte>)
    requires TablesOk(t) && WriteNodes(t, nodes).Some? && ForestOk(nodes)
    ensures ReadNodes(t, WriteNodes(t, nodes).value + rest, |nodes|) == Back(NormalNodes(t, nodes), rest)
    decreases nodes, 0
  {
    if nodes == [] {
      assert [] + rest == rest;
    } else {
      var tail := nodes[1..];
      NodesBytes(t, nodes, rest);
      var b, b1 := WriteNodes(t, nodes).value + rest, WriteNodes(t, tail).value + rest;
      assert ReadNode(t, b) == Back(NormalNode(t, nodes[0]), b1) by {
        NodeBack(t, nodes[0], b1);
      }
      assert ReadNodes(t, b1, |tail|) == Back(NormalNodes(t, tail), rest) by {
        NodesBack(t, tail, rest);
      }
      NodesJoined(t, nodes, tail, |nodes|, b, b1, rest, NormalNode(t, nodes[0]), NormalNodes(t, tail));
    }
  }

  lemma {:induction false} NodesBytes(t: Tables, nodes: seq<Node>, rest: seq<Byte>)
    requires TablesOk(t) && nodes != [] && WriteNodes(t, nodes).Some?
    ensures WriteNode(t, nodes[0]).Some? && WriteNodes(t, nodes[1..]).Some?
    ensures WriteNodes(t, nodes).value + rest == WriteNode(t, nodes[0]).value + (WriteNodes(t, nodes[1..]).value + rest)
  {
    var first, others := WriteNode(t, nodes[0]).value, WriteNodes(t, nodes[1..]).value;
    assert first + others + rest == first + (others + rest);
  }

  lemma {:induction false} NodesJoined(t: Tables, nodes: seq<Node>, others: seq<Node>, n: nat, b: seq<Byte>, b1: seq<Byte>, rest: seq<Byte>,
                                       first: Option<Node>, tail: Option<seq<Node>>)
    requires nodes != [] && others == nodes[1..] && n == |nodes|
    requires first == NormalNode(t, nodes[0]) && tail == NormalNodes(t, others)
    requires ReadNode(t, b) == Back(first, b1) && ReadNodes(t, b1, n - 1) == Back(tail, rest)
    ensures ReadNodes(t, b, n) == Back(NormalNodes(t, nodes), rest)
  {
    ReadNodesUnfold(t, b, n);
  }

  lemma {:induction false} ReadNodesUnfold(t: Tables, b: seq<Byte>, n: nat)
    requires n > 0
    ensures var first := ReadNode(t, b);
            if first.Fail? then ReadNodes(t, b, n).Fail?
            else var others := ReadNodes(t, first.rest, n - 1);
                 ReadNodes(t, b, n) == if others.Fail? then Fail else Got([first.value] + others.value, others.rest)
  {
  }

  /** What reading a node amounts to once its tag and attributes have been read. */
  function Assembled(t: Tables, count: nat, tag: Parse<string>, attrs: Parse<seq<Attr>>): Parse<Node> {
    if tag.Fail? || attrs.Fail? then Fail
    else if count % 2 == 1 then Got(Node(tag.value, attrs.value, NoContent), attrs.rest)
    else
      var content := ReadContent(t, attrs.rest);
      if content.Fail? then Fail else Got(Node(tag.value, attrs.value, content.value), content.rest)
  }

  /** A node from its parts: each part is read where the one before it ended. */
  lemma {:induction false} Assemble(t: Tables, b: seq<Byte>, count: nat, n: nat, b1: seq<Byte>, tag: Parse<string>, attrs: Parse<seq<Attr>>)
    requires b != [] && ReadListSize(b[1..], b[0]) == Got(count, b1) && count > 0 && (count - 1) / 2 == n
    requires ReadString(t, b1) == tag
    requires tag.Got? ==> ReadAttrs(t, tag.rest, n, []) == attrs
    ensures ReadNode(t, b) == Assembled(t, count, tag, attrs)
  {
  }

  lemma {:induction false} AttrsFromNone(t: Tables, attrs: seq<Attr>, b: seq<Byte>, rest: seq<Byte>)
    requires TablesOk(t) && WriteAttrs(t, attrs).Some? && b == WriteAttrs(t, attrs).value + rest && DistinctNames(attrs)
    ensures ReadAttrs(t, b, |attrs|, []) == Back(NormalAttrs(t, attrs), rest)
  {
    AttrsBack(t, attrs, [], b, rest);
    if NormalAttrs(t, attrs).Some? {
      assert [] + NormalAttrs(t, attrs).value == NormalAttrs(t, attrs).value;
    }
  }

  lemma {:induction false} NodeFront(t: Tables, node: Node, b: seq<Byte>, b1: seq<Byte>, b2: seq<Byte>, b3: seq<Byte>)
    requires TablesOk(t) && DistinctNames(node.attrs)
    requires ListHeader(ItemCount(node)).Some? && b == ListHeader(ItemCount(node)).value + b1
    requires WriteString(t, node.tag).Some? && b1 == WriteString(t, node.tag).value + b2
    requires WriteAttrs(t, node.attrs).Some? && b2 == WriteAttrs(t, node.attrs).value + b3
    ensures ReadNode(t, b) == Assembled(t, ItemCount(node), if Plain(t, node.tag) then Got(node.tag, b2) else Fail,
                                        Back(NormalAttrs(t, node.attrs), b3))
  {
    var tag := if Plain(t, node.tag) then Got(node.tag, b2) else Fail;
    HeaderAt(ItemCount(node), b, b1);
    StringBack(t, node.tag, b2);
    AttrsFromNone(t, node.attrs, b2, b3);
    CountParts(|node.attrs|, HasContent(node));
    Assemble(t, b, ItemCount(node), |node.attrs|, b1, tag, Back(NormalAttrs(t, node.attrs), b3));
  }

  lemma {:induction false} HeaderAt(n: nat, b: seq<Byte>, b1: seq<Byte>)
    requires ListHeader(n).Some? && b == ListHeader(n).value + b1
    ensures b != [] && ReadListSize(b[1..], b[0]) == Got(n, b1)
  {
    HeaderBack(n, b1);
    Head(ListHeader(n).value, b1);
  }

  lemma {:induction false} AssembledBack(t: Tables, node: Node, b2: seq<Byte>, b3: seq<Byte>, rest: seq<Byte>)
    requires if node.content.NoContent? then b3 == rest
             else ReadContent(t, b3) == Back(NormalContent(t, node.content), rest)
    ensures Assembled(t, ItemCount(node), if Plain(t, node.tag) then Got(node.tag, b2) else Fail,
                      Back(NormalAttrs(t, node.attrs), b3)) == Back(NormalNode(t, node), rest)
  {
    var count, attrs := ItemCount(node), NormalAttrs(t, node.attrs);
    CountParts(|node.attrs|, HasContent(node));
    if node.content.NoContent? {
      assert count % 2 == 1;
    } else {
      assert count % 2 == 0;
    }
  }

  lemma {:induction false} FrontBytes(header: seq<Byte>, tag: seq<Byte>, attrs: seq<Byte>, content: seq<Byte>, rest: seq<Byte>)
    ensures header + (tag + (attrs + content)) + rest == header + (tag + (attrs + (content + rest)))
  {
  }

  /** The decoder, given what the encoder wrote for a tree and then any bytes at all, returns the
      tree's normal form and stops exactly where the encoder stopped; where there is no normal form,
      it raises. */
  lemma {:induction false} NodeBack(t: Tables, node: Node, rest: seq<Byte>)
    requires TablesOk(t) && WriteNode(t, node).Some? && TreeOk(node)
    ensures ReadNode(t, WriteNode(t, node).value + rest) == Back(NormalNode(t, node), rest)
    decreases node, 1
  {
    var header, tag := ListHeader(ItemCount(node)).value, WriteString(t, node.tag).value;
    var attrs, content := WriteAttrs(t, node.attrs).value, WriteContent(t, node.content).value;
    var b3 := content + rest;
    var b2 := attrs + b3;
    var b := WriteNode(t, node).value + rest;
    FrontBytes(header, tag, attrs, content, rest);
    NodeFront(t, node, b, tag + b2, b2, b3);
    if node.content.NoContent? {
      assert b3 == rest;
    } else {
      ContentBack(t, node.content, rest);
    }
    AssembledBack(t, node, b2, b3, rest);
  }

  // ---- Which trees come back unchanged ----

  predicate CanonicalValue(t: Tables, v: Value) {
    match v
    case StrValue(s) => Plain(t, s)
    case JidValue(jid) => NormalJid(t, jid) == Some(jid)
    case _ => false
  }

  predicate CanonicalAttrs(t: Tables, attrs: seq<Attr>) {
    forall i | 0 <= i < |attrs| :: Plain(t, attrs[i].name) && CanonicalValue(t, attrs[i].value)
  }

  predicate Canonical(t: Tables, node: Node)
    decreases node, 1
  {
    && Plain(t, node.tag) && CanonicalAttrs(t, node.attrs) && !node.content.Text?
    && (node.content.Children? ==> CanonicalForest(t, node.content.nodes))
  }

  predicate CanonicalForest(t: Tables, nodes: seq<Node>)
    decreases nodes, 0
  {
    nodes != [] ==> Canonical(t, nodes[0]) && CanonicalForest(t, nodes[1..])
  }

  lemma {:induction false} AttrsKept(t: Tables, attrs: seq<Attr>)
    ensures NormalAttrs(t, attrs) == Some(attrs) <==> CanonicalAttrs(t, attrs)
    decreases |attrs|
  {
    if attrs != [] {
      var a, v, tail := attrs[0], NormalValue(t, attrs[0].value), NormalAttrs(t, attrs[1..]);
      AttrsKept(t, attrs[1..]);
      assert CanonicalAttrs(t, attrs) <==>
             Plain(t, a.name) && CanonicalValue(t, a.value) && CanonicalAttrs(t, attrs[1..]);
      assert CanonicalValue(t, a.value) <==> v == Some(a.value);
      assert attrs == [a] + attrs[1..];
      if Plain(t, a.name) && v.Some? && tail.Some? {
        assert ([Attr(a.name, v.value)] + tail.value)[1..] == tail.value;
      }
    }
  }

  /** A tree comes back unchanged exactly when it is canonical. */
  lemma {:induction false} NodeKept(t: Tables, node: Node)
    ensures NormalNode(t, node) == Some(node) <==> Canonical(t, node)
    decreases node, 1
  {
    AttrsKept(t, node.attrs);
    if node.content.Children? {
      NodesKept(t, node.content.nodes);
    }
  }

  lemma {:induction false} NodesKept(t: Tables, nodes: seq<Node>)
    ensures NormalNodes(t, nodes) == Some(nodes) <==> CanonicalForest(t, nodes)
    decreases nodes, 0
  {
    if nodes != [] {
      var first, tail := NormalNode(t, nodes[0]), NormalNodes(t, nodes[1..]);
      NodeKept(t, nodes[0]);
      NodesKept(t, nodes[1..]);
      assert nodes == [nodes[0]] + nodes[1..];
      if first.Some? && tail.Some? {
        assert ([first.value] + tail.value)[0] == first.value && ([first.value] + tail.value)[1..] == tail.value;
      }
    }
  }

  // ---- Frames ----

  /** zlib as a pair of functions; decompression may fail on other input. */
  datatype Zlib = Zlib(compress: seq<Byte> -> seq<Byte>, decompress: seq<Byte> -> Option<seq<Byte>>)

  ghost predicate ZlibOk(z: Zlib) {
    forall b :: z.decompress(z.compress(b)) == Some(b)
  }

  /** The flags byte and the payload, compressed if bit 1 of the flags is set. */
  function Wrap(z: Zlib, payload: seq<Byte>, compress: bool): seq<Byte> {
    if compress then [2] + z.compress(payload) else [0] + payload
  }

  function Unwrap(z: Zlib, frame: seq<Byte>): Option<seq<Byte>> {
    if frame == [] then None
    else if frame[0] / 2 % 2 == 1 then z.decompress(frame[1..])
    else Some(frame[1..])
  }

  lemma {:induction false} UnwrapWrap(z: Zlib, payload: seq<Byte>, compress: bool)
    requires ZlibOk(z)
    ensures Unwrap(z, Wrap(z, payload, compress)) == Some(payload)
  {
    assert Wrap(z, payload, compress)[1..] == if compress then z.compress(payload) else payload;
  }

  function EncodeFrame(t: Tables, z: Zlib, node: Node, compress: bool): Option<seq<Byte>>
    requires TablesOk(t)
  {
    var payload := WriteNode(t, node);
    if payload.None? then None else Some(Wrap(z, payload.value, compress))
  }

  function DecodeFrame(t: Tables, z: Zlib, frame: seq<Byte>): Option<Node> {
    var payload := Unwrap(z, frame);
    if payload.None? then None
    else
      var p := ReadNode(t, payload.value);
      if p.Fail? then None else Some(p.value)
  }

  /** Decoding what was encoded gives the normal form of the tree, compressed or not; it gives the
      tree itself exactly when the tree is canonical. */
  lemma {:induction false} FrameRoundTrip(t: Tables, z: Zlib, node: Node, compress: bool)
    requires TablesOk(t) && ZlibOk(z) && TreeOk(node) && EncodeFrame(t, z, node, compress).Some?
    ensures DecodeFrame(t, z, EncodeFrame(t, z, node, compress).value) == NormalNode(t, node)
    ensures DecodeFrame(t, z, EncodeFrame(t, z, node, compress).value) == Some(node) <==> Canonical(t, node)
  {
    var payload := WriteNode(t, node).value;
    UnwrapWrap(z, payload, compress);
    assert ReadNode(t, payload) == Back(NormalNode(t, node), []) by {
      assert payload + [] == payload;
      NodeBack(t, node, []);
    }
    NodeKept(t, node);
  }

  /** Which plain strings the encoder refuses: packable ones above 254 characters, however short a
      byte string would be, and others of 4 GiB and more. */
  lemma {:induction false} StringWritable(t: Tables, s: string)
    requires TablesOk(t) && !IsToken(t, s) && '@' !in s && s != ""
    ensures WriteString(t, s).Some?
       <==> if AllIn(s, NIBBLE_ALPHABET) || AllIn(s, HEX_ALPHABET) then |s| <= 254 else |t.encode(s)| < 0x1_0000_0000
  {
    AlphabetsOk();
  }

  // ---- Which trees can be encoded ----

  predicate StringOk(t: Tables, s: string)
    decreases |s|, 0
  {
    || s == "" || IsToken(t, s)
    || if '@' in s then JidOk(t, ParseJid(s))
       else if AllIn(s, NIBBLE_ALPHABET) || AllIn(s, HEX_ALPHABET) then |s| <= 254
       else |t.encode(s)| < 0x1_0000_0000
  }

  predicate JidOk(t: Tables, jid: Jid)
    decreases Max(|jid.user|, |jid.server|), 1
  {
    StringOk(t, jid.user) && (jid.device != 0 || StringOk(t, jid.server))
  }

  lemma {:induction false} StringOkIff(t: Tables, s: string)
    requires TablesOk(t)
    ensures WriteString(t, s).Some? <==> StringOk(t, s)
    decreases |s|, 0
  {
    if s != "" && !IsToken(t, s) {
      if '@' in s {
        JidOkIff(t, ParseJid(s));
      } else {
        StringWritable(t, s);
      }
    }
  }

  lemma {:induction false} JidOkIff(t: Tables, jid: Jid)
    requires TablesOk(t)
    ensures WriteJid(t, jid).Some? <==> JidOk(t, jid)
    decreases Max(|jid.user|, |jid.server|), 1
  {
    StringOkIff(t, jid.user);
    StringOkIff(t, jid.server);
  }

  predicate ValueOk(t: Tables, v: Value) {
    match v
    case JidValue(jid) => JidOk(t, jid)
    case BoolValue(b) => StringOk(t, BoolText(b))
    case IntValue(n) => StringOk(t, IntText(n))
    case BytesValue(b) => |b| < 0x1_0000_0000
    case StrValue(s) => StringOk(t, s)
  }

  lemma {:induction false} ValueOkIff(t: Tables, v: Value)
    requires TablesOk(t)
    ensures WriteValue(t, v).Some? <==> ValueOk(t, v)
  {
    match v
    case JidValue(jid) => JidOkIff(t, jid);
    case BoolValue(b) => StringOkIff(t, BoolText(b));
    case IntValue(n) => StringOkIff(t, IntText(n));
    case BytesValue(_) =>
    case StrValue(s) => StringOkIff(t, s);
  }

  predicate AttrsOk(t: Tables, attrs: seq<Attr>) {
    forall i | 0 <= i < |attrs| :: StringOk(t, attrs[i].name) && ValueOk(t, attrs[i].value)
  }

  lemma {:induction false} AttrsOkIff(t: Tables, attrs: seq<Attr>)
    requires TablesOk(t)
    ensures WriteAttrs(t, attrs).Some? <==> AttrsOk(t, attrs)
    decreases |attrs|
  {
    if attrs != [] {
      StringOkIff(t, attrs[0].name);
      ValueOkIff(t, attrs[0].value);
      AttrsOkIff(t, attrs[1..]);
      assert AttrsOk(t, attrs)
        <==> StringOk(t, attrs[0].name) && ValueOk(t, attrs[0].value) && AttrsOk(t, attrs[1..]) by {
        assert attrs == [attrs[0]] + attrs[1..];
      }
    }
  }

  /** Counts below 2^16, strings and JIDs that can be written, byte strings below 4 GiB. */
  predicate Encodable(t: Tables, node: Node)
    decreases node, 1
  {
    && ItemCount(node) < 0x1_0000 && StringOk(t, node.tag) && AttrsOk(t, node.attrs)
    && match node.content
       case NoContent => true
       case Data(data) => |data| < 0x1_0000_0000
       case Text(s) => StringOk(t, s)
       case Children(nodes) => |nodes| < 0x1_0000 && EncodableAll(t, nodes)
  }

  predicate EncodableAll(t: Tables, nodes: seq<Node>)
    decreases nodes, 0
  {
    nodes != [] ==> Encodable(t, nodes[0]) && EncodableAll(t, nodes[1..])
  }

  lemma {:induction false} NodeEncodable(t: Tables, node: Node)
    requires TablesOk(t)
    ensures WriteNode(t, node).Some? <==> Encodable(t, node)
    decreases node, 1
  {
    StringOkIff(t, node.tag);
    AttrsOkIff(t, node.attrs);
    match node.content
    case NoContent =>
    case Data(_) =>
    case Text(s) => StringOkIff(t, s);
    case Children(nodes) => NodesEncodable(t, nodes);
  }

  lemma {:induction false} NodesEncodable(t: Tables, nodes: seq<Node>)
    requires TablesOk(t)
    ensures WriteNodes(t, nodes).Some? <==> EncodableAll(t, nodes)
    decreases nodes, 0
  {
    if nodes != [] {
      NodeEncodable(t, nodes[0]);
      NodesEncodable(t, nodes[1..]);
    }
  }

  /** The encoder raises exactly on the trees that are not encodable. */
  lemma {:induction false} FrameEncodable(t: Tables, z: Zlib, node: Node, compress: bool)
    requires TablesOk(t)
    ensures EncodeFrame(t, z, node, compress).Some? <==> Encodable(t, node)
  {
    NodeEncodable(t, node);
  }

  // ---- Inputs ----

  /** A tag with an '@' that is no token is encoded, and then rejected by the decoder. */
  lemma {:induction false} RejectedTree(t: Tables, z: Zlib)
    requires TablesOk(t) && ZlibOk(z) && !IsToken(t, "1@2")
    ensures var frame := EncodeFrame(t, z, Node("1@2", [], NoContent), false);
            frame.Some? && DecodeFrame(t, z, frame.value) == None
  {
    var node := Node("1@2", [], NoContent);
    DigitOk(t, "1");
    DigitOk(t, "2");
    assert ParseJid("1@2") == Jid("1", "2", 0) by {
      assert IndexOf("1@2", '@') == 1;
      assert "1@2"[..1] == "1" && "1@2"[2..] == "2";
    }
    assert StringOk(t, "1@2");
    FrameEncodable(t, z, node, false);
    FrameRoundTrip(t, z, node, false);
  }

  lemma {:induction false} DigitOk(t: Tables, s: string)
    requires |s| == 1 && IsDigit(s[0])
    ensures StringOk(t, s)
  {
    assert s[0] in NIBBLE_ALPHABET by {
      assert NIBBLE_ALPHABET[s[0] as int - '0' as int] == s[0];
    }
    assert '@' !in s;
  }

  /** A tag of 255 digits that is no token is refused, although its 255 bytes would fit. */
  lemma {:induction false} RefusedTree(t: Tables, z: Zlib, s: string)
    requires TablesOk(t) && |s| == 255 && !IsToken(t, s) && forall i | 0 <= i < |s| :: s[i] == '1'
    ensures EncodeFrame(t, z, Node(s, [], NoContent), false) == None
  {
    assert '1' in NIBBLE_ALPHABET by {
      assert NIBBLE_ALPHABET[1] == '1';
    }
    assert AllIn(s, NIBBLE_ALPHABET) && '@' !in s;
    FrameEncodable(t, z, Node(s, [], NoContent), false);
  }
}
