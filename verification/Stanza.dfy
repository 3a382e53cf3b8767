/** The binary stanza format: what src/pywhats/binary/encoder.py writes and what
    src/pywhats/binary/decoder.py reads, as functions on byte sequences. */
module Stanza {
  import opened Outcomes
  import opened Bytes
  import opened Addressing

  const LIST_EMPTY: Byte := 0
  const DICTIONARY_0: Byte := 236
  const DICTIONARY_3: Byte := 239
  const AD_JID: Byte := 247
  const LIST_8: Byte := 248
  const LIST_16: Byte := 249
  const JID_PAIR: Byte := 250
  const HEX_8: Byte := 251
  const BINARY_8: Byte := 252
  const BINARY_20: Byte := 253
  const BINARY_32: Byte := 254
  const NIBBLE_8: Byte := 255

  const NIBBLE_ALPHABET: string := "0123456789-.\0\0\0\0\0"
  const HEX_ALPHABET: string := "0123456789ABCDEF"

  /** The token tables, and UTF-8 as an encoder and a strict decoder. */
  datatype Tables = Tables(
    single: seq<string>, double: seq<seq<string>>,
    encode: string -> seq<Byte>, decode: seq<Byte> -> Option<string>)

  /** 236 single-byte slots of which the first is reserved, four dictionaries of at most 256 entries,
      and an encoding that can be decoded. */
  ghost predicate TablesOk(t: Tables) {
    && 1 <= |t.single| <= 236 && t.single[0] == ""
    && |t.double| <= 4 && (forall i | 0 <= i < |t.double| :: |t.double[i]| <= 256)
    && t.encode("") == [] && forall s :: t.decode(t.encode(s)) == Some(s)
  }

  datatype Value =
    | JidValue(jid: Jid)
    | IntValue(n: int)
    | BoolValue(b: bool)
    | BytesValue(bytes: seq<Byte>)
    | StrValue(s: string)

  datatype Attr = Attr(name: string, value: Value)

  datatype Content = NoContent | Data(data: seq<Byte>) | Text(text: string) | Children(nodes: seq<Node>)

  datatype Node = Node(tag: string, attrs: seq<Attr>, content: Content)

  // ---- Tokens ----

  /** The last slot before `n` that holds `s`, as a dictionary built in order keeps it. */
  function LastSlot(slots: seq<string>, s: string, n: nat): (r: Option<nat>)
    requires n <= |slots|
    ensures r.Some? ==> r.value < n && slots[r.value] == s
  {
    if n == 0 then None else if slots[n - 1] == s then Some(n - 1) else LastSlot(slots, s, n - 1)
  }

  /** The first slot from `i` on that holds `s`. */
  function FirstSlot(slots: seq<string>, s: string, i: nat): (r: Option<nat>)
    requires i <= |slots|
    ensures r.Some? ==> i <= r.value < |slots| && slots[r.value] == s
    decreases |slots| - i
  {
    if i == |slots| then None else if slots[i] == s then Some(i) else FirstSlot(slots, s, i + 1)
  }

  function LookupSingle(t: Tables, s: string): Option<nat> {
    if s == "" then None else LastSlot(t.single, s, |t.single|)
  }

  function LookupDouble(t: Tables, s: string, dict: nat): (r: Option<(nat, nat)>)
    requires dict <= |t.double|
    ensures r.Some? ==> dict <= r.value.0 < |t.double| && r.value.1 < |t.double[r.value.0]|
                        && t.double[r.value.0][r.value.1] == s != ""
    decreases |t.double| - dict
  {
    if s == "" || dict == |t.double| then None
    else
      var slot := FirstSlot(t.double[dict], s, 0);
      if slot.Some? then Some((dict, slot.value)) else LookupDouble(t, s, dict + 1)
  }

  function SingleAt(t: Tables, i: nat): Option<string> {
    if 0 < i < |t.single| && t.single[i] != "" then Some(t.single[i]) else None
  }

  function DoubleAt(t: Tables, dict: nat, i: nat): Option<string> {
    if dict < |t.double| && i < |t.double[dict]| && t.double[dict][i] != "" then Some(t.double[dict][i]) else None
  }

  predicate IsToken(t: Tables, s: string) {
    LookupSingle(t, s).Some? || LookupDouble(t, s, 0).Some?
  }

  lemma {:induction false} LastSlotFinds(slots: seq<string>, s: string, n: nat)
    requires n <= |slots|
    ensures LastSlot(slots, s, n).Some? <==> s in slots[..n]
  {
    if n > 0 {
      LastSlotFinds(slots, s, n - 1);
      assert slots[..n] == slots[..n - 1] + [slots[n - 1]];
    }
  }

  lemma {:induction false} FirstSlotFinds(slots: seq<string>, s: string, i: nat)
    requires i <= |slots|
    ensures FirstSlot(slots, s, i).Some? <==> s in slots[i..]
    decreases |slots| - i
  {
    if i < |slots| {
      FirstSlotFinds(slots, s, i + 1);
      assert slots[i..] == [slots[i]] + slots[i + 1..];
    }
  }

  lemma {:induction false} LookupDoubleFinds(t: Tables, s: string, dict: nat)
    requires dict <= |t.double| && s != ""
    ensures LookupDouble(t, s, dict).Some? <==> exists d | dict <= d < |t.double| :: s in t.double[d]
    decreases |t.double| - dict
  {
    if dict < |t.double| {
      FirstSlotFinds(t.double[dict], s, 0);
      assert t.double[dict][0..] == t.double[dict];
      LookupDoubleFinds(t, s, dict + 1);
    }
  }

  /** The encoder uses a token for exactly the non-empty strings of the tables. */
  lemma {:induction false} TokenIff(t: Tables, s: string)
    ensures IsToken(t, s) <==> s != "" && (s in t.single || exists d | 0 <= d < |t.double| :: s in t.double[d])
  {
    if s != "" {
      LastSlotFinds(t.single, s, |t.single|);
      assert t.single[..|t.single|] == t.single;
      LookupDoubleFinds(t, s, 0);
    }
  }

  // ---- Text of JIDs ----

  function IndexOf(s: string, c: char): (i: nat)
    ensures i <= |s| && (i < |s| ==> s[i] == c) && c !in s[..i]
  {
    if s == "" || s[0] == c then 0
    else
      var i := IndexOf(s[1..], c);
      assert s[..i + 1] == [s[0]] + s[1..][..i];
      i + 1
  }

  function LastIndexOf(s: string, c: char): (i: nat)
    requires c in s
    ensures i < |s| && s[i] == c
    decreases |s|
  {
    if s[|s| - 1] == c then |s| - 1
    else assert s == s[..|s| - 1] + [s[|s| - 1]]; LastIndexOf(s[..|s| - 1], c)
  }

  /** A trailing device number after `sep`, if there is one. */
  function Suffix(user: string, sep: char): (r: Option<(string, nat)>)
    ensures r.Some? ==> |r.value.0| < |user| && r.value.0 <= user
  {
    if sep !in user then None
    else
      var i := LastIndexOf(user, sep);
      if IsDigits(user[i + 1..]) then Some((user[..i], Number(user[i + 1..]))) else None
  }

  function ParseJid(text: string): (jid: Jid)
    ensures '@' in text ==> |jid.user| < |text| && |jid.server| < |text| && '@' !in jid.user
  {
    if '@' !in text then Jid("", text, 0)
    else
      var i := IndexOf(text, '@');
      var user, server := text[..i], text[i + 1..];
      if Suffix(user, ':').Some? then
        var (u, d) := Suffix(user, ':').value;
        assert forall c | c in u :: c in user;
        Jid(u, server, d)
      else if Suffix(user, '.').Some? then
        var (u, d) := Suffix(user, '.').value;
        assert forall c | c in u :: c in user;
        Jid(u, server, d)
      else Jid(user, server, 0)
  }

  // ---- Writing: `None` where the encoder raises ----

  function ListHeader(count: nat): (r: Option<seq<Byte>>) {
    if count == 0 then Some([LIST_EMPTY])
    else if count < 256 then Some([LIST_8, count])
    else if count < 0x1_0000 then Some([LIST_16, count / 256, count % 256])
    else None
  }

  function WriteBytes(data: seq<Byte>): (r: Option<seq<Byte>>) {
    var n := |data|;
    if n < 0x100 then Some([BINARY_8, n] + data)
    else if n < 0x10_0000 then Some([BINARY_20, n / 0x1_0000, n / 0x100 % 0x100, n % 0x100] + data)
    else if n < 0x1_0000_0000 then
      Some([BINARY_32, n / 0x100_0000, n / 0x1_0000 % 0x100, n / 0x100 % 0x100, n % 0x100] + data)
    else None
  }

  predicate AllIn(s: string, alphabet: string) {
    s != "" && forall i | 0 <= i < |s| :: s[i] != '\0' && s[i] in alphabet
  }

  /** Position of a symbol, below 16 for the symbols either alphabet can pack. */
  function Symbol(alphabet: string, c: char): nat {
    IndexOf(alphabet, c)
  }

  predicate AlphabetOk(alphabet: string) {
    |alphabet| >= 16 && forall c | c in alphabet && c != '\0' :: Symbol(alphabet, c) < 16
  }

  function Pack(s: string, alphabet: string): seq<Byte>
    requires AlphabetOk(alphabet) && (s == "" || AllIn(s, alphabet))
    decreases |s|
  {
    if s == "" then []
    else if |s| == 1 then [16 * Symbol(alphabet, s[0]) + 15]
    else [16 * Symbol(alphabet, s[0]) + Symbol(alphabet, s[1])] + Pack(s[2..], alphabet)
  }

  function WritePacked(s: string, tag: Byte, alphabet: string): Option<seq<Byte>>
    requires AlphabetOk(alphabet) && AllIn(s, alphabet)
  {
    var length := (|s| + 1) / 2;
    if length >= 0x80 then None
    else Some([tag, (if |s| % 2 == 1 then 0x80 else 0) + length] + Pack(s, alphabet))
  }

  lemma {:induction false} AlphabetsOk()
    ensures AlphabetOk(NIBBLE_ALPHABET) && AlphabetOk(HEX_ALPHABET)
  {
    forall c | c in NIBBLE_ALPHABET && c != '\0'
      ensures Symbol(NIBBLE_ALPHABET, c) < 16
    {
      SymbolBound(NIBBLE_ALPHABET, c, 12);
    }
    forall c | c in HEX_ALPHABET
      ensures Symbol(HEX_ALPHABET, c) < 16
    {
      SymbolBound(HEX_ALPHABET, c, 16);
    }
  }

  lemma {:induction false} SymbolBound(alphabet: string, c: char, n: nat)
    requires n <= |alphabet| && c in alphabet[..n]
    ensures Symbol(alphabet, c) < n
  {
  }

  function ServerToAgent(server: string): Byte {
    if server == "lid" then 1
    else if server == "hosted" then 128
    else if server == "hosted.lid" then 129
    else 0
  }

  function AgentToServer(agent: Byte): string {
    if agent == 1 then "lid"
    else if agent == 128 then "hosted"
    else if agent == 129 then "hosted.lid"
    else "s.whatsapp.net"
  }

  function Then(a: Option<seq<Byte>>, b: Option<seq<Byte>>): Option<seq<Byte>> {
    if a.Some? && b.Some? then Some(a.value + b.value) else None
  }

  function Max(a: nat, b: nat): nat {
    if a < b then b else a
  }

  function WriteString(t: Tables, s: string): (r: Option<seq<Byte>>)
    requires TablesOk(t)
    decreases |s|, 0
  {
    if s == "" then Some([BINARY_8, 0])
    else if LookupSingle(t, s).Some? then Some([LookupSingle(t, s).value])
    else if LookupDouble(t, s, 0).Some? then
      var (dict, i) := LookupDouble(t, s, 0).value;
      Some([DICTIONARY_0 + dict, i])
    else if '@' in s then WriteJid(t, ParseJid(s))
    else
      AlphabetsOk();
      if AllIn(s, NIBBLE_ALPHABET) then WritePacked(s, NIBBLE_8, NIBBLE_ALPHABET)
      else if AllIn(s, HEX_ALPHABET) then WritePacked(s, HEX_8, HEX_ALPHABET)
      else WriteBytes(t.encode(s))
  }

  function WriteJid(t: Tables, jid: Jid): (r: Option<seq<Byte>>)
    requires TablesOk(t)
    decreases Max(|jid.user|, |jid.server|), 1
  {
    if jid.device != 0 then
      Then(Some([AD_JID, ServerToAgent(jid.server), jid.device % 256]), WriteString(t, jid.user))
    else
      Then(Some([JID_PAIR]),
           Then(if jid.user != "" then WriteString(t, jid.user) else Some([LIST_EMPTY]), WriteString(t, jid.server)))
  }

  /** `str` of an integer. */
  function IntText(n: int): string {
    if n < 0 then "-" + Decimal(-n) else Decimal(n)
  }

  function BoolText(b: bool): string {
    if b then "true" else "false"
  }

  function WriteValue(t: Tables, v: Value): Option<seq<Byte>>
    requires TablesOk(t)
  {
    match v
    case JidValue(jid) => WriteJid(t, jid)
    case BoolValue(b) => WriteString(t, BoolText(b))
    case IntValue(n) => WriteString(t, IntText(n))
    case BytesValue(b) => WriteBytes(b)
    case StrValue(s) => WriteString(t, s)
  }

  function WriteAttrs(t: Tables, attrs: seq<Attr>): Option<seq<Byte>>
    requires TablesOk(t)
  {
    if attrs == [] then Some([])
    else Then(Then(WriteString(t, attrs[0].name), WriteValue(t, attrs[0].value)), WriteAttrs(t, attrs[1..]))
  }

  function HasContent(node: Node): nat {
    if node.content.NoContent? then 0 else 1
  }

  function ItemCount(node: Node): nat {
    1 + 2 * |node.attrs| + HasContent(node)
  }

  function WriteNode(t: Tables, node: Node): Option<seq<Byte>>
    requires TablesOk(t)
    decreases node, 1
  {
    Then(ListHeader(ItemCount(node)),
         Then(WriteString(t, node.tag),
              Then(WriteAttrs(t, node.attrs), WriteContent(t, node.content))))
  }

  function WriteContent(t: Tables, content: Content): Option<seq<Byte>>
    requires TablesOk(t)
    decreases content, 1
  {
    match content
    case NoContent => Some([])
    case Data(data) => WriteBytes(data)
    case Text(s) => WriteString(t, s)
    case Children(nodes) => Then(ListHeader(|nodes|), WriteNodes(t, nodes))
  }

  function WriteNodes(t: Tables, nodes: seq<Node>): Option<seq<Byte>>
    requires TablesOk(t)
    decreases nodes, 0
  {
    if nodes == [] then Some([]) else Then(WriteNode(t, nodes[0]), WriteNodes(t, nodes[1..]))
  }

  // ---- Reading: the value and the bytes after it, `None` where the decoder raises ----

  datatype Parse<T> = Fail | Got(value: T, rest: seq<Byte>)

  function ReadByte(b: seq<Byte>): (r: Parse<Byte>)
    ensures r.Got? ==> |r.rest| + 1 == |b|
  {
    if b == [] then Fail else Got(b[0], b[1..])
  }

  function ReadBytes(b: seq<Byte>, n: nat): (r: Parse<seq<Byte>>)
    ensures r.Got? ==> |r.rest| + n == |b|
  {
    if |b| < n then Fail else Got(b[..n], b[n..])
  }

  /** The number that big-endian digits stand for. */
  function Weighted(digits: seq<Byte>): nat
    decreases |digits|
  {
    if digits == [] then 0 else 0x100 * Weighted(digits[..|digits| - 1]) + digits[|digits| - 1] as int
  }

  function ReadListSize(b: seq<Byte>, tag: Byte): (r: Parse<nat>)
    ensures r.Got? ==> |r.rest| <= |b| && r.value < 0x1_0000
    ensures r.Got? && r.value > 0 ==> |r.rest| < |b|
  {
    if tag == LIST_EMPTY then Got(0, b)
    else if tag == LIST_8 then
      if |b| < 1 then Fail else Got(b[0], b[1..])
    else if tag == LIST_16 then
      if |b| < 2 then Fail else Got(256 * (b[0] as int) + b[1] as int, b[2..])
    else Fail
  }

  /** The symbols of packed bytes; of an odd string the last half byte is filler. */
  function Unpack(data: seq<Byte>, odd: bool, alphabet: string): string
    requires |alphabet| >= 16
    decreases |data|
  {
    if data == [] then ""
    else if odd && |data| == 1 then [alphabet[data[0] / 16]]
    else [alphabet[data[0] / 16], alphabet[data[0] % 16]] + Unpack(data[1..], odd, alphabet)
  }

  function ReadPacked(b: seq<Byte>, alphabet: string): (r: Parse<string>)
    requires |alphabet| >= 16
    ensures r.Got? ==> |r.rest| < |b|
  {
    if b == [] then Fail
    else
      var p := ReadBytes(b[1..], b[0] % 0x80);
      if p.Fail? then Fail else Got(Unpack(p.value, b[0] >= 0x80, alphabet), p.rest)
  }

  function ReadPayload(t: Tables, b: seq<Byte>, tag: Byte): (r: Parse<seq<Byte>>)
    ensures r.Got? ==> |r.rest| <= |b|
  {
    if tag == BINARY_8 then
      if |b| < 1 then Fail else ReadBytes(b[1..], b[0])
    else if tag == BINARY_20 then
      if |b| < 3 then Fail else ReadBytes(b[3..], Weighted([b[0] % 16, b[1], b[2]]))
    else if tag == BINARY_32 then
      if |b| < 4 then Fail
      else ReadBytes(b[4..], Weighted(b[..4]))
    else if tag == NIBBLE_8 then
      var p := ReadPacked(b, NIBBLE_ALPHABET);
      if p.Fail? then Fail else Got(t.encode(p.value), p.rest)
    else if tag == HEX_8 then
      var p := ReadPacked(b, HEX_ALPHABET);
      if p.Fail? then Fail else Got(t.encode(p.value), p.rest)
    else Fail
  }

  /** `_read_string_or_bytes`, with bytes decoded as text. */
  function ReadTagged(t: Tables, b: seq<Byte>, tag: Byte): (r: Parse<string>)
    ensures r.Got? ==> |r.rest| <= |b|
  {
    if tag == 0 then Got("", b)
    else if tag <= 235 then
      if SingleAt(t, tag).Some? then Got(SingleAt(t, tag).value, b) else Fail
    else if tag <= DICTIONARY_3 then
      if b != [] && DoubleAt(t, tag - DICTIONARY_0, b[0]).Some?
      then Got(DoubleAt(t, tag - DICTIONARY_0, b[0]).value, b[1..]) else Fail
    else
      var p := ReadPayload(t, b, tag);
      if p.Fail? || t.decode(p.value).None? then Fail else Got(t.decode(p.value).value, p.rest)
  }

  function ReadString(t: Tables, b: seq<Byte>): (r: Parse<string>)
    ensures r.Got? ==> |r.rest| < |b|
  {
    if b == [] then Fail else ReadTagged(t, b[1..], b[0])
  }

  function ReadJidPair(t: Tables, b: seq<Byte>): (r: Parse<Jid>)
    ensures r.Got? ==> |r.rest| < |b|
  {
    var user := ReadString(t, b);
    if user.Fail? then Fail
    else
      var server := ReadString(t, user.rest);
      if server.Fail? then Fail else Got(Jid(user.value, server.value, 0), server.rest)
  }

  function ReadAdJid(t: Tables, b: seq<Byte>): (r: Parse<Jid>)
    ensures r.Got? ==> |r.rest| < |b|
  {
    if |b| < 2 then Fail
    else
      var user := ReadString(t, b[2..]);
      if user.Fail? then Fail else Got(Jid(user.value, AgentToServer(b[0]), b[1]), user.rest)
  }

  function ReadValue(t: Tables, b: seq<Byte>): (r: Parse<Value>)
    ensures r.Got? ==> |r.rest| < |b|
  {
    if b == [] then Fail
    else if b[0] == JID_PAIR then
      var p := ReadJidPair(t, b[1..]);
      if p.Fail? then Fail else Got(JidValue(p.value), p.rest)
    else if b[0] == AD_JID then
      var p := ReadAdJid(t, b[1..]);
      if p.Fail? then Fail else Got(JidValue(p.value), p.rest)
    else
      var p := ReadTagged(t, b[1..], b[0]);
      if p.Fail? then Fail else Got(StrValue(p.value), p.rest)
  }

  /** Assignment into the attribute dictionary. */
  function PutAttr(attrs: seq<Attr>, a: Attr): seq<Attr> {
    if attrs == [] then [a]
    else if attrs[0].name == a.name then [a] + attrs[1..]
    else [attrs[0]] + PutAttr(attrs[1..], a)
  }

  function ReadAttrs(t: Tables, b: seq<Byte>, n: nat, attrs: seq<Attr>): (r: Parse<seq<Attr>>)
    ensures r.Got? ==> |r.rest| <= |b|
    decreases n
  {
    if n == 0 then Got(attrs, b)
    else
      var name := ReadString(t, b);
      if name.Fail? then Fail
      else
        var value := ReadValue(t, name.rest);
        if value.Fail? then Fail
        else ReadAttrs(t, value.rest, n - 1, PutAttr(attrs, Attr(name.value, value.value)))
  }

  /** A node takes at least three bytes, so that nesting is bounded by the input. */
  function ReadNode(t: Tables, b: seq<Byte>): (r: Parse<Node>)
    ensures r.Got? ==> |r.rest| + 3 <= |b|
    decreases |b|, 0
  {
    if b == [] then Fail
    else
      var count := ReadListSize(b[1..], b[0]);
      if count.Fail? || count.value == 0 then Fail
      else
        var tag := ReadString(t, count.rest);
        if tag.Fail? then Fail
        else
          var attrs := ReadAttrs(t, tag.rest, (count.value - 1) / 2, []);
          if attrs.Fail? then Fail
          else if count.value % 2 == 1 then Got(Node(tag.value, attrs.value, NoContent), attrs.rest)
          else
            var content := ReadContent(t, attrs.rest);
            if content.Fail? then Fail else Got(Node(tag.value, attrs.value, content.value), content.rest)
  }

  function ReadContent(t: Tables, b: seq<Byte>): (r: Parse<Content>)
    ensures r.Got? ==> |r.rest| < |b|
    decreases |b|, 2
  {
    if b == [] then Fail
    else if b[0] == LIST_EMPTY || b[0] == LIST_8 || b[0] == LIST_16 then
      var n := ReadListSize(b[1..], b[0]);
      if n.Fail? then Fail
      else
        var nodes := ReadNodes(t, n.rest, n.value);
        if nodes.Fail? then Fail else Got(Children(nodes.value), nodes.rest)
    else
      var p := ReadPayload(t, b[1..], b[0]);
      if p.Fail? then Fail else Got(Data(p.value), p.rest)
  }

  function ReadNodes(t: Tables, b: seq<Byte>, n: nat): (r: Parse<seq<Node>>)
    ensures r.Got? ==> |r.rest| + 3 * n <= |b| && |r.value| == n
    decreases |b|, 1, n
  {
    if n == 0 then Got([], b)
    else
      var first := ReadNode(t, b);
      if first.Fail? then Fail
      else
        var others := ReadNodes(t, first.rest, n - 1);
        if others.Fail? then Fail else Got([first.value] + others.value, others.rest)
  }
}
