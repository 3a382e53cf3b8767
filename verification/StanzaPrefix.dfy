/** The decoder of src/pywhats/binary/decoder.py reads from left to right: what follows a stanza does not matter, and
    no stanza that is cut short decodes. */
module StanzaPrefix {
  import opened Outcomes
  import opened Bytes
  import opened Addressing
  import opened Stanza
  import opened StanzaRoundTrip

  /** With more bytes after it, the same value is read, and those bytes are left too. */
  ghost predicate Extends<T(!new)>(r: Parse<T>, r': Parse<T>, x: seq<Byte>) {
    r.Got? ==> r' == Got(r.value, r.rest + x)
  }

  lemma {:induction false} Cut(b: seq<Byte>, x: seq<Byte>, k: nat)
    requires k <= |b|
    ensures (b + x)[..k] == b[..k] && (b + x)[k..] == b[k..] + x
  {
  }

  lemma {:induction false} BytesExtend(b: seq<Byte>, n: nat, x: seq<Byte>)
    ensures Extends(ReadBytes(b, n), ReadBytes(b + x, n), x)
  {
    if n <= |b| {
      Cut(b, x, n);
    }
  }

  lemma {:induction false} ListSizeExtends(b: seq<Byte>, tag: Byte, x: seq<Byte>)
    ensures Extends(ReadListSize(b, tag), ReadListSize(b + x, tag), x)
  {
    if |b| >= 1 {
      Cut(b, x, 1);
    }
    if |b| >= 2 {
      Cut(b, x, 2);
    }
  }

  lemma {:induction false} PackedExtends(b: seq<Byte>, alphabet: string, x: seq<Byte>)
    requires |alphabet| >= 16
    ensures Extends(ReadPacked(b, alphabet), ReadPacked(b + x, alphabet), x)
  {
    if b != [] {
      Cut(b, x, 1);
      BytesExtend(b[1..], b[0] % 0x80, x);
    }
  }

  lemma {:induction false} PayloadExtends(t: Tables, b: seq<Byte>, tag: Byte, x: seq<Byte>)
    ensures Extends(ReadPayload(t, b, tag), ReadPayload(t, b + x, tag), x)
  {
    if tag == BINARY_8 && |b| >= 1 {
      Cut(b, x, 1);
      BytesExtend(b[1..], b[0], x);
    } else if tag == BINARY_20 && |b| >= 3 {
      Cut(b, x, 3);
      BytesExtend(b[3..], Weighted([b[0] % 16, b[1], b[2]]), x);
    } else if tag == BINARY_32 && |b| >= 4 {
      Cut(b, x, 4);
      BytesExtend(b[4..], Weighted(b[..4]), x);
    } else if tag == NIBBLE_8 {
      PackedExtends(b, NIBBLE_ALPHABET, x);
    } else if tag == HEX_8 {
      PackedExtends(b, HEX_ALPHABET, x);
    }
  }

  lemma {:induction false} TaggedExtends(t: Tables, b: seq<Byte>, tag: Byte, x: seq<Byte>)
    ensures Extends(ReadTagged(t, b, tag), ReadTagged(t, b + x, tag), x)
  {
    if tag > DICTIONARY_3 {
      PayloadExtends(t, b, tag, x);
    } else if b != [] {
      Cut(b, x, 1);
    }
  }

  lemma {:induction false} StringExtends(t: Tables, b: seq<Byte>, x: seq<Byte>)
    ensures Extends(ReadString(t, b), ReadString(t, b + x), x)
  {
    if b != [] {
      Cut(b, x, 1);
      TaggedExtends(t, b[1..], b[0], x);
    }
  }

  lemma {:induction false} ValueExtends(t: Tables, b: seq<Byte>, x: seq<Byte>)
    ensures Extends(ReadValue(t, b), ReadValue(t, b + x), x)
  {
    if b != [] {
      Cut(b, x, 1);
      PairExtends(t, b[1..], x);
      AdExtends(t, b[1..], x);
      TaggedExtends(t, b[1..], b[0], x);
    }
  }

  lemma {:induction false} PairExtends(t: Tables, b: seq<Byte>, x: seq<Byte>)
    ensures Extends(ReadJidPair(t, b), ReadJidPair(t, b + x), x)
  {
    StringExtends(t, b, x);
    if ReadString(t, b).Got? {
      StringExtends(t, ReadString(t, b).rest, x);
    }
  }

  lemma {:induction false} AdExtends(t: Tables, b: seq<Byte>, x: seq<Byte>)
    ensures Extends(ReadAdJid(t, b), ReadAdJid(t, b + x), x)
  {
    if |b| >= 2 {
      Cut(b, x, 2);
      StringExtends(t, b[2..], x);
    }
  }

  lemma {:induction false} AttrsUnfold(t: Tables, b: seq<Byte>, n: nat, attrs: seq<Attr>, name: string, b1: seq<Byte>, value: Value, b2: seq<Byte>)
    requires n > 0 && ReadString(t, b) == Got(name, b1) && ReadValue(t, b1) == Got(value, b2)
    ensures ReadAttrs(t, b, n, attrs) == ReadAttrs(t, b2, n - 1, PutAttr(attrs, Attr(name, value)))
  {
  }

  lemma {:induction false} AttrsFirst(t: Tables, b: seq<Byte>, n: nat, attrs: seq<Attr>)
    requires n > 0 && ReadAttrs(t, b, n, attrs).Got?
    ensures ReadString(t, b).Got? && ReadValue(t, ReadString(t, b).rest).Got?
  {
  }

  lemma {:induction false} AttrsExtend(t: Tables, b: seq<Byte>, n: nat, attrs: seq<Attr>, x: seq<Byte>)
    ensures Extends(ReadAttrs(t, b, n, attrs), ReadAttrs(t, b + x, n, attrs), x)
    decreases n
  {
    if n > 0 && ReadAttrs(t, b, n, attrs).Got? {
      var name, b1, value, b2 := FirstAttr(t, b, n, attrs, x);
      var more := PutAttr(attrs, Attr(name, value));
      AttrsExtend(t, b2, n - 1, more, x);
      var rest, rest' := ReadAttrs(t, b2, n - 1, more), ReadAttrs(t, b2 + x, n - 1, more);
      assert ReadString(t, b) == Got(name, b1);
      assert ReadValue(t, b1) == Got(value, b2);
      assert ReadString(t, b + x) == Got(name, b1 + x);
      assert ReadValue(t, b1 + x) == Got(value, b2 + x);
      assert Extends(rest, rest', x);
      AttrsJoin(t, b, b + x, n, attrs, name, b1, value, b2, b1 + x, b2 + x, more, x, rest, rest');
    }
  }

  lemma {:induction false} FirstAttr(t: Tables, b: seq<Byte>, n: nat, attrs: seq<Attr>, x: seq<Byte>)
    returns (name: string, b1: seq<Byte>, value: Value, b2: seq<Byte>)
    requires n > 0 && ReadAttrs(t, b, n, attrs).Got?
    ensures ReadString(t, b) == Got(name, b1) && ReadValue(t, b1) == Got(value, b2)
    ensures ReadString(t, b + x) == Got(name, b1 + x) && ReadValue(t, b1 + x) == Got(value, b2 + x)
  {
    AttrsFirst(t, b, n, attrs);
    name, b1 := ReadString(t, b).value, ReadString(t, b).rest;
    value, b2 := ReadValue(t, b1).value, ReadValue(t, b1).rest;
    StringExtends(t, b, x);
    ValueExtends(t, b1, x);
  }

  lemma {:induction false} AttrsJoin(t: Tables, b: seq<Byte>, c: seq<Byte>, n: nat, attrs: seq<Attr>, name: string, b1: seq<Byte>, value: Value,
                                     b2: seq<Byte>, c1: seq<Byte>, c2: seq<Byte>, more: seq<Attr>, x: seq<Byte>, rest: Parse<seq<Attr>>,
                                     rest': Parse<seq<Attr>>)
    requires n > 0 && more == PutAttr(attrs, Attr(name, value))
    requires ReadString(t, b) == Got(name, b1) && ReadValue(t, b1) == Got(value, b2)
    requires ReadString(t, c) == Got(name, c1) && ReadValue(t, c1) == Got(value, c2)
    requires rest == ReadAttrs(t, b2, n - 1, more) && rest' == ReadAttrs(t, c2, n - 1, more) && Extends(rest, rest', x)
    ensures Extends(ReadAttrs(t, b, n, attrs), ReadAttrs(t, c, n, attrs), x)
  {
    AttrsUnfold(t, b, n, attrs, name, b1, value, b2);
    AttrsUnfold(t, c, n, attrs, name, c1, value, c2);
  }

  /** What comes before the content of a node: item count, tag and attributes. */
  ghost predicate Starts(t: Tables, b: seq<Byte>, count: nat, tag: string, attrs: seq<Attr>, rest: seq<Byte>) {
    && b != [] && ReadListSize(b[1..], b[0]).Got? && ReadListSize(b[1..], b[0]).value == count > 0
    && var p := ReadString(t, ReadListSize(b[1..], b[0]).rest);
       p.Got? && p.value == tag && ReadAttrs(t, p.rest, (count - 1) / 2, []) == Got(attrs, rest)
  }

  lemma {:induction false} NodeStarts(t: Tables, b: seq<Byte>) returns (count: nat, tag: string, attrs: seq<Attr>, rest: seq<Byte>)
    requires ReadNode(t, b).Got?
    ensures Starts(t, b, count, tag, attrs, rest) && |rest| < |b|
  {
    var size := ReadListSize(b[1..], b[0]);
    var p := ReadString(t, size.rest);
    var q := ReadAttrs(t, p.rest, (size.value - 1) / 2, []);
    count, tag, attrs, rest := size.value, p.value, q.value, q.rest;
  }

  lemma {:induction false} StartExtends(t: Tables, b: seq<Byte>, count: nat, tag: string, attrs: seq<Attr>, rest: seq<Byte>, x: seq<Byte>)
    requires Starts(t, b, count, tag, attrs, rest)
    ensures Starts(t, b + x, count, tag, attrs, rest + x)
  {
    Cut(b, x, 1);
    var size := ReadListSize(b[1..], b[0]);
    ListSizeExtends(b[1..], b[0], x);
    var p := ReadString(t, size.rest);
    StringExtends(t, size.rest, x);
    AttrsExtend(t, p.rest, (count - 1) / 2, [], x);
  }

  lemma {:induction false} NodeUnfold(t: Tables, b: seq<Byte>, count: nat, tag: string, attrs: seq<Attr>, rest: seq<Byte>)
    requires Starts(t, b, count, tag, attrs, rest)
    ensures count % 2 == 1 ==> ReadNode(t, b) == Got(Node(tag, attrs, NoContent), rest)
    ensures count % 2 == 0 ==>
              ReadNode(t, b) == (var c := ReadContent(t, rest); if c.Fail? then Fail else Got(Node(tag, attrs, c.value), c.rest))
  {
  }

  lemma {:induction false} NodeExtends(t: Tables, b: seq<Byte>, x: seq<Byte>)
    ensures Extends(ReadNode(t, b), ReadNode(t, b + x), x)
    decreases |b|, 0
  {
    if ReadNode(t, b).Got? {
      var count, tag, attrs, rest := NodeStarts(t, b);
      StartExtends(t, b, count, tag, attrs, rest, x);
      ContentExtends(t, rest, x);
      NodeUnfold(t, b, count, tag, attrs, rest);
      NodeUnfold(t, b + x, count, tag, attrs, rest + x);
    }
  }

  lemma {:induction false} ContentExtends(t: Tables, b: seq<Byte>, x: seq<Byte>)
    ensures Extends(ReadContent(t, b), ReadContent(t, b + x), x)
    decreases |b|, 2
  {
    if b != [] {
      Cut(b, x, 1);
      if b[0] == LIST_EMPTY || b[0] == LIST_8 || b[0] == LIST_16 {
        ListSizeExtends(b[1..], b[0], x);
        var n := ReadListSize(b[1..], b[0]);
        if n.Got? {
          NodesExtend(t, n.rest, n.value, x);
        }
      } else {
        PayloadExtends(t, b[1..], b[0], x);
      }
    }
  }

  lemma {:induction false} NodesExtend(t: Tables, b: seq<Byte>, n: nat, x: seq<Byte>)
    ensures Extends(ReadNodes(t, b, n), ReadNodes(t, b + x, n), x)
    decreases |b|, 1, n
  {
    if n > 0 {
      NodeExtends(t, b, x);
      var first := ReadNode(t, b);
      if first.Got? {
        NodesExtend(t, first.rest, n - 1, x);
      }
    }
  }

  /** The bytes of a tree that comes back. */
  ghost predicate Encodes(t: Tables, node: Node, out: seq<Byte>) {
    TablesOk(t) && TreeOk(node) && WriteNode(t, node) == Some(out) && NormalNode(t, node).Some?
  }

  lemma {:induction false} EncodedBack(t: Tables, node: Node, out: seq<Byte>, rest: seq<Byte>)
    requires Encodes(t, node, out)
    ensures ReadNode(t, out + rest) == Got(NormalNode(t, node).value, rest)
  {
    NodeBack(t, node, rest);
  }

  lemma {:induction false} NothingBefore(t: Tables, out: seq<Byte>, b: seq<Byte>, x: seq<Byte>, value: Node)
    requires out == b + x && ReadNode(t, out) == Got(value, []) && x != []
    ensures ReadNode(t, b).Fail?
  {
    NodeExtends(t, b, x);
  }

  /** A stanza that is cut short anywhere does not decode. */
  lemma {:induction false} CutShort(t: Tables, node: Node, out: seq<Byte>, k: nat)
    requires Encodes(t, node, out) && k < |out|
    ensures ReadNode(t, out[..k]).Fail?
  {
    EncodedBack(t, node, out, []);
    assert out + [] == out;
    NothingBefore(t, out, out[..k], out[k..], NormalNode(t, node).value);
  }

  /** Two stanzas of which one starts with the other have the same bytes, and decode to the same tree. */
  lemma {:induction false} PrefixFree(t: Tables, a: Node, out: seq<Byte>, b: Node, out': seq<Byte>, rest: seq<Byte>)
    requires Encodes(t, a, out) && Encodes(t, b, out') && out' == out + rest
    ensures rest == [] && NormalNode(t, a) == NormalNode(t, b)
  {
    EncodedBack(t, a, out, rest);
    EncodedBack(t, b, out', []);
    assert out' + [] == out';
  }
}
