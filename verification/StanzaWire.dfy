/** The bytes of a stanza, form by form, as src/pywhats/binary/encoder.py writes them: which form a string takes, and
    what its bytes are, in numbers. */
module StanzaWire {
  import opened Outcomes
  import opened Bytes
  import opened Addressing
  import opened Stanza
  import JidText

  // ---- Lengths ----

  /** A list of `n` items: nothing, one byte, or two bytes with the high one first; more cannot be written. */
  lemma {:induction false} ListWire(n: nat)
    ensures ListHeader(n).None? <==> n >= 0x1_0000
    ensures n == 0 ==> ListHeader(n) == Some([0])
    ensures 0 < n < 0x100 ==> ListHeader(n) == Some([248, n])
    ensures 0x100 <= n < 0x1_0000 ==>
              var b := ListHeader(n).value; |b| == 3 && b[0] == 249 && 0x100 * b[1] as int + b[2] as int == n
  {
  }

  /** The length of a byte string takes one, three or four bytes. */
  function Width(n: nat): nat {
    if n < 0x100 then 1 else if n < 0x10_0000 then 3 else 4
  }

  /** A tag, the length with its high byte first, and the bytes. */
  predicate Framed(b: seq<Byte>, tag: Byte, data: seq<Byte>) {
    var width := Width(|data|);
    |b| == 1 + width + |data| && b[0] == tag && Weighted(b[1..1 + width]) == |data| && b[1 + width..] == data
  }

  /** Byte strings: the three forms, and what cannot be written. */
  lemma {:induction false} BytesWire(data: seq<Byte>)
    ensures WriteBytes(data).None? <==> |data| >= 0x1_0000_0000
    ensures |data| < 0x100 ==> Framed(WriteBytes(data).value, 252, data)
    ensures 0x100 <= |data| < 0x10_0000 ==> Framed(WriteBytes(data).value, 253, data)
    ensures 0x10_0000 <= |data| < 0x1_0000_0000 ==> Framed(WriteBytes(data).value, 254, data)
  {
    var n := |data|;
    if n < 0x100 {
      WeightedOne(n);
      FramedParts(WriteBytes(data).value, 252, [n], data);
    } else if n < 0x10_0000 {
      DigitsThree(n);
      FramedParts(WriteBytes(data).value, 253, [n / 0x1_0000, n / 0x100 % 0x100, n % 0x100], data);
    } else if n < 0x1_0000_0000 {
      DigitsFour(n);
      FramedParts(WriteBytes(data).value, 254, [n / 0x100_0000, n / 0x1_0000 % 0x100, n / 0x100 % 0x100, n % 0x100], data);
    }
  }

  lemma {:induction false} FramedParts(b: seq<Byte>, tag: Byte, digits: seq<Byte>, data: seq<Byte>)
    requires b == [tag] + digits + data && |digits| == Width(|data|) && Weighted(digits) == |data|
    ensures Framed(b, tag, data)
  {
    assert b[1..1 + |digits|] == digits && b[1 + |digits|..] == data;
  }

  lemma {:induction false} DigitsThree(n: nat)
    requires n < 0x10_0000
    ensures Weighted([n / 0x1_0000, n / 0x100 % 0x100, n % 0x100]) == n
  {
    WeightedThree(n / 0x1_0000, n / 0x100 % 0x100, n % 0x100);
  }

  lemma {:induction false} DigitsFour(n: nat)
    requires n < 0x1_0000_0000
    ensures Weighted([n / 0x100_0000, n / 0x1_0000 % 0x100, n / 0x100 % 0x100, n % 0x100]) == n
  {
    var a, b, c := n / 0x100, n / 0x1_0000, n / 0x100_0000;
    assert b == a / 0x100 && c == b / 0x100;
    assert n == 0x100 * a + n % 0x100 && a == 0x100 * b + a % 0x100 && b == 0x100 * c + b % 0x100;
    WeightedFour(c, b % 0x100, a % 0x100, n % 0x100);
  }

  lemma {:induction false} WeightedOne(a: Byte)
    ensures Weighted([a]) == a as int
  {
    assert [a][..0] == [];
  }

  lemma {:induction false} WeightedThree(a: Byte, b: Byte, c: Byte)
    ensures Weighted([a, b, c]) == 0x1_0000 * a as int + 0x100 * b as int + c as int
  {
    assert [a, b, c][..2] == [a, b] && [a, b][..1] == [a];
    WeightedOne(a);
  }

  lemma {:induction false} WeightedFour(a: Byte, b: Byte, c: Byte, d: Byte)
    ensures Weighted([a, b, c, d]) == 0x100_0000 * a as int + 0x1_0000 * b as int + 0x100 * c as int + d as int
  {
    assert [a, b, c, d][..3] == [a, b, c];
    WeightedThree(a, b, c);
  }

  // ---- Strings ----

  /** The half byte of a character in the decimal alphabet. */
  function Nibble(c: char): nat {
    if IsDigit(c) then c as nat - '0' as nat else if c == '-' then 10 else 11
  }

  /** The half byte of a character in the hexadecimal alphabet. */
  function Hex(c: char): nat {
    if IsDigit(c) then c as nat - '0' as nat else if c >= 'A' then c as nat - 'A' as nat + 10 else 0
  }

  predicate Decimals(s: string) {
    s != "" && forall i | 0 <= i < |s| :: IsDigit(s[i]) || s[i] == '-' || s[i] == '.'
  }

  predicate Hexadecimals(s: string) {
    s != "" && forall i | 0 <= i < |s| :: IsDigit(s[i]) || 'A' <= s[i] <= 'F'
  }

  /** Half byte `k` of packed bytes, the high half first. */
  function HalfAt(data: seq<Byte>, k: nat): nat
    requires k / 2 < |data|
  {
    if k % 2 == 0 then data[k / 2] as nat / 16 else data[k / 2] as nat % 16
  }

  lemma {:induction false} IsAlphabet(s: string)
    ensures AllIn(s, NIBBLE_ALPHABET) <==> Decimals(s)
    ensures AllIn(s, HEX_ALPHABET) <==> Hexadecimals(s)
  {
    forall i | 0 <= i < |s|
      ensures (s[i] != '\0' && s[i] in NIBBLE_ALPHABET) <==> IsDigit(s[i]) || s[i] == '-' || s[i] == '.'
      ensures (s[i] != '\0' && s[i] in HEX_ALPHABET) <==> IsDigit(s[i]) || 'A' <= s[i] <= 'F'
    {
      InAlphabets(s[i]);
    }
  }

  lemma {:induction false} InAlphabets(c: char)
    ensures (c != '\0' && c in NIBBLE_ALPHABET) <==> IsDigit(c) || c == '-' || c == '.'
    ensures (c != '\0' && c in HEX_ALPHABET) <==> IsDigit(c) || 'A' <= c <= 'F'
  {
    if IsDigit(c) {
      var i := c as nat - '0' as nat;
      assert NIBBLE_ALPHABET[i] == c && HEX_ALPHABET[i] == c;
    } else if c == '-' {
      assert NIBBLE_ALPHABET[10] == c;
    } else if c == '.' {
      assert NIBBLE_ALPHABET[11] == c;
    } else if 'A' <= c <= 'F' {
      assert HEX_ALPHABET[c as nat - 'A' as nat + 10] == c;
    }
  }

  lemma {:induction false} SymbolAt(alphabet: string, i: nat, c: char)
    requires i < |alphabet| && alphabet[i] == c && c !in alphabet[..i]
    ensures Symbol(alphabet, c) == i
  {
    assert alphabet == alphabet[..i] + [c] + alphabet[i + 1..];
    JidText.FirstIndexIs(alphabet[..i], alphabet[i + 1..], c);
  }

  lemma {:induction false} DigitsFirst(i: nat)
    requires i < 10
    ensures NIBBLE_ALPHABET[i] as nat == HEX_ALPHABET[i] as nat == '0' as nat + i
  {
  }

  lemma {:induction false} DigitSymbols(c: char)
    requires IsDigit(c)
    ensures Symbol(NIBBLE_ALPHABET, c) == Symbol(HEX_ALPHABET, c) == c as nat - '0' as nat
  {
    var i := c as nat - '0' as nat;
    DigitsFirst(i);
    forall j | 0 <= j < i
      ensures NIBBLE_ALPHABET[j] != c && HEX_ALPHABET[j] != c
    {
      DigitsFirst(j);
    }
    SymbolAt(NIBBLE_ALPHABET, i, c);
    SymbolAt(HEX_ALPHABET, i, c);
  }

  lemma {:induction false} MarkSymbols()
    ensures Symbol(NIBBLE_ALPHABET, '-') == 10 && Symbol(NIBBLE_ALPHABET, '.') == 11
  {
    MarkAt('-', 10);
    MarkAt('.', 11);
  }

  lemma {:induction false} MarkAt(c: char, i: nat)
    requires (c == '-' && i == 10) || (c == '.' && i == 11)
    ensures Symbol(NIBBLE_ALPHABET, c) == i
  {
    forall j | 0 <= j < i
      ensures NIBBLE_ALPHABET[j] != c
    {
      if j < 10 {
        DigitsFirst(j);
      }
    }
    assert NIBBLE_ALPHABET[i] == c;
    SymbolAt(NIBBLE_ALPHABET, i, c);
  }

  lemma {:induction false} LettersNext(i: nat)
    requires 10 <= i < 16
    ensures HEX_ALPHABET[i] as nat == 'A' as nat + i - 10
  {
  }

  lemma {:induction false} LetterSymbols(c: char)
    requires 'A' <= c <= 'F'
    ensures Symbol(HEX_ALPHABET, c) == c as nat - 'A' as nat + 10
  {
    var i := c as nat - 'A' as nat + 10;
    LettersNext(i);
    forall j | 0 <= j < i
      ensures HEX_ALPHABET[j] != c
    {
      if j < 10 {
        DigitsFirst(j);
      } else {
        LettersNext(j);
      }
    }
    SymbolAt(HEX_ALPHABET, i, c);
  }

  lemma {:induction false} PackLength(s: string, alphabet: string)
    requires AlphabetOk(alphabet) && (s == "" || AllIn(s, alphabet))
    ensures |Pack(s, alphabet)| == (|s| + 1) / 2
    decreases |s|
  {
    if |s| > 1 {
      PackLength(s[2..], alphabet);
    }
  }

  lemma {:induction false} FirstHalves(data: seq<Byte>, x: nat, y: nat)
    requires data != [] && x < 16 && y < 16 && data[0] as nat == 16 * x + y
    ensures HalfAt(data, 0) == x && HalfAt(data, 1) == y
  {
  }

  lemma {:induction false} LaterHalves(data: seq<Byte>, k: nat)
    requires k >= 2 && k / 2 < |data|
    ensures HalfAt(data, k) == HalfAt(data[1..], k - 2)
  {
  }

  /** Packed characters take half a byte each, with 15 after an odd number of them. */
  lemma {:induction false} PackedAt(s: string, alphabet: string, k: nat)
    requires AlphabetOk(alphabet) && AllIn(s, alphabet) && k < |s| + |s| % 2
    ensures |Pack(s, alphabet)| == (|s| + 1) / 2
    ensures HalfAt(Pack(s, alphabet), k) == if k < |s| then Symbol(alphabet, s[k]) else 15
    decreases |s|
  {
    var data := Pack(s, alphabet);
    PackLength(s, alphabet);
    assert Symbol(alphabet, s[0]) < 16;
    if |s| == 1 {
      FirstHalves(data, Symbol(alphabet, s[0]), 15);
    } else {
      assert Symbol(alphabet, s[1]) < 16;
      if k < 2 {
        FirstHalves(data, Symbol(alphabet, s[0]), Symbol(alphabet, s[1]));
      } else {
        assert data[1..] == Pack(s[2..], alphabet);
        LaterHalves(data, k);
        PackedAt(s[2..], alphabet, k - 2);
      }
    }
  }

  /** The packed form: a tag, the number of bytes with the top bit set for an odd string, and the half bytes. */
  ghost predicate Packed(b: seq<Byte>, s: string, hex: bool) {
    && |b| == 2 + (|s| + 1) / 2 && b[0] == (if hex then 251 else 255)
    && b[1] as int == (|s| + 1) / 2 + (if |s| % 2 == 1 then 128 else 0)
    && forall k | 0 <= k < |s| + |s| % 2 :: HalfOf(b, k) == HalfIs(s, hex, k)
  }

  function HalfIs(s: string, hex: bool, k: nat): nat {
    if k >= |s| then 15 else if hex then Hex(s[k]) else Nibble(s[k])
  }

  function HalfOf(b: seq<Byte>, k: nat): nat
    requires 2 + k / 2 < |b|
  {
    HalfAt(b[2..], k)
  }

  lemma {:induction false} PackedParts(s: string, hex: bool, alphabet: string, b: seq<Byte>)
    requires AlphabetOk(alphabet) && AllIn(s, alphabet) && |s| <= 254
    requires forall k | 0 <= k < |s| :: Symbol(alphabet, s[k]) == if hex then Hex(s[k]) else Nibble(s[k])
    requires b == [if hex then 251 else 255, (if |s| % 2 == 1 then 0x80 else 0) + (|s| + 1) / 2] + Pack(s, alphabet)
    ensures Packed(b, s, hex)
  {
    var data := Pack(s, alphabet);
    PackLength(s, alphabet);
    assert b[2..] == data;
    forall k | 0 <= k < |s| + |s| % 2
      ensures HalfOf(b, k) == HalfIs(s, hex, k)
    {
      PackedHalf(s, hex, alphabet, data, k);
    }
  }

  lemma {:induction false} PackedHalf(s: string, hex: bool, alphabet: string, data: seq<Byte>, k: nat)
    requires AlphabetOk(alphabet) && AllIn(s, alphabet) && data == Pack(s, alphabet) && k < |s| + |s| % 2
    requires k < |s| ==> Symbol(alphabet, s[k]) == if hex then Hex(s[k]) else Nibble(s[k])
    ensures k / 2 < |data| && HalfAt(data, k) == HalfIs(s, hex, k)
  {
    PackedAt(s, alphabet, k);
  }

  lemma {:induction false} DecimalWire(s: string)
    requires Decimals(s)
    ensures AlphabetOk(NIBBLE_ALPHABET) && AllIn(s, NIBBLE_ALPHABET)
    ensures var r := WritePacked(s, NIBBLE_8, NIBBLE_ALPHABET); (r.Some? <==> |s| <= 254) && (r.Some? ==> Packed(r.value, s, false))
  {
    IsAlphabet(s);
    AlphabetsOk();
    if |s| <= 254 {
      forall k | 0 <= k < |s|
        ensures Symbol(NIBBLE_ALPHABET, s[k]) == Nibble(s[k])
      {
        SymbolIs(s[k], false);
      }
      PackedParts(s, false, NIBBLE_ALPHABET, WritePacked(s, NIBBLE_8, NIBBLE_ALPHABET).value);
    }
  }

  lemma {:induction false} HexWire(s: string)
    requires Hexadecimals(s)
    ensures AlphabetOk(HEX_ALPHABET) && AllIn(s, HEX_ALPHABET)
    ensures var r := WritePacked(s, HEX_8, HEX_ALPHABET); (r.Some? <==> |s| <= 254) && (r.Some? ==> Packed(r.value, s, true))
  {
    IsAlphabet(s);
    AlphabetsOk();
    if |s| <= 254 {
      forall k | 0 <= k < |s|
        ensures Symbol(HEX_ALPHABET, s[k]) == Hex(s[k])
      {
        SymbolIs(s[k], true);
      }
      PackedParts(s, true, HEX_ALPHABET, WritePacked(s, HEX_8, HEX_ALPHABET).value);
    }
  }

  lemma {:induction false} SymbolIs(c: char, hex: bool)
    requires IsDigit(c) || (if hex then 'A' <= c <= 'F' else c == '-' || c == '.')
    ensures if hex then Symbol(HEX_ALPHABET, c) == Hex(c) else Symbol(NIBBLE_ALPHABET, c) == Nibble(c)
  {
    if IsDigit(c) {
      DigitSymbols(c);
    } else if hex {
      LetterSymbols(c);
    } else {
      MarkSymbols();
    }
  }

  /** Which form a string takes: empty, a token of one or two bytes, an address, decimal, hexadecimal, or raw. */
  lemma {:induction false} StringWire(t: Tables, s: string)
    requires TablesOk(t)
    ensures s == "" ==> WriteString(t, s) == Some([252, 0])
    ensures s != "" && s in t.single ==> exists i | 0 < i < |t.single| :: t.single[i] == s && WriteString(t, s) == Some([i])
    ensures s != "" && s !in t.single && IsToken(t, s) ==>
              exists d, i | 0 <= d < |t.double| && 0 <= i < |t.double[d]| :: t.double[d][i] == s && WriteString(t, s) == Some([236 + d, i])
    ensures s != "" && !IsToken(t, s) ==>
              if '@' in s then WriteString(t, s) == WriteJid(t, ParseJid(s))
              else if Decimals(s) || Hexadecimals(s) then
                (WriteString(t, s).Some? <==> |s| <= 254) && (|s| <= 254 ==> Packed(WriteString(t, s).value, s, !Decimals(s)))
              else WriteString(t, s) == WriteBytes(t.encode(s))
  {
    IsAlphabet(s);
    if s != "" {
      LastSlotFinds(t.single, s, |t.single|);
      assert t.single[..|t.single|] == t.single;
      if LookupSingle(t, s).Some? {
        var i := LookupSingle(t, s).value;
        assert t.single[i] == s && WriteString(t, s) == Some([i]);
      } else if LookupDouble(t, s, 0).Some? {
        var (d, i) := LookupDouble(t, s, 0).value;
        assert t.double[d][i] == s && WriteString(t, s) == Some([236 + d, i]);
      } else if '@' !in s {
        if Decimals(s) {
          DecimalWire(s);
        } else if Hexadecimals(s) {
          HexWire(s);
        }
      }
    }
  }

  // ---- Addresses ----

  /** The number that stands for a server. */
  function Agent(server: string): Byte {
    if server == "lid" then 1 else if server == "hosted" then 128 else if server == "hosted.lid" then 129 else 0
  }

  /** With a device: the tag, the server's number, the device modulo 256, and the user. */
  lemma {:induction false} DeviceWire(t: Tables, jid: Jid, user: Option<seq<Byte>>)
    requires TablesOk(t) && jid.device != 0 && user == WriteString(t, jid.user)
    ensures WriteJid(t, jid).Some? <==> user.Some?
    ensures user.Some? ==> WriteJid(t, jid).value == [247, Agent(jid.server), jid.device % 256] + user.value
  {
  }

  /** Without: the tag, the user or an empty list, and the server. */
  lemma {:induction false} PairWire(t: Tables, jid: Jid, user: Option<seq<Byte>>, server: Option<seq<Byte>>)
    requires TablesOk(t) && jid.device == 0 && server == WriteString(t, jid.server)
    requires user == if jid.user != "" then WriteString(t, jid.user) else Some([0])
    ensures WriteJid(t, jid).Some? <==> user.Some? && server.Some?
    ensures user.Some? && server.Some? ==> WriteJid(t, jid).value == [250] + user.value + server.value
  {
    assert WriteJid(t, jid) == Then(Some([JID_PAIR]), Then(user, server));
    if user.Some? && server.Some? {
      assert [250] + (user.value + server.value) == [250] + user.value + server.value;
    }
  }
}
