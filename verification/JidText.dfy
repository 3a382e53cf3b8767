/** The text form of addresses: src/pywhats/binary/jid.py. */
module JidText {
  import opened Outcomes
  import opened Bytes
  import opened Addressing
  import opened Stanza
  import opened StanzaRoundTrip

  // ---- Parsing ----

  lemma {:induction false} LastIndexIs(x: string, y: string, c: char)
    requires c !in y
    ensures c in x + [c] + y && LastIndexOf(x + [c] + y, c) == |x|
  {
    var text := x + [c] + y;
    assert text[|x|] == c;
    LastIndexIsLast(text, c);
    var i := LastIndexOf(text, c);
    assert text == text[..i] + [c] + text[i + 1..];
    LastCut(text[..i], text[i + 1..], x, y, c);
  }

  lemma {:induction false} LastIndexIsLast(s: string, c: char)
    requires c in s
    ensures c !in s[LastIndexOf(s, c) + 1..]
    decreases |s|
  {
    var n := |s| - 1;
    if s[n] != c {
      assert s == s[..n] + [s[n]];
      LastIndexIsLast(s[..n], c);
      var i := LastIndexOf(s, c);
      assert s[i + 1..] == s[..n][i + 1..] + [s[n]];
    } else {
      assert s[n + 1..] == "";
    }
  }

  lemma {:induction false} CutBefore(x: string, y: string, x': string, y': string, c: char)
    requires x + [c] + y == x' + [c] + y'
    ensures |x| < |x'| ==> c in x'
  {
    if |x| < |x'| {
      assert (x' + [c] + y')[|x|] == (x + [c] + y)[|x|] == c;
      assert x'[|x|] == c;
    }
  }

  lemma {:induction false} FirstIndexIs(x: string, y: string, c: char)
    requires c !in x
    ensures IndexOf(x + [c] + y, c) == |x|
  {
    var text, i := x + [c] + y, IndexOf(x + [c] + y, c);
    assert text[|x|] == c;
    assert text[..|text|] == text;
    assert text == text[..i] + [c] + text[i + 1..];
    CutBefore(text[..i], text[i + 1..], x, y, c);
    CutBefore(x, y, text[..i], text[i + 1..], c);
  }

  /** The part before the first '@' is what the device number is looked for in. */
  lemma {:induction false} ParsedAt(part: string, server: string)
    requires '@' !in part
    ensures ParseJid(part + "@" + server)
         == if Suffix(part, ':').Some? then Jid(Suffix(part, ':').value.0, server, Suffix(part, ':').value.1)
            else if Suffix(part, '.').Some? then Jid(Suffix(part, '.').value.0, server, Suffix(part, '.').value.1)
            else Jid(part, server, 0)
  {
    var text := part + "@" + server;
    FirstIndexIs(part, server, '@');
    assert text == part + ['@'] + server;
    assert text[|part|] == '@' && text[..|part|] == part && text[|part| + 1..] == server;
  }

  /** Some `sep` in the text has nothing but digits after it. */
  predicate Numbered(part: string, sep: char) {
    exists i | 0 <= i < |part| :: part[i] == sep && IsDigits(part[i + 1..])
  }

  lemma {:induction false} SuffixIs(user: string, digits: string, sep: char)
    requires IsDigits(digits) && !IsDigit(sep)
    ensures Suffix(user + [sep] + digits, sep) == Some((user, Number(digits)))
  {
    var part := user + [sep] + digits;
    LastIndexIs(user, digits, sep);
    assert part[|user| + 1..] == digits && part[..|user|] == user;
  }

  lemma {:induction false} SuffixIff(part: string, sep: char)
    requires !IsDigit(sep)
    ensures Suffix(part, sep).Some? <==> Numbered(part, sep)
  {
    if i :| 0 <= i < |part| && part[i] == sep && IsDigits(part[i + 1..]) {
      assert part == part[..i] + [sep] + part[i + 1..];
      SuffixIs(part[..i], part[i + 1..], sep);
    }
  }

  /** A device number after ':' is read, whatever the user holds besides. */
  lemma {:induction false} ParsedColon(user: string, device: nat, server: string)
    requires '@' !in user
    ensures ParseJid(user + ":" + Decimal(device) + "@" + server) == Jid(user, server, device)
  {
    var part := user + ":" + Decimal(device);
    DecimalBack(device);
    SuffixIs(user, Decimal(device), ':');
    assert part == user + [':'] + Decimal(device);
    ParsedAt(part, server);
  }

  /** So is one after '.': where digits follow a '.', none follow a ':'. */
  lemma {:induction false} ParsedDot(user: string, device: nat, server: string)
    requires '@' !in user
    ensures ParseJid(user + "." + Decimal(device) + "@" + server) == Jid(user, server, device)
  {
    var part := user + "." + Decimal(device);
    DecimalBack(device);
    SuffixIs(user, Decimal(device), '.');
    assert part == user + ['.'] + Decimal(device);
    NoColon(user, Decimal(device));
    SuffixIff(part, ':');
    ParsedAt(part, server);
  }

  lemma {:induction false} NoColon(user: string, digits: string)
    requires IsDigits(digits)
    ensures !Numbered(user + "." + digits, ':')
  {
    var part := user + "." + digits;
    assert forall i | |user| < i < |part| :: part[i] == digits[i - |user| - 1];
    assert part[|user|] == '.';
    forall i | 0 <= i < |user| && part[i] == ':'
      ensures !IsDigits(part[i + 1..])
    {
      assert part[i + 1..][|user| - i - 1] == '.';
    }
  }

  /** Without a device number the user is kept whole, exactly if it does not end in digits after a ':' or a '.'. */
  lemma {:induction false} ParsedBare(user: string, server: string)
    requires '@' !in user
    ensures ParseJid(user + "@" + server) == Jid(user, server, 0) <==> !Numbered(user, ':') && !Numbered(user, '.')
  {
    ParsedAt(user, server);
    SuffixIff(user, ':');
    SuffixIff(user, '.');
  }

  // ---- Printing ----

  /** `jid_to_str` */
  function JidToText(jid: Jid): string {
    if jid.user == "" then jid.server
    else if jid.device != 0 then jid.user + "." + Decimal(jid.device) + "@" + jid.server
    else jid.user + "@" + jid.server
  }

  /** The addresses that survive being printed and parsed. */
  predicate Printable(jid: Jid) {
    if jid.user == "" then jid.device == 0 && '@' !in jid.server
    else '@' !in jid.user && (jid.device == 0 ==> !Numbered(jid.user, ':') && !Numbered(jid.user, '.'))
  }

  /** Parsing undoes printing exactly for them. */
  lemma {:induction false} PrintedBack(jid: Jid)
    ensures ParseJid(JidToText(jid)) == jid <==> Printable(jid)
  {
    var text := JidToText(jid);
    if jid.user == "" {
      assert text == jid.server;
      if '@' in text {
        assert |ParseJid(text).server| < |text|;
      }
    } else if '@' in jid.user {
      var tail := if jid.device != 0 then "." + Decimal(jid.device) + "@" + jid.server else "@" + jid.server;
      assert text == jid.user + tail;
      assert '@' in text;
      assert '@' !in ParseJid(text).user;
    } else if jid.device != 0 {
      ParsedDot(jid.user, jid.device, jid.server);
    } else {
      ParsedBare(jid.user, jid.server);
    }
  }

  /** Addresses that do not survive: their users end like those with a device. */
  lemma {:induction false} PrintedLost(user: string, device: nat, server: string)
    requires '@' !in user
    ensures ParseJid(JidToText(Jid(user + "." + Decimal(device), server, 0))) == Jid(user, server, device)
  {
    ParsedDot(user, device, server);
  }

  // ---- Attribute values that are text ----

  /** The address of a device, given as text that is no token, comes back as the JID of that device. */
  lemma {:induction false} DeviceBack(t: Tables, user: string, device: nat, server: string, rest: seq<Byte>)
    requires TablesOk(t) && '@' !in user && 0 < device < 256 && server in {"s.whatsapp.net", "lid", "hosted", "hosted.lid"}
    requires var s := user + ":" + Decimal(device) + "@" + server; !IsToken(t, s) && WriteString(t, s).Some?
    ensures var s := user + ":" + Decimal(device) + "@" + server;
            ReadValue(t, WriteString(t, s).value + rest) == Got(JidValue(Jid(user, server, device)), rest)
  {
    var s := user + ":" + Decimal(device) + "@" + server;
    ParsedColon(user, device, server);
    HasAt(user + ":" + Decimal(device), server);
    JidKept(t, Jid(user, server, device));
    AddressBack(t, s, Jid(user, server, device), rest);
  }

  lemma {:induction false} HasAt(part: string, server: string)
    ensures '@' in part + "@" + server
  {
    assert (part + "@" + server)[|part|] == '@';
  }

  lemma {:induction false} AddressBack(t: Tables, s: string, jid: Jid, rest: seq<Byte>)
    requires TablesOk(t) && ParseJid(s) == jid && !IsToken(t, s) && WriteString(t, s).Some?
    requires '@' in s && NormalJid(t, jid) == Some(jid)
    ensures ReadValue(t, WriteString(t, s).value + rest) == Got(JidValue(jid), rest)
  {
    StrValueBack(t, s, rest);
  }

  /** The number that a text stands for, with its sign. */
  function Signed(s: string): Option<int> {
    if IsDigits(s) then Some(Number(s) as int)
    else if s != "" && s[0] == '-' && IsDigits(s[1..]) then Some(0 - Number(s[1..]))
    else None
  }

  /** An integer and a truth value come back as the text that stands for them. */
  lemma {:induction false} ScalarsBack(t: Tables, n: int, b: bool, rest: seq<Byte>)
    requires TablesOk(t)
    ensures WriteValue(t, IntValue(n)).Some? ==>
              var r := ReadValue(t, WriteValue(t, IntValue(n)).value + rest);
              r.Got? && r.rest == rest && r.value.StrValue? && Signed(r.value.s) == Some(n)
    ensures WriteValue(t, BoolValue(b)).Some? ==>
              ReadValue(t, WriteValue(t, BoolValue(b)).value + rest) == Got(StrValue(if b then "true" else "false"), rest)
  {
    if WriteValue(t, IntValue(n)).Some? {
      ValueBack(t, IntValue(n), rest);
      SignedBack(n);
    }
    if WriteValue(t, BoolValue(b)).Some? {
      ValueBack(t, BoolValue(b), rest);
    }
  }

  lemma {:induction false} SignedBack(n: int)
    ensures Signed(IntText(n)) == Some(n)
  {
    if n < 0 {
      DecimalBack(-n);
      assert IntText(n)[1..] == Decimal(-n) && !IsDigit(IntText(n)[0]);
    } else {
      DecimalBack(n);
    }
  }
}
