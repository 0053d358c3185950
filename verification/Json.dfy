/**
 The JSON of the state payload: one flat object whose values are strings (section 7 of RFC 8259)
 and integers.  The printer is the compact ASCII form with sorted keys; the parser accepts every
 spelling of such an object: whitespace, escapes, any member order, repeated names.
 */
module Json {
  import opened Wrappers
  import Decimal

  datatype Value = JString(text: string) | JInt(number: int) {
    /** The value under Python's str(). */
    function Text(): string {
      match this
      case JString(t) => t
      case JInt(i) => Decimal.Print(i)
    }
  }

  datatype Member = Member(name: string, value: Value)

  // ------------------------------------------------------------------
  // Printing
  // ------------------------------------------------------------------

  function HexChar(n: nat): char
    requires n < 16
  {
    if n < 10 then '0' + n as char else 'a' + (n - 10) as char
  }

  function Hex4(n: nat): string
    requires n < 0x1_0000
  {
    var high := n / 0x100;
    var low := n % 0x100;
    [HexChar(high / 0x10), HexChar(high % 0x10), HexChar(low / 0x10), HexChar(low % 0x10)]
  }

  function UnicodeEscape(n: nat): string
    requires n < 0x1_0000
  {
    ['\\', 'u'] + Hex4(n)
  }

  /** The surrogate pair of a character above U+FFFF, and back. */
  function High(c: char): (n: nat)
    requires c as int >= 0x1_0000
    ensures 0xD800 <= n < 0xDC00
  {
    0xD800 + (c as int - 0x1_0000) / 0x400
  }

  function Low(c: char): (n: nat)
    requires c as int >= 0x1_0000
    ensures 0xDC00 <= n < 0xE000
  {
    0xDC00 + (c as int - 0x1_0000) % 0x400
  }

  function Joined(high: nat, low: nat): char
    requires 0xD800 <= high < 0xDC00 <= low < 0xE000
  {
    (0x1_0000 + (high - 0xD800) * 0x400 + (low - 0xDC00)) as char
  }

  lemma JoinedBack(c: char)
    requires c as int >= 0x1_0000
    ensures Joined(High(c), Low(c)) == c
  {
  }

  /** Everything outside the printable ASCII range is escaped, above U+FFFF as a surrogate pair. */
  function EscapeChar(c: char): string {
    if c == '"' then ['\\', '"']
    else if c == '\\' then ['\\', '\\']
    else if c == '\n' then ['\\', 'n']
    else if c == '\r' then ['\\', 'r']
    else if c == '\t' then ['\\', 't']
    else if c == 12 as char then ['\\', 'f']
    else if c == 8 as char then ['\\', 'b']
    else if ' ' <= c <= '~' then [c]
    else if c as int < 0x1_0000 then UnicodeEscape(c as int)
    else
      UnicodeEscape(High(c)) + UnicodeEscape(Low(c))
  }

  function EscapeChars(s: string): string {
    if s == [] then "" else EscapeChar(s[0]) + EscapeChars(s[1..])
  }

  function PrintString(s: string): string { ['"'] + EscapeChars(s) + ['"'] }

  function PrintValue(v: Value): string {
    match v
    case JString(t) => PrintString(t)
    case JInt(i) => Decimal.Print(i)
  }

  function PrintMember(m: Member): string { PrintString(m.name) + [':'] + PrintValue(m.value) }

  /** The members after the opening brace, the closing brace included. */
  function PrintMembers(ms: seq<Member>): string
    requires ms != []
  {
    PrintMember(ms[0]) + if |ms| == 1 then ['}'] else [','] + PrintMembers(ms[1..])
  }

  function PrintObject(ms: seq<Member>): string {
    if ms == [] then ['{', '}'] else ['{'] + PrintMembers(ms)
  }

  // ------------------------------------------------------------------
  // Parsing: each parser returns what it read and the text that is left
  // ------------------------------------------------------------------

  function HexDigit(c: char): (r: Option<nat>)
    ensures r.Some? ==> r.value < 16
  {
    if '0' <= c <= '9' then Some((c - '0') as int)
    else if 'a' <= c <= 'f' then Some((c - 'a') as int + 10)
    else if 'A' <= c <= 'F' then Some((c - 'A') as int + 10)
    else None
  }

  function ParseHex4(s: string): (r: Option<nat>)
    ensures r.Some? ==> |s| >= 4 && r.value < 0x1_0000
  {
    if |s| < 4 then None
    else
      var a, b, c, d := HexDigit(s[0]), HexDigit(s[1]), HexDigit(s[2]), HexDigit(s[3]);
      if a.Some? && b.Some? && c.Some? && d.Some? then
        Some(a.value * 0x1000 + b.value * 0x100 + c.value * 0x10 + d.value)
      else None
  }

  /** After a backslash and 'u'.  Surrogates are read in pairs only. */
  function ParseUnicode(s: string): (r: Option<(char, string)>)
    ensures r.Some? ==> |r.value.1| < |s|
  {
    match ParseHex4(s)
    case None => None
    case Some(n) =>
      if n < 0xD800 || n >= 0xE000 then Some((n as char, s[4..]))
      else if n >= 0xDC00 || |s| < 6 || s[4] != '\\' || s[5] != 'u' then None
      else
        match ParseHex4(s[6..])
        case None => None
        case Some(m) =>
          if m < 0xDC00 || m >= 0xE000 then None
          else Some((Joined(n, m), s[10..]))
  }

  function Unescape(c: char): Option<char> {
    if c == '"' || c == '\\' || c == '/' then Some(c)
    else if c == 'b' then Some(8 as char)
    else if c == 'f' then Some(12 as char)
    else if c == 'n' then Some('\n')
    else if c == 'r' then Some('\r')
    else if c == 't' then Some('\t')
    else None
  }

  /** One character of a string body; the closing quote is not one. */
  function ParseChar(s: string): (r: Option<(char, string)>)
    ensures r.Some? ==> |r.value.1| < |s|
  {
    if s == [] || s[0] == '"' || s[0] < ' ' then None
    else if s[0] != '\\' then Some((s[0], s[1..]))
    else if |s| < 2 then None
    else if s[1] == 'u' then ParseUnicode(s[2..])
    else
      match Unescape(s[1])
      case None => None
      case Some(c) => Some((c, s[2..]))
  }

  /** After the opening quote, up to and including the closing one. */
  function ParseChars(s: string): (r: Option<(string, string)>)
    ensures r.Some? ==> |r.value.1| < |s|
  {
    if s != [] && s[0] == '"' then Some(("", s[1..]))
    else
      match ParseChar(s)
      case None => None
      case Some((c, rest)) =>
        match ParseChars(rest)
        case None => None
        case Some((cs, rest2)) => Some(([c] + cs, rest2))
  }

  function DigitRun(s: string): (n: nat)
    ensures n <= |s| && forall i :: 0 <= i < n ==> Decimal.IsDigit(s[i])
  {
    if s != [] && Decimal.IsDigit(s[0]) then DigitRun(s[1..]) + 1 else 0
  }

  function ParseNat(s: string): (r: Option<(nat, string)>)
    ensures r.Some? ==> |r.value.1| < |s|
  {
    var run := DigitRun(s);
    if run == 0 then None
    else
      var used := if s[0] == '0' then 1 else run;
      var rest := s[used..];
      // A fraction or an exponent would make it another kind of number.
      if rest != [] && rest[0] in {'.', 'e', 'E'} then None
      else Some((Decimal.Value(s[..used]), rest))
  }

  function Negated(n: nat): int { 0 - n as int }

  function ParseInt(s: string): (r: Option<(int, string)>)
    ensures r.Some? ==> |r.value.1| < |s|
  {
    if s != [] && s[0] == '-' then
      match ParseNat(s[1..])
      case None => None
      case Some(p) => Some((Negated(p.0), p.1))
    else
      match ParseNat(s)
      case None => None
      case Some(p) => Some((p.0 as int, p.1))
  }

  function ParseValue(s: string): (r: Option<(Value, string)>)
    ensures r.Some? ==> |r.value.1| < |s|
  {
    if s != [] && s[0] == '"' then
      match ParseChars(s[1..])
      case None => None
      case Some((t, rest)) => Some((JString(t), rest))
    else
      match ParseInt(s)
      case None => None
      case Some((i, rest)) => Some((JInt(i), rest))
  }

  function SkipSpace(s: string): (r: string)
    ensures |r| <= |s|
  {
    if s != [] && s[0] in {' ', '\t', '\n', '\r'} then SkipSpace(s[1..]) else s
  }

  /** From the opening quote of a name to the last character of its value. */
  function ParseMember(s: string): (r: Option<(Member, string)>)
    ensures r.Some? ==> |r.value.1| < |s|
  {
    if s == [] || s[0] != '"' then None
    else
      match ParseChars(s[1..])
      case None => None
      case Some((name, rest)) =>
        var colon := SkipSpace(rest);
        if colon == [] || colon[0] != ':' then None
        else
          match ParseValue(SkipSpace(colon[1..]))
          case None => None
          case Some((v, rest2)) => Some((Member(name, v), rest2))
  }

  /** The last member of a repeated name wins. */
  function ParseMembers(s: string, acc: map<string, Value>): Option<(map<string, Value>, string)>
    decreases |s|
  {
    match ParseMember(s)
    case None => None
    case Some((m, rest)) =>
      var acc2 := acc[m.name := m.value];
      var next := SkipSpace(rest);
      if next == [] then None
      else if next[0] == '}' then Some((acc2, next[1..]))
      else if next[0] != ',' then None
      else ParseMembers(SkipSpace(next[1..]), acc2)
  }

  function ParseObject(s: string): Option<map<string, Value>> {
    var body := SkipSpace(s);
    if body == [] || body[0] != '{' then None
    else
      var inner := SkipSpace(body[1..]);
      if inner == [] then None
      else if inner[0] == '}' then if SkipSpace(inner[1..]) == [] then Some(map[]) else None
      else
        match ParseMembers(inner, map[])
        case None => None
        case Some((o, rest)) => if SkipSpace(rest) == [] then Some(o) else None
  }

  // ------------------------------------------------------------------
  // What was printed parses back
  // ------------------------------------------------------------------

  lemma Hex4Read(n: nat, rest: string)
    requires n < 0x1_0000
    ensures ParseHex4(Hex4(n) + rest) == Some(n)
    ensures (Hex4(n) + rest)[4..] == rest
  {
    var high, low := n / 0x100, n % 0x100;
    HexCharRead(high / 0x10);
    HexCharRead(high % 0x10);
    HexCharRead(low / 0x10);
    HexCharRead(low % 0x10);
    var s := Hex4(n) + rest;
    assert s == [HexChar(high / 0x10), HexChar(high % 0x10), HexChar(low / 0x10), HexChar(low % 0x10)] + rest;
    assert high == high / 0x10 * 0x10 + high % 0x10 && low == low / 0x10 * 0x10 + low % 0x10;
  }

  lemma HexCharRead(k: nat)
    requires k < 16
    ensures HexDigit(HexChar(k)) == Some(k)
  {
  }

  lemma EscapeRead(n: nat, rest: string)
    requires n < 0xD800 || 0xE000 <= n < 0x1_0000
    ensures ParseChar(UnicodeEscape(n) + rest) == Some((n as char, rest))
  {
    var s := Hex4(n) + rest;
    assert UnicodeEscape(n) + rest == ['\\', 'u'] + s;
    assert (['\\', 'u'] + s)[2..] == s;
    Hex4Read(n, rest);
  }

  lemma PairRead(hi: nat, lo: nat, rest: string)
    requires 0xD800 <= hi < 0xDC00 <= lo < 0xE000
    ensures ParseChar(UnicodeEscape(hi) + UnicodeEscape(lo) + rest)
            == Some((Joined(hi, lo), rest))
  {
    var t := Hex4(lo) + rest;
    var s := Hex4(hi) + (['\\', 'u'] + t);
    assert UnicodeEscape(hi) + UnicodeEscape(lo) + rest == ['\\', 'u'] + s;
    assert (['\\', 'u'] + s)[2..] == s && s[6..] == t && s[10..] == t[4..];
    assert ParseHex4(s) == Some(hi) by { Hex4Read(hi, ['\\', 'u'] + t); }
    assert ParseHex4(t) == Some(lo) && t[4..] == rest by { Hex4Read(lo, rest); }
  }

  lemma AstralRead(c: char, rest: string)
    requires c as int >= 0x1_0000
    ensures EscapeChar(c) != [] && EscapeChar(c)[0] == '\\'
    ensures ParseChar(EscapeChar(c) + rest) == Some((c, rest))
  {
    PairRead(High(c), Low(c), rest);
    JoinedBack(c);
  }

  lemma CharRead(c: char, rest: string)
    ensures EscapeChar(c) != [] && EscapeChar(c)[0] != '"'
    ensures ParseChar(EscapeChar(c) + rest) == Some((c, rest))
  {
    var e := EscapeChar(c);
    if c as int >= 0x1_0000 {
      AstralRead(c, rest);
    } else if |e| == 1 {
      assert (e + rest)[1..] == rest;
    } else if |e| == 2 {
      assert (e + rest)[2..] == rest;
    } else {
      EscapeRead(c as int, rest);
    }
  }

  lemma NextCharRead(c: char, tail: string, cs: string, rest: string)
    requires ParseChars(tail) == Some((cs, rest))
    ensures ParseChars(EscapeChar(c) + tail) == Some(([c] + cs, rest))
  {
    var e := EscapeChar(c) + tail;
    assert ParseChar(e) == Some((c, tail)) && e != [] && e[0] != '"' by { CharRead(c, tail); }
  }

  lemma {:induction false} CharsRead(s: string, rest: string)
    ensures ParseChars(EscapeChars(s) + ['"'] + rest) == Some((s, rest))
  {
    if s == [] {
      assert EscapeChars(s) + ['"'] + rest == ['"'] + rest;
      assert (['"'] + rest)[1..] == rest;
    } else {
      var tail := EscapeChars(s[1..]) + ['"'] + rest;
      CharsRead(s[1..], rest);
      NextCharRead(s[0], tail, s[1..], rest);
      assert EscapeChars(s) + ['"'] + rest == EscapeChar(s[0]) + tail;
      assert s == [s[0]] + s[1..];
    }
  }

  lemma StringRead(s: string, rest: string)
    ensures var p := PrintString(s) + rest; p[0] == '"' && ParseChars(p[1..]) == Some((s, rest))
  {
    var p := PrintString(s) + rest;
    assert p[1..] == EscapeChars(s) + ['"'] + rest;
    CharsRead(s, rest);
  }

  lemma {:induction false} RunOfDigits(d: string, rest: string)
    requires Decimal.AllDigits(d)
    requires rest == [] || !Decimal.IsDigit(rest[0])
    ensures DigitRun(d + rest) == |d|
  {
    if d == [] {
      assert d + rest == rest;
    } else {
      assert (d + rest)[1..] == d[1..] + rest;
      RunOfDigits(d[1..], rest);
    }
  }

  /** A printed member is followed by a comma or the closing brace. */
  predicate AfterValue(rest: string) { rest != [] && rest[0] in {',', '}'} }

  lemma NatRead(n: nat, rest: string)
    requires AfterValue(rest)
    ensures ParseNat(Decimal.Digits(n) + rest) == Some((n, rest))
  {
    var d := Decimal.Digits(n);
    Decimal.DigitsRead(n);
    RunOfDigits(d, rest);
    assert n == 0 ==> d == ['0'];
    assert (d + rest)[..|d|] == d && (d + rest)[|d|..] == rest;
  }

  lemma IntRead(i: int, rest: string)
    requires AfterValue(rest)
    ensures ParseInt(Decimal.Print(i) + rest) == Some((i, rest))
    ensures Decimal.Print(i) != [] && Decimal.Print(i)[0] !in {'"', ' ', '\t', '\n', '\r'}
  {
    var n: nat := if i < 0 then -i else i;
    var s := Decimal.Digits(n) + rest;
    assert ParseNat(s) == Some((n, rest)) by { NatRead(n, rest); }
    assert Decimal.IsDigit(s[0]) && Decimal.Digits(n) != [] by { Decimal.DigitsRead(n); }
    if i < 0 {
      assert Decimal.Print(i) + rest == ['-'] + s && (['-'] + s)[1..] == s;
    }
  }

  lemma ValueRead(v: Value, rest: string)
    requires AfterValue(rest)
    ensures ParseValue(PrintValue(v) + rest) == Some((v, rest))
    ensures SkipSpace(PrintValue(v) + rest) == PrintValue(v) + rest
  {
    match v
    case JString(t) => StringRead(t, rest);
    case JInt(i) => IntRead(i, rest);
  }

  /** The parts of a member, read one after the other. */
  lemma PartsRead(s: string, name: string, colon: string, v: Value, rest: string)
    requires s != [] && s[0] == '"' && ParseChars(s[1..]) == Some((name, colon))
    requires colon != [] && colon[0] == ':' && ParseValue(SkipSpace(colon[1..])) == Some((v, rest))
    ensures ParseMember(s) == Some((Member(name, v), rest))
  {
    assert SkipSpace(colon) == colon;
  }

  function AfterName(v: Value, rest: string): string { [':'] + (PrintValue(v) + rest) }

  lemma ColonRead(v: Value, rest: string)
    requires AfterValue(rest)
    ensures var colon := AfterName(v, rest);
            colon != [] && colon[0] == ':' && ParseValue(SkipSpace(colon[1..])) == Some((v, rest))
  {
    assert AfterName(v, rest)[1..] == PrintValue(v) + rest;
    ValueRead(v, rest);
  }

  lemma MemberText(m: Member, rest: string)
    ensures PrintMember(m) + rest == PrintString(m.name) + AfterName(m.value, rest)
  {
  }

  lemma MemberRead(m: Member, rest: string)
    requires AfterValue(rest)
    ensures ParseMember(PrintMember(m) + rest) == Some((m, rest))
  {
    var colon := AfterName(m.value, rest);
    assert ParseMember(PrintString(m.name) + colon) == Some((m, rest)) by {
      StringRead(m.name, colon);
      ColonRead(m.value, rest);
      PartsRead(PrintString(m.name) + colon, m.name, colon, m.value, rest);
    }
    MemberText(m, rest);
  }

  /** The members as the parser collects them: later ones replace earlier ones of the same name. */
  function Collect(ms: seq<Member>, acc: map<string, Value>): map<string, Value> {
    if ms == [] then acc else Collect(ms[1..], acc[ms[0].name := ms[0].value])
  }

  lemma StartsWithQuote(ms: seq<Member>)
    requires ms != []
    ensures PrintMembers(ms) != "" && PrintMembers(ms)[0] == '"'
    ensures SkipSpace(PrintMembers(ms)) == PrintMembers(ms)
  {
    assert PrintMember(ms[0])[0] == '"';
  }

  lemma LastMemberRead(m: Member, acc: map<string, Value>)
    ensures ParseMembers(PrintMember(m) + ['}'], acc) == Some((acc[m.name := m.value], ""))
  {
    assert ParseMember(PrintMember(m) + ['}']) == Some((m, ['}'])) by { MemberRead(m, ['}']); }
    assert SkipSpace(['}']) == ['}'] && ['}'][1..] == "";
  }

  lemma NextMemberRead(m: Member, more: string, acc: map<string, Value>)
    requires SkipSpace(more) == more
    ensures ParseMembers(PrintMember(m) + ([','] + more), acc) == ParseMembers(more, acc[m.name := m.value])
  {
    assert ParseMember(PrintMember(m) + ([','] + more)) == Some((m, [','] + more)) by {
      MemberRead(m, [','] + more);
    }
    assert SkipSpace([','] + more) == [','] + more && ([','] + more)[1..] == more;
  }

  lemma {:induction false} MembersRead(ms: seq<Member>, acc: map<string, Value>)
    requires ms != []
    ensures ParseMembers(PrintMembers(ms), acc) == Some((Collect(ms, acc), ""))
  {
    var m, acc2 := ms[0], acc[ms[0].name := ms[0].value];
    if |ms| == 1 {
      LastMemberRead(m, acc);
      assert Collect(ms[1..], acc2) == acc2;
    } else {
      var more := PrintMembers(ms[1..]);
      StartsWithQuote(ms[1..]);
      assert PrintMembers(ms) == PrintMember(m) + ([','] + more);
      NextMemberRead(m, more, acc);
      MembersRead(ms[1..], acc2);
    }
  }

  /** Printing any list of members and parsing the text gives the object they denote. */
  lemma ObjectRead(ms: seq<Member>)
    ensures ParseObject(PrintObject(ms)) == Some(Collect(ms, map[]))
  {
    var s := PrintObject(ms);
    assert SkipSpace(s) == s;
    if ms != [] {
      assert s[1..] == PrintMembers(ms);
      MembersRead(ms, map[]);
      StartsWithQuote(ms);
      assert SkipSpace("") == "";
    } else {
      assert s[1..] == ['}'];
    }
  }

  // ------------------------------------------------------------------
  // What is printed is ASCII without control characters
  // ------------------------------------------------------------------

  predicate Printable(s: string) { forall i :: 0 <= i < |s| ==> ' ' <= s[i] <= '~' }

  lemma CharPrintable(c: char)
    ensures Printable(EscapeChar(c))
  {
  }

  lemma {:induction false} EscapedPrintable(s: string)
    ensures Printable(EscapeChars(s))
  {
    if s != [] {
      CharPrintable(s[0]);
      EscapedPrintable(s[1..]);
    }
  }

  lemma MemberPrintable(m: Member)
    ensures Printable(PrintMember(m))
  {
    EscapedPrintable(m.name);
    match m.value
    case JString(t) => EscapedPrintable(t);
    case JInt(i) => Decimal.DigitsRead(if i < 0 then -i else i);
  }

  lemma {:induction false} MembersPrintable(ms: seq<Member>)
    requires ms != []
    ensures Printable(PrintMembers(ms))
  {
    MemberPrintable(ms[0]);
    if |ms| > 1 { MembersPrintable(ms[1..]); }
  }

  lemma ObjectPrintable(ms: seq<Member>)
    ensures Printable(PrintObject(ms))
  {
    if ms != [] { MembersPrintable(ms); }
  }
}
