/**
 The texts the parser reads, told by the grammar of RFC 8259 for one flat object of strings and integers:
 it reads exactly these, and every one of them to the object it denotes.
 */
module JsonGrammar {
  import opened Wrappers
  import opened Json
  import Decimal

  // ------------------------------------------------------------------
  // The grammar
  // ------------------------------------------------------------------

  predicate Blanks(t: string) { forall i :: 0 <= i < |t| ==> t[i] in {' ', '\t', '\n', '\r'} }

  predicate Nibble(c: char, k: int) { 0 <= k < 16 && (c == "0123456789abcdef"[k] || c == "0123456789ABCDEF"[k]) }

  ghost predicate HexIs(t: string, n: int) {
    |t| == 4 && exists a, b, c, d :: Nibble(t[0], a) && Nibble(t[1], b) && Nibble(t[2], c) && Nibble(t[3], d)
                                     && n == a * 4096 + b * 256 + c * 16 + d
  }

  /** The two-character escapes. */
  predicate Stands(letter: char, c: char) {
    || (letter == '"' && c == '"') || (letter == '\\' && c == '\\') || (letter == '/' && c == '/')
    || (letter == 'b' && c == 8 as char) || (letter == 'f' && c == 12 as char) || (letter == 'n' && c == 10 as char)
    || (letter == 'r' && c == 13 as char) || (letter == 't' && c == 9 as char)
  }

  predicate Backslash(t: string, i: nat) { i + 6 <= |t| && t[i] == '\\' && t[i + 1] == 'u' }

  /** A character as itself, by its letter, by its code, or as a surrogate pair. */
  ghost predicate SpellsChar(t: string, c: char) {
    || (t == [c] && c >= ' ' && c != '"' && c != '\\')
    || (|t| == 2 && t[0] == '\\' && Stands(t[1], c))
    || (|t| == 6 && Backslash(t, 0) && c as int < 0x1_0000 && HexIs(t[2..], c as int))
    || (|t| == 12 && Backslash(t, 0) && Backslash(t, 6) && c as int >= 0x1_0000
        && HexIs(t[2..6], 0xD800 + (c as int - 0x1_0000) / 0x400)
        && HexIs(t[8..], 0xDC00 + (c as int - 0x1_0000) % 0x400))
  }

  ghost predicate SpellsText(t: string, s: string)
    decreases |s|
  {
    if s == "" then t == ""
    else exists i :: 0 < i <= |t| && SpellsChar(t[..i], s[0]) && SpellsText(t[i..], s[1..])
  }

  // ------------------------------------------------------------------
  // Characters
  // ------------------------------------------------------------------

  lemma HexLetters(k: nat)
    requires k < 16
    ensures "0123456789abcdef"[k] == if k < 10 then '0' + k as char else 'a' + (k - 10) as char
    ensures "0123456789ABCDEF"[k] == if k < 10 then '0' + k as char else 'A' + (k - 10) as char
  {
  }

  lemma NibbleIff(c: char, k: nat)
    requires k < 16
    ensures Nibble(c, k) <==> HexDigit(c) == Some(k)
  {
    HexLetters(k);
  }

  lemma HexIff(t: string, rest: string, n: nat)
    requires |t| == 4
    ensures HexIs(t, n) <==> ParseHex4(t + rest) == Some(n)
  {
    assert (t + rest)[0] == t[0] && (t + rest)[1] == t[1] && (t + rest)[2] == t[2] && (t + rest)[3] == t[3];
    Digits4(t[0]);
    Digits4(t[1]);
    Digits4(t[2]);
    Digits4(t[3]);
  }

  lemma Digits4(c: char)
    ensures forall k :: Nibble(c, k) <==> HexDigit(c) == Some(k)
  {
    forall k: int ensures Nibble(c, k) <==> HexDigit(c) == Some(k) {
      if 0 <= k < 16 { NibbleIff(c, k); }
    }
  }

  lemma StandsIff(letter: char, c: char)
    ensures Stands(letter, c) <==> letter != 'u' && Unescape(letter) == Some(c)
  {
  }

  lemma CharReads(t: string, c: char, rest: string)
    requires SpellsChar(t, c)
    ensures t != "" && t[0] != '"' && ParseChar(t + rest) == Some((c, rest))
  {
    var s := t + rest;
    if |t| == 1 {
      assert s[1..] == rest;
    } else if |t| == 2 {
      StandsIff(t[1], c);
      assert s[2..] == rest;
    } else if |t| == 6 {
      CodeReads(t, c, rest);
    } else {
      PairReads(t, c, rest);
    }
  }

  lemma EscapedIs(s: string, u: string)
    requires |s| >= 2 && s[0] == '\\' && s[1] == 'u' && s[2..] == u
    ensures ParseChar(s) == ParseUnicode(u)
  {
  }

  lemma CodeIs(u: string, n: nat, rest: string)
    requires ParseHex4(u) == Some(n) && (n < 0xD800 || n >= 0xE000) && u[4..] == rest
    ensures ParseUnicode(u) == Some((n as char, rest))
  {
  }

  lemma PairIs(u: string, hi: nat, lo: nat, v: string, rest: string)
    requires 0xD800 <= hi < 0xDC00 <= lo < 0xE000 && |u| >= 10 && u[4] == '\\' && u[5] == 'u'
    requires ParseHex4(u) == Some(hi) && u[6..] == v && ParseHex4(v) == Some(lo) && u[10..] == rest
    ensures ParseUnicode(u) == Some((Joined(hi, lo), rest))
  {
  }

  lemma CodeReads(t: string, c: char, rest: string)
    requires |t| == 6 && Backslash(t, 0) && c as int < 0x1_0000 && HexIs(t[2..], c as int)
    ensures ParseChar(t + rest) == Some((c, rest))
  {
    var u := t[2..] + rest;
    assert t + rest == [t[0], t[1]] + u && (t + rest)[2..] == u;
    HexIff(t[2..], rest, c as int);
    assert u[4..] == rest;
    CodeIs(u, c as int, rest);
    EscapedIs(t + rest, u);
  }

  lemma PairReads(t: string, c: char, rest: string)
    requires |t| == 12 && Backslash(t, 0) && Backslash(t, 6) && c as int >= 0x1_0000
    requires HexIs(t[2..6], 0xD800 + (c as int - 0x1_0000) / 0x400)
    requires HexIs(t[8..], 0xDC00 + (c as int - 0x1_0000) % 0x400)
    ensures ParseChar(t + rest) == Some((c, rest))
  {
    var u, v := t[2..] + rest, t[8..] + rest;
    PairCut(t, rest);
    HexIff(t[2..6], t[6..] + rest, High(c));
    HexIff(t[8..], rest, Low(c));
    PairIs(u, High(c), Low(c), v, rest);
    EscapedIs(t + rest, u);
    JoinedBack(c);
  }

  lemma PairCut(t: string, rest: string)
    requires |t| == 12
    ensures var s, u := t + rest, t[2..] + rest;
            && s[2..] == u && u == t[2..6] + (t[6..] + rest) && u[6..] == t[8..] + rest && u[10..] == rest
            && u[4] == t[6] && u[5] == t[7]
  {
  }

  lemma CharSpelled(s: string, c: char, rest: string) returns (t: string)
    requires ParseChar(s) == Some((c, rest))
    ensures s == t + rest && SpellsChar(t, c)
  {
    if s[0] != '\\' {
      t := s[..1];
      assert t == [c];
    } else if s[1] == 'u' {
      if |rest| == |s| - 6 { t := CodeSpelled(s, c, rest); } else { t := PairSpelled(s, c, rest); }
    } else {
      t := s[..2];
      StandsIff(s[1], c);
    }
  }

  lemma CodeSpelled(s: string, c: char, rest: string) returns (t: string)
    requires |s| >= 2 && s[0] == '\\' && s[1] == 'u' && ParseUnicode(s[2..]) == Some((c, rest)) && |rest| == |s| - 6
    ensures s == t + rest && SpellsChar(t, c)
  {
    t := s[..6];
    assert s[2..] == t[2..] + s[6..] && s[2..][4..] == s[6..];
    HexIff(t[2..], s[6..], ParseHex4(s[2..]).value);
  }

  lemma PairSpelled(s: string, c: char, rest: string) returns (t: string)
    requires |s| >= 2 && s[0] == '\\' && s[1] == 'u' && ParseUnicode(s[2..]) == Some((c, rest)) && |rest| != |s| - 6
    ensures s == t + rest && SpellsChar(t, c)
  {
    var u := s[2..];
    t := s[..12];
    assert u[4..] == s[6..] && u[6..] == s[8..] && u[10..] == s[12..] && u[4] == s[6] && u[5] == s[7];
    assert u == t[2..6] + s[6..] && u[6..] == t[8..] + s[12..];
    var n, m := ParseHex4(u).value, ParseHex4(u[6..]).value;
    HexIff(t[2..6], s[6..], n);
    HexIff(t[8..], s[12..], m);
    SplitPair(n, m);
  }

  lemma SplitPair(high: nat, low: nat)
    requires 0xD800 <= high < 0xDC00 <= low < 0xE000
    ensures var c := Joined(high, low);
            c as int >= 0x1_0000 && High(c) == high && Low(c) == low
  {
  }

  // ------------------------------------------------------------------
  // Strings
  // ------------------------------------------------------------------

  predicate Quoted(t: string) { |t| >= 2 && t[0] == '"' && t[|t| - 1] == '"' }

  ghost predicate SpellsString(t: string, s: string) { Quoted(t) && SpellsText(t[1..|t| - 1], s) }

  lemma {:induction false} TextReads(t: string, s: string, rest: string)
    requires SpellsText(t, s)
    ensures ParseChars(t + (['"'] + rest)) == Some((s, rest))
    decreases |s|
  {
    var end := ['"'] + rest;
    if s == "" {
      assert t + end == end && end[1..] == rest;
    } else {
      var i :| 0 < i <= |t| && SpellsChar(t[..i], s[0]) && SpellsText(t[i..], s[1..]);
      TextReads(t[i..], s[1..], rest);
      OneMoreReads(t[..i], s[0], t[i..] + end, s[1..], rest);
      Cut(t, i, end);
      assert s == [s[0]] + s[1..];
    }
  }

  lemma Cut(t: string, i: nat, end: string)
    requires i <= |t|
    ensures t + end == t[..i] + (t[i..] + end)
  {
  }

  lemma SpellsMore(first: string, c: char, tail: string, s: string)
    requires SpellsChar(first, c) && SpellsText(tail, s)
    ensures SpellsText(first + tail, [c] + s)
  {
    var t, u := first + tail, [c] + s;
    assert t[..|first|] == first && t[|first|..] == tail && u[0] == c && u[1..] == s;
  }

  lemma Assoc(a: string, b: string, c: string)
    ensures a + b + c == a + (b + c)
  {
  }

  lemma OneMoreReads(t: string, c: char, tail: string, s: string, rest: string)
    requires SpellsChar(t, c) && ParseChars(tail) == Some((s, rest))
    ensures ParseChars(t + tail) == Some(([c] + s, rest))
  {
    CharReads(t, c, tail);
    assert (t + tail)[0] == t[0];
  }

  lemma {:induction false} TextSpelled(u: string, s: string, rest: string) returns (t: string)
    requires ParseChars(u) == Some((s, rest))
    ensures u == t + (['"'] + rest) && SpellsText(t, s)
    decreases |u|
  {
    if u[0] == '"' {
      t := "";
      assert u == [u[0]] + u[1..];
    } else {
      var c, after, cs := NextChar(u, s, rest);
      var first := CharSpelled(u, c, after);
      var tail := TextSpelled(after, cs, rest);
      t := first + tail;
      SpellsMore(first, c, tail, cs);
      Assoc(first, tail, ['"'] + rest);
    }
  }

  /** The parser reads one character, which is not empty, and goes on. */
  lemma NextChar(u: string, s: string, rest: string) returns (c: char, after: string, cs: string)
    requires ParseChars(u) == Some((s, rest)) && u[0] != '"'
    ensures ParseChar(u) == Some((c, after)) && |after| < |u|
    ensures ParseChars(after) == Some((cs, rest)) && s == [c] + cs
  {
    c, after := ParseChar(u).value.0, ParseChar(u).value.1;
    cs := ParseChars(after).value.0;
  }

  // ------------------------------------------------------------------
  // Integers
  // ------------------------------------------------------------------

  /** Without leading zeros; a minus sign may precede a zero. */
  predicate SpellsInt(t: string, i: int) { t == Decimal.Print(i) || (i == 0 && t == "-0") }

  /** A number ends where it could not go on. */
  predicate NumberEnds(rest: string) { rest == "" || (!Decimal.IsDigit(rest[0]) && rest[0] !in {'.', 'e', 'E'}) }

  lemma NatReads(n: nat, rest: string)
    requires NumberEnds(rest)
    ensures ParseNat(Decimal.Digits(n) + rest) == Some((n, rest))
    ensures Decimal.IsDigit((Decimal.Digits(n) + rest)[0])
  {
    var d := Decimal.Digits(n);
    Decimal.DigitsRead(n);
    RunOfDigits(d, rest);
    assert n == 0 ==> d == ['0'];
    assert (d + rest)[..|d|] == d && (d + rest)[|d|..] == rest;
  }

  lemma IntReads(t: string, i: int, rest: string)
    requires SpellsInt(t, i) && NumberEnds(rest)
    ensures t != "" && t[0] !in {'"', ' ', '\t', '\n', '\r'} && ParseInt(t + rest) == Some((i, rest))
  {
    var n: nat := if i < 0 then -i else i;
    assert Decimal.Digits(n) != [] && Decimal.IsDigit(Decimal.Digits(n)[0]) by { Decimal.DigitsRead(n); }
    if t == Decimal.Digits(n) { PlainReads(n, rest); } else {
      assert t == ['-'] + Decimal.Digits(n);
      MinusReads(n, rest);
    }
  }

  lemma PlainReads(n: nat, rest: string)
    requires NumberEnds(rest)
    ensures ParseInt(Decimal.Digits(n) + rest) == Some((n as int, rest))
  {
    NatReads(n, rest);
  }

  lemma MinusReads(n: nat, rest: string)
    requires NumberEnds(rest)
    ensures ParseInt(['-'] + Decimal.Digits(n) + rest) == Some((0 - n as int, rest))
  {
    var s := Decimal.Digits(n) + rest;
    NatReads(n, rest);
    Assoc(['-'], Decimal.Digits(n), rest);
    assert (['-'] + s)[1..] == s;
  }

  /** Digits without a leading zero are the notation of their value. */
  lemma {:induction false} DigitsOfValue(d: string)
    requires Decimal.AllDigits(d) && d != "" && (d[0] == '0' ==> |d| == 1)
    ensures Decimal.Digits(Decimal.Value(d)) == d
  {
    var n := |d| - 1;
    if n > 0 {
      DigitsOfValue(d[..n]);
      PositiveValue(d[..n]);
      assert d == d[..n] + [d[n]];
    } else {
      assert Decimal.Value(d[..0]) == 0 && d == [d[0]];
    }
  }

  lemma {:induction false} PositiveValue(d: string)
    requires Decimal.AllDigits(d) && d != "" && d[0] != '0'
    ensures Decimal.Value(d) > 0
  {
    if |d| > 1 { PositiveValue(d[..|d| - 1]); }
  }

  lemma NatSpelled(s: string, n: nat, rest: string)
    requires ParseNat(s) == Some((n, rest))
    ensures s == Decimal.Digits(n) + rest
  {
    var run := DigitRun(s);
    var used := if s[0] == '0' then 1 else run;
    DigitsOfValue(s[..used]);
    assert s == s[..used] + rest;
  }

  lemma IntSpelled(s: string, i: int, rest: string) returns (t: string)
    requires ParseInt(s) == Some((i, rest))
    ensures s == t + rest && SpellsInt(t, i)
  {
    if s[0] == '-' {
      var n := ParseNat(s[1..]).value.0;
      NatSpelled(s[1..], n, rest);
      t := "-" + Decimal.Digits(n);
      assert s == [s[0]] + s[1..] && s == t + rest;
    } else {
      NatSpelled(s, i, rest);
      t := Decimal.Digits(i);
    }
  }

  // ------------------------------------------------------------------
  // Values and members
  // ------------------------------------------------------------------

  ghost predicate SpellsValue(t: string, v: Value) {
    match v
    case JString(s) => SpellsString(t, s)
    case JInt(i) => SpellsInt(t, i)
  }

  lemma ValueReads(t: string, v: Value, rest: string)
    requires SpellsValue(t, v) && NumberEnds(rest)
    ensures t != "" && t[0] !in {' ', '\t', '\n', '\r'} && ParseValue(t + rest) == Some((v, rest))
  {
    match v
    case JString(s) =>
      StringReads(t, s, rest);
    case JInt(i) => IntReads(t, i, rest);
  }

  lemma StringReads(t: string, s: string, rest: string)
    requires SpellsString(t, s)
    ensures (t + rest)[0] == '"' && ParseChars((t + rest)[1..]) == Some((s, rest))
  {
    TextReads(t[1..|t| - 1], s, rest);
    assert (t + rest)[1..] == t[1..|t| - 1] + (['"'] + rest);
  }

  lemma StringSpelled(u: string, s: string, rest: string) returns (t: string)
    requires u != "" && u[0] == '"' && ParseChars(u[1..]) == Some((s, rest))
    ensures u == t + rest && SpellsString(t, s)
  {
    var body := TextSpelled(u[1..], s, rest);
    t := ['"'] + body + ['"'];
    QuotedText(body, rest);
    assert u == [u[0]] + u[1..];
  }

  lemma QuotedText(body: string, rest: string)
    ensures var t := ['"'] + body + ['"'];
            t[1..|t| - 1] == body && t + rest == ['"'] + (body + (['"'] + rest))
  {
  }

  lemma ValueSpelled(u: string, v: Value, rest: string) returns (t: string)
    requires ParseValue(u) == Some((v, rest))
    ensures u == t + rest && SpellsValue(t, v)
  {
    if u != "" && u[0] == '"' {
      t := StringSpelled(u, v.text, rest);
    } else {
      t := IntSpelled(u, v.number, rest);
    }
  }

  lemma {:induction false} BlanksSkipped(b: string, s: string)
    requires Blanks(b) && (s == "" || s[0] !in {' ', '\t', '\n', '\r'})
    ensures SkipSpace(b + s) == s
  {
    if b == "" { assert b + s == s; } else {
      BlanksSkipped(b[1..], s);
      assert (b + s)[1..] == b[1..] + s;
    }
  }

  lemma {:induction false} SkippedBlanks(u: string) returns (b: string)
    ensures u == b + SkipSpace(u) && Blanks(b)
    ensures SkipSpace(u) == "" || SkipSpace(u)[0] !in {' ', '\t', '\n', '\r'}
  {
    if u != "" && u[0] in {' ', '\t', '\n', '\r'} {
      var c := SkippedBlanks(u[1..]);
      b := [u[0]] + c;
      OneMoreBlank(u, c, SkipSpace(u[1..]));
    } else {
      b := "";
    }
  }

  lemma OneMoreBlank(u: string, c: string, s: string)
    requires u != "" && u[1..] == c + s
    ensures u == [u[0]] + c + s
  {
    assert u == [u[0]] + u[1..];
  }

  /** The parts of a member, with blanks around the colon. */
  function Pieces(name: string, b: string, c: string, v: string): string { name + (b + ([':'] + (c + v))) }

  ghost predicate SpellsMember(t: string, m: Member) {
    exists name, b, c, v :: t == Pieces(name, b, c, v) && SpellsString(name, m.name) && Blanks(b) && Blanks(c)
                            && SpellsValue(v, m.value)
  }

  lemma PiecesThen(name: string, b: string, c: string, v: string, rest: string)
    ensures Pieces(name, b, c, v) + rest == Pieces(name, b, c, v + rest)
  {
    assert c + v + rest == c + (v + rest);
    assert [':'] + (c + v) + rest == [':'] + (c + (v + rest));
    assert b + ([':'] + (c + v)) + rest == b + ([':'] + (c + (v + rest)));
  }

  /** The parser's way through a member. */
  lemma MemberParts(u: string, name: string, after: string, colon: string, v: Value, rest: string)
    requires u != "" && u[0] == '"' && ParseChars(u[1..]) == Some((name, after)) && SkipSpace(after) == colon
    requires colon != "" && colon[0] == ':' && ParseValue(SkipSpace(colon[1..])) == Some((v, rest))
    ensures ParseMember(u) == Some((Member(name, v), rest))
  {
  }

  lemma AfterColon(c: string, t: string, v: Value, rest: string)
    requires Blanks(c) && SpellsValue(t, v) && NumberEnds(rest)
    ensures var colon := [':'] + (c + (t + rest));
            colon[0] == ':' && ParseValue(SkipSpace(colon[1..])) == Some((v, rest))
  {
    var colon := [':'] + (c + (t + rest));
    ValueReads(t, v, rest);
    assert colon[1..] == c + (t + rest) && (t + rest)[0] == t[0];
    BlanksSkipped(c, t + rest);
  }

  lemma MemberReads(t: string, m: Member, rest: string)
    requires SpellsMember(t, m) && NumberEnds(rest)
    ensures t != "" && t[0] == '"' && ParseMember(t + rest) == Some((m, rest))
  {
    var name, b, c, v :| t == Pieces(name, b, c, v) && SpellsString(name, m.name) && Blanks(b) && Blanks(c)
                         && SpellsValue(v, m.value);
    PiecesThen(name, b, c, v, rest);
    PiecesRead(name, b, c, v, m, rest);
    assert t[0] == name[0];
  }

  lemma PiecesRead(name: string, b: string, c: string, v: string, m: Member, rest: string)
    requires SpellsString(name, m.name) && Blanks(b) && Blanks(c) && SpellsValue(v, m.value) && NumberEnds(rest)
    ensures ParseMember(Pieces(name, b, c, v + rest)) == Some((m, rest))
  {
    var colon := [':'] + (c + (v + rest));
    var u := name + (b + colon);
    assert u != "" && u[0] == '"' && ParseChars(u[1..]) == Some((m.name, b + colon)) by {
      StringReads(name, m.name, b + colon);
    }
    assert SkipSpace(b + colon) == colon by { BlanksSkipped(b, colon); }
    AfterColon(c, v, m.value, rest);
    MemberParts(u, m.name, b + colon, colon, m.value, rest);
  }

  lemma MemberSpelled(u: string, m: Member, rest: string) returns (t: string)
    requires ParseMember(u) == Some((m, rest))
    ensures u == t + rest && SpellsMember(t, m)
  {
    var after := ParseChars(u[1..]).value.1;
    var colon := SkipSpace(after);
    var name := StringSpelled(u, m.name, after);
    var b := SkippedBlanks(after);
    var c, v := ColonSpelled(colon, m.value, rest);
    t := Pieces(name, b, c, v);
    PiecesThen(name, b, c, v, rest);
  }

  lemma ColonSpelled(colon: string, v: Value, rest: string) returns (c: string, t: string)
    requires colon != "" && colon[0] == ':' && ParseValue(SkipSpace(colon[1..])) == Some((v, rest))
    ensures colon == [':'] + (c + (t + rest)) && Blanks(c) && SpellsValue(t, v)
  {
    c := SkippedBlanks(colon[1..]);
    t := ValueSpelled(SkipSpace(colon[1..]), v, rest);
    assert colon == [colon[0]] + colon[1..];
  }

  // ------------------------------------------------------------------
  // The object
  // ------------------------------------------------------------------

  /** What stands between the braces, without the blanks in front: at least one member. */
  ghost predicate SpellsMembers(t: string, ms: seq<Member>)
    requires ms != []
    decreases |ms|
  {
    if |ms| == 1 then exists m, b :: t == m + b && SpellsMember(m, ms[0]) && Blanks(b)
    else exists m, b, c, more :: t == Joint(m, b, c, more) && SpellsMember(m, ms[0]) && Blanks(b) && Blanks(c)
                                 && SpellsMembers(more, ms[1..])
  }

  /** A member, a comma, and what follows, with blanks around the comma. */
  function Joint(m: string, b: string, c: string, more: string): string { m + (b + ([','] + (c + more))) }

  /** One object with blanks around it. */
  ghost predicate SpellsObject(t: string, ms: seq<Member>) {
    exists b, c, inner, d :: t == Braced(b, c, inner, d) && Blanks(b) && Blanks(c) && Blanks(d)
                             && if ms == [] then inner == "" else SpellsMembers(inner, ms)
  }

  function Braced(b: string, c: string, inner: string, d: string): string {
    b + (['{'] + (c + (inner + (['}'] + d))))
  }

  lemma JointThen(m: string, b: string, c: string, more: string, rest: string)
    ensures Joint(m, b, c, more) + rest == m + (b + ([','] + (c + (more + rest))))
  {
    assert c + more + rest == c + (more + rest);
    assert [','] + (c + more) + rest == [','] + (c + (more + rest));
    assert b + ([','] + (c + more)) + rest == b + ([','] + (c + (more + rest)));
  }

  lemma LastReads(t: string, m: Member, b: string, d: string, acc: map<string, Value>)
    requires SpellsMember(t, m) && Blanks(b)
    ensures ParseMembers(t + (b + (['}'] + d)), acc) == Some((acc[m.name := m.value], d))
  {
    var end := ['}'] + d;
    BlanksSkipped(b, end);
    assert NumberEnds(b + end) by { assert b == "" ==> b + end == end; }
    MemberReads(t, m, b + end);
    assert end[1..] == d;
  }

  lemma NextReads(t: string, m: Member, b: string, c: string, more: string, acc: map<string, Value>)
    requires SpellsMember(t, m) && Blanks(b) && Blanks(c) && more != "" && more[0] == '"'
    ensures ParseMembers(t + (b + ([','] + (c + more))), acc) == ParseMembers(more, acc[m.name := m.value])
  {
    var next := [','] + (c + more);
    BlanksSkipped(b, next);
    assert NumberEnds(b + next) by { assert b == "" ==> b + next == next; }
    MemberReads(t, m, b + next);
    assert next[1..] == c + more;
    BlanksSkipped(c, more);
  }

  lemma StartsQuoted(t: string, ms: seq<Member>, rest: string)
    requires ms != [] && SpellsMembers(t, ms)
    ensures t != "" && (t + rest)[0] == '"'
  {
    if |ms| == 1 {
      var m, b :| t == m + b && SpellsMember(m, ms[0]) && Blanks(b);
      MemberReads(m, ms[0], "");
    } else {
      var m, b, c, more :| t == Joint(m, b, c, more) && SpellsMember(m, ms[0]) && Blanks(b) && Blanks(c)
                           && SpellsMembers(more, ms[1..]);
      MemberReads(m, ms[0], "");
    }
  }

  lemma {:induction false} MembersParse(t: string, ms: seq<Member>, d: string, acc: map<string, Value>)
    requires ms != [] && SpellsMembers(t, ms)
    ensures ParseMembers(t + (['}'] + d), acc) == Some((Collect(ms, acc), d))
    decreases |ms|
  {
    var end, acc2 := ['}'] + d, acc[ms[0].name := ms[0].value];
    if |ms| == 1 {
      var m, b :| t == m + b && SpellsMember(m, ms[0]) && Blanks(b);
      LastReads(m, ms[0], b, d, acc);
      Assoc(m, b, end);
      assert Collect(ms[1..], acc2) == acc2;
    } else {
      var m, b, c, more :| t == Joint(m, b, c, more) && SpellsMember(m, ms[0]) && Blanks(b) && Blanks(c)
                           && SpellsMembers(more, ms[1..]);
      StartsQuoted(more, ms[1..], end);
      JointThen(m, b, c, more, end);
      NextReads(m, ms[0], b, c, more + end, acc);
      MembersParse(more, ms[1..], d, acc2);
    }
  }

  lemma ObjectReads(t: string, ms: seq<Member>)
    requires SpellsObject(t, ms)
    ensures ParseObject(t) == Some(Collect(ms, map[]))
  {
    var b, c, inner, d :| t == Braced(b, c, inner, d) && Blanks(b) && Blanks(c) && Blanks(d)
                          && if ms == [] then inner == "" else SpellsMembers(inner, ms);
    var body := ['{'] + (c + (inner + (['}'] + d)));
    BlanksSkipped(b, body);
    assert body[1..] == c + (inner + (['}'] + d));
    assert SkipSpace(d) == "" by {
      BlanksSkipped(d, "");
      assert d + "" == d;
    }
    if ms == [] {
      EmptyReads(c, inner, d);
    } else {
      StartsQuoted(inner, ms, ['}'] + d);
      BlanksSkipped(c, inner + (['}'] + d));
      MembersParse(inner, ms, d, map[]);
    }
  }

  lemma EmptyReads(c: string, inner: string, d: string)
    requires Blanks(c) && inner == ""
    ensures SkipSpace(c + (inner + (['}'] + d))) == ['}'] + d && (['}'] + d)[1..] == d
  {
    assert inner + (['}'] + d) == ['}'] + d;
    BlanksSkipped(c, ['}'] + d);
  }

  lemma {:induction false} MembersSpelled(u: string, acc: map<string, Value>, o: map<string, Value>, rest: string)
    returns (t: string, ms: seq<Member>)
    requires ParseMembers(u, acc) == Some((o, rest))
    ensures ms != [] && u == t + (['}'] + rest) && SpellsMembers(t, ms) && o == Collect(ms, acc)
    decreases |u|
  {
    var (m, after) := ParseMember(u).value;
    var acc2 := acc[m.name := m.value];
    var first := MemberSpelled(u, m, after);
    var b := SkippedBlanks(after);
    var next := SkipSpace(after);
    assert next == [next[0]] + next[1..];
    if next[0] == '}' {
      ms := [m];
      t := first + b;
      Assoc(first, b, next);
      assert Collect(ms[1..], acc2) == acc2;
    } else {
      var c := SkippedBlanks(next[1..]);
      var more, tail := MembersSpelled(SkipSpace(next[1..]), acc2, o, rest);
      ms := [m] + tail;
      t := Joint(first, b, c, more);
      assert ms[1..] == tail && ms[0] == m;
      JointThen(first, b, c, more, ['}'] + rest);
      MoreSpelled(t, ms, first, b, c, more);
    }
  }

  lemma MoreSpelled(t: string, ms: seq<Member>, m: string, b: string, c: string, more: string)
    requires |ms| > 1 && t == Joint(m, b, c, more) && SpellsMember(m, ms[0]) && Blanks(b) && Blanks(c)
    requires SpellsMembers(more, ms[1..])
    ensures SpellsMembers(t, ms)
  {
  }

  lemma BlankEnd(d: string)
    requires SkipSpace(d) == ""
    ensures Blanks(d)
  {
    var b := SkippedBlanks(d);
    assert b + "" == b;
  }

  lemma ObjectSpelled(u: string) returns (ms: seq<Member>)
    requires ParseObject(u).Some?
    ensures SpellsObject(u, ms) && ParseObject(u).value == Collect(ms, map[])
  {
    var b := SkippedBlanks(u);
    var body := SkipSpace(u);
    var c := SkippedBlanks(body[1..]);
    var inside := SkipSpace(body[1..]);
    assert body == [body[0]] + body[1..];
    if inside[0] == '}' {
      ms := [];
      var d := inside[1..];
      BlankEnd(d);
      assert inside == "" + (['}'] + d);
      assert u == Braced(b, c, "", d);
    } else {
      var (o, d) := ParseMembers(inside, map[]).value;
      BlankEnd(d);
      var inner;
      inner, ms := MembersSpelled(inside, map[], o, d);
      assert u == Braced(b, c, inner, d);
    }
  }

  /** The parser reads exactly the texts of the grammar, each to the object its members denote. */
  lemma ParsesIff(t: string, o: map<string, Value>)
    ensures ParseObject(t) == Some(o) <==> exists ms :: SpellsObject(t, ms) && o == Collect(ms, map[])
  {
    if ParseObject(t) == Some(o) {
      var ms := ObjectSpelled(t);
    }
    if ms :| SpellsObject(t, ms) && o == Collect(ms, map[]) {
      ObjectReads(t, ms);
    }
  }
}
