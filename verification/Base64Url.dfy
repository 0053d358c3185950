/**
 Unpadded URL-safe base64 (sections 3.2 and 5 of RFC 4648) as the state-token code uses it: the
 library encoder followed by stripping '=', and the library's lenient decoder behind an optional
 alphabet check.
 */
module Base64Url {
  import opened Wrappers
  import opened Envelope

  type Sextet = n: int | 0 <= n < 64

  function EncodeSextet(n: Sextet): char {
    if n < 26 then 'A' + n as char
    else if n < 52 then 'a' + (n - 26) as char
    else if n < 62 then '0' + (n - 52) as char
    else if n == 62 then '-' else '_'
  }

  /** The decoder's table, after '-' and '_' have been translated to '+' and '/'. */
  function DecodeChar(c: char): Option<Sextet> {
    if 'A' <= c <= 'Z' then Some((c - 'A') as int)
    else if 'a' <= c <= 'z' then Some((c - 'a') as int + 26)
    else if '0' <= c <= '9' then Some((c - '0') as int + 52)
    else if c == '-' || c == '+' then Some(62)
    else if c == '_' || c == '/' then Some(63)
    else None
  }

  /** The 64 characters of the URL-safe alphabet. */
  predicate InAlphabet(c: char) {
    'A' <= c <= 'Z' || 'a' <= c <= 'z' || '0' <= c <= '9' || c == '-' || c == '_'
  }

  predicate AllInAlphabet(s: string) { forall i :: 0 <= i < |s| ==> InAlphabet(s[i]) }

  // ------------------------------------------------------------------
  // Bytes and sextets
  // ------------------------------------------------------------------

  function Sextet0(x: Byte): Sextet { x as int / 4 }
  function Sextet1(x: Byte, y: Byte): Sextet { x as int % 4 * 16 + y as int / 16 }
  function Sextet2(y: Byte, z: Byte): Sextet { y as int % 16 * 4 + z as int / 64 }
  function Sextet3(z: Byte): Sextet { z as int % 64 }

  function Byte0(x: Sextet, y: Sextet): Byte { x as int * 4 + y as int / 16 }
  function Byte1(y: Sextet, z: Sextet): Byte { y as int % 16 * 16 + z as int / 4 }
  function Byte2(z: Sextet, w: Sextet): Byte { z as int % 4 * 64 + w as int }

  function ToSextets(b: Bytes): seq<Sextet> {
    if |b| == 0 then []
    else if |b| == 1 then [Sextet0(b[0]), Sextet1(b[0], 0)]
    else if |b| == 2 then [Sextet0(b[0]), Sextet1(b[0], b[1]), Sextet2(b[1], 0)]
    else [Sextet0(b[0]), Sextet1(b[0], b[1]), Sextet2(b[1], b[2]), Sextet3(b[2])] + ToSextets(b[3..])
  }

  /** Whole bytes only; bits left over at the end are dropped. */
  function FromSextets(s: seq<Sextet>): Bytes {
    if |s| < 2 then []
    else if |s| == 2 then [Byte0(s[0], s[1])]
    else if |s| == 3 then [Byte0(s[0], s[1]), Byte1(s[1], s[2])]
    else [Byte0(s[0], s[1]), Byte1(s[1], s[2]), Byte2(s[2], s[3])] + FromSextets(s[4..])
  }

  lemma GroupToBytes(x: Byte, y: Byte, z: Byte)
    ensures Byte0(Sextet0(x), Sextet1(x, y)) == x
    ensures Byte1(Sextet1(x, y), Sextet2(y, z)) == y
    ensures Byte2(Sextet2(y, z), Sextet3(z)) == z
  {
  }

  lemma GroupToSextets(x: Sextet, y: Sextet, z: Sextet, w: Sextet)
    ensures Sextet0(Byte0(x, y)) == x
    ensures Sextet1(Byte0(x, y), Byte1(y, z)) == y
    ensures Sextet2(Byte1(y, z), Byte2(z, w)) == z
    ensures Sextet3(Byte2(z, w)) == w
    ensures Sextet1(Byte0(x, y), 0) == y <==> y % 16 == 0
    ensures Sextet2(Byte1(y, z), 0) == z <==> z % 4 == 0
  {
  }

  lemma {:induction false} SextetsLength(b: Bytes)
    ensures |ToSextets(b)| == (4 * |b| + 2) / 3 && |ToSextets(b)| % 4 != 1
  {
    if |b| >= 3 {
      SextetsLength(b[3..]);
      assert |ToSextets(b)| == 4 + |ToSextets(b[3..])|;
    }
  }

  lemma FromGroup(x: Sextet, y: Sextet, z: Sextet, w: Sextet, rest: seq<Sextet>)
    ensures FromSextets([x, y, z, w] + rest) == [Byte0(x, y), Byte1(y, z), Byte2(z, w)] + FromSextets(rest)
  {
    var s := [x, y, z, w] + rest;
    assert s[4..] == rest;
  }

  lemma {:induction false} SextetsRoundTrip(b: Bytes)
    ensures FromSextets(ToSextets(b)) == b
  {
    if |b| >= 3 {
      var x, y, z, t := b[0], b[1], b[2], b[3..];
      calc {
        FromSextets(ToSextets(b));
        { assert ToSextets(b) == [Sextet0(x), Sextet1(x, y), Sextet2(y, z), Sextet3(z)] + ToSextets(t); }
        FromSextets([Sextet0(x), Sextet1(x, y), Sextet2(y, z), Sextet3(z)] + ToSextets(t));
        { FromGroup(Sextet0(x), Sextet1(x, y), Sextet2(y, z), Sextet3(z), ToSextets(t)); }
        [Byte0(Sextet0(x), Sextet1(x, y)), Byte1(Sextet1(x, y), Sextet2(y, z)), Byte2(Sextet2(y, z), Sextet3(z))]
          + FromSextets(ToSextets(t));
        { GroupToBytes(x, y, z); }
        [x, y, z] + FromSextets(ToSextets(t));
        { SextetsRoundTrip(t); }
        [x, y, z] + t;
      }
    } else if |b| == 2 {
      assert b == [b[0], b[1]];
      GroupToBytes(b[0], b[1], 0);
    } else if |b| == 1 {
      assert b == [b[0]];
      GroupToBytes(b[0], 0, 0);
    }
  }

  // ------------------------------------------------------------------
  // Encoding
  // ------------------------------------------------------------------

  function EncodeSextets(s: seq<Sextet>): string {
    if s == [] then "" else [EncodeSextet(s[0])] + EncodeSextets(s[1..])
  }

  function Equals(n: nat): string { seq(n, _ => '=') }

  /** The library encoder: groups of four, padded. */
  function StdEncode(b: Bytes): string {
    EncodeSextets(ToSextets(b)) + Equals((3 - |b| % 3) % 3)
  }

  function StripEquals(s: string): string {
    if s != [] && s[|s| - 1] == '=' then StripEquals(s[..|s| - 1]) else s
  }

  function Encode(b: Bytes): string { StripEquals(StdEncode(b)) }

  lemma SextetRoundTrip(n: Sextet)
    ensures InAlphabet(EncodeSextet(n)) && DecodeChar(EncodeSextet(n)) == Some(n)
  {
  }

  lemma {:induction false} EncodedSextets(s: seq<Sextet>)
    ensures |EncodeSextets(s)| == |s| && AllInAlphabet(EncodeSextets(s))
    ensures forall i :: 0 <= i < |s| ==> DecodeChar(EncodeSextets(s)[i]) == Some(s[i])
  {
    if s != [] {
      var e, tail := EncodeSextets(s), EncodeSextets(s[1..]);
      EncodedSextets(s[1..]);
      SextetRoundTrip(s[0]);
      forall i | 0 <= i < |s| ensures InAlphabet(e[i]) && DecodeChar(e[i]) == Some(s[i]) {
        if i > 0 { assert e[i] == tail[i - 1] && s[i] == s[1..][i - 1]; }
      }
    }
  }

  lemma {:induction false} StripOnlyPadding(s: string, n: nat)
    requires AllInAlphabet(s)
    ensures StripEquals(s + Equals(n)) == s
  {
    if n == 0 {
      assert s + Equals(0) == s;
    } else {
      assert (s + Equals(n))[..|s| + n - 1] == s + Equals(n - 1);
      StripOnlyPadding(s, n - 1);
    }
  }

  /** What is printed: the encoded sextets, nothing else. */
  lemma EncodeIs(b: Bytes)
    ensures Encode(b) == EncodeSextets(ToSextets(b))
    ensures AllInAlphabet(Encode(b)) && |Encode(b)| == (4 * |b| + 2) / 3
    ensures '.' !in Encode(b)
  {
    EncodedSextets(ToSextets(b));
    SextetsLength(b);
    StripOnlyPadding(EncodeSextets(ToSextets(b)), (3 - |b| % 3) % 3);
  }

  // ------------------------------------------------------------------
  // The encoding as the standard has it
  // ------------------------------------------------------------------

  const UPPER := "ABCDEFGHIJKLMNOPQRSTUVWXYZ"
  const LOWER := "abcdefghijklmnopqrstuvwxyz"

  /** Table 2 of section 5 of RFC 4648. */
  const ALPHABET := UPPER + LOWER + "0123456789-_"

  lemma AlphabetIs(n: Sextet)
    ensures |ALPHABET| == 64 && EncodeSextet(n) == ALPHABET[n]
  {
    if n < 26 {
      UpperCase(n);
      assert ALPHABET[n] == UPPER[n];
    } else if n < 52 {
      LowerCase(n - 26);
      assert ALPHABET[n] == LOWER[n - 26];
    } else {
      assert ALPHABET[n] == "0123456789-_"[n - 52];
    }
  }

  lemma UpperCase(k: nat)
    requires k < 26
    ensures UPPER[k] == 'A' + k as char
  {
  }

  lemma LowerCase(k: nat)
    requires k < 26
    ensures LOWER[k] == 'a' + k as char
  {
  }

  lemma SextetsOfGroup(x: Byte, y: Byte, z: Byte, a: Sextet, b: Sextet, c: Sextet, d: Sextet)
    requires a * 262144 + b * 4096 + c * 64 + d == x * 65536 + y * 256 + z
    ensures a == Sextet0(x) && b == Sextet1(x, y) && c == Sextet2(y, z) && d == Sextet3(z)
  {
  }

  /** Three bytes are four characters, by their common 24-bit value. */
  lemma EncodesGroup(x: Byte, y: Byte, z: Byte, t: Bytes, a: Sextet, b: Sextet, c: Sextet, d: Sextet)
    requires a * 262144 + b * 4096 + c * 64 + d == x * 65536 + y * 256 + z
    ensures Encode([x, y, z] + t) == [ALPHABET[a], ALPHABET[b], ALPHABET[c], ALPHABET[d]] + Encode(t)
  {
    var all := [x, y, z] + t;
    EncodeIs(all);
    EncodeIs(t);
    SextetsOfGroup(x, y, z, a, b, c, d);
    assert all[3..] == t;
    AlphabetIs(a);
    AlphabetIs(b);
    AlphabetIs(c);
    AlphabetIs(d);
    EncodesFour(a, b, c, d, ToSextets(t));
  }

  lemma EncodesFour(a: Sextet, b: Sextet, c: Sextet, d: Sextet, rest: seq<Sextet>)
    ensures EncodeSextets([a, b, c, d] + rest) ==
            [EncodeSextet(a), EncodeSextet(b), EncodeSextet(c), EncodeSextet(d)] + EncodeSextets(rest)
  {
    var s := [a, b, c, d] + rest;
    assert s[1..] == [b, c, d] + rest && s[1..][1..] == [c, d] + rest;
    assert s[1..][1..][1..] == [d] + rest && s[1..][1..][1..][1..] == rest;
    assert EncodeSextets([d] + rest) == [EncodeSextet(d)] + EncodeSextets(rest);
    assert EncodeSextets([c, d] + rest) == [EncodeSextet(c)] + EncodeSextets([d] + rest);
    assert EncodeSextets([b, c, d] + rest) == [EncodeSextet(b)] + EncodeSextets([c, d] + rest);
  }

  lemma EncodesFew(a: Sextet, b: Sextet, c: Sextet)
    ensures EncodeSextets([a, b]) == [EncodeSextet(a), EncodeSextet(b)]
    ensures EncodeSextets([a, b, c]) == [EncodeSextet(a), EncodeSextet(b), EncodeSextet(c)]
  {
    assert [a, b, c][1..] == [b, c] && [b, c][1..] == [c] && [c][1..] == [] && [a, b][1..] == [b] && [b][1..] == [];
    assert EncodeSextets([c]) == [EncodeSextet(c)] && EncodeSextets([b]) == [EncodeSextet(b)];
    assert EncodeSextets([b, c]) == [EncodeSextet(b)] + EncodeSextets([c]);
  }

  /** A last byte, or two, is padded with zero bits to whole sextets. */
  lemma EncodesLastByte(x: Byte, a: Sextet, b: Sextet)
    requires a * 64 + b == x * 16
    ensures Encode([x]) == [ALPHABET[a], ALPHABET[b]]
  {
    EncodeIs([x]);
    AlphabetIs(a);
    AlphabetIs(b);
    SextetsOfGroup(x, 0, 0, a, b, 0, 0);
    EncodesFew(a, b, 0);
  }

  lemma EncodesLastTwo(x: Byte, y: Byte, a: Sextet, b: Sextet, c: Sextet)
    requires a * 4096 + b * 64 + c == (x * 256 + y) * 4
    ensures Encode([x, y]) == [ALPHABET[a], ALPHABET[b], ALPHABET[c]]
  {
    EncodeIs([x, y]);
    AlphabetIs(a);
    AlphabetIs(b);
    AlphabetIs(c);
    SextetsOfGroup(x, y, 0, a, b, c, 0);
    EncodesFew(a, b, c);
  }

  // ------------------------------------------------------------------
  // Decoding
  // ------------------------------------------------------------------

  /**
   The library's non-strict scan: characters outside the table are skipped, '=' counts only after
   two characters of a group, and a completed padding ends the input.  None is an incomplete group.
   */
  function Scan(s: string, acc: seq<Sextet>, pads: nat): Option<seq<Sextet>> {
    if s == [] then if |acc| % 4 == 0 then Some(acc) else None
    else if s[0] == '=' then
      if |acc| % 4 < 2 then Scan(s[1..], acc, pads)
      else if |acc| % 4 + pads + 1 >= 4 then Some(acc)
      else Scan(s[1..], acc, pads + 1)
    else
      match DecodeChar(s[0])
      case None => Scan(s[1..], acc, pads)
      case Some(v) => Scan(s[1..], acc + [v], 0)
  }

  /** None when a byte is outside ASCII. */
  function AsciiText(b: Bytes): Option<string> {
    if forall i :: 0 <= i < |b| ==> b[i] < 128 then
      Some(seq(|b|, i requires 0 <= i < |b| => b[i] as char))
    else None
  }

  lemma AsciiRoundTrip(s: string)
    requires Ascii(s)
    ensures AsciiText(AsciiBytes(s)) == Some(s)
  {
    var t := AsciiText(AsciiBytes(s)).value;
    assert |t| == |s| && forall i :: 0 <= i < |s| ==> t[i] == s[i];
    assert t == s;
  }

  /** The '=' characters that bring a length up to a multiple of four. */
  function PadFor(n: nat): string { Equals((4 - n % 4) % 4) }

  /** The padding both decoders compute from the length, then the library decoder. */
  function StdDecode(s: string): Option<Bytes> {
    if !Ascii(s) then None
    else
      match Scan(s + PadFor(|s|), [], 0)
      case None => None
      case Some(sextets) => Some(FromSextets(sextets))
  }

  /** The anchored pattern of the strict decoder; its '$' also matches before a final line feed. */
  predicate MatchesAlphabet(s: string) {
    AllInAlphabet(s) || (s != [] && s[|s| - 1] == '\n' && AllInAlphabet(s[..|s| - 1]))
  }

  function Decode(s: string): Option<Bytes> {
    if MatchesAlphabet(s) then StdDecode(s) else None
  }

  lemma {:induction false} ScanSextets(s: seq<Sextet>, rest: string, acc: seq<Sextet>)
    ensures Scan(EncodeSextets(s) + rest, acc, 0) == Scan(rest, acc + s, 0)
  {
    if s == [] {
      assert EncodeSextets(s) + rest == rest && acc + s == acc;
    } else {
      var e := EncodeSextets(s);
      EncodedSextets(s);
      assert InAlphabet(e[0]) && DecodeChar(e[0]) == Some(s[0]);
      assert (e + rest)[1..] == EncodeSextets(s[1..]) + rest;
      ScanSextets(s[1..], rest, acc + [s[0]]);
      assert acc + [s[0]] + s[1..] == acc + s;
    }
  }

  lemma ScanPadding(acc: seq<Sextet>)
    requires |acc| % 4 != 1
    ensures Scan(PadFor(|acc|), acc, 0) == Some(acc)
  {
    if |acc| % 4 == 2 {
      assert Equals(2)[1..] == Equals(1);
      assert Scan(Equals(1), acc, 1) == Some(acc);
    }
  }

  lemma ScanPadded(s: seq<Sextet>)
    requires |s| % 4 != 1
    ensures Scan(EncodeSextets(s) + PadFor(|s|), [], 0) == Some(s)
  {
    var pad := PadFor(|s|);
    assert Scan(pad, s, 0) == Some(s) by { ScanPadding(s); }
    ScanSextets(s, pad, []);
    assert [] + s == s;
  }

  lemma ScanEncoded(b: Bytes)
    ensures var e := Encode(b); Scan(e + PadFor(|e|), [], 0) == Some(ToSextets(b))
  {
    var s := ToSextets(b);
    assert Encode(b) == EncodeSextets(s) && |Encode(b)| == |s| && |s| % 4 != 1 by {
      EncodeIs(b);
      SextetsLength(b);
    }
    ScanPadded(s);
  }

  /** Decoding what was encoded gives the bytes back, for all byte strings. */
  lemma RoundTrip(b: Bytes)
    ensures Decode(Encode(b)) == Some(b)
    ensures StdDecode(Encode(b)) == Some(b)
  {
    EncodeIs(b);
    ScanEncoded(b);
    SextetsRoundTrip(b);
  }

  // ------------------------------------------------------------------
  // Which texts are printed
  // ------------------------------------------------------------------

  /** No incomplete group, and the bits after the last whole byte, which decoding drops, are zero. */
  predicate Canonical(s: seq<Sextet>) {
    if |s| >= 4 then Canonical(s[4..])
    else if |s| == 3 then s[2] % 4 == 0
    else if |s| == 2 then s[1] % 16 == 0
    else s == []
  }

  lemma BackGroup(x: Sextet, y: Sextet, z: Sextet, w: Sextet, t: seq<Sextet>)
    ensures ToSextets(FromSextets([x, y, z, w] + t)) == [x, y, z, w] + ToSextets(FromSextets(t))
  {
    var rest := FromSextets(t);
    FromGroup(x, y, z, w, t);
    assert ([Byte0(x, y), Byte1(y, z), Byte2(z, w)] + rest)[3..] == rest;
    GroupToSextets(x, y, z, w);
  }

  lemma {:induction false} SextetsBack(s: seq<Sextet>)
    ensures ToSextets(FromSextets(s)) == s <==> Canonical(s)
  {
    if |s| >= 4 {
      var g, t := s[..4], s[4..];
      var u := ToSextets(FromSextets(t));
      assert ToSextets(FromSextets(s)) == g + u by {
        BackGroup(s[0], s[1], s[2], s[3], t);
        assert s == [s[0], s[1], s[2], s[3]] + t;
      }
      SextetsBack(t);
      assert (g + u)[4..] == u && s == g + t;
    } else if |s| == 3 {
      GroupToSextets(s[0], s[1], s[2], 0);
      assert s == [s[0], s[1], s[2]];
    } else if |s| == 2 {
      GroupToSextets(s[0], s[1], 0, 0);
      assert s == [s[0], s[1]];
    }
  }

  lemma {:induction false} PaddingSkipped(acc: seq<Sextet>, n: nat)
    requires |acc| % 4 < 2
    ensures Scan(Equals(n), acc, 0) == if |acc| % 4 == 0 then Some(acc) else None
  {
    if n > 0 {
      assert Equals(n)[1..] == Equals(n - 1);
      PaddingSkipped(acc, n - 1);
    }
  }

  /** An incomplete group is refused; every other text over the alphabet decodes. */
  lemma IncompleteRefused(s: seq<Sextet>)
    requires |s| % 4 == 1
    ensures Decode(EncodeSextets(s)).None?
  {
    var e := EncodeSextets(s);
    assert AllInAlphabet(e) && |e| == |s| by { EncodedSextets(s); }
    assert Scan(e + Equals(3), [], 0).None? by {
      ScanSextets(s, Equals(3), []);
      assert [] + s == s;
      PaddingSkipped(s, 3);
    }
    assert PadFor(|s|) == Equals(3);
  }

  lemma CompleteDecodes(s: seq<Sextet>)
    requires |s| % 4 != 1
    ensures Decode(EncodeSextets(s)) == Some(FromSextets(s))
  {
    var e := EncodeSextets(s);
    assert AllInAlphabet(e) && |e| == |s| by { EncodedSextets(s); }
    assert Scan(e + PadFor(|e|), [], 0) == Some(s) by { ScanPadded(s); }
  }

  /**
   The alphabet check lets a final line feed through; the text then decodes exactly when it consists
   of whole groups, to the bytes it has without the line feed.
   */
  lemma TrailingLineFeed(s: seq<Sextet>)
    ensures Decode(EncodeSextets(s) + "\n") == if |s| % 4 == 0 then Some(FromSextets(s)) else None
  {
    var e := EncodeSextets(s) + "\n";
    LineFeedMatches(s);
    var pad := PadFor(|e|);
    assert Scan(e + pad, [], 0) == Scan(pad, s, 0) by { LineFeedScan(s, pad); }
    assert Scan(pad, s, 0) == if |s| % 4 == 0 then Some(s) else None by { ShortPadding(s); }
  }

  /** Every character is one of the table. */
  ghost predicate OverTable(s: string) { forall i :: 0 <= i < |s| ==> InTable(s[i]) }

  ghost predicate InTable(c: char) { exists n: Sextet :: c == ALPHABET[n] }

  lemma OverTableIff(s: string)
    ensures OverTable(s) <==> AllInAlphabet(s)
  {
    if OverTable(s) {
      forall i | 0 <= i < |s| ensures InAlphabet(s[i]) {
        var n: Sextet :| s[i] == ALPHABET[n];
        AlphabetIs(n);
        SextetRoundTrip(n);
      }
    }
    if AllInAlphabet(s) {
      forall i | 0 <= i < |s| ensures InTable(s[i]) {
        var n := DecodeChar(s[i]).value;
        AlphabetIs(n);
        assert s[i] == ALPHABET[n];
      }
    }
  }

  lemma {:induction false} TextOfSextets(t: string) returns (s: seq<Sextet>)
    requires AllInAlphabet(t)
    ensures EncodeSextets(s) == t && |s| == |t|
  {
    if t == "" {
      s := [];
    } else {
      var front := TextOfSextets(t[1..]);
      s := [DecodeChar(t[0]).value] + front;
      assert t == [t[0]] + t[1..] && s[1..] == front;
    }
  }

  /**
   What the strict decoder accepts: texts over the table without an incomplete group, and such texts of
   whole groups with one line feed behind them.
   */
  lemma DecodesIff(t: string)
    ensures Decode(t).Some? <==>
            || (OverTable(t) && |t| % 4 != 1)
            || (t != "" && t[|t| - 1] == '\n' && OverTable(t[..|t| - 1]) && (|t| - 1) % 4 == 0)
  {
    OverTableIff(t);
    if t != "" { OverTableIff(t[..|t| - 1]); }
    if AllInAlphabet(t) {
      var s := TextOfSextets(t);
      if |t| % 4 == 1 { IncompleteRefused(s); } else { CompleteDecodes(s); }
    } else if t != "" && t[|t| - 1] == '\n' && AllInAlphabet(t[..|t| - 1]) {
      var s := TextOfSextets(t[..|t| - 1]);
      assert t == EncodeSextets(s) + "\n";
      TrailingLineFeed(s);
    }
  }

  lemma LineFeedMatches(s: seq<Sextet>)
    ensures var e := EncodeSextets(s) + "\n"; MatchesAlphabet(e) && Ascii(e) && |e| == |s| + 1
  {
    EncodedSextets(s);
    var e := EncodeSextets(s) + "\n";
    assert e[..|e| - 1] == EncodeSextets(s);
  }

  lemma LineFeedScan(s: seq<Sextet>, pad: string)
    ensures Scan(EncodeSextets(s) + "\n" + pad, [], 0) == Scan(pad, s, 0)
  {
    ScanSextets(s, "\n" + pad, []);
    assert [] + s == s && EncodeSextets(s) + "\n" + pad == EncodeSextets(s) + ("\n" + pad);
    assert ("\n" + pad)[1..] == pad;
  }

  /** Padding computed for one character more completes nothing. */
  lemma ShortPadding(acc: seq<Sextet>)
    ensures Scan(PadFor(|acc| + 1), acc, 0) == if |acc| % 4 == 0 then Some(acc) else None
  {
    PadOneMore(|acc|);
    if |acc| % 4 < 2 {
      PaddingSkipped(acc, 3 - |acc| % 4);
    } else if |acc| % 4 == 2 {
      LonePadding(acc);
    }
  }

  lemma PadOneMore(n: nat)
    ensures PadFor(n + 1) == Equals(3 - n % 4)
  {
  }

  lemma LonePadding(acc: seq<Sextet>)
    requires |acc| % 4 == 2
    ensures Scan(Equals(1), acc, 0).None?
  {
    assert Equals(1)[0] == '=' && Equals(1)[1..] == "";
    assert Scan("", acc, 1).None?;
  }

  /** Among the texts that decode, exactly the canonical ones are what encoding prints. */
  lemma OnlyCanonicalIsPrinted(s: seq<Sextet>)
    requires |s| % 4 != 1
    ensures Decode(EncodeSextets(s)).Some?
    ensures Encode(Decode(EncodeSextets(s)).value) == EncodeSextets(s) <==> Canonical(s)
  {
    CompleteDecodes(s);
    var back := ToSextets(FromSextets(s));
    EncodeIs(FromSextets(s));
    SextetsBack(s);
    if EncodeSextets(back) == EncodeSextets(s) {
      EncodedSextets(s);
      EncodedSextets(back);
      forall i | 0 <= i < |s| ensures back[i] == s[i] {
        assert DecodeChar(EncodeSextets(s)[i]) == Some(s[i]);
      }
      assert back == s;
    }
  }

  /** The strict decoder is the lenient one on what it accepts. */
  lemma StrictAgreesWithLenient(s: string)
    ensures Decode(s).Some? ==> StdDecode(s) == Decode(s)
  {
  }
}
/** Proof key for code exchange, method S256 (section 4 of RFC 7636). */
module Pkce {
  import opened Wrappers
  import opened Envelope
  import opened Base64Url

  const VERIFIER_BYTES: nat := 48
  const DIGEST_BYTES: nat := 32

  /** SHA-256 as an uninterpreted function with 32-byte results. */
  type Digest = f: Bytes -> Bytes | forall b :: |f(b)| == DIGEST_BYTES witness _ => seq(DIGEST_BYTES, _ => 0)

  datatype Pair = Pair(verifier: string, challenge: string)

  function Challenge(sha: Digest, verifier: string): string
    requires Ascii(verifier)
  {
    Encode(sha(AsciiBytes(verifier)))
  }

  function Generate(sha: Digest, random: Bytes): Pair
    requires |random| == VERIFIER_BYTES
  {
    EncodeIs(random);
    Pair(Encode(random), Challenge(sha, Encode(random)))
  }

  /** None is the encoding error on a verifier that is not ASCII. */
  function Verify(sha: Digest, verifier: string, expected: string): Option<bool> {
    if verifier == "" || expected == "" then Some(false)
    else if !Ascii(verifier) then None
    else Some(Challenge(sha, verifier) == expected)
  }

  /** The unreserved characters of section 4.1 of RFC 7636. */
  predicate Unreserved(c: char) {
    'A' <= c <= 'Z' || 'a' <= c <= 'z' || '0' <= c <= '9' || c == '-' || c == '.' || c == '_' || c == '~'
  }

  /** Lengths and alphabet of a generated pair, and the pair is accepted. */
  lemma GeneratedPair(sha: Digest, random: Bytes)
    requires |random| == VERIFIER_BYTES
    ensures var p := Generate(sha, random);
            && |p.verifier| == 64 && (forall i :: 0 <= i < 64 ==> Unreserved(p.verifier[i]))
            && |p.challenge| == 43 && (forall i :: 0 <= i < 43 ==> Unreserved(p.challenge[i]))
            && Verify(sha, p.verifier, p.challenge) == Some(true)
            && Decode(p.verifier) == Some(random)
            && Ascii(p.verifier) && Decode(p.challenge) == Some(sha(AsciiBytes(p.verifier)))
  {
    var p := Generate(sha, random);
    EncodeIs(random);
    EncodeIs(sha(AsciiBytes(p.verifier)));
    RoundTrip(random);
    RoundTrip(sha(AsciiBytes(p.verifier)));
  }

  /** Another verifier passes against a generated challenge only by colliding in the digest. */
  lemma AcceptsOnlyCollisions(sha: Digest, random: Bytes, verifier: string)
    requires |random| == VERIFIER_BYTES
    requires verifier != "" && Ascii(verifier)
    ensures var p := Generate(sha, random);
            Ascii(p.verifier) &&
            (Verify(sha, verifier, p.challenge) == Some(true) <==>
             sha(AsciiBytes(verifier)) == sha(AsciiBytes(p.verifier)))
  {
    var p := Generate(sha, random);
    GeneratedPair(sha, random);
    RoundTrip(sha(AsciiBytes(verifier)));
    RoundTrip(sha(AsciiBytes(p.verifier)));
  }

  /** Different random bytes give different verifiers. */
  lemma VerifiersDiffer(sha: Digest, a: Bytes, b: Bytes)
    requires |a| == VERIFIER_BYTES && |b| == VERIFIER_BYTES
    ensures Generate(sha, a).verifier == Generate(sha, b).verifier <==> a == b
  {
    RoundTrip(a);
    RoundTrip(b);
  }
}
