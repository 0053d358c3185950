/** Text helpers that several components share. */
module Strings {
  const VENDOR_PREFIX := "@activepieces/"

  const PIECE_PREFIX := "@activepieces/piece-"

  predicate IsSpace(c: char) { c == ' ' || 9 as char <= c <= 13 as char || 0x1C as char <= c <= 0x1F as char }

  function TrimLeft(s: string): string { if s != "" && IsSpace(s[0]) then TrimLeft(s[1..]) else s }

  function TrimRight(s: string): string {
    if s != "" && IsSpace(s[|s| - 1]) then TrimRight(s[..|s| - 1]) else s
  }

  function Trim(s: string): string { TrimRight(TrimLeft(s)) }

  // ------------------------------------------------------------------
  // What trimming leaves
  // ------------------------------------------------------------------

  predicate Blank(c: char) {
    c in {' ', '\t', '\n', '\r'} || c in {11 as char, 12 as char, 28 as char, 29 as char, 30 as char, 31 as char}
  }

  predicate AllBlank(s: string) { forall i :: 0 <= i < |s| ==> Blank(s[i]) }

  /** What is left between the blanks at both ends. */
  ghost predicate StripsTo(s: string, t: string) {
    && (t != "" ==> !Blank(t[0]) && !Blank(t[|t| - 1]))
    && exists i, j :: 0 <= i <= j <= |s| && s[i..j] == t && AllBlank(s[..i]) && AllBlank(s[j..])
  }

  lemma BlankIsSpace(c: char)
    ensures Blank(c) <==> IsSpace(c)
  {
  }

  lemma {:induction false} TrimLeftIs(s: string) returns (i: nat)
    ensures i <= |s| && TrimLeft(s) == s[i..] && AllBlank(s[..i]) && (i < |s| ==> !Blank(s[i]))
  {
    if s != "" && IsSpace(s[0]) {
      var k := TrimLeftIs(s[1..]);
      i := k + 1;
      assert s[..i] == [s[0]] + s[1..][..k];
      BlankIsSpace(s[0]);
    } else {
      i := 0;
      if s != "" { BlankIsSpace(s[0]); }
    }
  }

  lemma {:induction false} TrimRightIs(s: string) returns (j: nat)
    ensures j <= |s| && TrimRight(s) == s[..j] && AllBlank(s[j..]) && (j > 0 ==> !Blank(s[j - 1]))
  {
    if s != "" && IsSpace(s[|s| - 1]) {
      j := TrimRightIs(s[..|s| - 1]);
      LastOff(s, j);
      BlankIsSpace(s[|s| - 1]);
    } else {
      j := |s|;
      assert s[..j] == s;
      if s != "" { BlankIsSpace(s[|s| - 1]); }
    }
  }

  lemma LastOff(s: string, j: nat)
    requires s != "" && j < |s|
    ensures s[j..] == s[..|s| - 1][j..] + [s[|s| - 1]] && s[..|s| - 1][..j] == s[..j]
    ensures j > 0 ==> s[..|s| - 1][j - 1] == s[j - 1]
  {
  }

  lemma Assoc(a: string, b: string, c: string)
    ensures a + b + c == a + (b + c)
  {
  }

  lemma TrimStrips(s: string)
    ensures StripsTo(s, Trim(s))
  {
    var i := TrimLeftIs(s);
    var u := s[i..];
    var j := TrimRightIs(u);
    assert s[i..i + j] == u[..j] && s[i + j..] == u[j..];
    assert i + j <= |s| && AllBlank(s[..i]) && AllBlank(s[i + j..]);
  }

  lemma StripsOnce(s: string, t: string, u: string)
    requires StripsTo(s, t) && StripsTo(s, u)
    ensures t == u
  {
    var i, j :| 0 <= i <= j <= |s| && s[i..j] == t && AllBlank(s[..i]) && AllBlank(s[j..]);
    var k, l :| 0 <= k <= l <= |s| && s[k..l] == u && AllBlank(s[..k]) && AllBlank(s[l..]);
    Ends(s, i, j);
    Ends(s, k, l);
    SameStretch(s, i, j, k, l);
  }

  lemma Ends(s: string, i: nat, j: nat)
    requires i <= j <= |s|
    ensures i < j ==> s[i..j] != "" && s[i..j][0] == s[i] && s[i..j][|s[i..j]| - 1] == s[j - 1]
  {
  }

  lemma SameStretch(s: string, i: nat, j: nat, k: nat, l: nat)
    requires i <= j <= |s| && k <= l <= |s|
    requires i < j ==> !Blank(s[i]) && !Blank(s[j - 1])
    requires k < l ==> !Blank(s[k]) && !Blank(s[l - 1])
    requires AllBlank(s[..i]) && AllBlank(s[j..]) && AllBlank(s[..k]) && AllBlank(s[l..])
    ensures s[i..j] == s[k..l]
  {
    if i < j { Inside(s, i, j, k, l); }
    if k < l { Inside(s, k, l, i, j); }
  }

  /** A stretch with unblank ends lies within every stretch that has only blanks outside. */
  lemma Inside(s: string, i: nat, j: nat, k: nat, l: nat)
    requires i < j <= |s| && k <= l <= |s| && !Blank(s[i]) && !Blank(s[j - 1])
    requires AllBlank(s[..k]) && AllBlank(s[l..])
    ensures k <= i && j <= l
  {
    assert forall m :: 0 <= m < k ==> s[m] == s[..k][m];
    assert forall m :: l <= m < |s| ==> s[m] == s[l..][m - l];
  }

  lemma TrimIff(s: string, t: string)
    ensures Trim(s) == t <==> StripsTo(s, t)
  {
    TrimStrips(s);
    if StripsTo(s, t) { StripsOnce(s, Trim(s), t); }
  }
}
