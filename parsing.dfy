/** The one-line card input: cleaning, cutting into two-character card tokens,
    splitting into hero and board, and naming the street from the board size
    (parse_and_detect_street). */
module Parsing {
  import opened Numbers

  // ---------------------------------------------------------------------------
  // Character classes and case mapping
  // ---------------------------------------------------------------------------

  /** The characters Python's str.isspace accepts, which str.strip() removes. */
  function IsSpace(c: char): (b: bool)
    ensures b ==> !('0' <= c <= '9') && !IsAsciiUpper(c) && !IsAsciiLower(c)
  {
    || c == ' '
    || '\t' <= c <= '\r'
    || '\U{1c}' <= c <= '\U{1f}'
    || c == '\U{85}' || c == '\U{a0}' || c == '\U{1680}'
    || '\U{2000}' <= c <= '\U{200a}'
    || c == '\U{2028}' || c == '\U{2029}' || c == '\U{202f}' || c == '\U{205f}' || c == '\U{3000}'
  }

  predicate IsAsciiUpper(c: char) { 'A' <= c <= 'Z' }
  predicate IsAsciiLower(c: char) { 'a' <= c <= 'z' }

  function LowerChar(c: char): (d: char)
    ensures !IsAsciiUpper(d)
    ensures IsAsciiUpper(c) ==> d as int == c as int + 32
    ensures !IsAsciiUpper(c) ==> d == c
  {
    if IsAsciiUpper(c) then (c as int + 32) as char else c
  }

  function UpperChar(c: char): (d: char)
    ensures !IsAsciiLower(d)
    ensures IsAsciiLower(c) ==> d as int == c as int - 32
    ensures !IsAsciiLower(c) ==> d == c
  {
    if IsAsciiLower(c) then (c as int - 32) as char else c
  }

  /** str.lower(), on the ASCII letters. */
  function Lower(s: string): (r: string)
    ensures |r| == |s|
    ensures forall i :: 0 <= i < |s| ==> r[i] == LowerChar(s[i])
    ensures forall c :: c in r ==> !IsAsciiUpper(c)
    ensures forall i :: 0 <= i < |s| && !IsAsciiUpper(s[i]) ==> r[i] == s[i]
  {
    seq(|s|, i requires 0 <= i < |s| => LowerChar(s[i]))
  }

  // ---------------------------------------------------------------------------
  // str.strip()
  // ---------------------------------------------------------------------------

  /** Number of leading whitespace characters. */
  function LeadingSpaces(s: string): (k: nat)
    ensures k <= |s|
    ensures forall i :: 0 <= i < k ==> IsSpace(s[i])
    ensures k < |s| ==> !IsSpace(s[k])
  {
    if s == [] || !IsSpace(s[0]) then 0 else 1 + LeadingSpaces(s[1..])
  }

  /** Length of s once its trailing whitespace is cut off. */
  function TrailingStart(s: string): (k: nat)
    ensures k <= |s|
    ensures forall i :: k <= i < |s| ==> IsSpace(s[i])
    ensures 0 < k ==> !IsSpace(s[k - 1])
  {
    if s == [] || !IsSpace(s[|s| - 1]) then |s| else TrailingStart(s[..|s| - 1])
  }

  /** str.strip(): the longest middle part that neither starts nor ends with
      whitespace; everything cut away on either side is whitespace. */
  function Strip(s: string): (r: string)
    ensures LeadingSpaces(s) + |r| <= |s|
    ensures r == [] || (!IsSpace(r[0]) && !IsSpace(r[|r| - 1]))
    ensures r == s[LeadingSpaces(s)..LeadingSpaces(s) + |r|]
    ensures forall i :: LeadingSpaces(s) + |r| <= i < |s| ==> IsSpace(s[i])
  {
    var t := s[LeadingSpaces(s)..];
    t[..TrailingStart(t)]
  }

  /** Stripping twice changes nothing more. */
  lemma StripIdempotent(s: string)
    ensures Strip(Strip(s)) == Strip(s)
  {
    var r := Strip(s);
    assert LeadingSpaces(r) == 0;
    assert r[LeadingSpaces(r)..] == r;
    assert TrailingStart(r) == |r|;
    assert r[..|r|] == r;
  }

  // ---------------------------------------------------------------------------
  // .replace("10", "t") and .replace(" ", "")
  // ---------------------------------------------------------------------------

  predicate TenAt(s: string, i: int)
    requires 0 <= i
  {
    i + 1 < |s| && s[i] == '1' && s[i + 1] == '0'
  }

  /** Some "10" occurs in s. */
  predicate HasTen(s: string) {
    exists i :: 0 <= i < |s| && TenAt(s, i)
  }

  /** str.replace("10", "t"): occurrences are replaced left to right without
      overlapping, so "100" becomes "t0" and "110" becomes "1t". No "10"
      survives the replacement. */
  function ReplaceTen(s: string): (r: string)
    ensures |r| <= |s|
    ensures (r == []) == (s == [])
    ensures r != [] ==> r[0] == (if TenAt(s, 0) then 't' else s[0])
    ensures forall c :: c in r ==> c == 't' || c in s
    ensures !HasTen(r)
  {
    if s == [] then []
    else if TenAt(s, 0) then
      var rest := ReplaceTen(s[2..]);
      assert forall c :: c in s[2..] ==> c in s;
      var r := "t" + rest;
      assert forall i :: 0 <= i && TenAt(r, i) ==> TenAt(rest, i - 1);
      r
    else
      var rest := ReplaceTen(s[1..]);
      assert forall c :: c in s[1..] ==> c in s;
      var r := [s[0]] + rest;
      assert !TenAt(r, 0);
      assert forall i :: 1 <= i && TenAt(r, i) ==> TenAt(rest, i - 1);
      r
  }

  /** A string holding no "10" is left as it is. */
  lemma {:induction false} ReplaceTenWithoutTen(s: string)
    requires !HasTen(s)
    ensures ReplaceTen(s) == s
  {
    if s != [] {
      assert !TenAt(s, 0);
      assert !HasTen(s[1..]) by {
        forall i | 0 <= i < |s| - 1 ensures !TenAt(s[1..], i) {
          assert !TenAt(s, i + 1);
        }
      }
      ReplaceTenWithoutTen(s[1..]);
    }
  }

  /** The pieces the replacement is built from: "10" becomes "t", and a
      single character stays as it is. */
  lemma ReplaceTenPieces(c: char)
    ensures ReplaceTen("10") == "t"
    ensures ReplaceTen([c]) == [c]
  {
    assert "10"[2..] == [];
  }

  /** One step of the scan over a leading "10": once the rest of x after
      it is known to append, so does x. */
  lemma ReplaceTenAppendTen(x: string, y: string)
    requires TenAt(x, 0)
    requires ReplaceTen(x[2..] + y) == ReplaceTen(x[2..]) + ReplaceTen(y)
    ensures ReplaceTen(x + y) == ReplaceTen(x) + ReplaceTen(y)
  {
    assert TenAt(x + y, 0);
    assert (x + y)[2..] == x[2..] + y;
  }

  /** One step of the scan over a first character that does not start a
      "10" of x + y: once the rest of x after it is known to append, so does
      x. */
  lemma ReplaceTenAppendOther(x: string, y: string)
    requires x != [] && !TenAt(x + y, 0)
    requires ReplaceTen(x[1..] + y) == ReplaceTen(x[1..]) + ReplaceTen(y)
    ensures ReplaceTen(x + y) == ReplaceTen(x) + ReplaceTen(y)
  {
    assert !TenAt(x, 0);
    assert (x + y)[1..] == x[1..] + y;
    assert [x[0]] + (ReplaceTen(x[1..]) + ReplaceTen(y)) == ([x[0]] + ReplaceTen(x[1..])) + ReplaceTen(y);
  }

  /** The replacement works piece by piece: at any cut that does not split a
      "10" the pieces are replaced on their own and keep their order. */
  lemma {:induction false} ReplaceTenAppend(x: string, y: string)
    requires x == [] || y == [] || x[|x| - 1] != '1' || y[0] != '0'
    ensures ReplaceTen(x + y) == ReplaceTen(x) + ReplaceTen(y)
  {
    if x == [] {
      assert x + y == y;
    } else if y == [] {
      assert x + y == x;
    } else if TenAt(x + y, 0) {
      assert |x| >= 2;
      var rest := x[2..];
      assert rest == [] || rest[|rest| - 1] == x[|x| - 1];
      ReplaceTenAppend(rest, y);
      ReplaceTenAppendTen(x, y);
    } else {
      var rest := x[1..];
      assert rest == [] || rest[|rest| - 1] == x[|x| - 1];
      ReplaceTenAppend(rest, y);
      ReplaceTenAppendOther(x, y);
    }
  }

  /** Python's left-to-right scan: "110" becomes "1t", not "11t" or "t0". */
  lemma ReplaceTenLeftToRight()
    ensures ReplaceTen("110") == "1t"
  {
    ReplaceTenPieces('1');
    ReplaceTenAppend("1", "10");
    assert "1" + "10" == "110";
  }

  /** Replacing a second time changes nothing more. */
  lemma ReplaceTenIdempotent(s: string)
    ensures ReplaceTen(ReplaceTen(s)) == ReplaceTen(s)
  {
    ReplaceTenWithoutTen(ReplaceTen(s));
  }

  /** str.replace(" ", ""): every space goes, every other character stays,
      in order. */
  function RemoveSpaces(s: string): (r: string)
    ensures |r| <= |s|
    ensures ' ' !in r
    ensures forall c :: c in r ==> c in s
    ensures forall c :: c != ' ' ==> multiset(r)[c] == multiset(s)[c]
  {
    if s == [] then []
    else
      assert s == [s[0]] + s[1..];
      if s[0] == ' ' then RemoveSpaces(s[1..]) else [s[0]] + RemoveSpaces(s[1..])
  }

  /** Removing spaces works piece by piece, keeping the order of the rest. */
  lemma {:induction false} RemoveSpacesAppend(a: string, b: string)
    ensures RemoveSpaces(a + b) == RemoveSpaces(a) + RemoveSpaces(b)
  {
    if a == [] {
      assert a + b == b;
    } else {
      assert (a + b)[1..] == a[1..] + b;
      RemoveSpacesAppend(a[1..], b);
    }
  }

  /** A string without spaces is left as it is. */
  lemma {:induction false} RemoveSpacesNoSpace(s: string)
    requires forall i :: 0 <= i < |s| ==> s[i] != ' '
    ensures RemoveSpaces(s) == s
  {
    if s != [] {
      assert s[0] != ' ';
      RemoveSpacesNoSpace(s[1..]);
      assert s == [s[0]] + s[1..];
    }
  }

  /** `raw.strip().lower().replace("10", "t").replace(" ", "")`. */
  function Clean(raw: string): (clean: string)
    ensures |clean| <= |raw|
    ensures ' ' !in clean
    ensures forall c :: c in clean ==> !IsAsciiUpper(c)
  {
    RemoveSpaces(ReplaceTen(Lower(Strip(raw))))
  }

  /** The "10" replacement runs before the spaces are removed, so a ten typed
      with a space inside it comes out of the cleaning as "10", not "t". */
  lemma SpacedTenSurvives()
    ensures Clean("1 0") == "10"
  {
    assert Strip("1 0") == "1 0";
    assert Lower("1 0") == "1 0";
    assert !HasTen("1 0");
    ReplaceTenWithoutTen("1 0");
    assert RemoveSpaces("1 0") == "10";
  }

  /** A line already in the cleaned form (no whitespace, no capital letter,
      no "10") is left as it is. */
  lemma CleanCanonical(raw: string)
    requires forall i :: 0 <= i < |raw| ==> !IsSpace(raw[i]) && !IsAsciiUpper(raw[i])
    requires !HasTen(raw)
    ensures Clean(raw) == raw
  {
    assert LeadingSpaces(raw) == 0;
    assert TrailingStart(raw) == |raw|;
    assert raw[0..][..|raw|] == raw;
    assert Strip(raw) == raw;
    assert Lower(raw) == raw;
    ReplaceTenWithoutTen(raw);
    RemoveSpacesNoSpace(raw);
  }

  // ---------------------------------------------------------------------------
  // Tokens, hero and board
  // ---------------------------------------------------------------------------

  /** `c[0].upper() + c[1].lower()`: a rank letter in upper case, a suit
      letter in lower case. */
  function FormatToken(rank: char, suit: char): (t: string)
    ensures |t| == 2
    ensures !IsAsciiLower(t[0]) && !IsAsciiUpper(t[1])
    ensures LowerChar(t[0]) == LowerChar(rank) && UpperChar(t[1]) == UpperChar(suit)
  {
    [UpperChar(rank), LowerChar(suit)]
  }

  /** The consecutive two-character chunks of clean, each re-cased, a trailing
      one-character chunk dropped: token k is made of characters 2k and 2k+1. */
  function Tokens(clean: string): (ts: seq<string>)
    ensures |ts| == |clean| / 2
    ensures forall k :: 0 <= k < |ts| ==> ts[k] == FormatToken(clean[2 * k], clean[2 * k + 1])
  {
    if |clean| < 2 then []
    else
      var rest := Tokens(clean[2..]);
      var ts := [FormatToken(clean[0], clean[1])] + rest;
      assert forall k :: 1 <= k < |ts| ==> ts[k] == rest[k - 1];
      ts
  }

  /** The result of parse_and_detect_street. */
  datatype Parsed = Parsed(hero: seq<string>, board: seq<string>, street: string)

  /** The first two tokens are the hero's cards, the rest the board; the
      street is named from the board size. */
  function ParseAndDetectStreet(raw: string): (p: Parsed)
    ensures p.hero + p.board == Tokens(Clean(raw))
    ensures |p.hero| == Min(2, |Clean(raw)| / 2)
    ensures |p.board| == if |Clean(raw)| / 2 <= 2 then 0 else |Clean(raw)| / 2 - 2
    ensures p.street == StreetName(|p.board|)
  {
    var formatted := Tokens(Clean(raw));
    var hero := formatted[..Min(2, |formatted|)];
    var board := formatted[Min(2, |formatted|)..];
    assert hero + board == formatted;
    Parsed(hero, board, StreetName(|board|))
  }

  // ---------------------------------------------------------------------------
  // Street names
  // ---------------------------------------------------------------------------

  function DigitChar(d: nat): (c: char)
    requires d < 10
    ensures '0' <= c <= '9' && c as int - '0' as int == d
  {
    ('0' as int + d) as char
  }

  /** The number a string of decimal digits spells, most significant digit
      first. */
  function DigitsValue(s: string): nat
    requires forall i :: 0 <= i < |s| ==> '0' <= s[i] <= '9'
  {
    if s == [] then 0 else 10 * DigitsValue(s[..|s| - 1]) + (s[|s| - 1] as int - '0' as int)
  }

  /** Decimal representation of n, as an f-string writes it: the digits spell
      n, with no leading zero. */
  function NatToString(n: nat): (s: string)
    ensures 1 <= |s|
    ensures n >= 10 <==> |s| >= 2
    ensures forall i :: 0 <= i < |s| ==> '0' <= s[i] <= '9'
    ensures DigitsValue(s) == n
    ensures |s| >= 2 ==> s[0] != '0'
  {
    if n < 10 then [DigitChar(n)]
    else
      var s := NatToString(n / 10) + [DigitChar(n % 10)];
      assert s[..|s| - 1] == NatToString(n / 10);
      s
  }

  /** Different numbers are written differently. */
  lemma NatToStringInjective(a: nat, b: nat)
    requires NatToString(a) == NatToString(b)
    ensures a == b
  {
    assert DigitsValue(NatToString(a)) == DigitsValue(NatToString(b));
  }

  const IncompletePrefix: string := "Incomplete ("
  const IncompleteSuffix: string := " board cards)"

  /** The street for a board of count cards. */
  function StreetName(count: nat): (street: string)
    ensures count == 0 ==> street == "Pre-flop"
    ensures count == 3 ==> street == "Flop"
    ensures count == 4 ==> street == "Turn"
    ensures count == 5 ==> street == "River"
    ensures count !in {0, 3, 4, 5} ==> street == IncompletePrefix + NatToString(count) + IncompleteSuffix
  {
    if count == 0 then "Pre-flop"
    else if count == 3 then "Flop"
    else if count == 4 then "Turn"
    else if count == 5 then "River"
    else IncompletePrefix + NatToString(count) + IncompleteSuffix
  }

  predicate IsNamedStreet(street: string) {
    street in {"Pre-flop", "Flop", "Turn", "River"}
  }

  /** A board is on a named street exactly when it holds 0, 3, 4 or 5 cards;
      1, 2 and 6 or more cards are never a named street. */
  lemma StreetNamedIff(count: nat)
    ensures IsNamedStreet(StreetName(count)) <==> count in {0, 3, 4, 5}
  {
    if count !in {0, 3, 4, 5} {
      assert StreetName(count)[0] == 'I';
    }
  }

  /** Different board sizes get different street names, so the street
      determines the board size. */
  lemma StreetNameInjective(a: nat, b: nat)
    requires StreetName(a) == StreetName(b)
    ensures a == b
  {
    StreetNamedIff(a);
    StreetNamedIff(b);
    if a !in {0, 3, 4, 5} {
      var sa, sb := NatToString(a), NatToString(b);
      var p := |IncompletePrefix|;
      assert StreetName(a)[p..p + |sa|] == sa;
      assert |sa| == |sb|;
      assert StreetName(b)[p..p + |sb|] == sb;
      NatToStringInjective(a, b);
    }
  }
}
