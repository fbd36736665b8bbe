/** String operations the sources rely on: substring containment
    (JavaScript `includes`, Python `in`), prefix tests (`startsWith`),
    JavaScript `trim`, and decimal rendering of natural numbers. */
module Text {

  import opened Wrappers

  /** `p` is a prefix of `s` (JavaScript `s.startsWith(p)`). */
  predicate StartsWith(s: string, p: string) {
    |p| <= |s| && s[..|p|] == p
  }

  /** `t` occurs in `s` starting at index `k`. */
  predicate OccursAt(s: string, t: string, k: nat) {
    k + |t| <= |s| && s[k..k + |t|] == t
  }

  /** Substring containment: JavaScript `s.includes(t)`, Python `t in s`. */
  function Contains(s: string, t: string): (r: bool)
    ensures r <==> exists k: nat :: OccursAt(s, t, k)
    decreases |s|
  {
    if |t| > |s| then
      assert forall k: nat :: !OccursAt(s, t, k);
      false
    else if s[..|t|] == t then
      assert OccursAt(s, t, 0);
      true
    else
      var rest := Contains(s[1..], t);
      assert forall k: nat :: OccursAt(s[1..], t, k) <==> OccursAt(s, t, k + 1);
      assert forall k: nat :: OccursAt(s, t, k) ==> k > 0;
      if rest then
        var k: nat :| OccursAt(s[1..], t, k);
        assert OccursAt(s, t, k + 1);
        true
      else
        assert forall k: nat :: OccursAt(s, t, k) ==> OccursAt(s[1..], t, k - 1);
        false
  }

  /** The empty string occurs in every string. */
  lemma ContainsEmpty(s: string)
    ensures Contains(s, "")
  {
    assert OccursAt(s, "", 0);
  }

  // ---------------------------------------------------------------------
  // JavaScript String.prototype.trim

  /** The characters `trim` removes: the WhiteSpace and LineTerminator
      code points of ECMAScript (tab, vertical tab, form feed, space,
      no-break space, byte order mark, the Unicode space separators, and
      line feed, carriage return, line and paragraph separators). */
  predicate IsSpace(c: char) {
    c == '\t' || c == '\n' || c == '\U{000B}' || c == '\U{000C}' || c == '\r'
    || c == ' ' || c == '\U{00A0}' || c == '\U{1680}'
    || ('\U{2000}' <= c <= '\U{200A}')
    || c == '\U{2028}' || c == '\U{2029}' || c == '\U{202F}' || c == '\U{205F}'
    || c == '\U{3000}' || c == '\U{FEFF}'
  }

  predicate AllSpace(s: string) {
    forall i :: 0 <= i < |s| ==> IsSpace(s[i])
  }

  /** `s` neither begins nor ends with a space character. */
  predicate IsTrimmed(s: string) {
    s == [] || (!IsSpace(s[0]) && !IsSpace(s[|s| - 1]))
  }

  lemma AllSpaceCons(c: char, t: string)
    requires IsSpace(c) && AllSpace(t)
    ensures AllSpace([c] + t)
  {
    assert forall i :: 1 <= i < |t| + 1 ==> ([c] + t)[i] == t[i - 1];
  }

  lemma AllSpaceSnoc(t: string, c: char)
    requires AllSpace(t) && IsSpace(c)
    ensures AllSpace(t + [c])
  {
    assert forall i :: 0 <= i < |t| ==> (t + [c])[i] == t[i];
  }

  /** Removes leading space characters: the result is a suffix of `s`, what
      was dropped is all space, and the result does not start with a space. */
  function TrimStart(s: string): (r: string)
    ensures |r| <= |s| && r == s[|s| - |r|..]
    ensures AllSpace(s[..|s| - |r|])
    ensures r == [] || !IsSpace(r[0])
  {
    if |s| > 0 && IsSpace(s[0]) then
      var r := TrimStart(s[1..]);
      var dropped := s[1..][..|s| - 1 - |r|];
      assert s[..|s| - |r|] == [s[0]] + dropped;
      assert s[1..][|s| - 1 - |r|..] == s[|s| - |r|..];
      AllSpaceCons(s[0], dropped);
      r
    else
      s
  }

  /** Removes trailing space characters: the result is a prefix of `s`, what
      was dropped is all space, and the result does not end with a space. */
  function TrimEnd(s: string): (r: string)
    ensures |r| <= |s| && r == s[..|r|]
    ensures AllSpace(s[|r|..])
    ensures r == [] || !IsSpace(r[|r| - 1])
  {
    if |s| > 0 && IsSpace(s[|s| - 1]) then
      var r := TrimEnd(s[..|s| - 1]);
      var dropped := s[..|s| - 1][|r|..];
      assert s[|r|..] == dropped + [s[|s| - 1]];
      assert s[..|s| - 1][..|r|] == s[..|r|];
      AllSpaceSnoc(dropped, s[|s| - 1]);
      r
    else
      s
  }

  /** JavaScript `s.trim()`. */
  function Trim(s: string): (r: string)
    ensures IsTrimmed(r)
  {
    var a := TrimStart(s);
    var r := TrimEnd(a);
    assert r == [] || !IsSpace(r[0]) by {
      if r != [] { assert r[0] == a[0]; }
    }
    r
  }

  /** `s` is `trim(s)` with all-space text on either side. */
  lemma TrimSpec(s: string)
    ensures exists i, j :: 0 <= i <= j <= |s| && Trim(s) == s[i..j] && AllSpace(s[..i]) && AllSpace(s[j..])
  {
    var a := TrimStart(s);
    var r := TrimEnd(a);
    var i := |s| - |a|;
    assert r == s[i..i + |r|];
    assert s[i + |r|..] == a[|r|..];
  }

  /** A string without surrounding space is left alone by `trim`. */
  lemma TrimOfTrimmed(s: string)
    requires IsTrimmed(s)
    ensures Trim(s) == s
  {
  }

  /** `trim` is idempotent. */
  lemma TrimIdempotent(s: string)
    ensures Trim(Trim(s)) == Trim(s)
  {
    TrimOfTrimmed(Trim(s));
  }

  // ---------------------------------------------------------------------
  // Decimal rendering of naturals (JavaScript `${n}` / `n.toString()`)

  function DigitChar(d: nat): (c: char)
    requires d < 10
    ensures '0' <= c <= '9' && (c as int) - ('0' as int) == d
  {
    ('0' as int + d) as char
  }

  predicate IsDigit(c: char) {
    '0' <= c <= '9'
  }

  predicate AllDigits(s: string) {
    forall i :: 0 <= i < |s| ==> IsDigit(s[i])
  }

  /** The decimal numeral of `n`, with no leading zeros. */
  function NatToString(n: nat): (s: string)
    ensures |s| >= 1 && AllDigits(s)
    ensures |s| > 1 ==> s[0] != '0'
    ensures n < 10 <==> |s| == 1
  {
    if n < 10 then [DigitChar(n)] else NatToString(n / 10) + [DigitChar(n % 10)]
  }

  /** Reads a decimal numeral; `None` for the empty string or a non-digit. */
  function ParseNat(s: string): (r: Option<nat>)
    ensures r.Some? <==> |s| >= 1 && AllDigits(s)
  {
    if |s| == 0 || !IsDigit(s[|s| - 1]) then None
    else
      var d := (s[|s| - 1] as int) - ('0' as int);
      if |s| == 1 then Some(d)
      else match ParseNat(s[..|s| - 1])
        case None => None
        case Some(p) => Some(p * 10 + d)
  }

  /** Reading back a rendered natural gives the natural. */
  lemma {:induction false} ParseNatToString(n: nat)
    ensures ParseNat(NatToString(n)) == Some(n)
  {
    if n >= 10 {
      var s := NatToString(n);
      assert s[..|s| - 1] == NatToString(n / 10);
      ParseNatToString(n / 10);
    }
  }

  /** The length of the run of digits `s` starts with. */
  function LeadingDigits(s: string): (n: nat)
    ensures n <= |s| && AllDigits(s[..n])
    ensures n < |s| ==> !IsDigit(s[n])
  {
    if s != [] && IsDigit(s[0]) then
      var n := 1 + LeadingDigits(s[1..]);
      assert s[..n] == [s[0]] + s[1..][..n - 1];
      n
    else 0
  }

  /** A numeral followed by a non-digit: the digit run is the numeral. */
  lemma {:induction false} LeadingDigitsOfNumeral(a: string, x: string)
    requires AllDigits(a) && |x| > 0 && !IsDigit(x[0])
    ensures LeadingDigits(a + x) == |a|
  {
    if a == [] {
      assert a + x == x;
    } else {
      assert (a + x)[1..] == a[1..] + x;
      LeadingDigitsOfNumeral(a[1..], x);
    }
  }

  /** Two numerals each followed by a text that starts with a non-digit:
      equal concatenations split the same way. */
  lemma NumeralSplit(a1: string, r1: string, a2: string, r2: string)
    requires AllDigits(a1) && |r1| > 0 && !IsDigit(r1[0])
    requires AllDigits(a2) && |r2| > 0 && !IsDigit(r2[0])
    requires a1 + r1 == a2 + r2
    ensures a1 == a2 && r1 == r2
  {
    LeadingDigitsOfNumeral(a1, r1);
    LeadingDigitsOfNumeral(a2, r2);
    assert a1 == (a1 + r1)[..|a1|] && a2 == (a2 + r2)[..|a2|];
    assert r1 == (a1 + r1)[|a1|..] && r2 == (a2 + r2)[|a2|..];
  }

  /** A common prefix cancels. */
  lemma PrefixCancel(p: string, u: string, v: string)
    requires p + u == p + v
    ensures u == v
  {
    assert u == (p + u)[|p|..] && v == (p + v)[|p|..];
  }

  /** A common suffix cancels. */
  lemma SuffixCancel(u: string, v: string, w: string)
    requires u + w == v + w
    ensures u == v
  {
    assert u == (u + w)[..|u|] && v == (v + w)[..|v|];
  }

  /** A numeral as `toString` writes one: digits, with no leading zero. */
  predicate IsCanonicalNumeral(s: string) {
    |s| >= 1 && AllDigits(s) && (|s| == 1 || s[0] != '0')
  }

  /** A numeral with a non-zero first digit names a positive number. */
  lemma {:induction false} ParseNatPositive(s: string)
    requires |s| >= 1 && AllDigits(s) && s[0] != '0'
    ensures ParseNat(s).Some? && ParseNat(s).value >= 1
  {
    if |s| > 1 {
      ParseNatPositive(s[..|s| - 1]);
    }
  }

  /** Rendering what a canonical numeral reads as gives the numeral back. */
  lemma {:induction false} NatToStringOfParse(s: string)
    requires IsCanonicalNumeral(s)
    ensures ParseNat(s).Some? && NatToString(ParseNat(s).value) == s
  {
    var n := ParseNat(s).value;
    var d := (s[|s| - 1] as int) - ('0' as int);
    if |s| == 1 {
      assert NatToString(n) == [DigitChar(d)];
    } else {
      var init := s[..|s| - 1];
      ParseNatPositive(init);
      NatToStringOfParse(init);
      var p := ParseNat(init).value;
      assert n == p * 10 + d;
      assert n / 10 == p && n % 10 == d;
      assert NatToString(n) == NatToString(p) + [DigitChar(d)];
      assert s == init + [s[|s| - 1]];
    }
  }

  /** Two numerals of the same length that read as the same number are the
      same text (leading zeros included). */
  lemma {:induction false} ParseNatSameLength(s: string, t: string)
    requires |s| == |t| && ParseNat(s).Some? && ParseNat(s) == ParseNat(t)
    ensures s == t
  {
    if |s| == 1 {
      assert s == [s[0]] && t == [t[0]];
    } else {
      var si, ti := s[..|s| - 1], t[..|t| - 1];
      var ds := (s[|s| - 1] as int) - ('0' as int);
      var dt := (t[|t| - 1] as int) - ('0' as int);
      var ps, pt := ParseNat(si).value, ParseNat(ti).value;
      LastDigitSplit(ps, ds, pt, dt);
      ParseNatSameLength(si, ti);
      assert s == si + [s[|s| - 1]];
      assert t == ti + [t[|t| - 1]];
    }
  }

  /** A decimal number splits uniquely into its last digit and the rest. */
  lemma LastDigitSplit(p: int, d: int, q: int, e: int)
    requires 0 <= d < 10 && 0 <= e < 10 && p * 10 + d == q * 10 + e
    ensures p == q && d == e
  {
    assert (p - q) * 10 == e - d;
  }
}
