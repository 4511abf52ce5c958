/** The string operations used to compare quiz answers and to validate record fields:
    JavaScript's `toLowerCase` and `trim`, and Sequelize's `notEmpty` validator. */
module Text {

  /** JavaScript white space and line terminators: the characters `String.prototype.trim`
      removes and the regular-expression class `\s` matches. */
  predicate IsSpace(c: char) {
    || c == ' ' || c == '\t' || c == '\n' || c == '\r'
    || c == '\U{000B}' || c == '\U{000C}' || c == '\U{00A0}' || c == '\U{1680}'
    || ('\U{2000}' <= c <= '\U{200A}')
    || c == '\U{2028}' || c == '\U{2029}' || c == '\U{202F}' || c == '\U{205F}'
    || c == '\U{3000}' || c == '\U{FEFF}'
  }

  /** Case mapping of `toLowerCase`, restricted to ASCII letters. */
  function LowerChar(c: char): char {
    if 'A' <= c <= 'Z' then (c as int + 32) as char else c
  }

  /** `toLowerCase`: same length and the same white space, no upper-case ASCII letter is
      left, and every other character is kept as it is. */
  function Lower(s: string): (r: string)
    ensures |r| == |s|
    ensures forall i :: 0 <= i < |s| ==> IsSpace(r[i]) == IsSpace(s[i])
    ensures forall i :: 0 <= i < |r| ==> !('A' <= r[i] <= 'Z')
    ensures forall i :: 0 <= i < |s| && !('A' <= s[i] <= 'Z') ==> r[i] == s[i]
    ensures forall i :: 0 <= i < |s| && 'A' <= s[i] <= 'Z' ==> r[i] as int == s[i] as int + 32
  {
    seq(|s|, i requires 0 <= i < |s| => LowerChar(s[i]))
  }

  /** Number of white-space characters at the start of `s`. */
  function LeadingSpaces(s: string): (k: nat)
    ensures k <= |s|
    ensures forall i :: 0 <= i < k ==> IsSpace(s[i])
    ensures k < |s| ==> !IsSpace(s[k])
  {
    if s == [] || !IsSpace(s[0]) then 0 else 1 + LeadingSpaces(s[1..])
  }

  /** Number of white-space characters at the end of `s`. */
  function TrailingSpaces(s: string): (k: nat)
    ensures k <= |s|
    ensures forall i :: |s| - k <= i < |s| ==> IsSpace(s[i])
    ensures k < |s| ==> !IsSpace(s[|s| - 1 - k])
  {
    if s == [] || !IsSpace(s[|s| - 1]) then 0 else 1 + TrailingSpaces(s[..|s| - 1])
  }

  /** `String.prototype.trim`: the longest slice of `s` that neither starts nor ends with
      white space, obtained by removing white space only (`TrimIsSlice`). */
  function Trim(s: string): (r: string)
    ensures r == [] || (!IsSpace(r[0]) && !IsSpace(r[|r| - 1]))
    ensures |r| <= |s|
  {
    var rest := s[LeadingSpaces(s)..];
    rest[..|rest| - TrailingSpaces(rest)]
  }

  /** Trimming removes white space only, and only at the two ends: the result is a
      contiguous slice of the input with nothing but white space before and after it. */
  lemma TrimIsSlice(s: string)
    ensures exists a, b :: 0 <= a <= b <= |s| && Trim(s) == s[a..b]
              && (forall i :: 0 <= i < a ==> IsSpace(s[i]))
              && (forall i :: b <= i < |s| ==> IsSpace(s[i]))
  {
    var a := LeadingSpaces(s);
    var rest := s[a..];
    var b := a + |rest| - TrailingSpaces(rest);
    assert Trim(s) == s[a..b];
    forall i | b <= i < |s| ensures IsSpace(s[i]) {
      assert s[i] == rest[i - a];
    }
  }

  /** The comparison key of an answer: `x.toLowerCase().trim()`. */
  function Normalize(s: string): string {
    Trim(Lower(s))
  }

  /** Sequelize's `notEmpty` validator: the string is not made of white space alone. */
  predicate NotBlank(s: string) {
    s != [] && (!IsSpace(s[0]) || NotBlank(s[1..]))
  }

  /** A string passes `notEmpty` exactly when some character of it is not white space. */
  lemma {:induction false} NotBlankMeaning(s: string)
    ensures NotBlank(s) <==> exists i :: 0 <= i < |s| && !IsSpace(s[i])
    ensures NotBlank(s) <==> LeadingSpaces(s) < |s|
  {
    if s != [] {
      NotBlankMeaning(s[1..]);
      if IsSpace(s[0]) && (exists i :: 0 <= i < |s| && !IsSpace(s[i])) {
        var i :| 0 <= i < |s| && !IsSpace(s[i]);
        assert !IsSpace(s[1..][i - 1]);
      }
    }
  }

  /** Lower-casing an already lower-cased string changes nothing. */
  lemma {:induction false} LowerIdempotent(s: string)
    ensures Lower(Lower(s)) == Lower(s)
  {
    var r := Lower(s);
    assert forall i :: 0 <= i < |r| ==> Lower(r)[i] == r[i];
  }

  lemma LowerCharIdempotent(c: char)
    ensures LowerChar(LowerChar(c)) == LowerChar(c)
    ensures IsSpace(LowerChar(c)) == IsSpace(c)
  {
  }

  /** Trimming a string that already starts and ends with non-space characters changes nothing. */
  lemma TrimOfTrimmed(s: string)
    requires s == [] || (!IsSpace(s[0]) && !IsSpace(s[|s| - 1]))
    ensures Trim(s) == s
  {
  }

  /** Lower-casing commutes with trimming, because lower-casing never turns a space into a
      non-space or back. */
  lemma LowerTrimCommute(s: string)
    ensures Lower(Trim(s)) == Trim(Lower(s))
  {
    LowerOfTrim(s);
    TrimOfLower(s);
  }

  /** `t` cut where `Trim` cuts `s`. */
  ghost function CutLike(t: string, s: string): string
    requires |t| == |s|
  {
    var a := LeadingSpaces(s);
    t[a..][..|s| - a - TrailingSpaces(s[a..])]
  }

  lemma LowerOfTrim(s: string)
    ensures Lower(Trim(s)) == CutLike(Lower(s), s)
  {
    var a := LeadingSpaces(s);
    var rest := s[a..];
    var n := |rest| - TrailingSpaces(rest);
    assert Trim(s) == rest[..n];
    LowerPrefix(rest, n);
    LowerSuffix(s, a);
  }

  lemma TrimOfLower(s: string)
    ensures Trim(Lower(s)) == CutLike(Lower(s), s)
  {
    var ls := Lower(s);
    var a := LeadingSpaces(s);
    var k := TrailingSpaces(s[a..]);
    assert LeadingSpaces(ls) == a by { LeadingSpacesOfLower(s); }
    assert TrailingSpaces(ls[a..]) == k by {
      LowerSuffix(s, a);
      TrailingSpacesOfLower(s[a..]);
    }
    TrimAt(ls, a, k);
  }

  /** `Trim` given where its two cuts fall. */
  lemma TrimAt(t: string, a: nat, k: nat)
    requires a == LeadingSpaces(t) && k == TrailingSpaces(t[a..])
    ensures Trim(t) == t[a..][..|t| - a - k]
  {
  }

  /** Lower-casing works character by character, so it commutes with taking a prefix... */
  lemma LowerPrefix(s: string, n: nat)
    requires n <= |s|
    ensures Lower(s[..n]) == Lower(s)[..n]
  {
  }

  /** ... and with dropping one. */
  lemma LowerSuffix(s: string, a: nat)
    requires a <= |s|
    ensures Lower(s[a..]) == Lower(s)[a..]
  {
  }

  lemma {:induction false} LeadingSpacesOfLower(s: string)
    ensures LeadingSpaces(Lower(s)) == LeadingSpaces(s)
  {
    if s != [] && IsSpace(s[0]) {
      assert Lower(s)[1..] == Lower(s[1..]);
      LeadingSpacesOfLower(s[1..]);
    }
  }

  lemma {:induction false} TrailingSpacesOfLower(s: string)
    ensures TrailingSpaces(Lower(s)) == TrailingSpaces(s)
  {
    if s != [] && IsSpace(s[|s| - 1]) {
      assert Lower(s)[..|s| - 1] == Lower(s[..|s| - 1]);
      TrailingSpacesOfLower(s[..|s| - 1]);
    }
  }

  /** Normalizing twice is normalizing once: an answer that already is a comparison key
      is its own key. */
  lemma NormalizeIdempotent(s: string)
    ensures Normalize(Normalize(s)) == Normalize(s)
  {
    var t := Trim(Lower(s));
    LowerTrimCommute(Lower(s));
    assert Lower(Lower(s)) == Lower(s);
    TrimOfTrimmed(t);
  }

  /** A string that passes `notEmpty` keeps a non-empty comparison key. */
  lemma NotBlankKeepsKey(s: string)
    requires NotBlank(s)
    ensures Normalize(s) != []
  {
    NotBlankMeaning(s);
    LeadingSpacesOfLower(s);
    var ls := Lower(s);
    var rest := ls[LeadingSpaces(ls)..];
    assert !IsSpace(rest[0]);
  }
}
