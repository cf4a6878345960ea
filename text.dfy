/**
 * String primitives the notifier relies on: substring search as PHP's
 * `strpos` does it, decimal digits as `intval` reads them, and PHP's
 * default `trim`. Strings are sequences of characters, while PHP compares
 * bytes of UTF-8 text. The two agree for every pattern searched here,
 * including the non-ASCII check mark of the alert notices: UTF-8 is
 * self-synchronising, so a character's encoding occurs in an encoded text
 * only where that character occurs.
 */
module Text {
  import opened Common

  /** `pat` occurs in `s` starting at index `i`. */
  predicate HasAt(s: string, i: nat, pat: string) {
    i + |pat| <= |s| && s[i..i + |pat|] == pat
  }

  /** The leftmost occurrence of `pat` in `s` at or after `from`. */
  function IndexOf(s: string, pat: string, from: nat): (r: Option<nat>)
    ensures r.Some? ==> from <= r.value && HasAt(s, r.value, pat)
    ensures forall j: nat :: from <= j && (r.None? || j < r.value) ==> !HasAt(s, j, pat)
    decreases |s| - from
  {
    if from + |pat| > |s| then None
    else if HasAt(s, from, pat) then Some(from)
    else IndexOf(s, pat, from + 1)
  }

  /** `strpos($s, $pat) !== false`. */
  predicate Contains(s: string, pat: string) {
    IndexOf(s, pat, 0).Some?
  }

  /** `Contains` holds exactly when `pat` occurs somewhere in `s`. */
  lemma ContainsIff(s: string, pat: string)
    ensures Contains(s, pat) <==> exists i: nat :: HasAt(s, i, pat)
  {
    if !Contains(s, pat) {
      forall i: nat ensures !HasAt(s, i, pat) {
        if i + |pat| > |s| {
        } else {
          assert !HasAt(s, i, pat);
        }
      }
    }
  }

  /** PHP's `empty()` on a string: the empty string and "0" are falsy. */
  predicate IsFalsy(s: string) {
    s == "" || s == "0"
  }

  /** A piece `a` at `i` followed by a piece `b` right after it is `a + b` at `i`. */
  lemma HasAtConcat(s: string, i: nat, a: string, b: string)
    ensures HasAt(s, i, a + b) <==> HasAt(s, i, a) && HasAt(s, i + |a|, b)
  {
    if i + |a| + |b| <= |s| {
      assert s[i..i + |a| + |b|] == s[i..i + |a|] + s[i + |a|..i + |a| + |b|];
      if HasAt(s, i, a + b) {
        assert s[i..i + |a|] == (a + b)[..|a|] == a;
        assert s[i + |a|..i + |a| + |b|] == (a + b)[|a|..] == b;
      }
    }
  }

  /** A character of `pat` that `s` lacks rules out every occurrence of `pat`. */
  lemma MissingCharNotContained(s: string, pat: string, c: char)
    requires c in pat && c !in s
    ensures !Contains(s, pat)
  {
    ContainsIff(s, pat);
  }

  // ---------------------------------------------------------------------
  // Decimal digits

  predicate IsDigit(c: char) {
    '0' <= c <= '9'
  }

  predicate AllDigits(d: string) {
    forall k :: 0 <= k < |d| ==> IsDigit(d[k])
  }

  /** `intval` of a string of decimal digits (leading zeros allowed). */
  function DigitsValue(d: string): nat
    requires AllDigits(d)
  {
    if d == [] then 0
    else 10 * DigitsValue(d[..|d| - 1]) + (d[|d| - 1] as int - '0' as int)
  }

  /** The decimal rendering PHP gives an integer in string concatenation. */
  function NatToString(n: nat): (r: string)
    ensures r != [] && AllDigits(r)
    ensures |r| > 1 ==> r[0] != '0'
    ensures DigitsValue(r) == n
    decreases n
  {
    var last := ['0' + (n % 10) as char];
    if n < 10 then last
    else
      var prefix := NatToString(n / 10);
      assert (prefix + last)[..|prefix|] == prefix;
      prefix + last
  }

  // ---------------------------------------------------------------------
  // PHP trim() with its default character list " \t\n\r\0\x0B"

  predicate IsTrimChar(c: char) {
    c == ' ' || c == '\t' || c == '\n' || c == '\r' || c == '\0' || c == '\U{000B}'
  }

  function TrimLeft(s: string): (r: string)
    ensures |r| <= |s| && r == s[|s| - |r|..]
    ensures forall k :: 0 <= k < |s| - |r| ==> IsTrimChar(s[k])
    ensures r == [] || !IsTrimChar(r[0])
  {
    if s != [] && IsTrimChar(s[0]) then TrimLeft(s[1..]) else s
  }

  function TrimRight(s: string): (r: string)
    ensures |r| <= |s| && r == s[..|r|]
    ensures forall k :: |r| <= k < |s| ==> IsTrimChar(s[k])
    ensures r == [] || !IsTrimChar(r[|r| - 1])
  {
    if s != [] && IsTrimChar(s[|s| - 1]) then TrimRight(s[..|s| - 1]) else s
  }

  /**
   * `trim($s)`: the longest infix of `s` that starts and ends with a
   * non-trim character, obtained by removing only trim characters.
   */
  function Trim(s: string): (r: string)
    ensures r == [] || (!IsTrimChar(r[0]) && !IsTrimChar(r[|r| - 1]))
    ensures exists a: nat, b: nat :: a <= b <= |s| && r == s[a..b]
                                     && (forall k :: 0 <= k < a ==> IsTrimChar(s[k]))
                                     && (forall k :: b <= k < |s| ==> IsTrimChar(s[k]))
  {
    var l := TrimLeft(s);
    var r := TrimRight(l);
    var a := |s| - |l|;
    assert r == s[a..a + |r|];
    assert forall k :: a + |r| <= k < |s| ==> IsTrimChar(s[k]) by {
      forall k | a + |r| <= k < |s| ensures IsTrimChar(s[k]) {
        assert s[k] == l[k - a];
      }
    }
    r
  }

  /** A string that already starts and ends with a non-trim character is left as it is. */
  lemma TrimOfTrimmed(s: string)
    requires s == [] || (!IsTrimChar(s[0]) && !IsTrimChar(s[|s| - 1]))
    ensures Trim(s) == s
  {
    var r := Trim(s);
    var a: nat, b: nat :| a <= b <= |s| && r == s[a..b]
                          && (forall k :: 0 <= k < a ==> IsTrimChar(s[k]))
                          && (forall k :: b <= k < |s| ==> IsTrimChar(s[k]));
    assert a == 0 && b == |s|;
  }

  /** Trimming twice is trimming once. */
  lemma TrimIdempotent(s: string)
    ensures Trim(Trim(s)) == Trim(s)
  {
    TrimOfTrimmed(Trim(s));
  }
}
