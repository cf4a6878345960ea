/**
 * The two tests that decide whether an order note is a Walsworth note.
 *
 * The daily digest uses a strict test (`is_mixed_fulfillment_note`): the
 * note must be non-empty and, once every run of whitespace has become one
 * space, contain both the processed and the DID NOT marker. The immediate
 * alert uses a loose test (`is_walsworth_note`): the raw note contains the
 * processed marker.
 */
module NoteClassifier {
  import opened Common
  import opened Text
  import opened NoteParser

  // ---------------------------------------------------------------------
  // preg_replace('/\s+/', ' ', $s)

  /** PCRE's `\s` without the `u` flag: space, tab, newline, vertical tab, form feed, carriage return. */
  predicate IsSpace(c: char) {
    c == ' ' || c == '\t' || c == '\n' || c == '\U{000B}' || c == '\U{000C}' || c == '\r'
  }

  /** Text whose only whitespace is single spaces: no other whitespace character, no two in a row. */
  ghost predicate WhitespaceNormal(s: string) {
    && (forall k :: 0 <= k < |s| && IsSpace(s[k]) ==> s[k] == ' ')
    && (forall j, k :: 0 <= j < k < |s| && k == j + 1 && IsSpace(s[j]) ==> !IsSpace(s[k]))
  }

  /**
   * Every maximal run of whitespace in `s` replaced by one space: a
   * whitespace character followed by another one is dropped, and the last
   * one of its run becomes a space.
   */
  function Normalize(s: string): (r: string)
    ensures |r| <= |s|
  {
    if s == [] then []
    else if IsSpace(s[0]) && |s| > 1 && IsSpace(s[1]) then Normalize(s[1..])
    else if IsSpace(s[0]) then [' '] + Normalize(s[1..])
    else [s[0]] + Normalize(s[1..])
  }

  /**
   * Normalised text is whitespace-normal, empty only when the input is, and
   * starts with a space exactly when the input starts with whitespace.
   */
  lemma {:induction false} NormalizeShape(s: string)
    ensures Normalize(s) == [] <==> s == []
    ensures s != [] && IsSpace(s[0]) ==> Normalize(s)[0] == ' '
    ensures s != [] && !IsSpace(s[0]) ==> Normalize(s)[0] == s[0]
    ensures WhitespaceNormal(Normalize(s))
    decreases |s|
  {
    if s != [] {
      NormalizeShape(s[1..]);
      var t := Normalize(s[1..]);
      if !(IsSpace(s[0]) && |s| > 1 && IsSpace(s[1])) {
        var head := if IsSpace(s[0]) then ' ' else s[0];
        var r := [head] + t;
        assert Normalize(s) == r;
        assert forall k :: 1 <= k < |r| ==> r[k] == t[k - 1];
        forall j, k | 0 <= j < k < |r| && k == j + 1 && IsSpace(r[j]) ensures !IsSpace(r[k]) {
          if j > 0 {
            assert r[j] == t[j - 1];
          }
        }
      }
    }
  }

  /** The non-whitespace characters of `s`, in order. */
  function NonSpace(s: string): (r: string)
    ensures |r| <= |s|
  {
    if s == [] then []
    else if IsSpace(s[0]) then NonSpace(s[1..])
    else [s[0]] + NonSpace(s[1..])
  }

  /** Normalisation changes whitespace only: the other characters stay, in order. */
  lemma {:induction false} NormalizeKeepsNonSpace(s: string)
    ensures NonSpace(Normalize(s)) == NonSpace(s)
    decreases |s|
  {
    if s != [] {
      NormalizeKeepsNonSpace(s[1..]);
      var t := Normalize(s[1..]);
      if !(IsSpace(s[0]) && |s| > 1 && IsSpace(s[1])) {
        var head := if IsSpace(s[0]) then ' ' else s[0];
        assert ([head] + t)[1..] == t;
      }
    }
  }

  /** A non-space character is in `s` exactly when it is among its non-space characters. */
  lemma {:induction false} NonSpaceMember(s: string, c: char)
    requires !IsSpace(c)
    ensures c in s <==> c in NonSpace(s)
    decreases |s|
  {
    if s != [] {
      NonSpaceMember(s[1..], c);
      assert s == [s[0]] + s[1..];
    }
  }

  lemma WhitespaceNormalTail(s: string)
    requires s != [] && WhitespaceNormal(s)
    ensures WhitespaceNormal(s[1..])
  {
    var t := s[1..];
    assert forall k :: 0 <= k < |t| ==> t[k] == s[k + 1];
    forall j, k | 0 <= j < k < |t| && k == j + 1 && IsSpace(t[j]) ensures !IsSpace(t[k]) {
      assert t[j] == s[j + 1] && t[k] == s[k + 1];
    }
  }

  /** Text that is already whitespace-normal is left unchanged. */
  lemma {:induction false} NormalizeFixpoint(s: string)
    requires WhitespaceNormal(s)
    ensures Normalize(s) == s
    decreases |s|
  {
    if s != [] {
      WhitespaceNormalTail(s);
      NormalizeFixpoint(s[1..]);
      if |s| > 1 && IsSpace(s[0]) {
        assert !IsSpace(s[1]);
      }
      assert Normalize(s) == [s[0]] + s[1..];
    }
  }

  /** Normalising twice is normalising once. */
  lemma NormalizeIdempotent(s: string)
    ensures Normalize(Normalize(s)) == Normalize(s)
  {
    NormalizeShape(s);
    NormalizeFixpoint(Normalize(s));
  }

  /** A non-empty run made only of whitespace characters. */
  predicate IsWhitespaceRun(w: string) {
    w != [] && forall k :: 0 <= k < |w| ==> IsSpace(w[k])
  }

  /** Text without any whitespace character. */
  predicate NoSpace(s: string) {
    forall k :: 0 <= k < |s| ==> !IsSpace(s[k])
  }

  /**
   * Normalisation works piece by piece wherever the join is not between two
   * whitespace characters.
   */
  lemma {:induction false} NormalizeConcat(x: string, z: string)
    requires x == [] || z == [] || !IsSpace(x[|x| - 1]) || !IsSpace(z[0])
    ensures Normalize(x + z) == Normalize(x) + Normalize(z)
    decreases |x|
  {
    if x == [] {
      assert x + z == z;
    } else if |x| == 1 {
      NormalizeConcatOne(x, z);
    } else {
      NormalizeConcat(x[1..], z);
      NormalizeConcatStep(x, z);
    }
  }

  /** The base case: one character, then `z`. */
  lemma NormalizeConcatOne(x: string, z: string)
    requires |x| == 1 && (z == [] || !IsSpace(x[0]) || !IsSpace(z[0]))
    ensures Normalize(x + z) == Normalize(x) + Normalize(z)
  {
    var s := x + z;
    assert s[0] == x[0] && s[1..] == z;
    assert x[1..] == [];
    var h := if IsSpace(x[0]) then ' ' else x[0];
    assert Normalize(x) == [h];
  }

  /** The inductive step: the first character of `x` is handled the same with or without `z`. */
  lemma NormalizeConcatStep(x: string, z: string)
    requires |x| > 1 && Normalize(x[1..] + z) == Normalize(x[1..]) + Normalize(z)
    ensures Normalize(x + z) == Normalize(x) + Normalize(z)
  {
    var s := x + z;
    assert s[0] == x[0] && s[1] == x[1] && s[1..] == x[1..] + z;
    if !(IsSpace(x[0]) && IsSpace(x[1])) {
      var h := if IsSpace(x[0]) then ' ' else x[0];
      assert Normalize(s) == [h] + (Normalize(x[1..]) + Normalize(z));
    }
  }

  /** A whitespace run followed by a non-whitespace character (or by nothing) becomes one space. */
  lemma {:induction false} NormalizeRunThen(w: string, y: string)
    requires IsWhitespaceRun(w) && (y == [] || !IsSpace(y[0]))
    ensures Normalize(w + y) == [' '] + Normalize(y)
    decreases |w|
  {
    var s := w + y;
    assert s[0] == w[0] && s[1..] == w[1..] + y;
    if |w| == 1 {
      assert w[1..] == [];
      assert |s| > 1 ==> s[1] == y[0];
    } else {
      assert s[1] == w[1];
      NormalizeRunThen(w[1..], y);
    }
  }

  /**
   * An interior run of whitespace, however long and whatever its characters,
   * becomes exactly one space, and the text on either side is normalised on
   * its own.
   */
  lemma NormalizeCollapsesRun(x: string, w: string, y: string)
    requires x == [] || !IsSpace(x[|x| - 1])
    requires IsWhitespaceRun(w)
    requires y == [] || !IsSpace(y[0])
    ensures Normalize(x + w + y) == Normalize(x) + " " + Normalize(y)
  {
    assert x + w + y == x + (w + y);
    NormalizeConcat(x, w + y);
    NormalizeRunThen(w, y);
  }

  /** A word without whitespace is kept as it is, whatever follows it. */
  lemma {:induction false} NormalizeWordThen(a: string, t: string)
    requires NoSpace(a)
    ensures Normalize(a + t) == a + Normalize(t)
    decreases |a|
  {
    if a == [] {
      assert a + t == t;
    } else {
      var s := a + t;
      assert s[0] == a[0] && s[1..] == a[1..] + t;
      assert forall k :: 0 <= k < |a[1..]| ==> a[1..][k] == a[k + 1];
      NormalizeWordThen(a[1..], t);
      assert Normalize(s) == [a[0]] + (a[1..] + Normalize(t));
      assert a == [a[0]] + a[1..];
    }
  }

  /** A non-empty word, a whitespace run, then text that does not start with whitespace. */
  lemma NormalizeWordRun(a: string, w: string, t: string)
    requires NoSpace(a) && IsWhitespaceRun(w) && (t == [] || !IsSpace(t[0]))
    ensures Normalize(a + w + t) == a + " " + Normalize(t)
  {
    assert a + w + t == a + (w + t);
    NormalizeWordThen(a, w + t);
    NormalizeRunThen(w, t);
    assert a + ([' '] + Normalize(t)) == a + " " + Normalize(t);
  }

  // ---------------------------------------------------------------------
  // Which patterns survive normalisation

  lemma HasAtChar(s: string, pat: string, k: nat)
    requires HasAt(s, 0, pat) && k < |pat|
    ensures s[k] == pat[k]
  {
    assert s[0..|pat|][k] == s[k];
  }

  lemma HasAtDrop(s: string, pat: string, n: nat)
    requires HasAt(s, 0, pat) && n <= |pat|
    ensures HasAt(s[n..], 0, pat[n..])
  {
    assert s[n..][0..|pat| - n] == s[n..|pat|];
  }

  /** A prefix of `u` stays a prefix, extended by `x`, when `x` is put in front. */
  lemma PrefixConcat(x: string, u: string, p: string)
    requires HasAt(u, 0, p)
    ensures HasAt(x + u, 0, x + p)
  {
    assert (x + u)[0..|x| + |p|] == x + u[0..|p|];
  }

  /** An occurrence in `t` is an occurrence in `x + t`, shifted by `|x|`. */
  lemma HasAtShift(x: string, t: string, j: nat, pat: string)
    requires HasAt(t, j, pat)
    ensures HasAt(x + t, |x| + j, pat)
  {
    assert (x + t)[|x| + j..|x| + j + |pat|] == t[j..j + |pat|];
  }

  /**
   * A whitespace-normal pattern at the start of `s` is still at the start
   * once `s` is normalised: each non-space character is kept, and each
   * single space either ends the pattern or is followed by a non-space
   * character, so it is not dropped.
   */
  lemma {:induction false} NormalizeKeepsNormalPrefix(s: string, pat: string)
    requires WhitespaceNormal(pat) && HasAt(s, 0, pat)
    ensures HasAt(Normalize(s), 0, pat)
    decreases |pat|
  {
    if pat != [] {
      HasAtChar(s, pat, 0);
      var t := Normalize(s[1..]);
      if |pat| == 1 {
        NormalizeShape(s);
        assert Normalize(s)[0..1] == [pat[0]] == pat;
      } else {
        HasAtChar(s, pat, 1);
        if IsSpace(pat[0]) {
          assert !IsSpace(pat[1]);
          assert Normalize(s) == [pat[0]] + t;
        } else {
          assert Normalize(s) == [pat[0]] + t;
        }
        HasAtDrop(s, pat, 1);
        WhitespaceNormalTail(pat);
        NormalizeKeepsNormalPrefix(s[1..], pat[1..]);
        assert pat == [pat[0]] + pat[1..];
        PrefixConcat([pat[0]], t, pat[1..]);
      }
    }
  }

  lemma HasAtTail(s: string, i: nat, pat: string)
    requires i > 0 && HasAt(s, i, pat)
    ensures HasAt(s[1..], i - 1, pat)
  {
    assert s[1..][i - 1..i - 1 + |pat|] == s[i..i + |pat|];
  }

  /** What occurs in `t` occurs in `x + t`. */
  lemma ContainsAfter(x: string, t: string, pat: string)
    requires Contains(t, pat)
    ensures Contains(x + t, pat)
  {
    ContainsIff(t, pat);
    var j: nat :| HasAt(t, j, pat);
    HasAtShift(x, t, j, pat);
    ContainsIff(x + t, pat);
  }

  /** A whitespace-normal pattern that occurs in `s` occurs in the normalised text too. */
  lemma {:induction false} NormalizeKeepsNormal(s: string, i: nat, pat: string)
    requires WhitespaceNormal(pat) && HasAt(s, i, pat)
    ensures Contains(Normalize(s), pat)
    decreases |s|
  {
    if i == 0 {
      NormalizeKeepsNormalPrefix(s, pat);
      ContainsIff(Normalize(s), pat);
    } else {
      HasAtTail(s, i, pat);
      NormalizeKeepsNormal(s[1..], i - 1, pat);
      if !(IsSpace(s[0]) && |s| > 1 && IsSpace(s[1])) {
        var head := if IsSpace(s[0]) then ' ' else s[0];
        ContainsAfter([head], Normalize(s[1..]), pat);
      }
    }
  }

  lemma ProcessedMarkerIsNormal()
    ensures WhitespaceNormal(PROCESSED_MARKER)
  {
    var p := PROCESSED_MARKER;
    assert p[0] == 'W' && p[1] == 'a' && p[2] == 'l' && p[3] == 's' && p[4] == 'w';
    assert p[5] == 'o' && p[6] == 'r' && p[7] == 't' && p[8] == 'h' && p[9] == ' ';
    assert p[10] == 'p' && p[11] == 'r' && p[12] == 'o' && p[13] == 'c' && p[14] == 'e';
    assert p[15] == 's' && p[16] == 's' && p[17] == 'e' && p[18] == 'd' && p[19] == ':';
    forall k | 0 <= k < |p| && IsSpace(p[k]) ensures k == 9 {
    }
  }

  lemma NotProcessedMarkerIsNormal()
    ensures WhitespaceNormal(NOT_PROCESSED_MARKER)
  {
    var p := NOT_PROCESSED_MARKER;
    assert p[0] == 'W' && p[1] == 'a' && p[2] == 'l' && p[3] == 's' && p[4] == 'w';
    assert p[5] == 'o' && p[6] == 'r' && p[7] == 't' && p[8] == 'h' && p[9] == ' ';
    assert p[10] == 'D' && p[11] == 'I' && p[12] == 'D' && p[13] == ' ' && p[14] == 'N';
    assert p[15] == 'O' && p[16] == 'T' && p[17] == ' ' && p[18] == 'p' && p[19] == 'r';
    assert p[20] == 'o' && p[21] == 'c' && p[22] == 'e' && p[23] == 's' && p[24] == 's';
    assert p[25] == ':';
    forall k | 0 <= k < |p| && IsSpace(p[k]) ensures k == 9 || k == 13 || k == 17 {
    }
  }

  // ---------------------------------------------------------------------
  // The two tests

  /** `is_mixed_fulfillment_note`: the digest's strict test. */
  predicate IsMixedFulfillmentNote(content: string) {
    && !IsFalsy(content)
    && Contains(Normalize(content), PROCESSED_MARKER)
    && Contains(Normalize(content), NOT_PROCESSED_MARKER)
  }

  /** `is_walsworth_note`: the alert's loose test, on the raw text. */
  predicate IsWalsworthNote(content: string) {
    Contains(content, PROCESSED_MARKER)
  }

  /** A non-empty note with both markers written out verbatim passes the strict test. */
  lemma StrictAcceptsVerbatimMarkers(s: string)
    requires !IsFalsy(s) && Contains(s, PROCESSED_MARKER) && Contains(s, NOT_PROCESSED_MARKER)
    ensures IsMixedFulfillmentNote(s)
  {
    ProcessedMarkerIsNormal();
    NotProcessedMarkerIsNormal();
    var i: nat :| HasAt(s, i, PROCESSED_MARKER);
    var j: nat :| HasAt(s, j, NOT_PROCESSED_MARKER);
    NormalizeKeepsNormal(s, i, PROCESSED_MARKER);
    NormalizeKeepsNormal(s, j, NOT_PROCESSED_MARKER);
  }

  lemma MarkerWordsHaveNoSpace()
    ensures NoSpace("Walsworth") && NoSpace("processed:") && NoSpace("DID") && NoSpace("NOT") && NoSpace("process:")
  {
  }

  /** Two words separated by a whitespace run become the two words separated by one space. */
  lemma NormalizeTwoWords(a: string, w: string, b: string, r: string)
    requires NoSpace(a) && IsWhitespaceRun(w) && NoSpace(b) && b != []
    ensures Normalize(a + w + b + r) == a + " " + b + Normalize(r)
  {
    assert a + w + b + r == a + w + (b + r);
    NormalizeWordRun(a, w, b + r);
    NormalizeWordThen(b, r);
    assert a + " " + (b + Normalize(r)) == a + " " + b + Normalize(r);
  }

  /** The processed marker spaced with any whitespace run normalises to the marker itself. */
  lemma NormalizeProcessedRespaced(w: string, r: string)
    requires IsWhitespaceRun(w)
    ensures Normalize("Walsworth" + w + "processed:" + r) == PROCESSED_MARKER + Normalize(r)
  {
    MarkerWordsHaveNoSpace();
    NormalizeTwoWords("Walsworth", w, "processed:", r);
  }

  /** Four words separated by whitespace runs become the four words separated by single spaces. */
  lemma NormalizeFourWords(a: string, w1: string, b: string, w2: string, c: string, w3: string, d: string, r: string)
    requires NoSpace(a) && NoSpace(b) && NoSpace(c) && NoSpace(d) && b != [] && c != [] && d != []
    requires IsWhitespaceRun(w1) && IsWhitespaceRun(w2) && IsWhitespaceRun(w3)
    ensures Normalize(a + w1 + b + w2 + c + w3 + d + r) == a + " " + b + " " + c + " " + d + Normalize(r)
  {
    var t2 := c + w3 + d + r;
    var t1 := b + w2 + t2;
    NormalizeTwoWords(c, w3, d, r);
    NormalizeWordRun(b, w2, t2);
    NormalizeWordRun(a, w1, t1);
    assert a + w1 + b + w2 + c + w3 + d + r == a + w1 + t1;
  }

  /** The DID NOT marker spaced with any whitespace runs normalises to the marker itself. */
  lemma NormalizeNotProcessedRespaced(w1: string, w2: string, w3: string, r: string)
    requires IsWhitespaceRun(w1) && IsWhitespaceRun(w2) && IsWhitespaceRun(w3)
    ensures Normalize("Walsworth" + w1 + "DID" + w2 + "NOT" + w3 + "process:" + r) == NOT_PROCESSED_MARKER + Normalize(r)
  {
    MarkerWordsHaveNoSpace();
    NormalizeFourWords("Walsworth", w1, "DID", w2, "NOT", w3, "process:", r);
    assert "Walsworth" + " " + "DID" + " " + "NOT" + " " + "process:" == NOT_PROCESSED_MARKER;
  }

  /** Regrouping a note laid out as text, marker, text, marker, text. */
  lemma RegroupLayout(x: string, a: string, w1: string, b: string, y: string, c: string, w2: string, d: string, w3: string,
                      e: string, w4: string, f: string, z: string)
    ensures x + a + w1 + b + y + c + w2 + d + w3 + e + w4 + f + z
         == x + (a + w1 + b + (y + (c + w2 + d + w3 + e + w4 + f + z)))
  {
    var q := c + w2 + d + w3 + e + w4 + f + z;
    assert x + a + w1 + b + y + c + w2 + d + w3 + e + w4 + f + z == x + a + w1 + b + y + q;
  }

  /**
   * Both markers spaced with any whitespace runs (several spaces, tabs, line
   * breaks) normalise to the markers as written, and the text around them is
   * normalised on its own.
   */
  lemma RespacedMarkersNormalize(x: string, w1: string, y: string, w2: string, w3: string, w4: string, z: string)
    requires IsWhitespaceRun(w1) && IsWhitespaceRun(w2) && IsWhitespaceRun(w3) && IsWhitespaceRun(w4)
    ensures Normalize(x + "Walsworth" + w1 + "processed:" + y + "Walsworth" + w2 + "DID" + w3 + "NOT" + w4 + "process:" + z)
         == Normalize(x) + PROCESSED_MARKER + Normalize(y) + NOT_PROCESSED_MARKER + Normalize(z)
  {
    var q := "Walsworth" + w2 + "DID" + w3 + "NOT" + w4 + "process:" + z;
    var p := "Walsworth" + w1 + "processed:" + (y + q);
    RegroupLayout(x, "Walsworth", w1, "processed:", y, "Walsworth", w2, "DID", w3, "NOT", w4, "process:", z);
    NormalizeNotProcessedRespaced(w2, w3, w4, z);
    NormalizeConcat(y, q);
    NormalizeProcessedRespaced(w1, y + q);
    NormalizeConcat(x, p);
    RegroupFive(Normalize(x), PROCESSED_MARKER, Normalize(y), NOT_PROCESSED_MARKER, Normalize(z));
  }

  lemma RegroupFive(a: string, b: string, c: string, d: string, e: string)
    ensures a + (b + (c + (d + e))) == a + b + c + d + e
  {
  }

  /** A note whose markers are spaced with any whitespace runs passes the strict test. */
  lemma StrictAcceptsRespacedMarkers(x: string, w1: string, y: string, w2: string, w3: string, w4: string, z: string)
    requires IsWhitespaceRun(w1) && IsWhitespaceRun(w2) && IsWhitespaceRun(w3) && IsWhitespaceRun(w4)
    ensures IsMixedFulfillmentNote(x + "Walsworth" + w1 + "processed:" + y + "Walsworth" + w2 + "DID" + w3 + "NOT" + w4 + "process:" + z)
  {
    var content := x + "Walsworth" + w1 + "processed:" + y + "Walsworth" + w2 + "DID" + w3 + "NOT" + w4 + "process:" + z;
    RespacedMarkersNormalize(x, w1, y, w2, w3, w4, z);
    StrictAcceptsMarkerLayout(content, Normalize(x), Normalize(y), Normalize(z));
  }

  /** Text that normalises to text, marker, text, marker, text passes the strict test. */
  lemma StrictAcceptsMarkerLayout(s: string, a: string, b: string, c: string)
    requires Normalize(s) == a + PROCESSED_MARKER + b + NOT_PROCESSED_MARKER + c
    ensures IsMixedFulfillmentNote(s)
  {
    ContainsBoth(a, PROCESSED_MARKER, b, NOT_PROCESSED_MARKER, c);
    assert |s| >= |Normalize(s)| >= |PROCESSED_MARKER| > 1;
  }

  /** Both patterns of a text, pattern, text, pattern, text layout occur in it. */
  lemma ContainsBoth(a: string, p: string, b: string, q: string, c: string)
    ensures Contains(a + p + b + q + c, p) && Contains(a + p + b + q + c, q)
  {
    ContainsBetween(a, p, b + q + c);
    ContainsBetween(a + p + b, q, c);
    assert a + p + b + q + c == a + p + (b + q + c);
  }

  /** A pattern placed between two texts occurs in the whole. */
  lemma ContainsBetween(u: string, pat: string, v: string)
    ensures Contains(u + pat + v, pat)
  {
    assert (u + pat + v)[|u|..|u| + |pat|] == pat;
    assert HasAt(u + pat + v, |u|, pat);
    ContainsIff(u + pat + v, pat);
  }

  /** On whitespace-normal text the strict test is exactly: non-empty and both markers present. */
  lemma StrictOnNormalText(s: string)
    requires WhitespaceNormal(s)
    ensures IsMixedFulfillmentNote(s)
            <==> !IsFalsy(s) && Contains(s, PROCESSED_MARKER) && Contains(s, NOT_PROCESSED_MARKER)
  {
    NormalizeFixpoint(s);
  }

  /** On whitespace-normal text the strict test implies the loose one. */
  lemma StrictImpliesLooseOnNormalText(s: string)
    requires WhitespaceNormal(s) && IsMixedFulfillmentNote(s)
    ensures IsWalsworthNote(s)
  {
    NormalizeFixpoint(s);
  }

  /** A note without the letter `D` never passes the strict test, whatever else it holds. */
  lemma NoDidNotMarkerNoMix(s: string)
    requires forall k :: 0 <= k < |s| ==> s[k] != 'D'
    ensures !IsMixedFulfillmentNote(s)
  {
    NormalizeKeepsNonSpace(s);
    NonSpaceMember(s, 'D');
    NonSpaceMember(Normalize(s), 'D');
    assert NOT_PROCESSED_MARKER[10] == 'D';
    MissingCharNotContained(Normalize(s), NOT_PROCESSED_MARKER, 'D');
  }

  /** The loose test does not imply the strict one: the bare processed marker passes only the loose test. */
  lemma LooseDoesNotImplyStrict()
    ensures IsWalsworthNote(PROCESSED_MARKER) && !IsMixedFulfillmentNote(PROCESSED_MARKER)
  {
    assert HasAt(PROCESSED_MARKER, 0, PROCESSED_MARKER);
  }

  /** The loose test holds exactly when the parser finds a processed section. */
  lemma LooseTestIsProcessedSection(s: string)
    ensures IsWalsworthNote(s) <==> ProcessedSection(s).Some?
  {
  }
}
