/**
 * Notes in the layout the fulfillment service writes, with one item under
 * each marker:
 *
 *   At <stamp> GMT. Walsworth processed: Qty <n> of [<product>].
 *   Walsworth DID NOT process: Qty <m> of [<product>].
 *
 * (one line in the note), and what the parser makes of them. The proofs walk
 * the scanners over the note piece by piece.
 */
module ParserExample {
  import opened Common
  import opened Text
  import opened NoteParser
  import NoteParserProperties

  /** The text before the processed marker. */
  function Lead(stamp: string): string {
    "At " + stamp + " GMT. "
  }

  /** The processed section of the layout: one item and a sentence end. */
  function FirstSection(m1: RawMatch): string {
    " " + ItemText(m1) + ". "
  }

  /** The not-processed section of the layout: one item and a final full stop. */
  function LastSection(m2: RawMatch): string {
    " " + ItemText(m2) + "."
  }

  /** A mixed note with stamp `stamp`, item `m1` processed and item `m2` not. */
  function MixedNote(stamp: string, m1: RawMatch, m2: RawMatch): string {
    Lead(stamp) + PROCESSED_MARKER + FirstSection(m1) + NOT_PROCESSED_MARKER + LastSection(m2)
  }

  /** The middle piece of a concatenation sits right after the first one. */
  lemma PieceAt(x: string, y: string, z: string)
    ensures HasAt(x + y + z, |x|, y)
    ensures (x + y + z)[|x|..|x| + |y|] == y
  {
    assert (x + y + z)[|x|..|x| + |y|] == y;
  }

  /** A pattern that starts with `W` does not occur where the text has no `W`. */
  lemma NoMatchWithoutW(s: string, j: nat, pat: string)
    requires pat != [] && pat[0] == 'W' && (j < |s| ==> s[j] != 'W')
    ensures !HasAt(s, j, pat)
  {
  }

  lemma SliceOfPrefix(x: string, y: string, i: nat, j: nat)
    requires i <= j <= |x|
    ensures (x + y)[i..j] == x[i..j]
  {
  }

  lemma SliceOfSuffix(x: string, y: string)
    ensures (x + y)[|x|..] == y
  {
  }

  lemma ProcessedMarkerHasOneW()
    ensures forall k :: 1 <= k < |PROCESSED_MARKER| ==> PROCESSED_MARKER[k] != 'W'
  {
    var w := PROCESSED_MARKER;
    assert w[1] == 'a' && w[2] == 'l' && w[3] == 's' && w[4] == 'w' && w[5] == 'o';
    assert w[6] == 'r' && w[7] == 't' && w[8] == 'h' && w[9] == ' ' && w[10] == 'p';
    assert w[11] == 'r' && w[12] == 'o' && w[13] == 'c' && w[14] == 'e' && w[15] == 's';
    assert w[16] == 's' && w[17] == 'e' && w[18] == 'd' && w[19] == ':';
  }

  lemma StampHasNoW(t: string)
    requires IsStamp(t)
    ensures forall k :: 0 <= k < |t| ==> t[k] != 'W'
  {
  }

  lemma ItemTextHasNoW(m: RawMatch)
    requires WellFormed(m) && forall k :: 0 <= k < |m.inner| ==> m.inner[k] != 'W'
    ensures forall k :: 0 <= k < |ItemText(m)| ==> ItemText(m)[k] != 'W'
  {
    var t := ItemText(m);
    forall k | 0 <= k < |t| ensures t[k] != 'W' {
      var d := 4 + |m.digits|;
      if k < 4 {
        assert t[k] == "Qty "[k];
      } else if k < d {
        assert t[k] == m.digits[k - 4];
      } else if k < d + 5 {
        assert t[k] == " of ["[k - d];
      } else if k < d + 5 + |m.inner| {
        assert t[k] == m.inner[k - d - 5];
      } else {
        assert t[k] == ']';
      }
    }
  }

  /** The scanner finds the one item of a section made of a blank, the item and a tail. */
  lemma OneItemSection(t: string, m: RawMatch, tail: string)
    requires WellFormed(m) && t == " " + ItemText(m) + tail
    requires tail == "." || tail == ". "
    ensures MatchAll(t) == [m]
  {
    PieceAt(" ", ItemText(m), tail);
    ItemAtComplete(t, 1, m);
    var e := 1 + |ItemText(m)|;
    assert t[0] == ' ';
    assert !HasAt(t, 0, "Qty ");
    assert ItemAt(t, 0) == None;
    assert t[e] == '.';
    assert !HasAt(t, e, "Qty ");
    assert MatchAllFrom(t, e) == MatchAllFrom(t, e + 1);
    if tail == ". " {
      assert !HasAt(t, e + 1, "Qty ");
      assert MatchAllFrom(t, e + 1) == MatchAllFrom(t, e + 2);
    }
    assert MatchAllFrom(t, e) == [];
    assert MatchAllFrom(t, 1) == [m];
  }

  /** A timestamp right at the start of a note is the one extracted. */
  lemma TimestampAtStart(s: string, stamp: string)
    requires IsStamp(stamp) && 26 <= |s|
    requires HasAt(s, 0, "At ") && s[3..22] == stamp && HasAt(s, 22, " GMT")
    ensures ExtractTimestamp(s) == stamp
  {
    assert TimestampAt(s, 0);
    assert FindTimestamp(s, 0) == Some(0);
  }

  /** Where the pieces of the lead sit in a note that starts with it. */
  lemma LeadLayout(stamp: string, rest: string)
    requires |stamp| == 19
    ensures var x := Lead(stamp) + rest;
            26 <= |x| && HasAt(x, 0, "At ") && x[3..22] == stamp && HasAt(x, 22, " GMT")
  {
    var x := Lead(stamp) + rest;
    assert x[0..3] == "At " by {
      assert x[0] == 'A' && x[1] == 't' && x[2] == ' ';
    }
    assert x[3..22] == stamp by {
      forall k | 0 <= k < 19 ensures x[3 + k] == stamp[k] {
        assert x[3 + k] == Lead(stamp)[3 + k];
      }
    }
    assert x[22..26] == " GMT" by {
      assert x[22] == ' ' && x[23] == 'G' && x[24] == 'M' && x[25] == 'T';
    }
  }

  /** The stamp of a mixed note is the one it was written with. */
  lemma MixedNoteTimestamp(stamp: string, m1: RawMatch, m2: RawMatch)
    requires IsStamp(stamp)
    ensures ExtractTimestamp(MixedNote(stamp, m1, m2)) == stamp
  {
    var rest := PROCESSED_MARKER + FirstSection(m1) + NOT_PROCESSED_MARKER + LastSection(m2);
    assert MixedNote(stamp, m1, m2) == Lead(stamp) + rest;
    LeadLayout(stamp, rest);
    TimestampAtStart(Lead(stamp) + rest, stamp);
  }

  /** The marker positions of a mixed note: each marker's first occurrence. */
  lemma MixedNoteMarkers(stamp: string, m1: RawMatch, m2: RawMatch)
    requires IsStamp(stamp) && WellFormed(m1)
    requires forall k :: 0 <= k < |m1.inner| ==> m1.inner[k] != 'W'
    ensures var s := MixedNote(stamp, m1, m2);
            var p := |Lead(stamp)|;
            var n := p + |PROCESSED_MARKER| + |FirstSection(m1)|;
            FirstOccurrence(s, PROCESSED_MARKER, p) && FirstOccurrence(s, NOT_PROCESSED_MARKER, n)
  {
    var s := MixedNote(stamp, m1, m2);
    var lead := Lead(stamp);
    var b := FirstSection(m1);
    var p := |lead|;
    var n := p + |PROCESSED_MARKER| + |b|;
    PieceAt(lead, PROCESSED_MARKER, b + NOT_PROCESSED_MARKER + LastSection(m2));
    PieceAt(lead + PROCESSED_MARKER + b, NOT_PROCESSED_MARKER, LastSection(m2));
    StampHasNoW(stamp);
    ItemTextHasNoW(m1);
    forall k | 0 <= k < p ensures lead[k] != 'W' {
      if 3 <= k < 22 {
        assert lead[k] == stamp[k - 3];
      }
    }
    forall k | 0 <= k < |b| ensures b[k] != 'W' {
      if 1 <= k < 1 + |ItemText(m1)| {
        assert b[k] == ItemText(m1)[k - 1];
      }
    }
    forall j: nat | j < p ensures !HasAt(s, j, PROCESSED_MARKER) {
      assert s[j] == lead[j];
      NoMatchWithoutW(s, j, PROCESSED_MARKER);
    }
    ProcessedMarkerHasOneW();
    forall j: nat | j < n ensures !HasAt(s, j, NOT_PROCESSED_MARKER) {
      if j == p {
        assert s[p..p + |PROCESSED_MARKER|] == PROCESSED_MARKER;
        assert s[j + 10] == 'p' && NOT_PROCESSED_MARKER[10] == 'D';
      } else {
        if j < p {
          assert s[j] == lead[j];
        } else if j < p + |PROCESSED_MARKER| {
          assert s[j] == PROCESSED_MARKER[j - p];
        } else {
          assert s[j] == b[j - p - |PROCESSED_MARKER|];
        }
        NoMatchWithoutW(s, j, NOT_PROCESSED_MARKER);
      }
    }
  }

  /** The sections, given where the markers are and what follows each. */
  lemma SectionsFromSlices(s: string, p: nat, n: nat, c: string, e: string)
    requires FirstOccurrence(s, PROCESSED_MARKER, p)
    requires FirstOccurrence(s, NOT_PROCESSED_MARKER, n)
    requires p + |PROCESSED_MARKER| <= n && s[p + |PROCESSED_MARKER|..n] == c
    requires n + |NOT_PROCESSED_MARKER| <= |s| && s[n + |NOT_PROCESSED_MARKER|..] == e
    requires e != [] && e[|e| - 1] != '\n'
    ensures ProcessedSection(s) == Some(c)
    ensures NotProcessedSection(s) == Some(e)
  {
    assert s[|s| - 1] == e[|e| - 1];
    NoteParserProperties.SectionsOfOrderedNote(s, p, n);
    assert NotProcessedSection(s) == Some(s[n + |NOT_PROCESSED_MARKER|..|s|]);
    assert s[n + |NOT_PROCESSED_MARKER|..|s|] == e;
  }

  /** The two sections of a mixed note are the texts written after its markers. */
  lemma MixedNoteSections(stamp: string, m1: RawMatch, m2: RawMatch)
    requires IsStamp(stamp) && WellFormed(m1)
    requires forall k :: 0 <= k < |m1.inner| ==> m1.inner[k] != 'W'
    ensures ProcessedSection(MixedNote(stamp, m1, m2)) == Some(FirstSection(m1))
    ensures NotProcessedSection(MixedNote(stamp, m1, m2)) == Some(LastSection(m2))
  {
    var s := MixedNote(stamp, m1, m2);
    var x := Lead(stamp) + PROCESSED_MARKER;
    var c := FirstSection(m1);
    var e := LastSection(m2);
    var p := |Lead(stamp)|;
    var n := p + |PROCESSED_MARKER| + |c|;
    MixedNoteMarkers(stamp, m1, m2);
    SliceOfPrefix(x + c + NOT_PROCESSED_MARKER, e, |x|, n);
    SliceOfPrefix(x + c, NOT_PROCESSED_MARKER, |x|, n);
    SliceOfSuffix(x, c);
    SliceOfSuffix(x + c + NOT_PROCESSED_MARKER, e);
    assert e[|e| - 1] == '.';
    SectionsFromSlices(s, p, n, c, e);
  }

  /** The record of a note with a given stamp and one item in each of its two sections. */
  lemma ParseOfParts(s: string, stamp: string, c: string, e: string, m1: RawMatch, m2: RawMatch)
    requires WellFormed(m1) && WellFormed(m2)
    requires ExtractTimestamp(s) == stamp
    requires ProcessedSection(s) == Some(c) && MatchAll(c) == [m1]
    requires NotProcessedSection(s) == Some(e) && MatchAll(e) == [m2]
    ensures var q1 := ToItem(m1).quantity;
            var q2 := ToItem(m2).quantity;
            Parse(s) == FulfillmentRecord(stamp, DeriveStatus(q1, q2), [ToItem(m1)], [ToItem(m2)], q1, q2)
  {
    assert ToItems([m1]) == [ToItem(m1)];
    assert ToItems([m2]) == [ToItem(m2)];
    SumQtySnoc([], ToItem(m1));
    SumQtySnoc([], ToItem(m2));
  }

  /**
   * A note in the service's layout parses to its stamp, one item on each
   * side, the two quantities as totals and the status they give.
   */
  lemma MixedNoteParses(stamp: string, m1: RawMatch, m2: RawMatch)
    requires IsStamp(stamp) && WellFormed(m1) && WellFormed(m2)
    requires forall k :: 0 <= k < |m1.inner| ==> m1.inner[k] != 'W'
    ensures var q1 := ToItem(m1).quantity;
            var q2 := ToItem(m2).quantity;
            Parse(MixedNote(stamp, m1, m2))
              == FulfillmentRecord(stamp, DeriveStatus(q1, q2), [ToItem(m1)], [ToItem(m2)], q1, q2)
  {
    MixedNoteTimestamp(stamp, m1, m2);
    MixedNoteSections(stamp, m1, m2);
    OneItemSection(FirstSection(m1), m1, ". ");
    OneItemSection(LastSection(m2), m2, ".");
    ParseOfParts(MixedNote(stamp, m1, m2), stamp, FirstSection(m1), LastSection(m2), m1, m2);
  }

  lemma BookNameClean(d: char, c: char)
    requires IsDigit(d) && c != 'W' && c != ']' && c != '\n'
    ensures WellFormed(RawMatch([d], "Book " + [c]))
    ensures forall k :: 0 <= k < |"Book " + [c]| ==> ("Book " + [c])[k] != 'W'
  {
    var w := "Book " + [c];
    assert |w| == 6 && w[0] == 'B' && w[1] == 'o' && w[2] == 'o' && w[3] == 'k' && w[4] == ' ' && w[5] == c;
    forall k | 0 <= k < |w| ensures w[k] != 'W' && w[k] != ']' && w[k] != '\n' {
      assert k == 0 || k == 1 || k == 2 || k == 3 || k == 4 || k == 5;
    }
    OneDigitValue(d);
  }

  lemma BookNameTrimmed(c: char)
    requires !IsTrimChar(c)
    ensures Trim("Book " + [c]) == "Book " + [c]
  {
    var w := "Book " + [c];
    assert |w| == 6 && w[0] == 'B' && w[5] == c;
    TrimOfTrimmed(w);
  }

  lemma OneDigitValue(d: char)
    requires IsDigit(d)
    ensures AllDigits([d]) && DigitsValue([d]) == d as int - '0' as int
  {
    assert [d][..0] == [];
  }

  /** The quantity of the item `Qty <d> of [Book <c>]`. */
  lemma BookItemQty(d: char, c: char)
    requires IsDigit(d) && c != 'W' && c != ']' && c != '\n'
    ensures WellFormed(RawMatch([d], "Book " + [c]))
    ensures ToItem(RawMatch([d], "Book " + [c])).quantity == d as int - '0' as int
  {
    BookNameClean(d, c);
    OneDigitValue(d);
  }

  /** The product of the item `Qty <d> of [Book <c>]`. */
  lemma BookItemProduct(d: char, c: char)
    requires IsDigit(d) && c != 'W' && c != ']' && c != '\n' && !IsTrimChar(c)
    ensures WellFormed(RawMatch([d], "Book " + [c]))
    ensures ToItem(RawMatch([d], "Book " + [c])).product == "Book " + [c]
  {
    BookNameClean(d, c);
    BookNameTrimmed(c);
  }

  /** The timestamp of the sample note. */
  const SAMPLE_STAMP := "2024-01-05 10:00:00"

  /**
   * `At 2024-01-05 10:00:00 GMT. Walsworth processed: Qty 3 of [Book A].
   * Walsworth DID NOT process: Qty 1 of [Book B].` on one line.
   */
  const SAMPLE_NOTE := MixedNote(SAMPLE_STAMP, RawMatch("3", "Book A"), RawMatch("1", "Book B"))

  lemma SampleStampIsStamp()
    ensures IsStamp(SAMPLE_STAMP)
  {
    var t := SAMPLE_STAMP;
    assert |t| == 19;
    assert IsDigit(t[0]) && IsDigit(t[1]) && IsDigit(t[2]) && IsDigit(t[3]) && t[4] == '-';
    assert IsDigit(t[5]) && IsDigit(t[6]) && t[7] == '-';
    assert IsDigit(t[8]) && IsDigit(t[9]) && t[10] == ' ';
    assert IsDigit(t[11]) && IsDigit(t[12]) && t[13] == ':';
    assert IsDigit(t[14]) && IsDigit(t[15]) && t[16] == ':';
    assert IsDigit(t[17]) && IsDigit(t[18]);
  }

  lemma SampleItems()
    ensures WellFormed(RawMatch("3", "Book A")) && WellFormed(RawMatch("1", "Book B"))
    ensures forall k :: 0 <= k < |"Book A"| ==> "Book A"[k] != 'W'
    ensures ToItem(RawMatch("3", "Book A")) == Item(3, "Book A")
    ensures ToItem(RawMatch("1", "Book B")) == Item(1, "Book B")
  {
    assert "3" == ['3'] && "1" == ['1'];
    assert "Book A" == "Book " + ['A'] && "Book B" == "Book " + ['B'];
    BookItemQty('3', 'A');
    BookItemProduct('3', 'A');
    BookItemQty('1', 'B');
    BookItemProduct('1', 'B');
    BookNameClean('3', 'A');
  }

  /** The sample parses as partially processed, with totals 3 and 1. */
  lemma SampleNoteParses()
    ensures Parse(SAMPLE_NOTE) == FulfillmentRecord(
              "2024-01-05 10:00:00",
              PartiallyProcessed,
              [Item(3, "Book A")],
              [Item(1, "Book B")],
              3, 1)
  {
    SampleStampIsStamp();
    SampleItems();
    MixedNoteParses(SAMPLE_STAMP, RawMatch("3", "Book A"), RawMatch("1", "Book B"));
  }
}
