/**
 * Properties of the Walsworth note parser: how the totals, the status and the
 * two sections relate to the text, and the worked example of a mixed note.
 */
module NoteParserProperties {
  import opened Common
  import opened Text
  import opened NoteParser

  /** A total is positive exactly when one of the quantities it adds up is. */
  lemma {:induction false} SumQtyPositive(items: seq<Item>)
    ensures SumQty(items) > 0 <==> exists k :: 0 <= k < |items| && items[k].quantity > 0
  {
    if items != [] {
      var init := items[..|items| - 1];
      SumQtyPositive(init);
      if exists k :: 0 <= k < |init| && init[k].quantity > 0 {
        var k :| 0 <= k < |init| && init[k].quantity > 0;
        assert items[k] == init[k];
      }
      if exists k :: 0 <= k < |items| && items[k].quantity > 0 {
        var k :| 0 <= k < |items| && items[k].quantity > 0;
        if k < |init| {
          assert init[k] == items[k];
        }
      }
    }
  }

  /** No processed marker: no processed items and a zero processed total. */
  lemma MissingProcessedMarker(s: string)
    requires !Contains(s, PROCESSED_MARKER)
    ensures Parse(s).processedItems == [] && Parse(s).totalProcessedQty == 0
  {
  }

  /** No DID NOT marker: no unprocessed items, a zero total, and the note counts as fully processed. */
  lemma MissingNotProcessedMarker(s: string)
    requires !Contains(s, NOT_PROCESSED_MARKER)
    ensures Parse(s).notProcessedItems == [] && Parse(s).totalNotProcessedQty == 0
    ensures Parse(s).fulfillmentStatus == FullyProcessed
  {
  }

  /** A note with only the DID NOT marker and some positive quantity is not processed at all. */
  lemma OnlyNotProcessedMarker(s: string)
    requires !Contains(s, PROCESSED_MARKER)
    requires exists k :: 0 <= k < |Parse(s).notProcessedItems| && Parse(s).notProcessedItems[k].quantity > 0
    ensures Parse(s).fulfillmentStatus == NotProcessed
  {
    SumQtyPositive(Parse(s).notProcessedItems);
  }

  /** A positive quantity under each marker makes the note partially processed. */
  lemma MixedNoteIsPartiallyProcessed(s: string)
    requires exists k :: 0 <= k < |Parse(s).processedItems| && Parse(s).processedItems[k].quantity > 0
    requires exists k :: 0 <= k < |Parse(s).notProcessedItems| && Parse(s).notProcessedItems[k].quantity > 0
    ensures Parse(s).fulfillmentStatus == PartiallyProcessed
  {
    SumQtyPositive(Parse(s).processedItems);
    SumQtyPositive(Parse(s).notProcessedItems);
  }

  /** Unprocessed items whose quantities are all zero leave the note fully processed. */
  lemma ZeroUnprocessedIsFullyProcessed(s: string)
    requires forall k :: 0 <= k < |Parse(s).notProcessedItems| ==> Parse(s).notProcessedItems[k].quantity == 0
    ensures Parse(s).fulfillmentStatus == FullyProcessed
  {
    SumQtyPositive(Parse(s).notProcessedItems);
  }

  /** A product name as stored: trimmed, on one line, and free of `]`. */
  predicate CleanProduct(p: string) {
    && (p == [] || (!IsTrimChar(p[0]) && !IsTrimChar(p[|p| - 1])))
    && forall k :: 0 <= k < |p| ==> p[k] != ']' && p[k] != '\n'
  }

  /** The product taken from one match is clean. */
  lemma ToItemClean(m: RawMatch)
    requires WellFormed(m)
    ensures CleanProduct(ToItem(m).product)
  {
    TrimKeepsOneLine(m.inner);
  }

  /** Trimming only removes characters: text free of `]` and newlines stays so. */
  lemma TrimKeepsOneLine(s: string)
    requires forall k :: 0 <= k < |s| ==> s[k] != ']' && s[k] != '\n'
    ensures forall k :: 0 <= k < |Trim(s)| ==> Trim(s)[k] != ']' && Trim(s)[k] != '\n'
  {
    var p := Trim(s);
    var a: nat, b: nat :| a <= b <= |s| && p == s[a..b];
    forall j | 0 <= j < |p| ensures p[j] != ']' && p[j] != '\n' {
      assert p[j] == s[a + j];
    }
  }

  lemma SectionItemsClean(section: Option<string>)
    ensures forall k :: 0 <= k < |SectionItems(section)| ==> CleanProduct(SectionItems(section)[k].product)
  {
    if section.Some? {
      var ms := MatchAll(section.value);
      forall k | 0 <= k < |ms| ensures CleanProduct(SectionItems(section)[k].product) {
        ToItemClean(ms[k]);
      }
    }
  }

  /** Every product of a parsed note is trimmed, on one line, and free of `]`. */
  lemma ParsedProductsAreClean(s: string)
    ensures forall k :: 0 <= k < |Parse(s).processedItems| ==> CleanProduct(Parse(s).processedItems[k].product)
    ensures forall k :: 0 <= k < |Parse(s).notProcessedItems| ==> CleanProduct(Parse(s).notProcessedItems[k].product)
  {
    SectionItemsClean(ProcessedSection(s));
    SectionItemsClean(NotProcessedSection(s));
  }

  /**
   * The items of a section are its `preg_match_all` scan: item `k` is taken
   * from the `k`-th of the leftmost, non-overlapping matches, and there is
   * one item per match.
   */
  lemma SectionItemsAreScan(t: string, ps: seq<nat>)
    requires ScanFrom(t, 0, ps)
    ensures |SectionItems(Some(t))| == |ps|
    ensures forall k :: 0 <= k < |ps| ==> SectionItems(Some(t))[k] == ToItem(ItemAt(t, ps[k]).value.0)
  {
    MatchAllFromSpec(t, 0);
    ScanUnique(t, 0, ps, MatchStartsFrom(t, 0));
  }

  /** The processed items are the scan of the processed section, in order of appearance. */
  lemma ProcessedItemsAreScan(s: string, t: string, ps: seq<nat>)
    requires ProcessedSection(s) == Some(t) && ScanFrom(t, 0, ps)
    ensures |Parse(s).processedItems| == |ps|
    ensures forall k :: 0 <= k < |ps| ==> Parse(s).processedItems[k] == ToItem(ItemAt(t, ps[k]).value.0)
  {
    SectionItemsAreScan(t, ps);
  }

  /** The unprocessed items are the scan of the not-processed section, in order of appearance. */
  lemma NotProcessedItemsAreScan(s: string, t: string, ps: seq<nat>)
    requires NotProcessedSection(s) == Some(t) && ScanFrom(t, 0, ps)
    ensures |Parse(s).notProcessedItems| == |ps|
    ensures forall k :: 0 <= k < |ps| ==> Parse(s).notProcessedItems[k] == ToItem(ItemAt(t, ps[k]).value.0)
  {
    SectionItemsAreScan(t, ps);
  }

  /**
   * When the first processed marker comes before the first DID NOT marker,
   * the processed section is exactly the text between them, and the
   * not-processed section is the rest of the note (less a final newline,
   * which `$` leaves out).
   */
  lemma {:induction false} SectionsOfOrderedNote(s: string, p: nat, n: nat)
    requires FirstOccurrence(s, PROCESSED_MARKER, p)
    requires FirstOccurrence(s, NOT_PROCESSED_MARKER, n)
    requires p + |PROCESSED_MARKER| <= n
    ensures ProcessedSection(s) == Some(s[p + |PROCESSED_MARKER|..n])
    ensures n + |NOT_PROCESSED_MARKER| < |s| || s[|s| - 1] != '\n'
    ensures var end := if s[|s| - 1] == '\n' then |s| - 1 else |s|;
            NotProcessedSection(s) == Some(s[n + |NOT_PROCESSED_MARKER|..end])
  {
    var pb := SectionBounds(s, PROCESSED_MARKER, true).value;
    assert pb.0 == p + |PROCESSED_MARKER|;
    if n < pb.1 {
      assert Stop(s, n, true);
    }
    var nb := SectionBounds(s, NOT_PROCESSED_MARKER, false).value;
    assert nb.0 == n + |NOT_PROCESSED_MARKER|;
    var last := n + |NOT_PROCESSED_MARKER| - 1;
    assert s[last] == s[n..n + |NOT_PROCESSED_MARKER|][|NOT_PROCESSED_MARKER| - 1] == ':';
    var end := if s[|s| - 1] == '\n' then |s| - 1 else |s|;
    assert Stop(s, end, false);
  }
}
