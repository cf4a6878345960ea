/**
 * The Walsworth note engine shared by the immediate alert and the daily
 * digest: turns the free text of an order note into a fulfillment record.
 *
 * The three regular expressions of `parse_walsworth_data` are written out as
 * scanners (leftmost match, lazy quantifiers, `.` not crossing a newline
 * unless the pattern has the `s` flag), and the record is specified by the
 * function `Parse`. The loops that fill the record are the method
 * `ParseWalsworthData`, proved to compute `Parse`.
 */
module NoteParser {
  import opened Common
  import opened Text

  const PROCESSED_MARKER := "Walsworth processed:"
  const NOT_PROCESSED_MARKER := "Walsworth DID NOT process:"

  datatype FulfillmentStatus = FullyProcessed | PartiallyProcessed | NotProcessed

  /** One `Qty <n> of [<product>]` entry. */
  datatype Item = Item(quantity: nat, product: string)

  datatype FulfillmentRecord = FulfillmentRecord(
    timestamp: string,
    fulfillmentStatus: FulfillmentStatus,
    processedItems: seq<Item>,
    notProcessedItems: seq<Item>,
    totalProcessedQty: nat,
    totalNotProcessedQty: nat)

  /** The record the parser starts from: what a note without any marker yields. */
  const DEFAULT_RECORD := FulfillmentRecord("", FullyProcessed, [], [], 0, 0)

  /** `s` has its first occurrence of `pat` at index `p`. */
  predicate FirstOccurrence(s: string, pat: string, p: nat) {
    HasAt(s, p, pat) && forall j: nat :: j < p ==> !HasAt(s, j, pat)
  }

  // ---------------------------------------------------------------------
  // Timestamp: /At (\d{4}-\d{2}-\d{2} \d{2}:\d{2}:\d{2}) GMT/

  /** The captured group: `\d{4}-\d{2}-\d{2} \d{2}:\d{2}:\d{2}`. */
  predicate IsStamp(t: string) {
    && |t| == 19
    && IsDigit(t[0]) && IsDigit(t[1]) && IsDigit(t[2]) && IsDigit(t[3]) && t[4] == '-'
    && IsDigit(t[5]) && IsDigit(t[6]) && t[7] == '-'
    && IsDigit(t[8]) && IsDigit(t[9]) && t[10] == ' '
    && IsDigit(t[11]) && IsDigit(t[12]) && t[13] == ':'
    && IsDigit(t[14]) && IsDigit(t[15]) && t[16] == ':'
    && IsDigit(t[17]) && IsDigit(t[18])
  }

  /** The whole timestamp pattern matches at index `i`. */
  predicate TimestampAt(s: string, i: nat) {
    i + 26 <= |s| && HasAt(s, i, "At ") && IsStamp(s[i + 3..i + 22]) && HasAt(s, i + 22, " GMT")
  }

  function FindTimestamp(s: string, from: nat): (r: Option<nat>)
    ensures r.Some? ==> from <= r.value && TimestampAt(s, r.value)
    ensures forall j: nat :: from <= j && (r.None? || j < r.value) ==> !TimestampAt(s, j)
    decreases |s| - from
  {
    if from + 26 > |s| then None
    else if TimestampAt(s, from) then Some(from)
    else FindTimestamp(s, from + 1)
  }

  /** The capture of the leftmost timestamp match, or "" when there is none. */
  function ExtractTimestamp(s: string): (t: string)
    ensures t == "" <==> forall i: nat :: !TimestampAt(s, i)
    ensures t != "" ==> IsStamp(t)
    ensures t != "" ==> exists i: nat :: TimestampAt(s, i) && t == s[i + 3..i + 22]
                                         && forall j: nat :: j < i ==> !TimestampAt(s, j)
  {
    match FindTimestamp(s, 0)
    case Some(p) => s[p + 3..p + 22]
    case None => ""
  }

  // ---------------------------------------------------------------------
  // Sections:
  //   /Walsworth processed:(.*?)(?:Walsworth DID NOT process:|$)/s
  //   /Walsworth DID NOT process:(.*?)$/s
  // Without the `m` flag, `$` matches at the end of the subject and also
  // just before a newline that is its last character.

  predicate EndAnchor(s: string, k: nat) {
    k == |s| || (k + 1 == |s| && s[k] == '\n')
  }

  /** Where the lazy capture may stop: before the DID NOT marker (if `atMarker`) or at `$`. */
  predicate Stop(s: string, k: nat, atMarker: bool) {
    (atMarker && HasAt(s, k, NOT_PROCESSED_MARKER)) || EndAnchor(s, k)
  }

  /** The shortest extent of a lazy `(.*?)` starting at `k`. */
  function FirstStop(s: string, k: nat, atMarker: bool): (e: nat)
    requires k <= |s|
    ensures k <= e <= |s| && Stop(s, e, atMarker)
    ensures forall j: nat :: k <= j < e ==> !Stop(s, j, atMarker)
    decreases |s| - k
  {
    if Stop(s, k, atMarker) then k else FirstStop(s, k + 1, atMarker)
  }

  /** Bounds of the capture that follows the first occurrence of `marker`. */
  function SectionBounds(s: string, marker: string, atMarker: bool): (r: Option<(nat, nat)>)
    ensures r.None? <==> !Contains(s, marker)
    ensures r.Some? ==>
              && |marker| <= r.value.0 <= r.value.1 <= |s|
              && FirstOccurrence(s, marker, r.value.0 - |marker|)
              && Stop(s, r.value.1, atMarker)
              && forall j: nat :: r.value.0 <= j < r.value.1 ==> !Stop(s, j, atMarker)
  {
    match IndexOf(s, marker, 0)
    case None => None
    case Some(p) => Some((p + |marker|, FirstStop(s, p + |marker|, atMarker)))
  }

  /** The processed section: after the first processed marker, up to the next DID NOT marker or `$`. */
  function ProcessedSection(s: string): Option<string> {
    match SectionBounds(s, PROCESSED_MARKER, true)
    case None => None
    case Some((a, b)) => Some(s[a..b])
  }

  /** The not-processed section: after the first DID NOT marker, up to `$`. */
  function NotProcessedSection(s: string): Option<string> {
    match SectionBounds(s, NOT_PROCESSED_MARKER, false)
    case None => None
    case Some((a, b)) => Some(s[a..b])
  }

  // ---------------------------------------------------------------------
  // Items: /Qty (\d+) of \[(.*?)\]/ applied with preg_match_all

  /** The two captures of one item match. */
  datatype RawMatch = RawMatch(digits: string, inner: string)

  /** What the item pattern can capture: one or more digits, and text with no `]` and no newline. */
  predicate WellFormed(m: RawMatch) {
    && m.digits != []
    && AllDigits(m.digits)
    && forall k :: 0 <= k < |m.inner| ==> m.inner[k] != ']' && m.inner[k] != '\n'
  }

  /** The text an item match covers. */
  function ItemText(m: RawMatch): string {
    "Qty " + m.digits + " of [" + m.inner + "]"
  }

  /** End of the maximal run of digits starting at `i` (greedy `\d+`). */
  function DigitRunEnd(t: string, i: nat): (e: nat)
    requires i <= |t|
    ensures i <= e <= |t|
    ensures forall k :: i <= k < e ==> IsDigit(t[k])
    ensures e < |t| ==> !IsDigit(t[e])
    decreases |t| - i
  {
    if i < |t| && IsDigit(t[i]) then DigitRunEnd(t, i + 1) else i
  }

  /** First `]` or newline at or after `i` (how far a lazy `.*?\]` can look). */
  function LineBracketEnd(t: string, i: nat): (e: nat)
    requires i <= |t|
    ensures i <= e <= |t|
    ensures forall k :: i <= k < e ==> t[k] != ']' && t[k] != '\n'
    ensures e < |t| ==> t[e] == ']' || t[e] == '\n'
    decreases |t| - i
  {
    if i < |t| && t[i] != ']' && t[i] != '\n' then LineBracketEnd(t, i + 1) else i
  }

  /** The five pieces of an item's text, one after the other, make up that text. */
  lemma PiecesMakeItemText(t: string, i: nat, m: RawMatch)
    requires HasAt(t, i, "Qty ") && HasAt(t, i + 4, m.digits)
    requires HasAt(t, i + 4 + |m.digits|, " of [") && HasAt(t, i + 9 + |m.digits|, m.inner)
    requires HasAt(t, i + 9 + |m.digits| + |m.inner|, "]")
    ensures HasAt(t, i, ItemText(m))
  {
    HasAtConcat(t, i, "Qty ", m.digits);
    HasAtConcat(t, i, "Qty " + m.digits, " of [");
    HasAtConcat(t, i, "Qty " + m.digits + " of [", m.inner);
    HasAtConcat(t, i, "Qty " + m.digits + " of [" + m.inner, "]");
  }

  /** The item match starting exactly at `i`, with the index just past it. */
  function ItemAt(t: string, i: nat): (r: Option<(RawMatch, nat)>)
    requires i <= |t|
    ensures r.Some? ==> WellFormed(r.value.0) && HasAt(t, i, ItemText(r.value.0))
                        && r.value.1 == i + |ItemText(r.value.0)|
  {
    if !HasAt(t, i, "Qty ") then None
    else
      var d := DigitRunEnd(t, i + 4);
      if d == i + 4 || !HasAt(t, d, " of [") then None
      else
        var c := LineBracketEnd(t, d + 5);
        if c < |t| && t[c] == ']' then
          var m := RawMatch(t[i + 4..d], t[d + 5..c]);
          assert HasAt(t, i + 4, m.digits) && HasAt(t, d + 5, m.inner) && HasAt(t, c, "]");
          PiecesMakeItemText(t, i, m);
          Some((m, c + 1))
        else None
  }

  /**
   * The pattern matches at `i` in exactly one way: whenever the text of a
   * well-formed match occurs at `i`, `ItemAt` finds precisely that match.
   */
  lemma ItemAtComplete(t: string, i: nat, m: RawMatch)
    requires WellFormed(m) && HasAt(t, i, ItemText(m))
    ensures i <= |t| && ItemAt(t, i) == Some((m, i + |ItemText(m)|))
  {
    var d := i + 4 + |m.digits|;
    var c := d + 5 + |m.inner|;
    ItemTextHead(t, i, m);
    ItemTextTail(t, i, m);
    ItemAtFound(t, i, d, c);
  }

  /** The head of an item's text: `Qty `, the digits up to where the greedy run ends, then ` of [`. */
  lemma ItemTextHead(t: string, i: nat, m: RawMatch)
    requires WellFormed(m) && HasAt(t, i, ItemText(m))
    ensures HasAt(t, i, "Qty ") && DigitRunEnd(t, i + 4) == i + 4 + |m.digits|
    ensures HasAt(t, i + 4 + |m.digits|, " of [") && t[i + 4..i + 4 + |m.digits|] == m.digits
  {
    ItemTextPieces(t, i, m);
    DigitsOfPiece(t, i + 4, m.digits, " of [");
  }

  /** The tail of an item's text: the inner text up to the `]` where the lazy search stops. */
  lemma ItemTextTail(t: string, i: nat, m: RawMatch)
    requires WellFormed(m) && HasAt(t, i, ItemText(m))
    ensures var j := i + 9 + |m.digits|;
            && LineBracketEnd(t, j) == j + |m.inner| && j + |m.inner| < |t| && t[j + |m.inner|] == ']'
            && t[j..j + |m.inner|] == m.inner && |ItemText(m)| == 10 + |m.digits| + |m.inner|
  {
    var j := i + 9 + |m.digits|;
    var c := j + |m.inner|;
    ItemTextPieces(t, i, m);
    InnerOfPiece(t, j, m.inner);
    assert t[c] == t[c..c + 1][0];
  }

  /** `ItemAt` when each of its tests passes. */
  lemma ItemAtFound(t: string, i: nat, d: nat, c: nat)
    requires HasAt(t, i, "Qty ") && i + 4 < d && DigitRunEnd(t, i + 4) == d && HasAt(t, d, " of [")
    requires LineBracketEnd(t, d + 5) == c && c < |t| && t[c] == ']'
    ensures ItemAt(t, i) == Some((RawMatch(t[i + 4..d], t[d + 5..c]), c + 1))
  {
  }

  /** Digits at `j` followed by a non-digit piece: the greedy run ends right after them. */
  lemma DigitsOfPiece(t: string, j: nat, digits: string, next: string)
    requires AllDigits(digits) && HasAt(t, j, digits) && HasAt(t, j + |digits|, next)
    requires next != [] && !IsDigit(next[0])
    ensures DigitRunEnd(t, j) == j + |digits|
  {
    forall k | j <= k < j + |digits| ensures IsDigit(t[k]) {
      assert t[k] == t[j..j + |digits|][k - j];
    }
    assert t[j + |digits|] == t[j + |digits|..j + |digits| + |next|][0];
    DigitRunAt(t, j, |digits|);
  }

  /** Text free of `]` and newlines at `j`, then `]`: the lazy search stops at that `]`. */
  lemma InnerOfPiece(t: string, j: nat, inner: string)
    requires forall k :: 0 <= k < |inner| ==> inner[k] != ']' && inner[k] != '\n'
    requires HasAt(t, j, inner) && HasAt(t, j + |inner|, "]")
    ensures LineBracketEnd(t, j) == j + |inner|
  {
    forall k | j <= k < j + |inner| ensures t[k] != ']' && t[k] != '\n' {
      assert t[k] == t[j..j + |inner|][k - j];
    }
    assert t[j + |inner|] == t[j + |inner|..j + |inner| + 1][0];
    BracketAt(t, j, |inner|);
  }

  /** An item's text at `i` is its five pieces, one after the other. */
  lemma ItemTextPieces(t: string, i: nat, m: RawMatch)
    requires HasAt(t, i, ItemText(m))
    ensures HasAt(t, i, "Qty ") && HasAt(t, i + 4, m.digits)
    ensures HasAt(t, i + 4 + |m.digits|, " of [") && HasAt(t, i + 9 + |m.digits|, m.inner)
    ensures HasAt(t, i + 9 + |m.digits| + |m.inner|, "]")
  {
    HasAtConcat(t, i, "Qty " + m.digits + " of [" + m.inner, "]");
    HasAtConcat(t, i, "Qty " + m.digits + " of [", m.inner);
    HasAtConcat(t, i, "Qty " + m.digits, " of [");
    HasAtConcat(t, i, "Qty ", m.digits);
  }

  /** A run of `n` digits at `j` followed by a non-digit is where the greedy run ends. */
  lemma DigitRunAt(t: string, j: nat, n: nat)
    requires j + n < |t| && !IsDigit(t[j + n])
    requires forall k :: j <= k < j + n ==> IsDigit(t[k])
    ensures DigitRunEnd(t, j) == j + n
  {
  }

  /** Text of length `n` at `j` free of `]` and newlines, then `]`, is where the lazy search stops. */
  lemma BracketAt(t: string, j: nat, n: nat)
    requires j + n < |t| && t[j + n] == ']'
    requires forall k :: j <= k < j + n ==> t[k] != ']' && t[k] != '\n'
    ensures LineBracketEnd(t, j) == j + n
  {
  }

  /** The text of match `m` occurs in `t` at or after index `i`. */
  ghost predicate OccursFrom(t: string, i: nat, m: RawMatch) {
    exists p: nat :: i <= p && HasAt(t, p, ItemText(m))
  }

  /** preg_match_all: leftmost, non-overlapping matches from `i` on, in order of appearance. */
  function MatchAllFrom(t: string, i: nat): (ms: seq<RawMatch>)
    requires i <= |t|
    ensures forall k :: 0 <= k < |ms| ==> WellFormed(ms[k]) && OccursFrom(t, i, ms[k])
    decreases |t| - i
  {
    if i == |t| then []
    else
      match ItemAt(t, i)
      case Some((m, e)) =>
        var rest := MatchAllFrom(t, e);
        assert OccursFrom(t, i, m);
        forall k | 0 <= k < |rest| ensures OccursFrom(t, i, rest[k]) {
          var p: nat :| e <= p && HasAt(t, p, ItemText(rest[k]));
        }
        [m] + rest
      case None =>
        var rest := MatchAllFrom(t, i + 1);
        forall k | 0 <= k < |rest| ensures OccursFrom(t, i, rest[k]) {
          var p: nat :| i + 1 <= p && HasAt(t, p, ItemText(rest[k]));
        }
        rest
  }

  function MatchAll(t: string): seq<RawMatch> {
    MatchAllFrom(t, 0)
  }

  /** Where each match that `MatchAllFrom(t, i)` collects starts. */
  function MatchStartsFrom(t: string, i: nat): seq<nat>
    requires i <= |t|
    decreases |t| - i
  {
    if i == |t| then []
    else
      match ItemAt(t, i)
      case Some((_, e)) => [i] + MatchStartsFrom(t, e)
      case None => MatchStartsFrom(t, i + 1)
  }

  /** The item pattern matches at `q`. */
  predicate MatchesAt(t: string, q: nat) {
    q <= |t| && ItemAt(t, q).Some?
  }

  /** Where the match found at `p` ends (`p` itself when there is none). */
  function MatchEnd(t: string, p: nat): nat {
    if MatchesAt(t, p) then ItemAt(t, p).value.1 else p
  }

  /** Index `q` lies inside one of the matches starting at `ps`. */
  predicate Spanned(t: string, ps: seq<nat>, q: nat) {
    ps != [] && ((ps[0] <= q < MatchEnd(t, ps[0])) || Spanned(t, ps[1..], q))
  }

  /**
   * `ps` lists the starts of a `preg_match_all` scan of `t` from `i`: each
   * is a match, each begins at or after the end of every earlier one, and
   * every index from `i` on where the pattern matches lies inside one of them.
   */
  predicate ScanFrom(t: string, i: nat, ps: seq<nat>) {
    && (forall k :: 0 <= k < |ps| ==> i <= ps[k] && MatchesAt(t, ps[k]))
    && (forall k, l :: 0 <= k < l < |ps| ==> MatchEnd(t, ps[k]) <= ps[l])
    && (forall q :: i <= q < |t| && MatchesAt(t, q) ==> Spanned(t, ps, q))
  }

  /** A match at `i` followed by a scan from its end is a scan from `i`. */
  lemma ScanFromMatch(t: string, i: nat, e: nat, ps: seq<nat>)
    requires MatchesAt(t, i) && MatchEnd(t, i) == e && ScanFrom(t, e, ps)
    ensures ScanFrom(t, i, [i] + ps)
  {
    var r := [i] + ps;
    assert r[1..] == ps;
    forall k | 0 <= k < |r| ensures i <= r[k] && MatchesAt(t, r[k]) {
      if k > 0 { assert r[k] == ps[k - 1]; }
    }
    forall k, l | 0 <= k < l < |r| ensures MatchEnd(t, r[k]) <= r[l] {
      assert r[l] == ps[l - 1];
      if k > 0 { assert r[k] == ps[k - 1]; }
    }
    forall q | i <= q < |t| && MatchesAt(t, q) ensures Spanned(t, r, q) {
      if e <= q {
        assert Spanned(t, ps, q);
      }
    }
  }

  /** No match at `i` and a scan from `i + 1` make a scan from `i`. */
  lemma ScanFromSkip(t: string, i: nat, ps: seq<nat>)
    requires !MatchesAt(t, i) && ScanFrom(t, i + 1, ps)
    ensures ScanFrom(t, i, ps)
  {
  }

  /** A match covers at least one character of the text. */
  lemma MatchInside(t: string, p: nat)
    requires MatchesAt(t, p)
    ensures p < MatchEnd(t, p) <= |t|
  {
  }

  /** An index below every start lies in none of the matches. */
  lemma {:induction false} NotSpannedBelow(t: string, ps: seq<nat>, q: nat, lo: nat)
    requires forall k :: 0 <= k < |ps| ==> lo <= ps[k]
    requires q < lo
    ensures !Spanned(t, ps, q)
  {
    if ps != [] {
      assert forall k :: 0 <= k < |ps[1..]| ==> ps[1..][k] == ps[k + 1];
      NotSpannedBelow(t, ps[1..], q, lo);
    }
  }

  /** A scan is empty exactly when the pattern matches nowhere from `i` on. */
  lemma ScanEmpty(t: string, i: nat, ps: seq<nat>)
    requires ScanFrom(t, i, ps)
    ensures ps == [] <==> forall q :: i <= q < |t| ==> !MatchesAt(t, q)
  {
    if ps != [] {
      MatchInside(t, ps[0]);
    }
  }

  /** The first start of a scan is the leftmost match from `i` on. */
  lemma ScanFirst(t: string, i: nat, ps: seq<nat>)
    requires ScanFrom(t, i, ps) && ps != []
    ensures i <= ps[0] && MatchesAt(t, ps[0])
    ensures forall q :: i <= q < ps[0] ==> !MatchesAt(t, q)
  {
    MatchInside(t, ps[0]);
    forall q | i <= q < ps[0] ensures !Spanned(t, ps, q) {
      NotSpannedBelow(t, ps, q, ps[0]);
    }
  }

  /** After its first match, a scan goes on as a scan from that match's end. */
  lemma ScanRest(t: string, i: nat, ps: seq<nat>)
    requires ScanFrom(t, i, ps) && ps != []
    ensures ScanFrom(t, MatchEnd(t, ps[0]), ps[1..])
  {
    var r := ps[1..];
    MatchInside(t, ps[0]);
    forall k | 0 <= k < |r| ensures MatchEnd(t, ps[0]) <= r[k] && MatchesAt(t, r[k]) {
      assert r[k] == ps[k + 1];
    }
    forall k, l | 0 <= k < l < |r| ensures MatchEnd(t, r[k]) <= r[l] {
      assert r[k] == ps[k + 1] && r[l] == ps[l + 1];
    }
  }

  /** Two leftmost matches from `i` on are the same. */
  lemma LeftmostUnique(t: string, i: nat, a: nat, b: nat)
    requires i <= a && MatchesAt(t, a) && forall q :: i <= q < a ==> !MatchesAt(t, q)
    requires i <= b && MatchesAt(t, b) && forall q :: i <= q < b ==> !MatchesAt(t, q)
    ensures a == b
  {
  }

  /** There is only one scan from `i`: the leftmost, non-overlapping matches are determined by the text. */
  lemma {:induction false} ScanUnique(t: string, i: nat, ps1: seq<nat>, ps2: seq<nat>)
    requires ScanFrom(t, i, ps1) && ScanFrom(t, i, ps2)
    ensures ps1 == ps2
    decreases |ps1|
  {
    if ps1 == [] || ps2 == [] {
      ScanEmpty(t, i, ps1);
      ScanEmpty(t, i, ps2);
    } else {
      ScanHeads(t, i, ps1, ps2);
      ScanUnique(t, MatchEnd(t, ps1[0]), ps1[1..], ps2[1..]);
      assert ps1 == [ps1[0]] + ps1[1..] && ps2 == [ps2[0]] + ps2[1..];
    }
  }

  /** Two non-empty scans from `i` start at the same match and go on from its end. */
  lemma ScanHeads(t: string, i: nat, ps1: seq<nat>, ps2: seq<nat>)
    requires ScanFrom(t, i, ps1) && ScanFrom(t, i, ps2) && ps1 != [] && ps2 != []
    ensures ps1[0] == ps2[0]
    ensures ScanFrom(t, MatchEnd(t, ps1[0]), ps1[1..]) && ScanFrom(t, MatchEnd(t, ps1[0]), ps2[1..])
  {
    ScanFirst(t, i, ps1);
    ScanFirst(t, i, ps2);
    LeftmostUnique(t, i, ps1[0], ps2[0]);
    ScanRest(t, i, ps1);
    ScanRest(t, i, ps2);
  }

  /** `MatchAllFrom` is that scan: its matches are the ones found at `MatchStartsFrom`, in order. */
  lemma {:induction false} MatchAllFromSpec(t: string, i: nat)
    requires i <= |t|
    ensures var ms := MatchAllFrom(t, i);
            var ps := MatchStartsFrom(t, i);
            && |ps| == |ms|
            && ScanFrom(t, i, ps)
            && forall k :: 0 <= k < |ps| ==> ItemAt(t, ps[k]).value.0 == ms[k]
    decreases |t| - i
  {
    if i < |t| {
      var ms := MatchAllFrom(t, i);
      var ps := MatchStartsFrom(t, i);
      match ItemAt(t, i)
      case Some((m, e)) =>
        MatchAllFromSpec(t, e);
        var ms' := MatchAllFrom(t, e);
        var ps' := MatchStartsFrom(t, e);
        assert ms == [m] + ms' && ps == [i] + ps';
        ScanFromMatch(t, i, e, ps');
        forall k | 0 <= k < |ps| ensures ItemAt(t, ps[k]).value.0 == ms[k] {
          if k > 0 { assert ps[k] == ps'[k - 1] && ms[k] == ms'[k - 1]; }
        }
      case None =>
        MatchAllFromSpec(t, i + 1);
        ScanFromSkip(t, i, ps);
    }
  }

  // ---------------------------------------------------------------------
  // The record

  /** One item as the parser stores it: `intval` of the digits, `trim` of the product. */
  function ToItem(m: RawMatch): Item
    requires WellFormed(m)
  {
    Item(DigitsValue(m.digits), Trim(m.inner))
  }

  function ToItems(ms: seq<RawMatch>): (items: seq<Item>)
    requires forall k :: 0 <= k < |ms| ==> WellFormed(ms[k])
    ensures |items| == |ms|
    ensures forall k :: 0 <= k < |ms| ==> items[k] == ToItem(ms[k])
  {
    if ms == [] then [] else ToItems(ms[..|ms| - 1]) + [ToItem(ms[|ms| - 1])]
  }

  function SumQty(items: seq<Item>): nat {
    if items == [] then 0 else SumQty(items[..|items| - 1]) + items[|items| - 1].quantity
  }

  lemma ToItemsSnoc(ms: seq<RawMatch>, i: nat)
    requires i < |ms| && forall k :: 0 <= k < |ms| ==> WellFormed(ms[k])
    ensures ToItems(ms[..i + 1]) == ToItems(ms[..i]) + [ToItem(ms[i])]
  {
    assert ms[..i + 1][..i] == ms[..i];
  }

  lemma SumQtySnoc(items: seq<Item>, item: Item)
    ensures SumQty(items + [item]) == SumQty(items) + item.quantity
  {
    assert (items + [item])[..|items|] == items;
  }

  /** The items of a section, or none when the section's marker is missing. */
  function SectionItems(section: Option<string>): seq<Item> {
    match section
    case None => []
    case Some(t) => ToItems(MatchAll(t))
  }

  /** The status the parser derives from the two totals. */
  function DeriveStatus(processed: nat, notProcessed: nat): (st: FulfillmentStatus)
    ensures st == NotProcessed <==> processed == 0 && notProcessed > 0
    ensures st == PartiallyProcessed <==> processed > 0 && notProcessed > 0
    ensures st == FullyProcessed <==> notProcessed == 0
  {
    if processed == 0 && notProcessed > 0 then NotProcessed
    else if notProcessed > 0 then PartiallyProcessed
    else FullyProcessed
  }

  /** The record `parse_walsworth_data` returns for `content`. */
  function Parse(content: string): FulfillmentRecord {
    var processed := SectionItems(ProcessedSection(content));
    var notProcessed := SectionItems(NotProcessedSection(content));
    FulfillmentRecord(
      ExtractTimestamp(content),
      DeriveStatus(SumQty(processed), SumQty(notProcessed)),
      processed,
      notProcessed,
      SumQty(processed),
      SumQty(notProcessed))
  }

  /**
   * One loop of parse_walsworth_data: every match of the item pattern in
   * `section`, in order, becomes an item, and its quantity is added to the total.
   */
  method CollectItems(section: string) returns (items: seq<Item>, total: nat)
    ensures items == SectionItems(Some(section))
    ensures total == SumQty(items)
  {
    var matches := MatchAll(section);
    var itemCount := |matches|;
    items, total := [], 0;
    for i := 0 to itemCount
      invariant items == ToItems(matches[..i])
      invariant total == SumQty(items)
    {
      var qty := DigitsValue(matches[i].digits);
      var item := Item(qty, Trim(matches[i].inner));
      ToItemsSnoc(matches, i);
      SumQtySnoc(items, item);
      items := items + [item];
      total := total + qty;
    }
    assert matches[..itemCount] == matches;
  }

  /**
   * parse_walsworth_data: start from the default record, take the timestamp,
   * fill each section's items and total, and derive the status from the totals.
   */
  method ParseWalsworthData(noteContent: string) returns (data: FulfillmentRecord)
    ensures data == Parse(noteContent)
    ensures data.totalProcessedQty == SumQty(data.processedItems)
    ensures data.totalNotProcessedQty == SumQty(data.notProcessedItems)
  {
    data := DEFAULT_RECORD;

    var ts := FindTimestamp(noteContent, 0);
    if ts.Some? {
      data := data.(timestamp := noteContent[ts.value + 3..ts.value + 22]);
    }
    assert data.timestamp == ExtractTimestamp(noteContent);

    var processed := ProcessedSection(noteContent);
    if processed.Some? {
      var items, total := CollectItems(processed.value);
      data := data.(processedItems := items, totalProcessedQty := total);
    }
    assert data.processedItems == SectionItems(processed);
    assert data.totalProcessedQty == SumQty(data.processedItems);

    var notProcessed := NotProcessedSection(noteContent);
    if notProcessed.Some? {
      var items, total := CollectItems(notProcessed.value);
      data := data.(notProcessedItems := items, totalNotProcessedQty := total);
      if data.totalNotProcessedQty > 0 {
        data := data.(fulfillmentStatus := PartiallyProcessed);
      }
    }
    assert data.notProcessedItems == SectionItems(notProcessed);
    assert data.totalNotProcessedQty == SumQty(data.notProcessedItems);

    if data.totalProcessedQty == 0 && data.totalNotProcessedQty > 0 {
      data := data.(fulfillmentStatus := NotProcessed);
    }
  }
}
