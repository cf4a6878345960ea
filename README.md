# Lionheart mixed order alerts: the Walsworth note engine

This project models the core of a WooCommerce plugin. The plugin watches
order notes written by the Walsworth fulfillment service. A "mixed" order is
one that Walsworth fulfilled only in part. The service says so in a private
order note holding two markers: `Walsworth processed:` followed by the items
it shipped, then `Walsworth DID NOT process:` followed by the items it did
not. Each item reads `Qty <n> of [<product>]`. The plugin has two pipelines
over these notes.

- **The daily digest** (`WC_Daily_Summary_Status_Cron`, module
  `DailySummaryCron`):
  - It takes every order whose status is `processing`, `partially-shipped`
    or `pending-payment-partially-shipped`.
  - It keeps the orders that have a note passing the strict test. The strict
    test collapses every whitespace run to one space, then requires both
    markers.
  - It summarises each kept order with the parse of its newest such note.
  - It mails the list to the configured recipients unless the list is empty.
- **The immediate alert** (`WooCommerce_OrderNote_Email_Alert`, module
  `OrderNoteAlert`):
  - When a note is added, it passes the gates of `process_order_note`:
    - the id is not yet recorded;
    - the note exists;
    - the note is private;
    - the loose test holds: `Walsworth processed:` appears in the raw text.
  - It then records the id and mails the parsed note.
  - It leaves a one-shot notice for the current user, shown once on the
    next admin page and then deleted.

Both pipelines share these parts:

- **The note parser** (`NoteParser`). The digest's copy
  (includes/class-daily-summary-status-cron.php:272-321) and the alert's
  (includes/class-order-note-email-alert.php:227-279) are equivalent. They
  differ in one detail: the digest reads `count($items[0])` once before
  each item loop (lines 288-289 and 301-302), while the alert re-evaluates
  it on every iteration (lines 245 and 258). Nothing in the loop changes
  `$items`, so both iterate over the same matches. The model therefore has
  one definition, `Parse`, and one loop method, `ParseWalsworthData`,
  proved to compute it. Both pipelines call that method, so they parse
  every note to the same record.
- **The two classifiers** (`NoteClassifier`).
- **Recipient resolution** (`Recipients`). The alert's `get_recipients`
  (includes/class-order-note-email-alert.php:98-115) and
  `get_admin_email_addresses` (82-93) are equivalent to the digest's: they
  compute the same list from the same inputs. Its settings (21-22) have the
  same values. Both classes use the one model.
- **Text primitives** (`Text`): `strpos`, `trim`, PHP's `empty` on strings,
  and decimal digits.

Each regular expression of the parser is a scanner over `string`, with the
semantics PCRE gives it:

- **Leftmost match.** The first match in the string is the one taken.
- **Lazy captures.** `(.*?)` stops at the earliest point where the rest of
  the pattern can match.
- **`.` in item patterns.** It does not cross a newline, because the item
  pattern has no `s` flag.
- **`$` without the `m` flag.** It matches at the end of the subject, and
  also just before a final newline.
- **`\s`.** It is space, tab, newline, vertical tab, form feed or carriage
  return.
- **`trim`'s set.** Space, tab, newline, carriage return, NUL and vertical
  tab.

WordPress itself is an input:

- **Digest.** It reads the store as a sequence of orders, in the order the
  query returns them. Each order carries its note contents, newest first.
- **Alert.** It reads a `Host` value holding:
  - the comments with their `is_customer_note` meta;
  - the orders by id;
  - the current user and the clock reading;
  - the administrators' addresses;
  - whether `wp_mail` reports success.
- **Notices.** The per-user transients are a map field of a `NoticeStore`
  object. The alert's `processed_notes` array is a `set<nat>` field of an
  `OrderNoteEmailAlert` object.

## Model

| member | source | states |
|---|---|---|
| Text.IndexOf | includes/class-daily-summary-status-cron.php:237-238 | `strpos` from `from`: a found index holds the pattern, and no earlier index from `from` does |
| Text.ContainsIff | includes/class-daily-summary-status-cron.php:237-238 | `strpos(...) !== false` holds exactly when the pattern occurs at some index |
| Text.NatToString | includes/class-daily-summary-status-cron.php:337 | PHP's integer-to-string conversion: non-empty decimal digits, no leading zero, whose value is the number |
| Text.Contains | includes/class-daily-summary-status-cron.php:237-238 | `strpos(...) !== false`: the leftmost search from the start finds the pattern |
| Text.IsFalsy | includes/class-daily-summary-status-cron.php:229 | PHP's `empty` on a string: "" or "0" |
| Text.DigitsValue | includes/class-daily-summary-status-cron.php:290 | `intval` of a digit string: its decimal value |
| Text.Trim | includes/class-daily-summary-status-cron.php:293 | `trim`: the result is a slice of the input with only trim characters cut from either end, and it neither starts nor ends with one |
| Text.TrimIdempotent | includes/class-daily-summary-status-cron.php:293 | trimming a trimmed product changes nothing |
| NoteParser.FindTimestamp | includes/class-daily-summary-status-cron.php:282 | scanning from `from` finds the leftmost index where `At dddd-dd-dd dd:dd:dd GMT` matches, or reports that none does |
| NoteParser.ExtractTimestamp | includes/class-daily-summary-status-cron.php:274-284 | the timestamp is "" exactly when the pattern matches nowhere; otherwise it is the 19-character capture of the leftmost match and has the exact digit layout |
| NoteParser.FirstStop | includes/class-daily-summary-status-cron.php:286 | a lazy `(.*?)` ends at the first position where the DID NOT marker (if allowed) or `$` matches |
| NoteParser.SectionBounds | includes/class-daily-summary-status-cron.php:286-299 | no section when the marker is absent; otherwise the section starts right after the marker's first occurrence and ends at the first stop after it (the DID NOT marker or `$` for the processed section, only `$` for the other) |
| NoteParser.DigitRunEnd | includes/class-daily-summary-status-cron.php:287 | `\d+` is greedy: the run ends at the first non-digit |
| NoteParser.LineBracketEnd | includes/class-daily-summary-status-cron.php:287 | `(.*?)\]` without `s`: the product ends at the first `]` or newline |
| NoteParser.ItemAt | includes/class-daily-summary-status-cron.php:287 | a match found at an index is well-formed (digits, a product free of `]` and newline) and its text sits at that index |
| NoteParser.ItemAtComplete | includes/class-daily-summary-status-cron.php:287 | every well-formed item text at an index is found there, with the match ending after it |
| NoteParser.MatchAllFrom | includes/class-daily-summary-status-cron.php:287 | `preg_match_all`: every match collected is well-formed and occurs in the section at or after the scan start |
| NoteParser.MatchAll | includes/class-daily-summary-status-cron.php:287 | `preg_match_all` over a whole section: the scan from its first character |
| NoteParser.ScanEmpty | includes/class-daily-summary-status-cron.php:287 | a scan finds no match exactly when the pattern matches at no index from its start |
| NoteParser.ScanFirst | includes/class-daily-summary-status-cron.php:287 | the first match of a scan is the leftmost index where the pattern matches |
| NoteParser.ScanRest | includes/class-daily-summary-status-cron.php:287 | after its first match, a scan resumes exactly where that match ends, so matches never overlap |
| NoteParser.ScanUnique | includes/class-daily-summary-status-cron.php:287 | the leftmost, non-overlapping scan of a text is unique: any two sequences of match starts that are increasing, non-overlapping and cover every match are equal |
| NoteParser.MatchAllFromSpec | includes/class-daily-summary-status-cron.php:287 | `MatchAllFrom` is that scan: its match starts are increasing, each match ends before the next starts, every index where the pattern matches lies inside a collected match, and the k-th match is the one found at the k-th start |
| NoteParser.ToItems | includes/class-daily-summary-status-cron.php:289-294 | one item per match, in match order, each the `intval` of its digits and the `trim` of its product |
| NoteParser.DeriveStatus | includes/class-daily-summary-status-cron.php:311-318 | `not_processed` iff the processed total is 0 and the other positive; `partially_processed` iff both are positive; `fully_processed` iff nothing is left unprocessed |
| NoteParser.CollectItems | includes/class-daily-summary-status-cron.php:287-296 | the item loop appends exactly the section's items and its running total ends as their quantity sum |
| NoteParser.ProcessedSection | includes/class-daily-summary-status-cron.php:286 | the lazy capture after the first processed marker, ending before the DID NOT marker or at `$`, or none when the marker is absent |
| NoteParser.NotProcessedSection | includes/class-daily-summary-status-cron.php:299 | the capture of `/Walsworth DID NOT process:(.*?)$/s`, or none when the marker is absent |
| NoteParser.Parse | includes/class-daily-summary-status-cron.php:272-321 | the parsed record: the leftmost timestamp, each section's items in match order, their quantity totals and the status derived from the totals |
| NoteParser.ParseWalsworthData | includes/class-daily-summary-status-cron.php:272-321 | the parser returns `Parse` of the note, and each total is the sum of its items' quantities |
| NoteParserProperties.SumQtyPositive | includes/class-daily-summary-status-cron.php:295 | a total is positive exactly when some item's quantity is |
| NoteParserProperties.MissingProcessedMarker | includes/class-daily-summary-status-cron.php:276-278 | a note without the processed marker has no processed items and a zero processed total |
| NoteParserProperties.MissingNotProcessedMarker | includes/class-daily-summary-status-cron.php:275-279 | a note without the DID NOT marker has no unprocessed items, a zero total, and is fully processed |
| NoteParserProperties.OnlyNotProcessedMarker | includes/class-daily-summary-status-cron.php:316-318 | with only the DID NOT marker and a positive unprocessed quantity, the note is not processed |
| NoteParserProperties.MixedNoteIsPartiallyProcessed | includes/class-daily-summary-status-cron.php:311-313 | a positive quantity under each marker makes the note partially processed |
| NoteParserProperties.ZeroUnprocessedIsFullyProcessed | includes/class-daily-summary-status-cron.php:311-318 | unprocessed items whose quantities are all zero leave the note fully processed |
| NoteParserProperties.SectionItemsAreScan | includes/class-daily-summary-status-cron.php:287-294 | a section's items are, one for one and in order, the items of the matches at the starts of its scan |
| NoteParserProperties.ProcessedItemsAreScan | includes/class-daily-summary-status-cron.php:286-296 | the processed items are the items of the processed section's scan, in order of appearance |
| NoteParserProperties.NotProcessedItemsAreScan | includes/class-daily-summary-status-cron.php:299-309 | the unprocessed items are the items of the not-processed section's scan, in order of appearance |
| NoteParserProperties.ParsedProductsAreClean | includes/class-daily-summary-status-cron.php:293 | every parsed product is trimmed and holds no `]` and no newline |
| NoteParserProperties.SectionsOfOrderedNote | includes/class-daily-summary-status-cron.php:286-299 | with the processed marker first and the DID NOT marker after it, the processed section is exactly the text between them, and the other section runs to the end (less a final newline) |
| ParserExample.MixedNoteParses | includes/class-daily-summary-status-cron.php:272-321 | a one-line note with a stamp and one item under each marker (the processed product free of `W`) parses to that stamp, those two items, their quantities as totals and the status they derive |
| ParserExample.SampleNoteParses | includes/class-daily-summary-status-cron.php:272-321 | `At 2024-01-05 10:00:00 GMT. Walsworth processed: Qty 3 of [Book A]. Walsworth DID NOT process: Qty 1 of [Book B].` parses to items (3, Book A) and (1, Book B), totals 3 and 1, partially processed |
| NoteClassifier.Normalize | includes/class-daily-summary-status-cron.php:234 | collapsing whitespace runs never lengthens the text |
| NoteClassifier.NormalizeConcat | includes/class-daily-summary-status-cron.php:234 | where the join is not between two whitespace characters, normalising a concatenation normalises each part |
| NoteClassifier.NormalizeRunThen | includes/class-daily-summary-status-cron.php:234 | a whitespace run followed by a non-whitespace character (or by nothing) becomes exactly one space |
| NoteClassifier.NormalizeCollapsesRun | includes/class-daily-summary-status-cron.php:234 | an interior whitespace run of any length and any `\s` characters becomes exactly one space: `x + w + y` normalises to `Normalize(x) + " " + Normalize(y)` |
| NoteClassifier.NormalizeWordThen | includes/class-daily-summary-status-cron.php:234 | a word without whitespace is kept as it is, whatever follows it |
| NoteClassifier.NormalizeShape | includes/class-daily-summary-status-cron.php:234 | `preg_replace('/\s+/', ' ', ...)` empties only the empty text, turns a leading run into one space, keeps a leading non-space, and leaves only single spaces as whitespace |
| NoteClassifier.NormalizeKeepsNonSpace | includes/class-daily-summary-status-cron.php:234 | the non-whitespace characters survive, in order |
| NoteClassifier.NormalizeIdempotent | includes/class-daily-summary-status-cron.php:234 | normalising twice is normalising once |
| NoteClassifier.NormalizeKeepsNormal | includes/class-daily-summary-status-cron.php:234-238 | a pattern whose whitespace is single spaces, found in the raw text, is still found after normalising |
| NoteClassifier.NormalizeProcessedRespaced | includes/class-daily-summary-status-cron.php:234-237 | `Walsworth`, any whitespace run, then `processed:` normalises to the processed marker |
| NoteClassifier.NormalizeNotProcessedRespaced | includes/class-daily-summary-status-cron.php:234-238 | `Walsworth DID NOT process:` with any whitespace runs between its words normalises to that marker |
| NoteClassifier.RespacedMarkersNormalize | includes/class-daily-summary-status-cron.php:234-238 | a note with both markers spaced by any whitespace runs normalises to the normalised surrounding text with the two markers written out |
| NoteClassifier.StrictAcceptsRespacedMarkers | includes/class-daily-summary-status-cron.php:228-241 | a note with both markers spaced by any whitespace runs (tabs, line breaks, several spaces) passes the strict test |
| NoteClassifier.IsMixedFulfillmentNote | includes/class-daily-summary-status-cron.php:228-241 | the strict test: the note is not PHP-empty and, once normalised, contains both markers |
| NoteClassifier.IsWalsworthNote | includes/class-order-note-email-alert.php:215-222 | the loose test: the raw note contains `Walsworth processed:` |
| NoteClassifier.StrictAcceptsVerbatimMarkers | includes/class-daily-summary-status-cron.php:228-241 | any note holding both markers verbatim passes the strict test |
| NoteClassifier.StrictOnNormalText | includes/class-daily-summary-status-cron.php:228-241 | on text already whitespace-normal, the strict test is raw containment of both markers |
| NoteClassifier.StrictImpliesLooseOnNormalText | includes/class-order-note-email-alert.php:215-222 | on whitespace-normal text, a note that passes the digest's strict test passes the alert's loose test |
| NoteClassifier.NoDidNotMarkerNoMix | includes/class-daily-summary-status-cron.php:228-241 | a note without a `D` character cannot pass the strict test |
| NoteClassifier.LooseDoesNotImplyStrict | includes/class-order-note-email-alert.php:215-222 | the processed marker alone passes the loose test and fails the strict one |
| NoteClassifier.LooseTestIsProcessedSection | includes/class-order-note-email-alert.php:215-222 | the loose test holds exactly when the parser finds a processed section |
| Recipients.FilterFalsy | includes/class-daily-summary-status-cron.php:366 | `array_filter` keeps exactly the entries that are not "" or "0" |
| Recipients.FilterFalsyAppend | includes/class-daily-summary-status-cron.php:366 | `array_filter` decides each entry on its own and keeps order: filtering a concatenation is concatenating the filtered parts |
| Recipients.FilterFalsySingle | includes/class-daily-summary-status-cron.php:366 | one entry is kept exactly when it is not "" or "0" |
| Recipients.Unique | includes/class-daily-summary-status-cron.php:366 | `array_unique` keeps exactly the values of its input |
| Recipients.UniqueSpec | includes/class-daily-summary-status-cron.php:366 | `array_unique` leaves no value twice and lists values by first occurrence |
| Recipients.FilterFalsyKeepsOrder | includes/class-daily-summary-status-cron.php:366 | filtering keeps a duplicate-free list duplicate-free and in first-occurrence order |
| Recipients.ResolveRecipients | includes/class-daily-summary-status-cron.php:352-367 | recipients: no duplicates, exactly the non-falsy additional addresses and (when the switch is on) admin addresses, admins first, by first occurrence |
| Recipients.AdminEmailAddresses | includes/class-daily-summary-status-cron.php:372-384 | the loop's result is `FilterFalsy` of the administrators' addresses: by `FilterFalsyAppend` and `FilterFalsySingle`, each non-empty address in turn, in order |
| Recipients.GetRecipients | includes/class-daily-summary-status-cron.php:352-367 | `get_recipients` computes the resolved recipients from the administrators' addresses it filters |
| Recipients.ConfiguredRecipients | includes/class-daily-summary-status-cron.php:31-32 | as configured (switch off, one address), the recipients are exactly that address, whoever the admins are |
| Recipients.SwitchOnAddsRecipients | includes/class-daily-summary-status-cron.php:356-358 | turning `send_to_admins` on never removes a recipient |
| DailySummaryCron.StatusQuery | includes/class-daily-summary-status-cron.php:144-154 | the order query returns exactly the stored orders with a target status |
| DailySummaryCron.StatusQueryAppend | includes/class-daily-summary-status-cron.php:144-154 | the query decides each order on its own and keeps store order: querying a concatenation of stores is concatenating the answers |
| DailySummaryCron.StatusQuerySingle | includes/class-daily-summary-status-cron.php:144-154 | one order is returned exactly when its status is a target status |
| DailySummaryCron.FirstMixedNote | includes/class-daily-summary-status-cron.php:183-200 | the index of the first note, newest first, passing the strict test, within the note list |
| DailySummaryCron.Qualifying | includes/class-daily-summary-status-cron.php:160-208 | the digest rows: one per queried order that has a mixed note, in query order |
| DailySummaryCron.Summarize | includes/class-daily-summary-status-cron.php:246-265 | one digest row: the order's fields, `first last` as customer name and the parse of the chosen note |
| DailySummaryCron.DigestHasTargetStatuses | includes/class-daily-summary-status-cron.php:144-152 | every digest row has one of the three target statuses |
| DailySummaryCron.FirstMixedNoteSpec | includes/class-daily-summary-status-cron.php:183-200 | the note chosen passes the strict test and no newer note does |
| DailySummaryCron.HasMixedNoteIff | includes/class-daily-summary-status-cron.php:183-203 | an order is kept exactly when some note of it passes the strict test |
| DailySummaryCron.FindMixedNote | includes/class-daily-summary-status-cron.php:181-200 | the note loop with `break` stops at the first passing note, or finds none |
| DailySummaryCron.FirstMixedNoteIs | includes/class-daily-summary-status-cron.php:183-200 | a passing note with no passing note before it is the one chosen |
| DailySummaryCron.Selected | includes/class-daily-summary-status-cron.php:160-206 | the positions of the kept orders: increasing, each with a mixed note, and covering all such orders |
| DailySummaryCron.QualifyingSelects | includes/class-daily-summary-status-cron.php:160-208 | the digest has one row per kept order, in query order, each built from that order and the parse of its first mixed note |
| DailySummaryCron.QualifyingEmpty | includes/class-daily-summary-status-cron.php:202-208 | the digest is empty exactly when no order has a mixed note |
| DailySummaryCron.NoNotesNoRow | includes/class-daily-summary-status-cron.php:176-178 | an order without notes yields no row |
| DailySummaryCron.PrepareOrderData | includes/class-daily-summary-status-cron.php:246-265 | a row carries the order's fields, `first last` as customer name, and the parse of the chosen note |
| DailySummaryCron.GetMixedFulfillmentOrdersByStatus | includes/class-daily-summary-status-cron.php:142-209 | the nested loop computes the digest rows of the query's orders |
| DailySummaryCron.SummarySubject | includes/class-daily-summary-status-cron.php:337 | the digest subject: the fixed `Pending Order(s) Summary` heading, the order count in decimal, then `Orders Require Attention` |
| DailySummaryCron.SendSummaryEmail | includes/class-daily-summary-status-cron.php:326-346 | no mail without recipients; otherwise the mail goes to the resolved recipients, with the order count in the subject |
| DailySummaryCron.ExecuteDailySummary | includes/class-daily-summary-status-cron.php:116-133 | no mail when no order qualifies or nobody is to receive it; otherwise the summary lists the digest rows, counts them and spans "All time" to now |
| DailySummaryCron.DigestEmptyIffNoneQualifies | includes/class-daily-summary-status-cron.php:116-121 | the digest is empty (so nothing is sent) exactly when no stored order with a target status has a mixed note |
| DailySummaryCron.AddDailyCronSchedule | includes/class-daily-summary-status-cron.php:56-65 | the daily schedule (86400 s) is added under its key only when the key is free; every other entry is kept |
| DailySummaryCron.AddDailyCronScheduleIdempotent | includes/class-daily-summary-status-cron.php:56-65 | adding the schedule twice is adding it once |
| OrderNoteAlert.IsPrivateNote | includes/class-order-note-email-alert.php:161-162 | a note is private exactly when its `is_customer_note` meta is PHP-empty |
| OrderNoteAlert.CheckGates | includes/class-order-note-email-alert.php:148-172 | a note passes exactly when its id is unrecorded, it exists, it is private and it passes the loose test |
| OrderNoteAlert.RecordedIdStopsFirst | includes/class-order-note-email-alert.php:150-152 | a recorded id is turned away before anything else is looked at |
| OrderNoteAlert.CustomerNoteNeverPasses | includes/class-order-note-email-alert.php:160-167 | a customer note never passes, whatever it says |
| OrderNoteAlert.AlertDataFor | includes/class-order-note-email-alert.php:177-206 | the alert carries the order's id, the note's id, the private flag and the parse of the note |
| OrderNoteAlert.SentNoticeHasMark | includes/class-order-note-email-alert.php:310 | the success notice contains the check mark |
| OrderNoteAlert.FailedNoticeHasNoMark | includes/class-order-note-email-alert.php:313 | the failure notice does not contain the check mark |
| OrderNoteAlert.NoRecipientsNoticeHasNoMark | includes/class-order-note-email-alert.php:288 | the no-recipients notice does not contain the check mark |
| OrderNoteAlert.SendOutcome | includes/class-order-note-email-alert.php:284-316 | what `send_email_alert` produces: no mail and the no-recipients notice, or a mail to the recipients and the success or failure notice |
| OrderNoteAlert.NoticeClass | includes/class-order-note-email-alert.php:328 | `notice-success` when the notice holds the check mark, `notice-error` otherwise |
| OrderNoteAlert.SendOutcomeSpec | includes/class-order-note-email-alert.php:284-316 | a mail is attempted iff there are recipients, it goes to them with the alert data, and the notice shows as a success iff there were recipients and the mail succeeded |
| OrderNoteAlert.NoticeStore.constructor | includes/class-order-note-email-alert.php:289 | no notice is stored at first |
| OrderNoteAlert.NoticeStore.Put | includes/class-order-note-email-alert.php:311 | `set_transient` replaces the user's notice and touches no other slot |
| OrderNoteAlert.NoticeStore.Delete | includes/class-order-note-email-alert.php:330 | `delete_transient` removes the user's notice and nothing else |
| OrderNoteAlert.OrderNoteEmailAlert.constructor | includes/class-order-note-email-alert.php:18-22 | an alert object starts with no processed note and the configured recipient settings |
| OrderNoteAlert.OrderNoteEmailAlert.SendEmailAlert | includes/class-order-note-email-alert.php:284-316 | the mail and the one notice written for the current user are those of the send outcome for the resolved recipients |
| OrderNoteAlert.OrderNoteEmailAlert.ProcessOrderNote | includes/class-order-note-email-alert.php:148-210 | a note turned away by a gate changes nothing; a passing note's id is added to the processed set, its mail is the send outcome for the resolved recipients and the note's alert data, and the current user's notice slot holds that outcome's notice |
| OrderNoteAlert.OrderNoteEmailAlert.CheckIfOrderNote | includes/class-order-note-email-alert.php:120-129 | a comment that is not an order note, or whose order is missing, changes nothing; an order note of an existing order has exactly `process_order_note`'s outcome (recorded set, mail, notice); a mail means the id was new and is now recorded |
| OrderNoteAlert.OrderNoteEmailAlert.SendOrderNoteAlert | includes/class-order-note-email-alert.php:137-143 | a null order changes nothing; an existing order has exactly `process_order_note`'s outcome (recorded set, mail, notice); a mail means the id was new and is now recorded |
| OrderNoteAlert.OrderNoteEmailAlert.NoteAdded | includes/class-order-note-email-alert.php:27-28 | when both hooks fire for one note, at most one alert is sent |
| OrderNoteAlert.OrderNoteEmailAlert.ShowAlertNotices | includes/class-order-note-email-alert.php:322-332 | a stored, non-empty notice is shown once, classed `notice-success` iff it holds the check mark, and is deleted; otherwise nothing happens |
| OrderNoteAlert.GetAdminEmails | includes/class-order-note-email-alert.php:62-77 | the REST answer succeeds, lists every administrator's address, and its `total` is the number listed |

## Left out

- Host I/O is left out. This covers `wp_mail`, `WC_Order_Query`, `wc_get_order_notes`, `get_comment`, `get_comment_meta`, `get_users`, `current_time` and `current_user_can`. Orders, notes, administrators' addresses, the clock reading and the mailer's verdict are inputs instead.
- Transients are modelled as a per-user map. Their 10-second expiry is not modelled, because it depends on time.
- The order query's sort (`orderby date DESC`) is not modelled: the input sequence is taken as already in query order. The same holds for the notes.
- `get_note_content` is not modelled, because it probes the shape of the note object; a note is its content string. The same goes for the digest's `note_date` and `note_author` fields.
- `schedule_daily_cron`, `unschedule_daily_cron`, `check_and_trigger` and `manual_trigger` are not modelled. They only call WordPress's scheduler or echo a notice, and `DateTime('tomorrow 07:00:00')` reads the clock.
- The REST route registration (`register_routes`) and `check_rest_api_permission` are not modelled; they are host capability calls.
- The email templates are not modelled: they are HTML rendering, with float and date formatting. A mail is modelled by its recipients, its subject and the data handed to the template. Headers and the sender address are not part of it.
- The `__()` translation of the schedule's display name is not modelled; the display name is the untranslated text.
- `DailySummaryCron.ExecuteDailySummary` takes one `now` for both `current_time('mysql')` calls (includes/class-daily-summary-status-cron.php:124, 126). The source reads the clock twice, so the two stamps can differ when a second boundary falls between the calls.
- `DailySummaryCron.AddDailyCronSchedule` treats a key as taken whenever it is in the map. PHP's `isset` (includes/class-daily-summary-status-cron.php:58) also treats a key whose value is `null` as free and would overwrite it; a `map<string, Schedule>` has no null values, so that case is not modelled.
- `DailySummaryCron.PrepareOrderData` and `OrderNoteAlert.AlertDataFor` take the creation date as a string. An order whose `get_date_created()` is null, which makes PHP fail, is not modelled.
- `NoteParser.ToItems` does not model how `intval` reads digit strings whose value is above `PHP_INT_MAX` (9223372036854775807 on 64-bit PHP); the model keeps the exact value. A value that still fits a double reads as `PHP_INT_MAX`, which includes 19-digit strings such as `9999999999999999999`. A digit string too long for a double (about 309 digits or more) reads as 0. That can change the derived status: a note with a positive processed quantity whose only unprocessed quantity is such a string stays `fully_processed` in PHP, while the model gives `partially_processed`.
- `NoteParser.CollectItems` and `NoteParser.ParseWalsworthData` keep exact `nat` totals. In PHP, the running sums `+= $qty` (includes/class-daily-summary-status-cron.php:295 and 308, includes/class-order-note-email-alert.php:251 and 264) become floats once they pass `PHP_INT_MAX`, even when each quantity fits. That overflow to float is not modelled. The derived status is unaffected: a float total stays `> 0` and is never `=== 0`, just as the exact total is positive.
- `Recipients.ResolveRecipients` does not model the keys that `array_unique` and `array_filter` preserve. `wp_mail` reads only the values, so the model uses a plain sequence.
