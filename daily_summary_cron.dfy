/**
 * The daily digest (`WC_Daily_Summary_Status_Cron`): among the orders whose
 * status is one of three target statuses, select those with a mixed
 * fulfillment note, summarise each with the parse of its newest such note,
 * and mail the list unless it is empty.
 *
 * The order store, the note store, the clock and the mailer are inputs: the
 * store is a sequence of orders as the order query returns them (newest
 * first), each with the contents of its notes newest first.
 */
module DailySummaryCron {
  import opened Common
  import opened Text
  import opened NoteParser
  import opened NoteClassifier
  import opened Recipients

  /** An order as the digest reads it; `notes` holds the note contents, newest first. */
  datatype Order = Order(
    id: nat,
    number: string,
    status: string,
    dateCreated: string,
    billingFirstName: string,
    billingLastName: string,
    billingEmail: string,
    total: string,
    notes: seq<string>)

  /** One row of the digest: what `prepare_order_data` returns. */
  datatype OrderSummary = OrderSummary(
    orderId: nat,
    orderNumber: string,
    orderStatus: string,
    orderDate: string,
    customerName: string,
    customerEmail: string,
    orderTotal: string,
    walsworthFulfillment: FulfillmentRecord)

  datatype SummaryData = SummaryData(
    dateGenerated: string,
    dateRangeStart: string,
    dateRangeEnd: string,
    totalOrders: nat,
    orders: seq<OrderSummary>)

  /** A mail handed to `wp_mail`: recipients, subject and the data the template renders. */
  datatype SummaryMail = SummaryMail(to: seq<string>, subject: string, summary: SummaryData)

  /** The unprefixed statuses the order query asks for. */
  const TARGET_STATUSES: seq<string> := ["processing", "partially-shipped", "pending-payment-partially-shipped"]

  /** What the order query returns from `store`: the orders with a target status, in store order. */
  function StatusQuery(store: seq<Order>): (r: seq<Order>)
    ensures forall k :: 0 <= k < |r| ==> r[k].status in TARGET_STATUSES
    ensures forall o :: o in r <==> o in store && o.status in TARGET_STATUSES
  {
    if store == [] then []
    else
      var init := StatusQuery(store[..|store| - 1]);
      var last := store[|store| - 1];
      assert store == store[..|store| - 1] + [last];
      if last.status in TARGET_STATUSES then init + [last] else init
  }

  /** The query tests each order on its own: it distributes over concatenation of stores. */
  lemma {:induction false} StatusQueryAppend(a: seq<Order>, b: seq<Order>)
    ensures StatusQuery(a + b) == StatusQuery(a) + StatusQuery(b)
    decreases |b|
  {
    if b == [] {
      assert a + b == a;
    } else {
      var c := a + b;
      var init := b[..|b| - 1];
      assert c[..|c| - 1] == a + init;
      assert c[|c| - 1] == b[|b| - 1];
      StatusQueryAppend(a, init);
    }
  }

  /** A single order is returned exactly when its status is a target status. */
  lemma StatusQuerySingle(o: Order)
    ensures StatusQuery([o]) == if o.status in TARGET_STATUSES then [o] else []
  {
    assert [o][..0] == [];
  }

  // ---------------------------------------------------------------------
  // Selection

  /** The first note, newest first, that passes the strict test. */
  function FirstMixedNote(notes: seq<string>): (r: Option<nat>)
    ensures r.Some? ==> r.value < |notes|
  {
    if notes == [] then None
    else if IsMixedFulfillmentNote(notes[0]) then Some(0)
    else match FirstMixedNote(notes[1..])
      case None => None
      case Some(i) => Some(i + 1)
  }

  /** `FirstMixedNote` finds a note that passes, and no earlier note passes. */
  lemma {:induction false} FirstMixedNoteSpec(notes: seq<string>)
    ensures var r := FirstMixedNote(notes);
            && (r.Some? ==> IsMixedFulfillmentNote(notes[r.value]))
            && forall j :: 0 <= j < |notes| && (r.None? || j < r.value) ==> !IsMixedFulfillmentNote(notes[j])
  {
    if notes != [] && !IsMixedFulfillmentNote(notes[0]) {
      FirstMixedNoteSpec(notes[1..]);
      forall j | 1 <= j < |notes| ensures notes[j] == notes[1..][j - 1] {}
    }
  }

  /** Some note of `o` passes the strict test. */
  predicate HasMixedNote(o: Order) {
    FirstMixedNote(o.notes).Some?
  }

  /** `HasMixedNote` holds exactly when one of the notes passes the strict test. */
  lemma HasMixedNoteIff(o: Order)
    ensures HasMixedNote(o) <==> exists j :: 0 <= j < |o.notes| && IsMixedFulfillmentNote(o.notes[j])
  {
    FirstMixedNoteSpec(o.notes);
  }

  /** `prepare_order_data` for `o` and the content of its chosen note. */
  function Summarize(o: Order, noteContent: string): OrderSummary {
    OrderSummary(
      o.id, o.number, o.status, o.dateCreated,
      o.billingFirstName + " " + o.billingLastName,
      o.billingEmail, o.total,
      Parse(noteContent))
  }

  /** The digest rows for `orders`, in order: one per order with a mixed note, built from its newest one. */
  function Qualifying(orders: seq<Order>): seq<OrderSummary> {
    if orders == [] then []
    else
      var last := orders[|orders| - 1];
      match FirstMixedNote(last.notes)
      case None => Qualifying(orders[..|orders| - 1])
      case Some(j) => Qualifying(orders[..|orders| - 1]) + [Summarize(last, last.notes[j])]
  }

  /** The positions of the orders that have a mixed note, in increasing order. */
  function Selected(orders: seq<Order>): (idx: seq<nat>)
    ensures forall k :: 0 <= k < |idx| ==> idx[k] < |orders| && HasMixedNote(orders[idx[k]])
    ensures forall k, l :: 0 <= k < l < |idx| ==> idx[k] < idx[l]
    ensures forall i :: 0 <= i < |orders| && HasMixedNote(orders[i]) ==> i in idx
  {
    if orders == [] then []
    else
      var n := |orders| - 1;
      var init := Selected(orders[..n]);
      assert forall i :: 0 <= i < n ==> orders[..n][i] == orders[i];
      if HasMixedNote(orders[n]) then init + [n] else init
  }

  /**
   * The digest is exactly the orders that have a mixed note, in their
   * order, each summarised from the first such note in its newest-first list.
   */
  lemma {:induction false} QualifyingSelects(orders: seq<Order>)
    ensures |Qualifying(orders)| == |Selected(orders)|
    ensures forall k :: 0 <= k < |Selected(orders)| ==>
              var o := orders[Selected(orders)[k]];
              FirstMixedNote(o.notes).Some?
              && Qualifying(orders)[k] == Summarize(o, o.notes[FirstMixedNote(o.notes).value])
  {
    if orders != [] {
      var n := |orders| - 1;
      var last := orders[n];
      QualifyingSelects(orders[..n]);
      var init := Selected(orders[..n]);
      var q := Qualifying(orders[..n]);
      var sel := Selected(orders);
      var rows := Qualifying(orders);
      var hit := FirstMixedNote(last.notes);
      assert sel == if hit.Some? then init + [n] else init;
      assert rows == if hit.Some? then q + [Summarize(last, last.notes[hit.value])] else q;
      forall k | 0 <= k < |sel|
        ensures var o := orders[sel[k]];
                FirstMixedNote(o.notes).Some?
                && rows[k] == Summarize(o, o.notes[FirstMixedNote(o.notes).value])
      {
        if k < |init| {
          assert sel[k] == init[k] && rows[k] == q[k];
          assert orders[..n][init[k]] == orders[init[k]];
        }
      }
    }
  }

  /** No order qualifies exactly when the digest is empty. */
  lemma QualifyingEmpty(orders: seq<Order>)
    ensures Qualifying(orders) == [] <==> forall i :: 0 <= i < |orders| ==> !HasMixedNote(orders[i])
  {
    QualifyingSelects(orders);
    var sel := Selected(orders);
    if Qualifying(orders) != [] {
      assert HasMixedNote(orders[sel[0]]);
    }
  }

  /** An order with no notes never makes it into the digest. */
  lemma NoNotesNoRow(o: Order)
    requires o.notes == []
    ensures Qualifying([o]) == []
  {
    assert [o][..0] == [];
  }

  /** Every row of the digest belongs to an order with a target status. */
  lemma DigestHasTargetStatuses(store: seq<Order>)
    ensures forall k :: 0 <= k < |Qualifying(StatusQuery(store))| ==>
              Qualifying(StatusQuery(store))[k].orderStatus in TARGET_STATUSES
  {
    var q := StatusQuery(store);
    QualifyingSelects(q);
  }

  // ---------------------------------------------------------------------
  // The loops

  /** The inner loop of `get_mixed_fulfillment_orders_by_status`: the first note that passes, if any. */
  method FindMixedNote(notes: seq<string>) returns (found: Option<nat>)
    ensures found == FirstMixedNote(notes)
  {
    found := None;
    var j := 0;
    while j < |notes|
      invariant 0 <= j <= |notes|
      invariant forall k :: 0 <= k < j ==> !IsMixedFulfillmentNote(notes[k])
    {
      var content := notes[j];
      if IsFalsy(content) {
        j := j + 1;
        continue;
      }
      if IsMixedFulfillmentNote(content) {
        found := Some(j);
        break;
      }
      j := j + 1;
    }
    FirstMixedNoteIs(notes, found);
  }

  /** `FirstMixedNote` is determined by its contract. */
  lemma FirstMixedNoteIs(notes: seq<string>, r: Option<nat>)
    requires r.Some? ==> r.value < |notes| && IsMixedFulfillmentNote(notes[r.value])
    requires forall j :: 0 <= j < |notes| && (r.None? || j < r.value) ==> !IsMixedFulfillmentNote(notes[j])
    ensures FirstMixedNote(notes) == r
  {
    FirstMixedNoteSpec(notes);
    var f := FirstMixedNote(notes);
    assert f.Some? ==> r.Some? && r.value <= f.value;
    assert r.Some? ==> f.Some? && f.value <= r.value;
  }

  /** `prepare_order_data`: the row for `o`, parsing the chosen note with the digest's parser. */
  method PrepareOrderData(o: Order, noteContent: string) returns (row: OrderSummary)
    ensures row == Summarize(o, noteContent)
    ensures row.walsworthFulfillment == Parse(noteContent)
  {
    var walsworth := ParseWalsworthData(noteContent);
    row := OrderSummary(
      o.id, o.number, o.status, o.dateCreated,
      o.billingFirstName + " " + o.billingLastName,
      o.billingEmail, o.total,
      walsworth);
  }

  /** `get_mixed_fulfillment_orders_by_status` over the order store `store`. */
  method GetMixedFulfillmentOrdersByStatus(store: seq<Order>) returns (qualifying: seq<OrderSummary>)
    ensures qualifying == Qualifying(StatusQuery(store))
  {
    var allOrders := StatusQuery(store);
    if allOrders == [] {
      return [];
    }
    qualifying := [];
    for i := 0 to |allOrders|
      invariant qualifying == Qualifying(allOrders[..i])
    {
      assert allOrders[..i + 1][..i] == allOrders[..i];
      var order := allOrders[i];
      if order.notes == [] {
        continue;
      }
      var found := FindMixedNote(order.notes);
      if found.Some? {
        var row := PrepareOrderData(order, order.notes[found.value]);
        qualifying := qualifying + [row];
      }
    }
    assert allOrders[..|allOrders|] == allOrders;
  }

  // ---------------------------------------------------------------------
  // Sending

  /** The subject line for a digest of `n` orders. */
  function SummarySubject(n: nat): string {
    "Pending Order(s) Summary || " + NatToString(n) + " Orders Require Attention"
  }

  /**
   * `send_summary_email`: the mail handed to the mailer, or None when
   * nobody is to receive it. `adminUserEmails` are the administrators'
   * addresses.
   */
  method SendSummaryEmail(summary: SummaryData, adminUserEmails: seq<string>) returns (mail: Option<SummaryMail>)
    ensures var to := ResolveRecipients(SEND_TO_ADMINS, FilterFalsy(adminUserEmails), ADDITIONAL_RECIPIENTS);
            && (mail.None? <==> to == [])
            && (mail.Some? ==> mail.value == SummaryMail(to, SummarySubject(summary.totalOrders), summary))
  {
    var recipients := GetRecipients(SEND_TO_ADMINS, adminUserEmails, ADDITIONAL_RECIPIENTS);
    if recipients == [] {
      return None;
    }
    var subject := "Pending Order(s) Summary || " + NatToString(summary.totalOrders) + " Orders Require Attention";
    mail := Some(SummaryMail(recipients, subject, summary));
  }

  /**
   * `execute_daily_summary`: the mail handed to the mailer, or None when
   * nothing qualifies or nobody is to receive it. `now` is
   * `current_time('mysql')`.
   */
  method ExecuteDailySummary(store: seq<Order>, now: string, adminUserEmails: seq<string>)
    returns (mail: Option<SummaryMail>)
    ensures var rows := Qualifying(StatusQuery(store));
            var to := ResolveRecipients(SEND_TO_ADMINS, FilterFalsy(adminUserEmails), ADDITIONAL_RECIPIENTS);
            && (mail.None? <==> rows == [] || to == [])
            && (mail.Some? ==>
                  && mail.value.to == to
                  && mail.value.summary == SummaryData(now, "All time", now, |rows|, rows)
                  && mail.value.subject == SummarySubject(|rows|))
  {
    var orders := GetMixedFulfillmentOrdersByStatus(store);
    if orders == [] {
      return None;
    }
    var summary := SummaryData(now, "All time", now, |orders|, orders);
    mail := SendSummaryEmail(summary, adminUserEmails);
  }

  /** The digest is empty exactly when no order with a target status has a mixed note. */
  lemma DigestEmptyIffNoneQualifies(store: seq<Order>)
    ensures Qualifying(StatusQuery(store)) == []
            <==> forall o :: o in store && o.status in TARGET_STATUSES ==> !HasMixedNote(o)
  {
    var q := StatusQuery(store);
    QualifyingEmpty(q);
    assert (forall i :: 0 <= i < |q| ==> !HasMixedNote(q[i])) <==> (forall o :: o in q ==> !HasMixedNote(o));
  }

  // ---------------------------------------------------------------------
  // Cron schedule

  datatype Schedule = Schedule(interval: nat, display: string)

  const DAILY_KEY := "daily_at_7am"
  const DAILY_SCHEDULE := Schedule(86400, "Daily at 7:00 AM UTC")

  /** `add_daily_cron_schedule`: add the daily schedule unless one is registered under its key. */
  function AddDailyCronSchedule(schedules: map<string, Schedule>): (r: map<string, Schedule>)
    ensures DAILY_KEY in r
    ensures DAILY_KEY !in schedules ==> r[DAILY_KEY] == DAILY_SCHEDULE
    ensures DAILY_KEY in schedules ==> r[DAILY_KEY] == schedules[DAILY_KEY]
    ensures r.Keys == schedules.Keys + {DAILY_KEY}
    ensures forall k :: k in schedules && k != DAILY_KEY ==> r[k] == schedules[k]
  {
    if DAILY_KEY !in schedules then schedules[DAILY_KEY := DAILY_SCHEDULE] else schedules
  }

  /** Adding the schedule twice is adding it once. */
  lemma AddDailyCronScheduleIdempotent(schedules: map<string, Schedule>)
    ensures AddDailyCronSchedule(AddDailyCronSchedule(schedules)) == AddDailyCronSchedule(schedules)
  {
  }
}
