/**
 * The immediate alert (`WooCommerce_OrderNote_Email_Alert`): when a private
 * order note that carries the processed marker is added, parse it, mail an
 * alert once per note id, and leave a one-shot notice for the current user.
 *
 * WordPress is an input: `Host` holds the comments table (with each
 * comment's `is_customer_note` meta value), the orders by id, the current
 * user, the clock reading, the administrators' addresses and whether the
 * mailer reports success. The per-user notices, which the source keeps in
 * transients, are a map in a `NoticeStore` object.
 */
module OrderNoteAlert {
  import opened Common
  import opened Text
  import opened NoteParser
  import opened NoteClassifier
  import opened Recipients

  /** A comment row as `get_comment` returns it, with its `is_customer_note` meta value ("" when unset). */
  datatype Comment = Comment(
    id: nat,
    postId: nat,
    commentType: string,
    content: string,
    date: string,
    author: string,
    isCustomerNote: string)

  /** An order as the alert reads it. */
  datatype AlertOrder = AlertOrder(
    id: nat,
    number: string,
    status: string,
    dateCreated: string,
    billingFirstName: string,
    billingLastName: string,
    billingEmail: string)

  /** What the host answers. */
  datatype Host = Host(
    comments: map<nat, Comment>,
    orders: map<nat, AlertOrder>,
    userId: nat,
    now: string,
    adminEmails: seq<string>,
    mailSucceeds: bool)

  datatype OrderData = OrderData(
    orderId: nat,
    orderNumber: string,
    orderStatus: string,
    orderDate: string,
    customerName: string,
    customerEmail: string)

  datatype NoteData = NoteData(
    noteId: nat,
    noteContent: string,
    noteDate: string,
    noteAuthor: string,
    isPrivateNote: bool)

  /** The array `process_order_note` hands to `send_email_alert`. */
  datatype AlertData = AlertData(
    event: string,
    timestamp: string,
    order: OrderData,
    note: NoteData,
    walsworthFulfillment: FulfillmentRecord)

  /** A mail handed to `wp_mail`: recipients, subject and the data the template renders. */
  datatype AlertMail = AlertMail(to: seq<string>, subject: string, data: AlertData)

  /** An admin notice as `show_alert_notices` prints it. */
  datatype Notice = Notice(cssClass: string, text: string)

  // ---------------------------------------------------------------------
  // Gates

  /** Where `process_order_note` stops, or that it goes on to send. */
  datatype Gate = AlreadyProcessed | MissingNote | CustomerNote | NotWalsworth | Passed

  /** A note is private when its `is_customer_note` meta value is empty in PHP's sense. */
  predicate IsPrivateNote(c: Comment) {
    IsFalsy(c.isCustomerNote)
  }

  /** The gates of `process_order_note`, checked in the source's order. */
  function CheckGates(processed: set<nat>, noteId: nat, comments: map<nat, Comment>): (g: Gate)
    ensures g == Passed <==> noteId !in processed && noteId in comments
                             && IsPrivateNote(comments[noteId]) && IsWalsworthNote(comments[noteId].content)
  {
    if noteId in processed then AlreadyProcessed
    else if noteId !in comments then MissingNote
    else if !IsPrivateNote(comments[noteId]) then CustomerNote
    else if !IsWalsworthNote(comments[noteId].content) then NotWalsworth
    else Passed
  }

  /** An id already recorded is turned away first, whatever its note says. */
  lemma RecordedIdStopsFirst(processed: set<nat>, noteId: nat, comments: map<nat, Comment>)
    requires noteId in processed
    ensures CheckGates(processed, noteId, comments) == AlreadyProcessed
  {
  }

  /** A customer note with the processed marker is still turned away. */
  lemma CustomerNoteNeverPasses(processed: set<nat>, noteId: nat, comments: map<nat, Comment>)
    requires noteId in comments && !IsPrivateNote(comments[noteId])
    ensures CheckGates(processed, noteId, comments) != Passed
  {
  }

  /** The data the alert carries for a note that passed the gates. */
  function AlertDataFor(noteId: nat, order: AlertOrder, note: Comment, now: string): (d: AlertData)
    ensures d.order.orderId == order.id && d.note.noteId == noteId && d.note.isPrivateNote
    ensures d.walsworthFulfillment == Parse(note.content)
  {
    AlertData(
      "walsworth_order_fulfillment",
      now,
      OrderData(
        order.id, order.number, order.status, order.dateCreated,
        order.billingFirstName + " " + order.billingLastName,
        order.billingEmail),
      NoteData(noteId, note.content, note.date, note.author, true),
      Parse(note.content))
  }

  // ---------------------------------------------------------------------
  // Sending and the notice left behind

  const NO_RECIPIENTS_NOTICE := "Email alert FAILED: No recipients configured"
  /** The check mark a success notice starts with, and what `show_alert_notices` looks for. */
  const SUCCESS_CHAR: char := '\U{2705}'
  const SUCCESS_MARK: string := [SUCCESS_CHAR]

  function AlertSubject(orderNumber: string): string {
    "\U{1F6A8} Mixed Order Alert - Order #" + orderNumber
  }

  function SentNotice(orderId: nat, count: nat): string {
    SUCCESS_MARK + " Mixed order alert email sent successfully for Order #" + NatToString(orderId)
    + " to " + NatToString(count) + " recipient(s)"
  }

  const FAILURE_CHAR: char := '\U{274C}'

  function FailedNotice(orderId: nat): string {
    [FAILURE_CHAR] + " Failed to send mixed order alert email for Order #" + NatToString(orderId)
  }

  /**
   * What `send_email_alert` does for `data` when `to` are the recipients:
   * the mail it hands over, if any, and the notice it stores.
   */
  function SendOutcome(to: seq<string>, data: AlertData, mailSucceeds: bool): (Option<AlertMail>, string) {
    if to == [] then (None, NO_RECIPIENTS_NOTICE)
    else
      (Some(AlertMail(to, AlertSubject(data.order.orderNumber), data)),
       if mailSucceeds then SentNotice(data.order.orderId, |to|) else FailedNotice(data.order.orderId))
  }

  /** The class `show_alert_notices` gives a notice. */
  function NoticeClass(text: string): string {
    if Contains(text, SUCCESS_MARK) then "notice-success" else "notice-error"
  }

  lemma DigitsHaveNoMark(d: string)
    requires AllDigits(d)
    ensures SUCCESS_CHAR !in d
  {
    assert forall k :: 0 <= k < |d| ==> d[k] != SUCCESS_CHAR;
  }

  lemma FailedNoticeHasNoMark(orderId: nat)
    ensures !Contains(FailedNotice(orderId), SUCCESS_MARK)
  {
    var front := " Failed to send mixed order";
    var back := " alert email for Order #";
    assert front + back == " Failed to send mixed order alert email for Order #";
    var digits := NatToString(orderId);
    DigitsHaveNoMark(digits);
    assert SUCCESS_CHAR !in front && SUCCESS_CHAR !in back;
    assert SUCCESS_CHAR !in [FAILURE_CHAR] + (front + back) + digits;
    MissingCharNotContained(FailedNotice(orderId), SUCCESS_MARK, SUCCESS_CHAR);
  }

  lemma NoRecipientsNoticeHasNoMark()
    ensures !Contains(NO_RECIPIENTS_NOTICE, SUCCESS_MARK)
  {
    assert SUCCESS_CHAR !in NO_RECIPIENTS_NOTICE;
    MissingCharNotContained(NO_RECIPIENTS_NOTICE, SUCCESS_MARK, SUCCESS_CHAR);
  }

  lemma SentNoticeHasMark(orderId: nat, count: nat)
    ensures Contains(SentNotice(orderId, count), SUCCESS_MARK)
  {
    var s := SentNotice(orderId, count);
    assert s[0..1] == SUCCESS_MARK;
    assert HasAt(s, 0, SUCCESS_MARK);
    ContainsIff(s, SUCCESS_MARK);
  }

  /**
   * A mail is attempted exactly when there are recipients, it goes to all
   * of them, and the stored notice shows as a success exactly when a mail
   * was attempted and the mailer reported success.
   */
  lemma SendOutcomeSpec(to: seq<string>, data: AlertData, mailSucceeds: bool)
    ensures var (mail, notice) := SendOutcome(to, data, mailSucceeds);
            && (mail.Some? <==> to != [])
            && (mail.Some? ==> mail.value.to == to && mail.value.data == data)
            && (NoticeClass(notice) == "notice-success" <==> to != [] && mailSucceeds)
  {
    if to == [] {
      NoRecipientsNoticeHasNoMark();
    } else if mailSucceeds {
      SentNoticeHasMark(data.order.orderId, |to|);
    } else {
      FailedNoticeHasNoMark(data.order.orderId);
    }
  }

  /** The transients holding each user's pending notice. */
  class NoticeStore {
    var slots: map<nat, string>

    constructor()
      ensures slots == map[]
    {
      slots := map[];
    }

    /** `set_transient` for `userId`'s notice (its ten-second expiry is not modelled). */
    method Put(userId: nat, text: string)
      modifies this
      ensures slots == old(slots)[userId := text]
    {
      slots := slots[userId := text];
    }

    /** `delete_transient` for `userId`'s notice. */
    method Delete(userId: nat)
      modifies this
      ensures slots == old(slots) - {userId}
    {
      slots := slots - {userId};
    }
  }

  class OrderNoteEmailAlert {
    /** The note ids this instance has already alerted for. */
    var processedNotes: set<nat>
    const sendToAdmins: bool
    const additionalRecipients: seq<string>

    constructor()
      ensures processedNotes == {}
      ensures sendToAdmins == SEND_TO_ADMINS && additionalRecipients == ADDITIONAL_RECIPIENTS
    {
      processedNotes := {};
      sendToAdmins := SEND_TO_ADMINS;
      additionalRecipients := ADDITIONAL_RECIPIENTS;
    }

    /** The recipients `get_recipients` resolves for this instance. */
    function RecipientsFor(adminEmails: seq<string>): seq<string>
      reads this
    {
      ResolveRecipients(sendToAdmins, FilterFalsy(adminEmails), additionalRecipients)
    }

    /** `send_email_alert`: mail `data` unless nobody is to receive it, and store the outcome for the user. */
    method SendEmailAlert(data: AlertData, host: Host, store: NoticeStore) returns (mail: Option<AlertMail>)
      modifies store
      ensures var (m, notice) := SendOutcome(RecipientsFor(host.adminEmails), data, host.mailSucceeds);
              mail == m && store.slots == old(store.slots)[host.userId := notice]
    {
      var recipients := GetRecipients(sendToAdmins, host.adminEmails, additionalRecipients);
      if recipients == [] {
        store.Put(host.userId, NO_RECIPIENTS_NOTICE);
        return None;
      }
      var subject := AlertSubject(data.order.orderNumber);
      mail := Some(AlertMail(recipients, subject, data));
      if host.mailSucceeds {
        store.Put(host.userId, SentNotice(data.order.orderId, |recipients|));
      } else {
        store.Put(host.userId, FailedNotice(data.order.orderId));
      }
    }

    /**
     * What one call of `process_order_note` for `noteId` and `order` does:
     * a note turned away by a gate changes nothing and sends nothing; a
     * note that passes is recorded, and the mail and the user's notice are
     * the send outcome of its alert data.
     */
    twostate predicate ProcessedOutcome(noteId: nat, order: AlertOrder, host: Host, store: NoticeStore,
                                        new mail: Option<AlertMail>)
      reads this, store
    {
      var gate := CheckGates(old(processedNotes), noteId, host.comments);
      && (gate != Passed ==>
            processedNotes == old(processedNotes) && mail.None? && store.slots == old(store.slots))
      && (gate == Passed ==>
            var data := AlertDataFor(noteId, order, host.comments[noteId], host.now);
            var (m, notice) := SendOutcome(RecipientsFor(host.adminEmails), data, host.mailSucceeds);
            && processedNotes == old(processedNotes) + {noteId}
            && mail == m
            && store.slots == old(store.slots)[host.userId := notice])
    }

    /**
     * `process_order_note`: a note that fails a gate changes nothing; one
     * that passes is recorded first and then alerted for.
     */
    method ProcessOrderNote(noteId: nat, order: AlertOrder, host: Host, store: NoticeStore)
      returns (mail: Option<AlertMail>)
      modifies this, store
      ensures ProcessedOutcome(noteId, order, host, store, mail)
    {
      if noteId in processedNotes {
        return None;
      }
      if noteId !in host.comments {
        return None;
      }
      var note := host.comments[noteId];
      var isPrivateNote := IsFalsy(note.isCustomerNote);
      if !isPrivateNote {
        return None;
      }
      if !IsWalsworthNote(note.content) {
        return None;
      }
      processedNotes := processedNotes + {noteId};
      var walsworth := ParseWalsworthData(note.content);
      var orderData := OrderData(
        order.id, order.number, order.status, order.dateCreated,
        order.billingFirstName + " " + order.billingLastName,
        order.billingEmail);
      var noteData := NoteData(noteId, note.content, note.date, note.author, true);
      var alertData := AlertData("walsworth_order_fulfillment", host.now, orderData, noteData, walsworth);
      mail := SendEmailAlert(alertData, host, store);
    }

    /** `check_if_order_note`: the fallback hook, for order notes whose order exists. */
    method CheckIfOrderNote(commentId: nat, comment: Comment, host: Host, store: NoticeStore)
      returns (mail: Option<AlertMail>)
      modifies this, store
      ensures comment.commentType != "order_note" || comment.postId !in host.orders ==>
                processedNotes == old(processedNotes) && mail.None? && store.slots == old(store.slots)
      ensures comment.commentType == "order_note" && comment.postId in host.orders ==>
                ProcessedOutcome(commentId, host.orders[comment.postId], host, store, mail)
      ensures mail.Some? ==> commentId !in old(processedNotes) && processedNotes == old(processedNotes) + {commentId}
      ensures commentId in old(processedNotes) ==>
                processedNotes == old(processedNotes) && mail.None? && store.slots == old(store.slots)
    {
      if comment.commentType != "order_note" {
        return None;
      }
      if comment.postId !in host.orders {
        return None;
      }
      var order := host.orders[comment.postId];
      mail := ProcessOrderNote(commentId, order, host, store);
    }

    /** `send_order_note_alert`: the main hook, which ignores a missing order. */
    method SendOrderNoteAlert(noteId: nat, order: Option<AlertOrder>, host: Host, store: NoticeStore)
      returns (mail: Option<AlertMail>)
      modifies this, store
      ensures order.None? ==> processedNotes == old(processedNotes) && mail.None? && store.slots == old(store.slots)
      ensures order.Some? ==> ProcessedOutcome(noteId, order.value, host, store, mail)
      ensures mail.Some? ==> noteId !in old(processedNotes) && processedNotes == old(processedNotes) + {noteId}
      ensures noteId in old(processedNotes) ==>
                processedNotes == old(processedNotes) && mail.None? && store.slots == old(store.slots)
    {
      if order.None? {
        return None;
      }
      mail := ProcessOrderNote(noteId, order.value, host, store);
    }

    /**
     * Adding one note fires both hooks, `wp_insert_comment`
     * and then `woocommerce_order_note_added`. At most one of them mails.
     */
    method NoteAdded(noteId: nat, comment: Comment, order: Option<AlertOrder>, host: Host, store: NoticeStore)
      returns (first: Option<AlertMail>, second: Option<AlertMail>)
      modifies this, store
      ensures !(first.Some? && second.Some?)
      ensures noteId in old(processedNotes) ==> first.None? && second.None?
    {
      first := CheckIfOrderNote(noteId, comment, host, store);
      second := SendOrderNoteAlert(noteId, order, host, store);
    }

    /**
     * `show_alert_notices`: a stored notice that is not empty in PHP's
     * sense is shown once, classed by whether it holds the success mark,
     * and removed.
     */
    method ShowAlertNotices(userId: nat, store: NoticeStore) returns (shown: Option<Notice>)
      modifies store
      ensures userId !in old(store.slots) || IsFalsy(old(store.slots)[userId]) ==>
                shown.None? && store.slots == old(store.slots)
      ensures userId in old(store.slots) && !IsFalsy(old(store.slots)[userId]) ==>
                var text := old(store.slots)[userId];
                && shown == Some(Notice(NoticeClass(text), text))
                && store.slots == old(store.slots) - {userId}
      ensures shown.Some? ==> userId !in store.slots
    {
      if userId !in store.slots {
        return None;
      }
      var emailNotice := store.slots[userId];
      if IsFalsy(emailNotice) {
        return None;
      }
      var cssClass := if Contains(emailNotice, SUCCESS_MARK) then "notice-success" else "notice-error";
      shown := Some(Notice(cssClass, emailNotice));
      store.Delete(userId);
    }
  }

  // ---------------------------------------------------------------------
  // REST endpoint

  /** The body `get_admin_emails` returns. */
  datatype AdminEmailsResponse = AdminEmailsResponse(success: bool, emails: seq<string>, total: nat)

  /** `get_admin_emails`: every administrator's address, empty ones included, and their count. */
  method GetAdminEmails(userEmails: seq<string>) returns (response: AdminEmailsResponse)
    ensures response.success
    ensures response.emails == userEmails
    ensures response.total == |response.emails|
  {
    var emails: seq<string> := [];
    for i := 0 to |userEmails|
      invariant emails == userEmails[..i]
    {
      emails := emails + [userEmails[i]];
    }
    assert userEmails[..|userEmails|] == userEmails;
    response := AdminEmailsResponse(true, emails, |emails|);
  }
}
