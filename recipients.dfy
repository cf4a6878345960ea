/**
 * Recipient resolution, identical in the digest and in the alert: the
 * administrators' addresses when the `send_to_admins` switch is on, then the
 * configured additional addresses; `array_unique` keeps the first
 * occurrence of each address and `array_filter` drops the falsy ones (the
 * empty string and "0").
 */
module Recipients {
  import opened Text

  /** `$send_to_admins` as both classes configure it. */
  const SEND_TO_ADMINS := false

  /** `$additional_recipients` as both classes configure it. */
  const ADDITIONAL_RECIPIENTS: seq<string> := ["deepak.naidu@wisdmlabs.com"]

  /** `array_filter` without a callback: the entries that are not falsy, in order. */
  function FilterFalsy(s: seq<string>): (r: seq<string>)
    ensures |r| <= |s|
    ensures forall x :: x in r <==> x in s && !IsFalsy(x)
  {
    if s == [] then []
    else
      var init := FilterFalsy(s[..|s| - 1]);
      assert s == s[..|s| - 1] + [s[|s| - 1]];
      if IsFalsy(s[|s| - 1]) then init else init + [s[|s| - 1]]
  }

  /** `array_filter` keeps each entry on its own merits: filtering distributes over concatenation. */
  lemma {:induction false} FilterFalsyAppend(a: seq<string>, b: seq<string>)
    ensures FilterFalsy(a + b) == FilterFalsy(a) + FilterFalsy(b)
    decreases |b|
  {
    if b == [] {
      assert a + b == a;
    } else {
      var c := a + b;
      var init := b[..|b| - 1];
      assert c[..|c| - 1] == a + init;
      var x := b[|b| - 1];
      assert c[|c| - 1] == x;
      FilterFalsyAppend(a, init);
      if IsFalsy(x) {
        assert FilterFalsy(c) == FilterFalsy(a + init);
        assert FilterFalsy(b) == FilterFalsy(init);
      } else {
        assert FilterFalsy(c) == FilterFalsy(a + init) + [x];
        assert FilterFalsy(b) == FilterFalsy(init) + [x];
      }
    }
  }

  /** A single entry is kept exactly when it is not falsy. */
  lemma FilterFalsySingle(x: string)
    ensures FilterFalsy([x]) == if IsFalsy(x) then [] else [x]
  {
    assert [x][..0] == [];
  }

  /** Index of the first occurrence of `x` in `s`. */
  function FirstIndex(s: seq<string>, x: string): (r: nat)
    requires x in s
    ensures r < |s| && s[r] == x
    ensures forall k :: 0 <= k < r ==> s[k] != x
  {
    if s[0] == x then 0 else 1 + FirstIndex(s[1..], x)
  }

  predicate NoDuplicates(s: seq<string>) {
    forall i, j :: 0 <= i < j < |s| ==> s[i] != s[j]
  }

  /** Every entry of `t` occurs in `all`, and `t` lists them by where they first occur in `all`. */
  predicate InFirstOccurrenceOrder(t: seq<string>, all: seq<string>) {
    && (forall k :: 0 <= k < |t| ==> t[k] in all)
    && forall i, j :: 0 <= i < j < |t| ==> FirstIndex(all, t[i]) < FirstIndex(all, t[j])
  }

  /** `array_unique`: each value once, at the position of its first occurrence. */
  function Unique(s: seq<string>): (u: seq<string>)
    ensures forall x :: x in u <==> x in s
  {
    if s == [] then []
    else
      var init := s[..|s| - 1];
      assert s == init + [s[|s| - 1]];
      if s[|s| - 1] in init then Unique(init) else Unique(init) + [s[|s| - 1]]
  }

  lemma FirstIndexInPrefix(s: seq<string>, n: nat, x: string)
    requires n <= |s| && x in s[..n]
    ensures FirstIndex(s, x) == FirstIndex(s[..n], x)
  {
    var a := FirstIndex(s, x);
    var b := FirstIndex(s[..n], x);
    assert s[..n][b] == s[b];
  }

  /** Appending a value that first occurs after every listed one keeps the order and adds no duplicate. */
  lemma AppendLaterKeepsOrder(u: seq<string>, all: seq<string>, x: string)
    requires NoDuplicates(u) && InFirstOccurrenceOrder(u, all) && x in all
    requires forall k :: 0 <= k < |u| ==> FirstIndex(all, u[k]) < FirstIndex(all, x)
    ensures NoDuplicates(u + [x]) && InFirstOccurrenceOrder(u + [x], all)
  {
    var r := u + [x];
    assert forall k :: 0 <= k < |u| ==> r[k] == u[k];
    assert r[|u|] == x;
  }

  /** `Unique` leaves no value twice and keeps first-occurrence order. */
  lemma {:induction false} UniqueSpec(s: seq<string>)
    ensures NoDuplicates(Unique(s))
    ensures InFirstOccurrenceOrder(Unique(s), s)
  {
    if s != [] {
      var init := s[..|s| - 1];
      var last := s[|s| - 1];
      var u := Unique(init);
      UniqueSpec(init);
      forall k | 0 <= k < |u| ensures FirstIndex(s, u[k]) == FirstIndex(init, u[k]) {
        FirstIndexInPrefix(s, |s| - 1, u[k]);
      }
      if last !in init {
        assert FirstIndex(s, last) == |s| - 1;
        AppendLaterKeepsOrder(u, s, last);
      }
    }
  }

  lemma DropLastKeepsOrder(s: seq<string>, all: seq<string>)
    requires s != [] && NoDuplicates(s) && InFirstOccurrenceOrder(s, all)
    ensures NoDuplicates(s[..|s| - 1]) && InFirstOccurrenceOrder(s[..|s| - 1], all)
  {
    assert forall k :: 0 <= k < |s| - 1 ==> s[..|s| - 1][k] == s[k];
  }

  /** Dropping the falsy entries keeps a duplicate-free list in first-occurrence order. */
  lemma {:induction false} FilterFalsyKeepsOrder(s: seq<string>, all: seq<string>)
    requires NoDuplicates(s) && InFirstOccurrenceOrder(s, all)
    ensures NoDuplicates(FilterFalsy(s)) && InFirstOccurrenceOrder(FilterFalsy(s), all)
  {
    if s != [] {
      var init := s[..|s| - 1];
      var last := s[|s| - 1];
      DropLastKeepsOrder(s, all);
      FilterFalsyKeepsOrder(init, all);
      var f := FilterFalsy(init);
      if !IsFalsy(last) {
        forall i | 0 <= i < |f| ensures FirstIndex(all, f[i]) < FirstIndex(all, last) {
          assert f[i] in f;
          var k :| 0 <= k < |init| && init[k] == f[i];
          assert s[k] == f[i];
        }
        AppendLaterKeepsOrder(f, all, last);
      }
    }
  }

  /** The addresses `get_recipients` collects before removing duplicates and falsy values. */
  function Collected(sendToAdmins: bool, adminEmails: seq<string>, additional: seq<string>): seq<string> {
    (if sendToAdmins then adminEmails else []) + additional
  }

  /**
   * The result of `get_recipients`: no address twice, no falsy address,
   * exactly the non-falsy collected addresses, listed by first occurrence.
   */
  function ResolveRecipients(sendToAdmins: bool, adminEmails: seq<string>, additional: seq<string>): (r: seq<string>)
    ensures NoDuplicates(r)
    ensures forall x :: x in r <==> !IsFalsy(x) && (x in additional || (sendToAdmins && x in adminEmails))
    ensures InFirstOccurrenceOrder(r, Collected(sendToAdmins, adminEmails, additional))
  {
    var all := Collected(sendToAdmins, adminEmails, additional);
    UniqueSpec(all);
    FilterFalsyKeepsOrder(Unique(all), all);
    FilterFalsy(Unique(all))
  }

  /**
   * `get_admin_email_addresses`: the addresses of the administrators
   * (`userEmails`, as `get_users` lists them) that are not falsy.
   */
  method AdminEmailAddresses(userEmails: seq<string>) returns (emails: seq<string>)
    ensures emails == FilterFalsy(userEmails)
  {
    emails := [];
    for i := 0 to |userEmails|
      invariant emails == FilterFalsy(userEmails[..i])
    {
      assert userEmails[..i + 1][..i] == userEmails[..i];
      if !IsFalsy(userEmails[i]) {
        emails := emails + [userEmails[i]];
      }
    }
    assert userEmails[..|userEmails|] == userEmails;
  }

  /** `get_recipients`, with the administrators' addresses as the input `userEmails`. */
  method GetRecipients(sendToAdmins: bool, userEmails: seq<string>, additional: seq<string>)
    returns (recipients: seq<string>)
    ensures recipients == ResolveRecipients(sendToAdmins, FilterFalsy(userEmails), additional)
  {
    recipients := [];
    if sendToAdmins {
      var admins := AdminEmailAddresses(userEmails);
      recipients := recipients + admins;
    }
    if additional != [] {
      recipients := recipients + additional;
    }
    assert recipients == Collected(sendToAdmins, FilterFalsy(userEmails), additional);
    recipients := FilterFalsy(Unique(recipients));
  }

  /** As configured (switch off, one address), the recipients are exactly that address. */
  lemma ConfiguredRecipients(adminEmails: seq<string>)
    ensures ResolveRecipients(SEND_TO_ADMINS, adminEmails, ADDITIONAL_RECIPIENTS) == ADDITIONAL_RECIPIENTS
  {
    var a := ADDITIONAL_RECIPIENTS[0];
    assert |a| == 26;
    assert !IsFalsy(a);
    assert Collected(SEND_TO_ADMINS, adminEmails, ADDITIONAL_RECIPIENTS) == [a];
    assert [a][..0] == [];
    assert Unique([a]) == [a];
    assert FilterFalsy([a]) == [a];
  }

  /** Turning the switch on can only add recipients. */
  lemma SwitchOnAddsRecipients(adminEmails: seq<string>, additional: seq<string>)
    ensures forall x :: x in ResolveRecipients(false, adminEmails, additional)
                        ==> x in ResolveRecipients(true, adminEmails, additional)
  {
  }
}
