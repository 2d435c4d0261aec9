/** The history of sent messages: stamping a batch of sends with ids and a
    timestamp, and merging it into the log kept newest first. */
module Notifications {
  import opened Types
  import opened Digits
  import Sorting

  /** `notif-${clientId}-${Date.now()}-${index}`. */
  function LogId(clientId: string, now: nat, index: nat): string {
    "notif-" + clientId + "-" + Decimal(now, 0) + "-" + Decimal(index, 0)
  }

  /** The characters after the last '-' of `s` (all of `s` when it has none). */
  function AfterLastDash(s: string): string {
    if s == [] || s[|s| - 1] == '-' then []
    else AfterLastDash(s[..|s| - 1]) + [s[|s| - 1]]
  }

  lemma {:induction false} AfterLastDashOfDigits(p: string, d: string)
    requires AllDigits(d)
    ensures AfterLastDash(p + "-" + d) == d
    decreases |d|
  {
    var s := p + "-" + d;
    if d != [] {
      assert s[..|s| - 1] == p + "-" + d[..|d| - 1];
      AfterLastDashOfDigits(p, d[..|d| - 1]);
      assert d == d[..|d| - 1] + [d[|d| - 1]];
    }
  }

  /** The text after the last '-' of an id is its batch index, whatever the
      client id contains, so different indices give different ids. */
  lemma LogIdsDistinct(c1: string, c2: string, now: nat, i: nat, j: nat)
    requires i != j
    ensures LogId(c1, now, i) != LogId(c2, now, j)
  {
    AfterLastDashOfDigits("notif-" + c1 + "-" + Decimal(now, 0), Decimal(i, 0));
    AfterLastDashOfDigits("notif-" + c2 + "-" + Decimal(now, 0), Decimal(j, 0));
    ValueOfDecimal(i, 0);
    ValueOfDecimal(j, 0);
  }

  /** `newLogs.map((log, index) => ({ ...log, id, sentAt: now }))`. */
  function Stamp(batch: seq<NewNotification>, now: nat): (r: seq<NotificationLog>)
    ensures |r| == |batch|
    ensures forall i :: 0 <= i < |r| ==>
      && r[i].clientId == batch[i].clientId
      && r[i].clientName == batch[i].clientName
      && r[i].message == batch[i].message
      && r[i].sentAt == now
    ensures forall i, j :: 0 <= i < j < |r| ==> r[i].id != r[j].id
  {
    var r := seq(|batch|, i requires 0 <= i < |batch| =>
      NotificationLog(LogId(batch[i].clientId, now, i), batch[i].clientId, batch[i].clientName, batch[i].message, now));
    forall i, j | 0 <= i < j < |r|
      ensures r[i].id != r[j].id
    {
      LogIdsDistinct(batch[i].clientId, batch[j].clientId, now, i, j);
    }
    r
  }

  /** The comparator `(a, b) => b.sentAt - a.sentAt` is positive exactly when
      `a` is older than `b`, that is when `a` goes after `b`. */
  function OlderThan(a: NotificationLog, b: NotificationLog): bool {
    a.sentAt < b.sentAt
  }

  lemma OlderThanOrders()
    ensures Sorting.StrictWeakOrder(OlderThan)
  {
  }

  /** Newest first: timestamps never increase along the log. */
  predicate NewestFirst(log: seq<NotificationLog>) {
    forall i, j :: 0 <= i < j < |log| ==> log[i].sentAt >= log[j].sentAt
  }

  /** `[...fullLogs, ...prev].sort(newest first)`. */
  function Merge(log: seq<NotificationLog>, stamped: seq<NotificationLog>): (r: seq<NotificationLog>)
    ensures |r| == |log| + |stamped|
    ensures multiset(r) == multiset(stamped) + multiset(log)
    ensures NewestFirst(r)
  {
    OlderThanOrders();
    var r := Sorting.Sort(stamped + log, OlderThan);
    assert forall i, j :: 0 <= i < j < |r| ==> !OlderThan(r[i], r[j]);
    r
  }

  /** `addNotifications(newLogs)`: the stamped batch, and the log it was merged into. */
  function Record(log: seq<NotificationLog>, batch: seq<NewNotification>, now: nat): (r: (seq<NotificationLog>, seq<NotificationLog>))
    ensures r.0 == Stamp(batch, now)
    ensures |r.1| == |log| + |batch|
    ensures multiset(r.1) == multiset(r.0) + multiset(log)
    ensures NewestFirst(r.1)
  {
    var stamped := Stamp(batch, now);
    (stamped, Merge(log, stamped))
  }

  /** With a clock that has not gone back, recording puts the new entries at the
      head in batch order and leaves the earlier log behind them untouched. */
  lemma RecordPrepends(log: seq<NotificationLog>, batch: seq<NewNotification>, now: nat)
    requires NewestFirst(log)
    requires forall i :: 0 <= i < |log| ==> log[i].sentAt <= now
    ensures Record(log, batch, now).1 == Stamp(batch, now) + log
  {
    var s := Stamp(batch, now) + log;
    OlderThanOrders();
    assert Sorting.Sorted(s, OlderThan);
    Sorting.SortSorted(s, OlderThan);
  }

  /** The initial load sorts the stored log newest first. */
  function Load(stored: seq<NotificationLog>): (r: seq<NotificationLog>)
    ensures multiset(r) == multiset(stored)
    ensures NewestFirst(r)
  {
    Merge(stored, [])
  }
}
