/** The dashboard: the stat cards, the three reminder campaigns, the table of
    upcoming expirations, quick renewal and the reminder dialog. */
module Dashboard {
  import opened Wrappers
  import opened Types
  import opened Calendar
  import opened DateUtils
  import Lists
  import Sorting

  function StatusOf(c: Client, now: Now): ClientStatus {
    GetClientStatus(c.expirationDate, now)
  }

  // ---------------------------------------------------------------- stats

  datatype Stats = Stats(totalClients: nat, activeClients: nat, expiringSoon: nat, totalPlans: nat)

  /** Clients whose badge is not "Expirado". */
  function NotExpired(now: Now): Client -> bool {
    c => StatusOf(c, now).text != Expirado
  }

  /** Clients whose badge is "Vencendo". */
  function ExpiringSoon(now: Now): Client -> bool {
    c => StatusOf(c, now).text == Vencendo
  }

  /** The `stats` memo of the dashboard. */
  function ComputeStats(clients: seq<Client>, plans: seq<Plan>, now: Now): (r: Stats)
    ensures r.totalClients == |clients| && r.totalPlans == |plans|
    ensures r.expiringSoon <= r.activeClients <= r.totalClients
  {
    Lists.FilterMonotone(clients, ExpiringSoon(now), NotExpired(now));
    Stats(|clients|, |Lists.Filter(clients, NotExpired(now))|, |Lists.Filter(clients, ExpiringSoon(now))|, |plans|)
  }

  /** The active count is the number of clients not yet past their expiration
      day (or whose date is unreadable); the expiring count is the number of
      clients due within the next three days, both ends included. */
  lemma StatsCount(clients: seq<Client>, plans: seq<Plan>, now: Now)
    ensures ComputeStats(clients, plans, now).activeClients
         == |Lists.Filter(clients, (c: Client) => !IsBelow(StatusOf(c, now).daysRemaining, 0))|
    ensures ComputeStats(clients, plans, now).expiringSoon
         == |Lists.Filter(clients, (c: Client) =>
                StatusOf(c, now).daysRemaining.Days? && 0 <= StatusOf(c, now).daysRemaining.n <= 3)|
  {
    Lists.FilterEquivalent(clients, NotExpired(now),
      (c: Client) => !IsBelow(StatusOf(c, now).daysRemaining, 0));
    Lists.FilterEquivalent(clients, ExpiringSoon(now),
      (c: Client) => StatusOf(c, now).daysRemaining.Days? && 0 <= StatusOf(c, now).daysRemaining.n <= 3);
  }

  // ------------------------------------------------------------ campaigns

  /** The three reminder buttons. */
  datatype Campaign = ThreeDays | DueToday | Overdue

  /** The exact `daysRemaining` each campaign selects. */
  function TargetDays(k: Campaign): int {
    match k
    case ThreeDays => 3
    case DueToday => 0
    case Overdue => -1
  }

  function Title(k: Campaign): string {
    match k
    case ThreeDays => "Lembretes (Vence em 3 dias)"
    case DueToday => "Avisos (Vence Hoje)"
    case Overdue => "Cobrança (Vencido)"
  }

  function NothingToSend(k: Campaign): string {
    match k
    case ThreeDays => "Nenhum cliente com vencimento em exatamente 3 dias."
    case DueToday => "Nenhum cliente com vencimento hoje."
    case Overdue => "Nenhum cliente com plano vencido ontem."
  }

  /** `getClientStatus(c.expirationDate).daysRemaining === target`. */
  function DueIn(target: int, now: Now): Client -> bool {
    c => Is(StatusOf(c, now).daysRemaining, target)
  }

  /** The clients a campaign would message, in list order. */
  function Select(k: Campaign, clients: seq<Client>, now: Now): (r: seq<Client>)
    ensures forall c :: c in r <==> c in clients && StatusOf(c, now).daysRemaining == Days(TargetDays(k))
  {
    Lists.Filter(clients, DueIn(TargetDays(k), now))
  }

  /** The selection keeps list order: it splits over concatenation. */
  lemma SelectConcat(k: Campaign, a: seq<Client>, b: seq<Client>, now: Now)
    ensures Select(k, a + b, now) == Select(k, a, now) + Select(k, b, now)
  {
    Lists.FilterConcat(a, b, DueIn(TargetDays(k), now));
  }

  /** What pressing a campaign button does: an alert when nobody is selected,
      otherwise the reminder dialog over the selection. */
  datatype Opened = Alert(message: string) | Dialog(title: string, clients: seq<Client>)

  function OpenCampaign(k: Campaign, clients: seq<Client>, now: Now): (r: Opened)
    ensures r.Alert? <==> forall c :: c in clients ==> StatusOf(c, now).daysRemaining != Days(TargetDays(k))
    ensures r.Alert? ==> r.message == NothingToSend(k)
    ensures r.Dialog? ==> r.title == Title(k) && r.clients == Select(k, clients, now) && |r.clients| > 0
  {
    var selected := Select(k, clients, now);
    if |selected| == 0 then Alert(NothingToSend(k))
    else
      assert selected[0] in selected;
      Dialog(Title(k), selected)
  }

  /** The collection notice reaches only clients exactly one day overdue:
      anyone further past due is left out. */
  lemma OverdueIsOneDayOnly(clients: seq<Client>, c: Client, now: Now)
    requires c in clients && StatusOf(c, now).daysRemaining.Days? && StatusOf(c, now).daysRemaining.n < -1
    ensures StatusOf(c, now).text == Expirado
    ensures c !in Select(Overdue, clients, now)
  {
  }

  /** The first sample client, expiring three days from today, is picked by
      the three-day campaign and shows as "Vencendo". */
  lemma SampleThreeDaysSelected(clients: seq<Client>, c: Client, now: Now)
    requires c in clients && AddDays(now.date, 3).year < 10000
    requires c.expirationDate == FormatIso(AddDays(now.date, 3))
    ensures c in Select(ThreeDays, clients, now)
    ensures c !in Select(DueToday, clients, now)
    ensures StatusOf(c, now).text == Vencendo
  {
    DaysAhead(now, 3);
  }

  /** The third sample client, ten days past due, shows as "Expirado" and is
      not picked by the collection campaign. */
  lemma SampleTenDaysOverdueSkipped(clients: seq<Client>, c: Client, expiry: Date, now: Now)
    requires Valid(expiry) && expiry.year < 10000 && DayNumber(expiry) + 10 == DayNumber(now.date)
    requires c in clients && c.expirationDate == FormatIso(expiry)
    ensures StatusOf(c, now).text == Expirado
    ensures c !in Select(Overdue, clients, now)
  {
    DaysBehind(expiry, 10, now);
  }

  // ------------------------------------------------------------- upcoming

  /** A client with its status, as the upcoming table maps them. */
  datatype Row = Row(client: Client, status: ClientStatus)

  function Rows(clients: seq<Client>, now: Now): (r: seq<Row>)
    ensures |r| == |clients|
    ensures forall i :: 0 <= i < |r| ==> r[i] == Row(clients[i], StatusOf(clients[i], now))
  {
    seq(|clients|, i requires 0 <= i < |clients| => Row(clients[i], StatusOf(clients[i], now)))
  }

  /** `daysRemaining >= 0 && daysRemaining <= 7`; false for NaN. */
  function InWeek(r: Row): bool {
    !IsBelow(r.status.daysRemaining, 0) && IsAtMost(r.status.daysRemaining, 7)
  }

  /** The sort key; every row that reaches the sort holds a number. */
  function DaysKey(r: Row): int {
    match r.status.daysRemaining
    case Days(n) => n
    case NaN => 0
  }

  /** `(a, b) => a.daysRemaining - b.daysRemaining` is positive. */
  function LaterDue(a: Row, b: Row): bool {
    DaysKey(a) > DaysKey(b)
  }

  /** The rows due within the next seven days, in client order. */
  function WeekRows(clients: seq<Client>, now: Now): (r: seq<Row>)
    ensures forall x :: x in r <==> x.client in clients && x.status == StatusOf(x.client, now)
                                    && x.status.daysRemaining.Days? && 0 <= x.status.daysRemaining.n <= 7
  {
    RowsMembers(clients, now);
    Lists.Filter(Rows(clients, now), InWeek)
  }

  /** The "Clientes com Vencimento Próximo" table. */
  function Upcoming(clients: seq<Client>, now: Now): (r: seq<Row>)
    ensures multiset(r) == multiset(Lists.Filter(Rows(clients, now), InWeek))
    ensures forall x :: x in r <==> x.client in clients && x.status == StatusOf(x.client, now)
                                    && x.status.daysRemaining.Days? && 0 <= x.status.daysRemaining.n <= 7
    ensures forall i :: 0 <= i < |r| ==> r[i].status.daysRemaining.Days?
    ensures forall i, j :: 0 <= i < j < |r| ==> r[i].status.daysRemaining.n <= r[j].status.daysRemaining.n
  {
    LaterDueOrder();
    var inWeek := WeekRows(clients, now);
    var r := Sorting.Sort(inWeek, LaterDue);
    Lists.SameMembers(r, inWeek);
    SortedByDays(r);
    r
  }

  /** Rows that all hold a number and that the sort left in place are ordered by it. */
  lemma SortedByDays(r: seq<Row>)
    requires forall x :: x in r ==> x.status.daysRemaining.Days?
    requires Sorting.Sorted(r, LaterDue)
    ensures forall i :: 0 <= i < |r| ==> r[i].status.daysRemaining.Days?
    ensures forall i, j :: 0 <= i < j < |r| ==> r[i].status.daysRemaining.n <= r[j].status.daysRemaining.n
  {
    assert forall i :: 0 <= i < |r| ==> r[i] in r;
  }

  /** Rows with the same day count are listed in client order. */
  lemma UpcomingKeepsTieOrder(clients: seq<Client>, now: Now, k: Row)
    ensures Lists.Filter(Upcoming(clients, now), Sorting.TiedWith(LaterDue, k))
         == Lists.Filter(Lists.Filter(Rows(clients, now), InWeek), Sorting.TiedWith(LaterDue, k))
  {
    LaterDueOrder();
    Sorting.SortStable(WeekRows(clients, now), LaterDue, k);
  }

  lemma LaterDueOrder()
    ensures Sorting.StrictWeakOrder(LaterDue)
  {
  }

  lemma RowsMembers(clients: seq<Client>, now: Now)
    ensures forall x :: x in Rows(clients, now) <==> x.client in clients && x.status == StatusOf(x.client, now)
  {
    forall x: Row | x.client in clients && x.status == StatusOf(x.client, now)
      ensures x in Rows(clients, now)
    {
      var i :| 0 <= i < |clients| && clients[i] == x.client;
      assert Rows(clients, now)[i] == x;
    }
  }

  // ------------------------------------------------------- reminder dialog

  /** The per-client mark of the dialog: sent, and whether a sticker was copied. */
  datatype SentMark = SentMark(sent: bool, sticker: bool)

  datatype Dialog = DialogState(clients: seq<Client>, sentStatus: map<string, SentMark>)

  /** Opening the dialog resets every mark. */
  function OpenDialog(clients: seq<Client>): (d: Dialog)
    ensures forall id :: !IsSent(d, id)
  {
    DialogState(clients, map[])
  }

  /** The client's send button is disabled. */
  predicate IsSent(d: Dialog, id: string) {
    id in d.sentStatus && d.sentStatus[id].sent
  }

  /** A click on a client's send button with the message the campaign composed
      and the outcome of copying the sticker. */
  datatype Click = Click(client: Client, message: string, stickerCopied: bool)

  /** `handleSendMessage`: the entry reported to the history and the mark set.
      A disabled button does nothing. */
  function Send(d: Dialog, click: Click): (r: (Dialog, seq<NewNotification>))
    ensures IsSent(d, click.client.id) ==> r == (d, [])
    ensures !IsSent(d, click.client.id) ==>
      && r.1 == [NewNotification(click.client.id, click.client.fullName, click.message)]
      && IsSent(r.0, click.client.id)
    ensures forall id :: id != click.client.id ==> (IsSent(r.0, id) <==> IsSent(d, id))
    ensures r.0.clients == d.clients
  {
    if IsSent(d, click.client.id) then (d, [])
    else (d.(sentStatus := d.sentStatus[click.client.id := SentMark(true, click.stickerCopied)]),
          [NewNotification(click.client.id, click.client.fullName, click.message)])
  }

  /** A sequence of clicks, in order: the final dialog and every entry reported. */
  function Run(d: Dialog, clicks: seq<Click>): (Dialog, seq<NewNotification>)
    decreases |clicks|
  {
    if clicks == [] then (d, [])
    else
      var (d1, e1) := Send(d, clicks[0]);
      var (d2, e2) := Run(d1, clicks[1..]);
      (d2, e1 + e2)
  }

  /** Every reported entry names a client not yet marked, each at most once,
      and is marked afterwards; its name is the one on a click for that client. */
  lemma {:induction false} RunReportsOnce(d: Dialog, clicks: seq<Click>)
    ensures forall i :: 0 <= i < |Run(d, clicks).1| ==>
      !IsSent(d, Run(d, clicks).1[i].clientId) && IsSent(Run(d, clicks).0, Run(d, clicks).1[i].clientId)
    ensures forall i, j :: 0 <= i < j < |Run(d, clicks).1| ==> Run(d, clicks).1[i].clientId != Run(d, clicks).1[j].clientId
    ensures forall i :: 0 <= i < |Run(d, clicks).1| ==> ClickedBy(Run(d, clicks).1[i], clicks)
    decreases |clicks|
  {
    if clicks != [] {
      var c0 := clicks[0].client.id;
      var (d1, e1) := Send(d, clicks[0]);
      var (d2, e2) := Run(d1, clicks[1..]);
      assert Run(d, clicks) == (d2, e1 + e2);
      RunReportsOnce(d1, clicks[1..]);
      RunKeepsMarks(d1, clicks[1..]);
      assert IsSent(d1, c0);
      forall i | 0 <= i < |e2|
        ensures e2[i].clientId != c0 && !IsSent(d, e2[i].clientId)
      {
        assert !IsSent(d1, e2[i].clientId);
      }
      forall i | 0 <= i < |e2|
        ensures ClickedBy(e2[i], clicks)
      {
        var k :| 0 <= k < |clicks[1..]| && clicks[1..][k].client.id == e2[i].clientId
                 && clicks[1..][k].client.fullName == e2[i].clientName;
        assert clicks[k + 1] == clicks[1..][k];
      }
      var sent := e1 + e2;
      forall i | 0 <= i < |sent|
        ensures !IsSent(d, sent[i].clientId) && IsSent(d2, sent[i].clientId) && ClickedBy(sent[i], clicks)
      {
        if i >= |e1| {
          assert sent[i] == e2[i - |e1|];
        }
      }
      forall i, j | 0 <= i < j < |sent|
        ensures sent[i].clientId != sent[j].clientId
      {
        if j >= |e1| {
          assert sent[j] == e2[j - |e1|];
          if i >= |e1| {
            assert sent[i] == e2[i - |e1|];
          }
        }
      }
    }
  }

  /** The entry names a client some click was for, under that click's name. */
  predicate ClickedBy(e: NewNotification, clicks: seq<Click>) {
    exists k :: 0 <= k < |clicks| && clicks[k].client.id == e.clientId && clicks[k].client.fullName == e.clientName
  }

  /** Marks are never cleared while the dialog stays open. */
  lemma {:induction false} RunKeepsMarks(d: Dialog, clicks: seq<Click>)
    ensures forall id :: IsSent(d, id) ==> IsSent(Run(d, clicks).0, id)
    decreases |clicks|
  {
    if clicks != [] {
      RunKeepsMarks(Send(d, clicks[0]).0, clicks[1..]);
    }
  }

  /** From a freshly opened dialog every client is reported at most once. */
  lemma OpenedDialogReportsEachClientOnce(clients: seq<Client>, clicks: seq<Click>)
    ensures var sent := Run(OpenDialog(clients), clicks).1;
      forall i, j :: 0 <= i < j < |sent| ==> sent[i].clientId != sent[j].clientId
  {
    RunReportsOnce(OpenDialog(clients), clicks);
  }
}
