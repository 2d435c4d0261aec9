# Subscription lifecycle of the IPTV reseller panel, in Dafny

This project models the rules at the centre of the reseller panel, a React
application that keeps IPTV subscribers ("clientes"), their plans and
servers, message templates and a history of sent WhatsApp messages. The
rules are:

- the status badge of a client, read from its `YYYY-MM-DD` expiration date:
  "Expirado", "Vencendo" or "Ativo";
- the dashboard: its counters, the three reminder campaigns (due in 3 days,
  due today, one day overdue), the table of expirations in the coming week,
  and the reminder dialog that records each send once;
- quick renewal: 30 more days from the expiration date, or from today when
  the subscription has already lapsed;
- the client table's filter, sort and sortable headers;
- the add/edit client dialog: its initial state, prefill, edits and the
  plan-and-server check on save;
- the record stores, both as the root component keeps them in state and as
  the storage service keeps them. The service differs in three ways: it
  throws "not found" on updates, it replaces only the first matching record,
  and it builds its ids differently. Both stores keep the notification log
  newest first.

The clock is a parameter everywhere. `DateUtils.Now` is a local date plus the
milliseconds since its midnight, and the notification and id code take the
epoch-millisecond time as `now: nat`.

Calendar dates are Gregorian `(year, month, day)` triples. Each has a day
number counted from 1 January of year 0. `Calendar.ParseIso` and
`Calendar.FormatIso` convert between such dates and the `YYYY-MM-DD` strings
(the extended calendar date format of section 4.1.2.2 of ISO 8601:2004).

A string that does not parse stands for JavaScript's Invalid Date. The day
difference is then `DayCount.NaN`, and every comparison against NaN is false,
as it is in JavaScript. Such a client is therefore labelled "Ativo" and no
campaign picks it up.

The modules follow the program:

- `DateUtils`: the status badge and the date display.
- `Dashboard`: the counters, campaigns, upcoming table and reminder dialog.
- `Renewal`: quick renewal, shared by the dashboard and the client list.
- `ClientList`: the client table.
- `ClientForm`: the add/edit dialog.
- `App`: the root component's state handlers.
- `ApiService`: the storage service.
- `Notifications`: the history of sent messages.
- `Records`: the operations on id-keyed sequences that `App` and
  `ApiService` share.
- `Types`: the records.

The remaining modules are generic support:

- `Calendar`, `Digits` and `Text`: dates, decimal numerals, and string order
  and search.
- `Lists` and `Sorting`: filtering, and a stable insertion sort standing for
  `Array.prototype.sort`.
- `Wrappers`: `Option` and `Result`.

## Model

| member | source | states |
|---|---|---|
| DateUtils.GetClientStatus | utils/dateUtils.ts:5-18 | daysRemaining is the expiration's day number minus today's, or NaN for an unparsable date, and classification leaves it unchanged. The label is "Expirado" exactly when the count is below 0 and "Vencendo" exactly when it is in 0..3, both ends included. It is "Ativo" exactly when the count is above 3 or NaN. The colour is red, yellow or green according to the label. |
| DateUtils.StatusIgnoresTimeOfDay | utils/dateUtils.ts:6-9 | Two readings of the clock on the same date give the same status, whatever the time of day, because today is normalised to midnight. |
| DateUtils.DaysAhead | utils/dateUtils.ts:8-9 | An expiration written as `formatISO(addDays(today, n))` reads back exactly `n` days remaining. |
| DateUtils.DaysBehind | utils/dateUtils.ts:8-9 | An expiration `n` days before today reads back `-n`. |
| DateUtils.FormatDate | utils/dateUtils.ts:20-28 | "" gives "N/A". A non-empty string that is not a date gives "Data inválida". A `YYYY-MM-DD` date gives `DD/MM/YYYY` with the same digits reordered, and year 0000 prints its era year 0001. |
| Calendar.ParseIso | utils/dateUtils.ts:8 | Only a 10-character `YYYY-MM-DD` string naming an existing Gregorian day parses. |
| Calendar.IsoRoundTrip | components/Dashboard.tsx:268 | Writing a date with `formatISO` and parsing it back gives the same date. |
| Calendar.IsoCanonical | utils/dateUtils.ts:8 | A string that parses is exactly what `formatISO` writes for the parsed date. |
| Calendar.AddDays | components/Dashboard.tsx:264 | `addDays(d, n)` is a valid date whose day number is `n` more than `d`'s. |
| Calendar.DayNumberOrder | components/Dashboard.tsx:262 | `isBefore` on dates agrees with the order of their day numbers, and equal day numbers mean equal dates. |
| Calendar.IsoOrder | components/ClientList.tsx:34-41 | For two `YYYY-MM-DD` strings, JavaScript's string `<` holds exactly when the first date is earlier. |
| Dashboard.ComputeStats | components/Dashboard.tsx:191-200 | totalClients is the list length and totalPlans the plan count. expiringSoon <= activeClients <= totalClients. |
| Dashboard.StatsCount | components/Dashboard.tsx:192-193 | activeClients is the number of clients whose day count is not below 0, which includes the unreadable dates. expiringSoon is the number whose day count is a number in 0..3. |
| Dashboard.Select | components/Dashboard.tsx:202-239 | A campaign keeps exactly the clients whose count is its target: 3, 0 or -1. A client at 2 or 4 is never in the three-day campaign. |
| Dashboard.SelectConcat | components/Dashboard.tsx:203 | The selection keeps list order: it splits over concatenation. |
| Dashboard.OpenCampaign | components/Dashboard.tsx:202-239 | The campaign's alert text is shown exactly when no client is at the target. Otherwise the dialog opens with the campaign's title over the non-empty selection. |
| Dashboard.OverdueIsOneDayOnly | components/Dashboard.tsx:229 | A client more than one day overdue is "Expirado" but is not in the collection campaign. |
| Dashboard.SampleThreeDaysSelected | mockData.ts:28 | The sample client expiring `addDays(today, 3)` is "Vencendo". It is in the three-day campaign and not in the due-today one. |
| Dashboard.SampleTenDaysOverdueSkipped | mockData.ts:50 | The sample client expiring `subDays(today, 10)` is "Expirado" and is left out of the collection campaign. |
| Dashboard.WeekRows | components/Dashboard.tsx:324-326 | A row is kept exactly when its client is in the list and its day count is a number in 0..7. |
| Dashboard.UpcomingKeepsTieOrder | components/Dashboard.tsx:327 | Rows with the same day count appear in the table in client order. |
| Dashboard.Upcoming | components/Dashboard.tsx:324-327 | The table is a permutation of the rows at 0..7 days. A row is listed exactly when its client is in the list with a count in 0..7, and the rows go in non-decreasing order of days remaining. |
| Dashboard.OpenDialog | components/Dashboard.tsx:72-78 | Opening the dialog clears every sent mark. |
| Dashboard.Send | components/Dashboard.tsx:40-70 | If the client is already marked sent, the disabled button does nothing. Otherwise a send reports exactly one entry `{clientId, clientName: fullName, message}` and marks that client. Other clients' marks are untouched. |
| Dashboard.RunKeepsMarks | components/Dashboard.tsx:69 | A sent mark is never cleared while the dialog stays open. |
| Dashboard.RunReportsOnce | components/Dashboard.tsx:103-105 | Over any sequence of clicks, each reported client was unmarked before and is marked after. The reported client ids are pairwise distinct, and each names a clicked client under its full name. |
| Dashboard.OpenedDialogReportsEachClientOnce | components/Dashboard.tsx:72-105 | From a freshly opened dialog, each client is reported at most once. |
| Renewal.QuickRenew | components/Dashboard.tsx:253-273 | The renewal fails exactly when the expiration does not parse (`formatISO` throws). Otherwise the new expiration is `formatISO(addDays(anchor, 30))`, where the anchor is today if the expiration is strictly before today and the expiration otherwise. Its day number is max(expiration, today) + 30. hasReminder becomes false and every other field is copied. |
| Renewal.RenewedDateReadsBack | components/ClientList.tsx:64-84 | The stored new expiration parses back to a date max(expiration, today) + 30 days, so at least today + 30. |
| Renewal.RenewedClientIsActive | components/Dashboard.tsx:264-269 | After a renewal the client is "Ativo" with at least 30 days remaining. |
| ClientList.VisibleKeepsTieOrder | components/ClientList.tsx:33-44 | The comparator ties exactly the clients with equal sort fields, and those are listed in their input order. |
| ClientList.Visible | components/ClientList.tsx:26-45 | The result is a permutation of the filtered subset. A client is listed exactly when the lower-cased filter occurs in its lower-cased name or login and, with the toggle on, its reminder flag is set. The field is non-decreasing ascending and non-increasing descending. |
| ClientList.AfterOrder | components/ClientList.tsx:33-42 | The comparator orders clients as a strict weak order on the chosen field, in either direction. |
| ClientList.EmptyFilterKeepsAll | components/ClientList.tsx:27-31 | With nothing typed and the toggle off, every client is listed. |
| ClientList.FilterIgnoresCase | components/ClientList.tsx:28-29 | Typing the filter in upper or lower case gives the same table. |
| ClientList.ExpirationSortIsChronological | components/ClientList.tsx:34-41 | Sorting ascending by the expiration string lists the clients in calendar order of expiration. |
| ClientList.HeaderField | components/ClientList.tsx:113-114 | The "Vencimento" and "Status" headers, and only they, sort by expirationDate. |
| ClientList.HandleSort | components/ClientList.tsx:47-54 | After a click the clicked field is the sort field. Clicking the current field flips the direction, and clicking another field sorts it ascending. The filter and the toggle are untouched. |
| ClientList.SortTwiceRestores | components/ClientList.tsx:48-49 | Clicking the current header twice restores the view. |
| ClientList.StatusHeaderSharesSort | components/ClientList.tsx:114 | After a click on "Status", a click on "Vencimento" flips the direction rather than restarting it. |
| ClientList.Indicator | components/ClientList.tsx:116 | An arrow shows exactly on the headers of the sort field, and it is "▲" exactly when ascending. |
| ClientForm.InitialState | components/ClientFormModal.tsx:15-26 | A fresh form has no id, empty texts, plan and server, and the reminder off. Its activation date parses to the UTC date of load. |
| ClientForm.Prefill | components/ClientFormModal.tsx:34-36 | Every field the client carries overrides the default. A missing password or reminder flag keeps the default. |
| ClientForm.Open | components/ClientFormModal.tsx:34-40 | Adding opens the initial state. Editing opens the initial state overridden by every field of the edited client. |
| ClientForm.OpenEditingReadsBack | components/ClientFormModal.tsx:34-36 | Opening the form on a saved client with a password and a reminder flag and reading it back gives exactly that client. |
| ClientForm.PrefillKeepsClient | components/ClientFormModal.tsx:36 | A client with every optional field present is read back unchanged from its prefilled form. |
| ClientForm.ToClient | components/ClientFormModal.tsx:54 | The form reads as a client exactly when it carries an id, keeping plan, server and reminder. |
| ClientForm.HandleChange | components/ClientFormModal.tsx:42-49 | A text, date or select input changes only its own field. The checkbox stores `checked` in hasReminder and changes nothing else. |
| ClientForm.ChangeBackRestores | components/ClientFormModal.tsx:45-48 | Changing a field and changing it back restores the form. |
| ClientForm.HandleSubmit | components/ClientFormModal.tsx:51-58 | Once the submit event reaches the handler, the form is saved, unchanged, exactly when plan and server are both non-empty. Otherwise the alert "Por favor, selecione um plano e um servidor." is shown. |
| ClientForm.FreshFormNeedsPlanAndServer | components/ClientFormModal.tsx:15-58 | The submit handler refuses a fresh form, or one with only a plan, and accepts it once both a plan and a server are picked. |
| App.ApplyClients | App.tsx:23-33 | `addClient` appends one record with id `Date.now()` and leaves the earlier records in order. `updateClient` replaces every record with the id and keeps the rest and the length. `deleteClient` keeps exactly the records with other ids, in their order and multiplicity (it is the id filter RemoveMatching). |
| App.ApplyPlans | App.tsx:35-45 | The same append / replace / filter contracts for plans. |
| App.ApplyServers | App.tsx:47-57 | The same append / replace / filter contracts for servers. |
| App.ApplyTemplates | App.tsx:59-61 | `updateTemplate` replaces every template with the id. |
| App.ApplyNotifications | App.tsx:63-70 | The log grows by the batch size and holds exactly the stamped batch plus the old entries, newest first. |
| App.Apply | App.tsx:23-70 | Every handler changes only its own collection. |
| Records.ReplaceMatching | App.tsx:27-29 | Every record with the updated id is replaced, every other stays, and the length is kept. |
| Records.ReplaceAbsent | App.tsx:28 | An update with an id nobody has changes nothing. |
| Records.ReplaceIdempotent | App.tsx:28 | Applying the same update twice is applying it once. |
| Records.RemoveMatching | App.tsx:31-33 | The result holds exactly the records with another id, and none with the removed id. |
| Records.RemoveConcat | App.tsx:32 | Removal splits over concatenation, so the rest keep their relative order. |
| Records.RemoveAbsent | services/apiService.ts:68-72 | Deleting an id nobody has changes nothing. |
| Records.FindIndex | services/apiService.ts:61 | The result is -1 exactly when no record has the id. Otherwise it is the first position holding the id. |
| Records.ReplaceFirst | services/apiService.ts:60-66 | The update fails exactly when no record has the id. Otherwise only the first matching position is replaced. |
| Records.ReplaceFirstAgrees | services/apiService.ts:61-63 | With unique ids the service's first-match update equals the root component's replace-all update. |
| Records.ReplaceFirstLeavesLaterCopies | services/apiService.ts:61-63 | With a duplicated id the service leaves later copies as they were, where the root component replaces them. |
| Notifications.LogIdsDistinct | App.tsx:66 | `notif-<clientId>-<now>-<index>` ids with different indices differ, whatever the client ids contain. |
| Notifications.Stamp | App.tsx:64-68 | One entry per input, with client id, name and message copied and the same `sentAt`. Ids are pairwise distinct within the batch. |
| Notifications.OlderThanOrders | App.tsx:69 | The comparator `b.sentAt - a.sentAt` orders entries as a strict weak order. |
| Notifications.Merge | App.tsx:69 | The merged log holds exactly the new and old entries, with no loss or duplication, newest first. |
| Notifications.RecordPrepends | App.tsx:69 | If the clock has not gone back, the stable sort puts the batch at the head in batch order, with the old log unchanged behind it. |
| Notifications.Record | services/apiService.ts:144-153 | Returns exactly the stamped batch, and the store becomes the newest-first merge of new and old entries. |
| Notifications.Load | services/apiService.ts:36 | The stored log is sorted newest first on load, without loss or duplication. |
| ApiService.ClientsOp | services/apiService.ts:53-72 | `updateClient` fails with "Client not found" exactly when no record has the id, and then the store is unchanged. `addClient` appends the record under id `client-<now>` and returns it. A successful update replaces only the first match and returns the record. `deleteClient` never fails and keeps exactly the records with other ids, in their order and multiplicity (the id filter RemoveMatching). |
| ApiService.PlansOp | services/apiService.ts:79-98 | The same contracts for plans, with "Plan not found" and ids `plan-<now>`. |
| ApiService.ServersOp | services/apiService.ts:105-124 | The same contracts for servers, with "Server not found" and ids `server-<now>`. |
| ApiService.TemplatesOp | services/apiService.ts:131-137 | `updateTemplate` fails with "Template not found" exactly when no template has the id. Otherwise it replaces only the first match. |
| ApiService.NotificationsOp | services/apiService.ts:144-153 | `addNotifications` returns exactly the stamped batch and stores the newest-first merge of new and old entries, with no loss or duplication. |
| ApiService.Handle | services/apiService.ts:49-153 | Only the target collection changes. An operation throws exactly when it is an update whose id no record has, and then it throws that collection's "not found" message and leaves the store unchanged. |
| ApiService.AgreesWithScreens | services/apiService.ts:60-72 | With unique ids, a successful update, a delete or a notification batch leaves the service with the same collections as the root component. |
| ApiService.AddsDifferOnlyInId | services/apiService.ts:53-58 | A service add and a root-component add differ only in the new record's id. |
| ApiService.MissedUpdateIsNoOpOnScreens | services/apiService.ts:62 | Where the service throws "not found", both it and the root component leave the store unchanged. |
| Sorting.Sort | App.tsx:69 | The sort returns a permutation of its input that is ordered by the comparator. |
| Sorting.SortSorted | App.tsx:69 | An already ordered sequence comes back unchanged. |
| Sorting.SortStable | App.tsx:69 | The sort is stable: for any element k, the elements the comparator ties with k come out in the order they went in. |
| Text.IncludesIff | components/ClientList.tsx:28 | `includes` holds exactly when the substring occurs at some position. |
| Text.Lower | components/ClientList.tsx:28 | Lower-casing keeps the length, turns each ASCII capital into the letter 32 code points above it (its lower-case form), leaves no ASCII capital and keeps every other character. |

## Left out

- Browser storage, JSON encoding, first-load seeding and the asynchronous `Promise` plumbing of the service are not modelled. They are I/O; the stores are plain sequences.
- The WhatsApp link, `encodeURIComponent`, `window.open` and sticker copying to the clipboard are not modelled. They are side effects; a click carries the composed message and whether the sticker copy succeeded.
- The campaign message texts and `monthlyValue.toFixed(2)` are floating-point formatting; the message is an opaque string.
- date-fns `parseISO` accepts forms besides `YYYY-MM-DD`, such as times, week dates and expanded years. The model treats every other string as an Invalid Date, and dates outside years 0000-9999 are not represented.
- Time zones and daylight saving are not modelled. A local date and a UTC date are both plain calendar dates.
- `sentAt` is kept as epoch milliseconds rather than its `toISOString()` text. The sort compares those milliseconds, which is what `new Date(sentAt).getTime()` gives back.
- Ids made from `Date.now()` (`client-<now>`, the root component's plain `<now>`, the notification ids) are not unique across calls. The code does not ensure that, so the model promises it only within one notification batch.
- Text.Lower: lower-cases ASCII letters only, where `toLowerCase` follows Unicode. Strings are sequences of characters, not UTF-16 code units.
- ClientList.Visible: the client-list comparator never returns 0, so JavaScript leaves the order of equal fields open. The model keeps them in input order (ClientList.VisibleKeepsTieOrder), which is one of the orders the source allows. It is not what every engine shows: a TimSort-based engine, such as V8, can take a run that the comparator ranks strictly descending on ties and reverse it, listing two tied clients in reverse input order.
- Dashboard.Upcoming: equal day counts keep their input order, as the stable `Array.prototype.sort` does (Dashboard.UpcomingKeepsTieOrder).
- Dashboard.ComputeStats: `getClientStatus` reads `new Date()` again for every client. The model takes one clock reading for the whole render, so a render that straddles midnight, where some clients are counted against one day and some against the next, is not covered. The same holds for Dashboard.Select and Dashboard.Upcoming.
- Notifications.Stamp: the source calls `Date.now()` and `new Date()` again for every entry of a batch (App.tsx:66-67, services/apiService.ts:147-148). The model reads the clock once per batch, so every entry gets the same `sentAt`. A batch whose readings fall in different milliseconds is not covered. The dashboard only ever reports batches of one entry, where the two agree. App.ApplyNotifications and ApiService.NotificationsOp share this single reading.
- Notifications.RecordPrepends: "the batch at the head in batch order" rests on that single reading. If the clock ticks during a batch, later entries get a later `sentAt`, and the newest-first sort puts them ahead of earlier ones.
- Dashboard.RunReportsOnce: clicks are taken one at a time, each finishing before the next begins. With a sticker selected, `handleSendMessage` awaits the clipboard write (components/Dashboard.tsx:48) before it reports and marks the client (63-69), and the button stays enabled meanwhile (105). A second click on the same client during that wait reports it twice; that interleaving is not modelled.
- Dashboard.OpenedDialogReportsEachClientOnce: "at most once" holds under the same one-click-at-a-time reading, not when a click lands during the clipboard wait of an earlier click on the same client.
- ClientForm.HandleSubmit: the HTML `required` validation of the form is not modelled. Six inputs (components/ClientFormModal.tsx:61-67, 83) and both selects (95, 113) are `required`, so the browser blocks the submit before the handler runs. A form with a plan and a server but an empty name, phone, city, login or date does not save, and an empty select gets the browser's own prompt rather than the alert. ClientForm.FreshFormNeedsPlanAndServer likewise speaks only of the submit handler.
- Renewal.RenewedDateReadsBack: proved only while the expiration date and today are before year 9999, so that the result still has a four-digit year.
- On the dashboard, renewal starts from the table row `{...client, status}`, so the stored record also gets a stray `status` property. A `Client` has no such field, and the model drops it.
- The plan, server and template screens, the sidebar, the badge component and the notification history page only pass records through and are not modelled.
