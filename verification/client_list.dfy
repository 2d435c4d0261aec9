/** The client table: the name/login filter with the reminder toggle, the
    sortable headers and their state. */
module ClientList {
  import opened Wrappers
  import opened Types
  import opened Text
  import opened Calendar
  import Lists
  import Sorting

  /** The three client fields a header can sort by. */
  datatype SortField = FullName | PlanId | ExpirationDate

  datatype Direction = Asc | Desc

  /** The table's state: the filter text, the sort and the reminder toggle. */
  datatype View = View(filter: string, field: SortField, direction: Direction, onlyWithReminder: bool)

  /** Nothing typed, sorted by name ascending, toggle off. */
  const Initial := View("", FullName, Asc, false)

  function Field(c: Client, f: SortField): string {
    match f
    case FullName => c.fullName
    case PlanId => c.planId
    case ExpirationDate => c.expirationDate
  }

  /** The filter callback: the lower-cased filter occurs in the lower-cased
      name or login, and, with the toggle on, the reminder flag is set. */
  function Matches(filter: string, onlyWithReminder: bool): Client -> bool {
    (c: Client) => (Includes(Lower(c.fullName), Lower(filter)) || Includes(Lower(c.iptvLogin), Lower(filter)))
         && (!onlyWithReminder || c.hasReminder.GetOr(false))
  }

  /** The comparator is positive: `fieldA > fieldB` ascending, `fieldA < fieldB`
      descending. */
  function After(f: SortField, d: Direction): (Client, Client) -> bool {
    (a: Client, b: Client) => match d
      case Asc => Less(Field(b, f), Field(a, f))
      case Desc => Less(Field(a, f), Field(b, f))
  }

  lemma AfterOrder(f: SortField, d: Direction)
    ensures Sorting.StrictWeakOrder(After(f, d))
  {
    forall a, b ensures !(After(f, d)(a, b) && After(f, d)(b, a)) {
      LessAsymmetric(Field(a, f), Field(b, f));
    }
    forall a, b, c | After(f, d)(a, b) && After(f, d)(b, c) ensures After(f, d)(a, c) {
      if d == Asc {
        LessTransitive(Field(c, f), Field(b, f), Field(a, f));
      } else {
        LessTransitive(Field(a, f), Field(b, f), Field(c, f));
      }
    }
    forall a, b, c | !After(f, d)(a, b) && !After(f, d)(b, c) ensures !After(f, d)(a, c) {
      LessTotal(Field(a, f), Field(b, f));
      LessTotal(Field(b, f), Field(c, f));
      if d == Asc {
        if Less(Field(c, f), Field(a, f)) {
          if Field(a, f) == Field(b, f) {
          } else {
            LessTransitive(Field(c, f), Field(a, f), Field(b, f));
          }
        }
      } else {
        if Less(Field(a, f), Field(c, f)) {
          if Field(a, f) == Field(b, f) {
          } else {
            LessTransitive(Field(b, f), Field(a, f), Field(c, f));
          }
        }
      }
    }
  }

  /** `filteredAndSortedClients`. */
  function Visible(clients: seq<Client>, view: View): (r: seq<Client>)
    ensures multiset(r) == multiset(Lists.Filter(clients, Matches(view.filter, view.onlyWithReminder)))
    ensures forall c :: c in r <==> c in clients && Matches(view.filter, view.onlyWithReminder)(c)
    ensures view.direction == Asc ==>
      forall i, j :: 0 <= i < j < |r| ==> !Less(Field(r[j], view.field), Field(r[i], view.field))
    ensures view.direction == Desc ==>
      forall i, j :: 0 <= i < j < |r| ==> !Less(Field(r[i], view.field), Field(r[j], view.field))
  {
    var filtered := Lists.Filter(clients, Matches(view.filter, view.onlyWithReminder));
    AfterOrder(view.field, view.direction);
    var r := Sorting.Sort(filtered, After(view.field, view.direction));
    Lists.SameMembers(r, filtered);
    r
  }

  /** Clients whose sort field is equal, the ones the comparator cannot tell
      apart, are listed in their input order. */
  lemma VisibleKeepsTieOrder(clients: seq<Client>, view: View, k: Client)
    ensures forall x :: Sorting.TiedWith(After(view.field, view.direction), k)(x)
                        <==> Field(x, view.field) == Field(k, view.field)
    ensures Lists.Filter(Visible(clients, view), Sorting.TiedWith(After(view.field, view.direction), k))
         == Lists.Filter(Lists.Filter(clients, Matches(view.filter, view.onlyWithReminder)),
                         Sorting.TiedWith(After(view.field, view.direction), k))
  {
    forall x ensures Sorting.TiedWith(After(view.field, view.direction), k)(x)
                     <==> Field(x, view.field) == Field(k, view.field) {
      LessTotal(Field(x, view.field), Field(k, view.field));
      LessIrreflexive(Field(x, view.field));
    }
    AfterOrder(view.field, view.direction);
    Sorting.SortStable(Lists.Filter(clients, Matches(view.filter, view.onlyWithReminder)),
                       After(view.field, view.direction), k);
  }

  /** With nothing typed and the toggle off, every client is listed. */
  lemma EmptyFilterKeepsAll(clients: seq<Client>, view: View)
    requires view.filter == "" && !view.onlyWithReminder
    ensures multiset(Visible(clients, view)) == multiset(clients)
  {
    forall i | 0 <= i < |clients| ensures Matches(view.filter, view.onlyWithReminder)(clients[i]) {
      assert Lower("") == "";
      IncludesEmpty(Lower(clients[i].fullName));
    }
    Lists.FilterAll(clients, Matches(view.filter, view.onlyWithReminder));
  }

  /** The filter ignores ASCII letter case in what is typed. */
  lemma FilterIgnoresCase(clients: seq<Client>, view: View)
    ensures Visible(clients, view.(filter := Lower(view.filter))) == Visible(clients, view)
  {
    LowerIdempotent(view.filter);
    assert Matches(Lower(view.filter), view.onlyWithReminder) == Matches(view.filter, view.onlyWithReminder);
  }

  /** Sorting the stored `YYYY-MM-DD` strings ascending lists the clients in
      calendar order of their expiration dates. */
  lemma ExpirationSortIsChronological(clients: seq<Client>, view: View)
    requires view.field == ExpirationDate && view.direction == Asc
    requires forall c :: c in clients ==> ParseIso(c.expirationDate).Some?
    ensures var r := Visible(clients, view);
      forall i, j :: 0 <= i < j < |r| ==>
        DayNumber(ParseIso(r[i].expirationDate).value) <= DayNumber(ParseIso(r[j].expirationDate).value)
  {
    var r := Visible(clients, view);
    forall i, j | 0 <= i < j < |r|
      ensures DayNumber(ParseIso(r[i].expirationDate).value) <= DayNumber(ParseIso(r[j].expirationDate).value)
    {
      assert r[i] in r && r[j] in r;
      IsoOrder(r[j].expirationDate, r[i].expirationDate);
    }
  }

  /** The four sortable headers; "Status" sorts by the expiration date. */
  datatype Header = Cliente | Plano | Vencimento | Status

  function HeaderField(h: Header): (f: SortField)
    ensures f == ExpirationDate <==> h == Vencimento || h == Status
  {
    match h
    case Cliente => FullName
    case Plano => PlanId
    case Vencimento => ExpirationDate
    case Status => ExpirationDate
  }

  /** `handleSort`: the current field flips direction, another field starts
      ascending. */
  function HandleSort(view: View, f: SortField): (r: View)
    ensures r.field == f
    ensures view.field == f ==> r.direction != view.direction
    ensures view.field != f ==> r.direction == Asc
    ensures r.filter == view.filter && r.onlyWithReminder == view.onlyWithReminder
  {
    if view.field == f then view.(direction := if view.direction == Asc then Desc else Asc)
    else view.(field := f, direction := Asc)
  }

  /** Clicking the same header twice restores the view. */
  lemma SortTwiceRestores(view: View)
    ensures HandleSort(HandleSort(view, view.field), view.field) == view
  {
  }

  /** "Vencimento" and "Status" drive the same sort: after either one, the
      other flips the direction instead of restarting it. */
  lemma StatusHeaderSharesSort(view: View)
    ensures var v := HandleSort(view, HeaderField(Status));
      HandleSort(v, HeaderField(Vencimento)).direction != v.direction
  {
  }

  /** The arrow shown next to a header. */
  function Indicator(view: View, h: Header): (s: string)
    ensures s != "" <==> view.field == HeaderField(h)
    ensures s == " ▲" <==> view.field == HeaderField(h) && view.direction == Asc
  {
    if view.field != HeaderField(h) then ""
    else if view.direction == Asc then " ▲" else " ▼"
  }
}
