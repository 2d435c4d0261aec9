/** The add/edit client dialog: its initial state, the prefill when editing,
    field edits and the save validation. */
module ClientForm {
  import opened Wrappers
  import opened Types
  import opened Calendar

  /** The form's state: a client without a required id; after an edit prefill
      the id of the edited client rides along. */
  datatype FormData = FormData(
    id: Option<string>,
    fullName: string,
    phone: string,
    serverId: string,
    cityState: string,
    iptvLogin: string,
    iptvPassword: string,
    activationDate: string,
    expirationDate: string,
    planId: string,
    hasReminder: bool)

  /** `initialClientState`: every text empty, the reminder off, and the
      activation date the UTC calendar date `utcToday` (the date part of
      `toISOString()`), read once when the module loads. */
  function InitialState(utcToday: Date): (f: FormData)
    requires Valid(utcToday) && utcToday.year < 10000
    ensures f.id.None? && f.planId == "" && f.serverId == "" && !f.hasReminder
    ensures ParseIso(f.activationDate) == Some(utcToday)
    ensures f.fullName == f.phone == f.cityState == f.iptvLogin == f.iptvPassword == f.expirationDate == ""
  {
    IsoRoundTrip(utcToday);
    FormData(None, "", "", "", "", "", "", FormatIso(utcToday), "", "", false)
  }

  /** `{ ...initialClientState, ...client }`: every field the client carries
      wins; absent optional fields keep the initial value. */
  function Prefill(initial: FormData, client: Client): (f: FormData)
    ensures f.id == Some(client.id)
    ensures f.fullName == client.fullName && f.phone == client.phone && f.serverId == client.serverId
    ensures f.cityState == client.cityState && f.iptvLogin == client.iptvLogin
    ensures f.activationDate == client.activationDate && f.expirationDate == client.expirationDate
    ensures f.planId == client.planId
    ensures client.iptvPassword.Some? ==> f.iptvPassword == client.iptvPassword.value
    ensures client.iptvPassword.None? ==> f.iptvPassword == initial.iptvPassword
    ensures client.hasReminder.Some? ==> f.hasReminder == client.hasReminder.value
    ensures client.hasReminder.None? ==> f.hasReminder == initial.hasReminder
  {
    FormData(
      Some(client.id), client.fullName, client.phone, client.serverId, client.cityState,
      client.iptvLogin, client.iptvPassword.GetOr(initial.iptvPassword),
      client.activationDate, client.expirationDate, client.planId,
      client.hasReminder.GetOr(initial.hasReminder))
  }

  /** The dialog's state when it opens: the prefill when editing a client,
      the initial state when adding one. */
  function Open(initial: FormData, editing: Option<Client>): (f: FormData)
    ensures editing.None? ==> f == initial
    ensures editing.Some? ==> f == Prefill(initial, editing.value)
  {
    match editing
    case None => initial
    case Some(client) => Prefill(initial, client)
  }

  /** Prefilling a saved client gives back all of its fields. */
  lemma PrefillKeepsClient(initial: FormData, client: Client)
    requires client.iptvPassword.Some? && client.hasReminder.Some?
    ensures ToClient(Prefill(initial, client)) == Some(client)
  {
  }

  /** Opening the form on a saved client and reading it back gives that client. */
  lemma OpenEditingReadsBack(initial: FormData, client: Client)
    requires client.iptvPassword.Some? && client.hasReminder.Some?
    ensures ToClient(Open(initial, Some(client))) == Some(client)
  {
    PrefillKeepsClient(initial, client);
  }

  /** The form read as a client record, when it carries an id. */
  function ToClient(f: FormData): (r: Option<Client>)
    ensures r.Some? <==> f.id.Some?
    ensures r.Some? ==>
      && r.value.planId == f.planId && r.value.serverId == f.serverId
      && r.value.hasReminder == Some(f.hasReminder)
  {
    match f.id
    case None => None
    case Some(id) =>
      Some(Client(id, f.fullName, f.phone, f.serverId, f.cityState, f.iptvLogin, Some(f.iptvPassword),
                  f.activationDate, f.expirationDate, f.planId, Some(f.hasReminder)))
  }

  /** The inputs of the form, by their `name` attribute. */
  datatype TextField =
    | FullNameField | PhoneField | CityStateField | IptvLoginField | IptvPasswordField
    | ActivationDateField | ExpirationDateField | PlanIdField | ServerIdField

  /** A change event: a text, date or select input with its value, or the
      reminder checkbox with its `checked` state. */
  datatype Change = TextInput(field: TextField, value: string) | ReminderCheckbox(checked: bool)

  function Get(f: FormData, field: TextField): string {
    match field
    case FullNameField => f.fullName
    case PhoneField => f.phone
    case CityStateField => f.cityState
    case IptvLoginField => f.iptvLogin
    case IptvPasswordField => f.iptvPassword
    case ActivationDateField => f.activationDate
    case ExpirationDateField => f.expirationDate
    case PlanIdField => f.planId
    case ServerIdField => f.serverId
  }

  /** `handleChange`: only the named input changes. */
  function HandleChange(f: FormData, change: Change): (r: FormData)
    ensures r.id == f.id
    ensures change.TextInput? ==>
      && Get(r, change.field) == change.value
      && r.hasReminder == f.hasReminder
      && forall other :: other != change.field ==> Get(r, other) == Get(f, other)
    ensures change.ReminderCheckbox? ==>
      && r.hasReminder == change.checked
      && forall field :: Get(r, field) == Get(f, field)
  {
    match change
    case ReminderCheckbox(checked) => f.(hasReminder := checked)
    case TextInput(field, value) =>
      match field
      case FullNameField => f.(fullName := value)
      case PhoneField => f.(phone := value)
      case CityStateField => f.(cityState := value)
      case IptvLoginField => f.(iptvLogin := value)
      case IptvPasswordField => f.(iptvPassword := value)
      case ActivationDateField => f.(activationDate := value)
      case ExpirationDateField => f.(expirationDate := value)
      case PlanIdField => f.(planId := value)
      case ServerIdField => f.(serverId := value)
  }

  /** A change followed by the change back to the old value restores the form. */
  lemma ChangeBackRestores(f: FormData, field: TextField, value: string)
    ensures HandleChange(HandleChange(f, TextInput(field, value)), TextInput(field, Get(f, field))) == f
  {
  }

  const SelectPlanAndServer := "Por favor, selecione um plano e um servidor."

  /** What submitting does: hand the form to the save callback, or alert. */
  datatype Submitted = Save(form: FormData) | Alert(message: string)

  /** `handleSubmit`, once the browser lets the submit event through: the
      handler saves when a plan and a server are set and alerts otherwise. */
  function HandleSubmit(f: FormData): (r: Submitted)
    ensures r.Save? <==> f.planId != "" && f.serverId != ""
    ensures r.Save? ==> r.form == f
    ensures r.Alert? ==> r.message == SelectPlanAndServer
  {
    if f.planId != "" && f.serverId != "" then Save(f) else Alert(SelectPlanAndServer)
  }

  /** The submit handler refuses a fresh form until both a plan and a server
      are picked, and accepts it once both are. */
  lemma FreshFormNeedsPlanAndServer(utcToday: Date, plan: string, server: string)
    requires Valid(utcToday) && utcToday.year < 10000
    ensures HandleSubmit(InitialState(utcToday)).Alert?
    ensures HandleSubmit(HandleChange(InitialState(utcToday), TextInput(PlanIdField, plan))).Alert?
    ensures plan != "" && server != "" ==>
      HandleSubmit(HandleChange(HandleChange(InitialState(utcToday), TextInput(PlanIdField, plan)),
                                TextInput(ServerIdField, server))).Save?
  {
  }
}
