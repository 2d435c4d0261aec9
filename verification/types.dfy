/** The records of the application. Dates are kept as the `YYYY-MM-DD` strings
    the forms produce; timestamps of sent notifications are milliseconds since
    the epoch. */
module Types {
  import opened Wrappers

  /** A subscriber. `iptvPassword` and `hasReminder` are optional properties. */
  datatype Client = Client(
    id: string,
    fullName: string,
    phone: string,
    serverId: string,
    cityState: string,
    iptvLogin: string,
    iptvPassword: Option<string>,
    activationDate: string,
    expirationDate: string,
    planId: string,
    hasReminder: Option<bool>)

  /** `monthlyValue` is a JavaScript number; it is only displayed, never computed with. */
  datatype Plan = Plan(id: string, name: string, description: string, monthlyValue: real)

  datatype Server = Server(id: string, name: string, url: string)

  datatype MessageTemplate = MessageTemplate(id: string, name: string, content: string)

  /** A send as the caller reports it, before it gets an id and a timestamp. */
  datatype NewNotification = NewNotification(clientId: string, clientName: string, message: string)

  /** An entry of the history of sent messages. */
  datatype NotificationLog = NotificationLog(
    id: string,
    clientId: string,
    clientName: string,
    message: string,
    sentAt: int)

  /** The five collections the application keeps. */
  datatype Db = Db(
    clients: seq<Client>,
    plans: seq<Plan>,
    servers: seq<Server>,
    templates: seq<MessageTemplate>,
    notifications: seq<NotificationLog>)

  /** A change requested of a collection by the screens. */
  datatype Action =
    | AddClient(client: Client)
    | UpdateClient(client: Client)
    | DeleteClient(clientId: string)
    | AddPlan(plan: Plan)
    | UpdatePlan(plan: Plan)
    | DeletePlan(planId: string)
    | AddServer(server: Server)
    | UpdateServer(server: Server)
    | DeleteServer(serverId: string)
    | UpdateTemplate(template: MessageTemplate)
    | AddNotifications(batch: seq<NewNotification>)

  /** The collection an action changes. */
  datatype Collection = Clients | Plans | Servers | Templates | Notifications

  function Target(a: Action): Collection {
    match a
    case AddClient(_) => Clients
    case UpdateClient(_) => Clients
    case DeleteClient(_) => Clients
    case AddPlan(_) => Plans
    case UpdatePlan(_) => Plans
    case DeletePlan(_) => Plans
    case AddServer(_) => Servers
    case UpdateServer(_) => Servers
    case DeleteServer(_) => Servers
    case UpdateTemplate(_) => Templates
    case AddNotifications(_) => Notifications
  }

  /** The collections other than the action's target are left as they were. */
  predicate OnlyTargetChanges(before: Db, after: Db, a: Action) {
    && (Target(a) != Clients ==> after.clients == before.clients)
    && (Target(a) != Plans ==> after.plans == before.plans)
    && (Target(a) != Servers ==> after.servers == before.servers)
    && (Target(a) != Templates ==> after.templates == before.templates)
    && (Target(a) != Notifications ==> after.notifications == before.notifications)
  }

  function ClientKey(c: Client): string { c.id }
  function PlanKey(p: Plan): string { p.id }
  function ServerKey(s: Server): string { s.id }
  function TemplateKey(t: MessageTemplate): string { t.id }
}
