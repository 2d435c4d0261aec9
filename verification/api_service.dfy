/** The storage service: the same five collections held in module state, with
    asynchronous operations that either resolve with a value or throw. Reading a
    collection (`getClients` and the others) returns a copy, which with value
    semantics is the collection itself (`db.clients`). */
module ApiService {
  import opened Wrappers
  import opened Types
  import opened Digits
  import Records
  import Notifications
  import App

  /** What a successful operation resolves with. */
  datatype Reply =
    | ClientReply(client: Client)
    | PlanReply(plan: Plan)
    | ServerReply(server: Server)
    | TemplateReply(template: MessageTemplate)
    | Done
    | Logs(logs: seq<NotificationLog>)

  /** An update naming an id that no record of its collection has. */
  predicate UpdateMisses(db: Db, action: Action) {
    match action
    case UpdateClient(c) => !Records.HasId(db.clients, c.id, ClientKey)
    case UpdatePlan(p) => !Records.HasId(db.plans, p.id, PlanKey)
    case UpdateServer(s) => !Records.HasId(db.servers, s.id, ServerKey)
    case UpdateTemplate(t) => !Records.HasId(db.templates, t.id, TemplateKey)
    case _ => false
  }

  /** The message of the `Error` a failing update throws. Notifications are
      only ever added, so the last branch is never reached: `Handle` fails only
      on an update (see its contract), and its text is not the service's. */
  function NotFound(c: Collection): string {
    match c
    case Clients => "Client not found"
    case Plans => "Plan not found"
    case Servers => "Server not found"
    case Templates => "Template not found"
    case Notifications => "Notification not found"
  }

  /** `addClient`, `updateClient` and `deleteClient`. */
  function ClientsOp(clients: seq<Client>, action: Action, now: nat): (r: (seq<Client>, Result<Reply, string>))
    requires Target(action) == Clients
    ensures r.1.Err? <==> action.UpdateClient? && !Records.HasId(clients, action.client.id, ClientKey)
    ensures r.1.Err? ==> r.0 == clients && r.1.error == "Client not found"
    ensures action.AddClient? ==>
      var created := action.client.(id := "client-" + Decimal(now, 0));
      r.0 == clients + [created] && r.1 == Ok(ClientReply(created))
    ensures action.UpdateClient? && r.1.Ok? ==>
      var i := Records.FindIndex(clients, action.client.id, ClientKey);
      && |r.0| == |clients|
      && r.0[i] == action.client
      && (forall k :: 0 <= k < |clients| && k != i ==> r.0[k] == clients[k])
      && r.1 == Ok(ClientReply(action.client))
    ensures action.DeleteClient? ==> Records.Removed(clients, r.0, action.clientId, ClientKey) && r.1 == Ok(Done)
    ensures action.DeleteClient? ==> r.0 == Records.RemoveMatching(clients, action.clientId, ClientKey)
  {
    match action
    case AddClient(c) =>
      var created := c.(id := "client-" + Decimal(now, 0));
      (clients + [created], Ok(ClientReply(created)))
    case UpdateClient(c) =>
      (match Records.ReplaceFirst(clients, c, ClientKey)
       case None => (clients, Err(NotFound(Clients)))
       case Some(s) => (s, Ok(ClientReply(c))))
    case DeleteClient(id) => (Records.RemoveMatching(clients, id, ClientKey), Ok(Done))
  }

  /** `addPlan`, `updatePlan` and `deletePlan`. */
  function PlansOp(plans: seq<Plan>, action: Action, now: nat): (r: (seq<Plan>, Result<Reply, string>))
    requires Target(action) == Plans
    ensures r.1.Err? <==> action.UpdatePlan? && !Records.HasId(plans, action.plan.id, PlanKey)
    ensures r.1.Err? ==> r.0 == plans && r.1.error == "Plan not found"
    ensures action.AddPlan? ==>
      var created := action.plan.(id := "plan-" + Decimal(now, 0));
      r.0 == plans + [created] && r.1 == Ok(PlanReply(created))
    ensures action.UpdatePlan? && r.1.Ok? ==>
      var i := Records.FindIndex(plans, action.plan.id, PlanKey);
      && |r.0| == |plans|
      && r.0[i] == action.plan
      && (forall k :: 0 <= k < |plans| && k != i ==> r.0[k] == plans[k])
      && r.1 == Ok(PlanReply(action.plan))
    ensures action.DeletePlan? ==> Records.Removed(plans, r.0, action.planId, PlanKey) && r.1 == Ok(Done)
    ensures action.DeletePlan? ==> r.0 == Records.RemoveMatching(plans, action.planId, PlanKey)
  {
    match action
    case AddPlan(p) =>
      var created := p.(id := "plan-" + Decimal(now, 0));
      (plans + [created], Ok(PlanReply(created)))
    case UpdatePlan(p) =>
      (match Records.ReplaceFirst(plans, p, PlanKey)
       case None => (plans, Err(NotFound(Plans)))
       case Some(s) => (s, Ok(PlanReply(p))))
    case DeletePlan(id) => (Records.RemoveMatching(plans, id, PlanKey), Ok(Done))
  }

  /** `addServer`, `updateServer` and `deleteServer`. */
  function ServersOp(servers: seq<Server>, action: Action, now: nat): (r: (seq<Server>, Result<Reply, string>))
    requires Target(action) == Servers
    ensures r.1.Err? <==> action.UpdateServer? && !Records.HasId(servers, action.server.id, ServerKey)
    ensures r.1.Err? ==> r.0 == servers && r.1.error == "Server not found"
    ensures action.AddServer? ==>
      var created := action.server.(id := "server-" + Decimal(now, 0));
      r.0 == servers + [created] && r.1 == Ok(ServerReply(created))
    ensures action.UpdateServer? && r.1.Ok? ==>
      var i := Records.FindIndex(servers, action.server.id, ServerKey);
      && |r.0| == |servers|
      && r.0[i] == action.server
      && (forall k :: 0 <= k < |servers| && k != i ==> r.0[k] == servers[k])
      && r.1 == Ok(ServerReply(action.server))
    ensures action.DeleteServer? ==> Records.Removed(servers, r.0, action.serverId, ServerKey) && r.1 == Ok(Done)
    ensures action.DeleteServer? ==> r.0 == Records.RemoveMatching(servers, action.serverId, ServerKey)
  {
    match action
    case AddServer(s) =>
      var created := s.(id := "server-" + Decimal(now, 0));
      (servers + [created], Ok(ServerReply(created)))
    case UpdateServer(s) =>
      (match Records.ReplaceFirst(servers, s, ServerKey)
       case None => (servers, Err(NotFound(Servers)))
       case Some(ss) => (ss, Ok(ServerReply(s))))
    case DeleteServer(id) => (Records.RemoveMatching(servers, id, ServerKey), Ok(Done))
  }

  /** `updateTemplate`. */
  function TemplatesOp(templates: seq<MessageTemplate>, action: Action): (r: (seq<MessageTemplate>, Result<Reply, string>))
    requires Target(action) == Templates
    ensures r.1.Err? <==> !Records.HasId(templates, action.template.id, TemplateKey)
    ensures r.1.Err? ==> r.0 == templates && r.1.error == "Template not found"
    ensures r.1.Ok? ==>
      var i := Records.FindIndex(templates, action.template.id, TemplateKey);
      && |r.0| == |templates|
      && r.0[i] == action.template
      && (forall k :: 0 <= k < |templates| && k != i ==> r.0[k] == templates[k])
      && r.1 == Ok(TemplateReply(action.template))
  {
    match Records.ReplaceFirst(templates, action.template, TemplateKey)
    case None => (templates, Err(NotFound(Templates)))
    case Some(s) => (s, Ok(TemplateReply(action.template)))
  }

  /** `addNotifications`: resolves with the stamped batch, stores the merge. */
  function NotificationsOp(log: seq<NotificationLog>, action: Action, now: nat): (r: (seq<NotificationLog>, Result<Reply, string>))
    requires Target(action) == Notifications
    ensures r.1 == Ok(Logs(Notifications.Stamp(action.batch, now)))
    ensures |r.0| == |log| + |action.batch|
    ensures multiset(r.0) == multiset(r.1.value.logs) + multiset(log)
    ensures Notifications.NewestFirst(r.0)
  {
    var (stamped, merged) := Notifications.Record(log, action.batch, now);
    (merged, Ok(Logs(stamped)))
  }

  /** The operation for `action` at clock time `now`: the collections after it,
      and what it resolves with or the message it throws. */
  function Handle(db: Db, action: Action, now: nat): (r: (Db, Result<Reply, string>))
    ensures OnlyTargetChanges(db, r.0, action)
    ensures r.1.Err? <==> UpdateMisses(db, action)
    ensures r.1.Err? ==> r.0 == db && r.1.error == NotFound(Target(action))
  {
    match Target(action)
    case Clients =>
      var (s, res) := ClientsOp(db.clients, action, now);
      (db.(clients := s), res)
    case Plans =>
      var (s, res) := PlansOp(db.plans, action, now);
      (db.(plans := s), res)
    case Servers =>
      var (s, res) := ServersOp(db.servers, action, now);
      (db.(servers := s), res)
    case Templates =>
      var (s, res) := TemplatesOp(db.templates, action);
      (db.(templates := s), res)
    case Notifications =>
      var (s, res) := NotificationsOp(db.notifications, action, now);
      (db.(notifications := s), res)
  }

  /** The ids of every keyed collection are unique. */
  predicate UniqueKeys(db: Db) {
    && Records.UniqueIds(db.clients, ClientKey)
    && Records.UniqueIds(db.plans, PlanKey)
    && Records.UniqueIds(db.servers, ServerKey)
    && Records.UniqueIds(db.templates, TemplateKey)
  }

  /** While ids are unique, a successful update, delete or notification batch
      leaves the service with the collections the root component computes. */
  lemma AgreesWithScreens(db: Db, action: Action, now: nat)
    requires UniqueKeys(db)
    requires !(action.AddClient? || action.AddPlan? || action.AddServer?)
    requires Handle(db, action, now).1.Ok?
    ensures Handle(db, action, now).0 == App.Apply(db, action, now)
  {
    match action
    case UpdateClient(c) => Records.ReplaceFirstAgrees(db.clients, c, ClientKey);
    case UpdatePlan(p) => Records.ReplaceFirstAgrees(db.plans, p, PlanKey);
    case UpdateServer(s) => Records.ReplaceFirstAgrees(db.servers, s, ServerKey);
    case UpdateTemplate(t) => Records.ReplaceFirstAgrees(db.templates, t, TemplateKey);
    case _ =>
  }

  /** Adding differs between the two layers only in the id the new record gets. */
  lemma AddsDifferOnlyInId(db: Db, c: Client, now: nat)
    ensures Handle(db, AddClient(c), now).0.clients
         == App.Apply(db, AddClient(c), now).clients[|db.clients| := c.(id := "client-" + Decimal(now, 0))]
  {
  }

  /** Where the service throws "not found", the root component's update
      silently changes nothing. */
  lemma MissedUpdateIsNoOpOnScreens(db: Db, action: Action, now: nat)
    requires UpdateMisses(db, action)
    ensures Handle(db, action, now).0 == db
    ensures App.Apply(db, action, now) == db
  {
    match action
    case UpdateClient(c) => Records.ReplaceAbsent(db.clients, c, ClientKey);
    case UpdatePlan(p) => Records.ReplaceAbsent(db.plans, p, PlanKey);
    case UpdateServer(s) => Records.ReplaceAbsent(db.servers, s, ServerKey);
    case UpdateTemplate(t) => Records.ReplaceAbsent(db.templates, t, TemplateKey);
  }
}
