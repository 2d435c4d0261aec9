/** The state handlers of the root component: each replaces one collection by
    a new sequence computed from the previous one. */
module App {
  import opened Types
  import opened Digits
  import Records
  import Notifications

  /** `Date.now().toString()`, the id the root component gives a new record. */
  function NowId(now: nat): string {
    Decimal(now, 0)
  }

  /** The client handlers: `addClient` appends the record under a fresh id,
      `updateClient` maps matching ids to the new record, `deleteClient`
      filters them out. */
  function ApplyClients(clients: seq<Client>, action: Action, now: nat): (r: seq<Client>)
    ensures Target(action) != Clients ==> r == clients
    ensures action.AddClient? ==>
      && |r| == |clients| + 1
      && r[..|clients|] == clients
      && r[|clients|] == action.client.(id := NowId(now))
    ensures action.UpdateClient? ==> Records.Replaced(clients, r, action.client, ClientKey)
    ensures action.DeleteClient? ==> Records.Removed(clients, r, action.clientId, ClientKey)
    ensures action.DeleteClient? ==> r == Records.RemoveMatching(clients, action.clientId, ClientKey)
  {
    match action
    case AddClient(c) => clients + [c.(id := NowId(now))]
    case UpdateClient(c) => Records.ReplaceMatching(clients, c, ClientKey)
    case DeleteClient(id) => Records.RemoveMatching(clients, id, ClientKey)
    case _ => clients
  }

  /** The plan handlers, with the same append / replace / filter behaviour. */
  function ApplyPlans(plans: seq<Plan>, action: Action, now: nat): (r: seq<Plan>)
    ensures Target(action) != Plans ==> r == plans
    ensures action.AddPlan? ==>
      && |r| == |plans| + 1
      && r[..|plans|] == plans
      && r[|plans|] == action.plan.(id := NowId(now))
    ensures action.UpdatePlan? ==> Records.Replaced(plans, r, action.plan, PlanKey)
    ensures action.DeletePlan? ==> Records.Removed(plans, r, action.planId, PlanKey)
    ensures action.DeletePlan? ==> r == Records.RemoveMatching(plans, action.planId, PlanKey)
  {
    match action
    case AddPlan(p) => plans + [p.(id := NowId(now))]
    case UpdatePlan(p) => Records.ReplaceMatching(plans, p, PlanKey)
    case DeletePlan(id) => Records.RemoveMatching(plans, id, PlanKey)
    case _ => plans
  }

  /** The server handlers, with the same append / replace / filter behaviour. */
  function ApplyServers(servers: seq<Server>, action: Action, now: nat): (r: seq<Server>)
    ensures Target(action) != Servers ==> r == servers
    ensures action.AddServer? ==>
      && |r| == |servers| + 1
      && r[..|servers|] == servers
      && r[|servers|] == action.server.(id := NowId(now))
    ensures action.UpdateServer? ==> Records.Replaced(servers, r, action.server, ServerKey)
    ensures action.DeleteServer? ==> Records.Removed(servers, r, action.serverId, ServerKey)
    ensures action.DeleteServer? ==> r == Records.RemoveMatching(servers, action.serverId, ServerKey)
  {
    match action
    case AddServer(s) => servers + [s.(id := NowId(now))]
    case UpdateServer(s) => Records.ReplaceMatching(servers, s, ServerKey)
    case DeleteServer(id) => Records.RemoveMatching(servers, id, ServerKey)
    case _ => servers
  }

  /** Templates can only be edited. */
  function ApplyTemplates(templates: seq<MessageTemplate>, action: Action): (r: seq<MessageTemplate>)
    ensures Target(action) != Templates ==> r == templates
    ensures action.UpdateTemplate? ==> Records.Replaced(templates, r, action.template, TemplateKey)
  {
    match action
    case UpdateTemplate(t) => Records.ReplaceMatching(templates, t, TemplateKey)
    case _ => templates
  }

  /** `addNotifications`: the batch is stamped and merged newest first. */
  function ApplyNotifications(log: seq<NotificationLog>, action: Action, now: nat): (r: seq<NotificationLog>)
    ensures Target(action) != Notifications ==> r == log
    ensures action.AddNotifications? ==>
      && |r| == |log| + |action.batch|
      && multiset(r) == multiset(Notifications.Stamp(action.batch, now)) + multiset(log)
      && Notifications.NewestFirst(r)
  {
    match action
    case AddNotifications(batch) => Notifications.Record(log, batch, now).1
    case _ => log
  }

  /** The handler for `action` at clock time `now` (milliseconds): each
      collection goes through its own handlers, so only the target changes. */
  function Apply(db: Db, action: Action, now: nat): (r: Db)
    ensures OnlyTargetChanges(db, r, action)
  {
    Db(ApplyClients(db.clients, action, now),
       ApplyPlans(db.plans, action, now),
       ApplyServers(db.servers, action, now),
       ApplyTemplates(db.templates, action),
       ApplyNotifications(db.notifications, action, now))
  }
}
