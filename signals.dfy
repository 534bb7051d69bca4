// The ticket save hooks: before a save the stored row is remembered, after
// it a creation event or one event per changed tracked column is recorded.
module Signals {
  import opened Wrappers
  import opened Json
  import opened Models
  import opened Db

  /** `ticket_pre_save`: the stored row of a ticket that has a (non-zero)
      primary key and is in the table, otherwise nothing. */
  function PreSaveOld(tickets: map<nat, Ticket>, pk: Option<nat>): (r: Option<Ticket>)
    ensures r.Some? <==> pk.Some? && pk.value != 0 && pk.value in tickets
    ensures r.Some? ==> r.value == tickets[pk.value]
  {
    if pk.None? || pk.value == 0 then None
    else if pk.value in tickets then Some(tickets[pk.value])
    else None
  }

  /** The actor recorded on the events: the one the caller set on the
      instance, the system otherwise. */
  function EventActor(actor: Option<ActorType>): (r: ActorType)
    ensures actor.Some? ==> r == actor.value
    ensures actor.None? ==> r == System
  {
    actor.GetOr(System)
  }

  function ChangePayload(from: string, to: string): Json {
    JObj(map["from" := JStr(from), "to" := JStr(to)])
  }

  /** The creation event's payload: the ticket's status, priority and team. */
  function CreatedPayload(t: Ticket): Json {
    JObj(map["status" := JStr(t.status.Code()), "priority" := JStr(t.priority.Code()),
             "assigned_team" := JStr(t.assignedTeam)])
  }

  /** An event of the save hooks: no job run and no acting user. */
  function HookEvent(id: nat, t: Ticket, kind: EventType, actor: ActorType, payload: Json, now: Time): TicketEvent {
    TicketEvent(t.org, id, None, kind, actor, None, payload, now)
  }

  /** The events for an update: status, priority and team, in that order,
      each when its value changed. */
  function ChangeEvents(id: nat, before: Ticket, t: Ticket, actor: ActorType, now: Time): (r: seq<TicketEvent>)
    ensures |r| <= 3
    ensures forall i :: 0 <= i < |r| ==>
              && r[i].ticket == id && r[i].org == t.org && r[i].jobRun.None?
              && r[i].actorType == actor && r[i].actorUser.None?
  {
    (if before.status != t.status
     then [HookEvent(id, t, StatusChanged, actor, ChangePayload(before.status.Code(), t.status.Code()), now)]
     else [])
    + (if before.priority != t.priority
       then [HookEvent(id, t, PriorityChanged, actor, ChangePayload(before.priority.Code(), t.priority.Code()), now)]
       else [])
    + (if before.assignedTeam != t.assignedTeam
       then [HookEvent(id, t, AssignedTeamChanged, actor, ChangePayload(before.assignedTeam, t.assignedTeam), now)]
       else [])
  }

  /** `ticket_post_save`: a created ticket gets one creation event unless
      the caller asked to skip it; an updated ticket whose previous row is
      known gets its change events; otherwise nothing is recorded. */
  function PostSaveEvents(id: nat, t: Ticket, created: bool, skipCreated: bool, actor: Option<ActorType>,
                          before: Option<Ticket>, now: Time): (r: seq<TicketEvent>)
    ensures forall i :: 0 <= i < |r| ==> r[i].jobRun.None? && r[i].ticket == id
    ensures created && skipCreated ==> r == []
    ensures created && !skipCreated ==>
              && |r| == 1 && r[0].eventType == Created && r[0].org == t.org
              && r[0].actorType == EventActor(actor) && r[0].actorUser.None?
              && r[0].payload == CreatedPayload(t) && r[0].createdAt == now
    ensures !created && before.None? ==> r == []
    ensures !created && before.Some? ==> r == ChangeEvents(id, before.value, t, EventActor(actor), now)
  {
    if created then
      if skipCreated then [] else [HookEvent(id, t, Created, EventActor(actor), CreatedPayload(t), now)]
    else if before.None? then []
    else ChangeEvents(id, before.value, t, EventActor(actor), now)
  }

  /** The position of a change event type in the order the hook checks them. */
  function ChangeRank(kind: EventType): nat {
    match kind
    case StatusChanged => 0
    case PriorityChanged => 1
    case AssignedTeamChanged => 2
    case _ => 3
  }

  /** An event of the given type is recorded exactly when its column
      changed, and it carries the old and the new value. */
  lemma ChangeEventsIff(id: nat, before: Ticket, t: Ticket, actor: ActorType, now: Time)
    ensures var r := ChangeEvents(id, before, t, actor, now);
            && ((exists i :: 0 <= i < |r| && r[i].eventType == StatusChanged) <==> before.status != t.status)
            && ((exists i :: 0 <= i < |r| && r[i].eventType == PriorityChanged) <==> before.priority != t.priority)
            && ((exists i :: 0 <= i < |r| && r[i].eventType == AssignedTeamChanged) <==> before.assignedTeam != t.assignedTeam)
            && (forall i :: 0 <= i < |r| && r[i].eventType == StatusChanged ==>
                  r[i].payload == ChangePayload(before.status.Code(), t.status.Code()))
            && (forall i :: 0 <= i < |r| && r[i].eventType == PriorityChanged ==>
                  r[i].payload == ChangePayload(before.priority.Code(), t.priority.Code()))
            && (forall i :: 0 <= i < |r| && r[i].eventType == AssignedTeamChanged ==>
                  r[i].payload == ChangePayload(before.assignedTeam, t.assignedTeam))
  {
    var s := if before.status != t.status
             then [HookEvent(id, t, StatusChanged, actor, ChangePayload(before.status.Code(), t.status.Code()), now)]
             else [];
    var p := if before.priority != t.priority
             then [HookEvent(id, t, PriorityChanged, actor, ChangePayload(before.priority.Code(), t.priority.Code()), now)]
             else [];
    var a := if before.assignedTeam != t.assignedTeam
             then [HookEvent(id, t, AssignedTeamChanged, actor, ChangePayload(before.assignedTeam, t.assignedTeam), now)]
             else [];
    var r := ChangeEvents(id, before, t, actor, now);
    assert r == s + p + a;
    forall i | 0 <= i < |r|
      ensures r[i] == if i < |s| then s[0] else if i < |s| + |p| then p[0] else a[0]
    {
    }
    if before.status != t.status { assert r[0] == s[0]; }
    if before.priority != t.priority { assert r[|s|] == p[0]; }
    if before.assignedTeam != t.assignedTeam { assert r[|s| + |p|] == a[0]; }
  }

  /** The change events come in the order status, priority, team, with no
      type twice, and none at all when no tracked column changed. */
  lemma ChangeEventsOrdered(id: nat, before: Ticket, t: Ticket, actor: ActorType, now: Time)
    ensures var r := ChangeEvents(id, before, t, actor, now);
            && (forall i, j :: 0 <= i < j < |r| ==> ChangeRank(r[i].eventType) < ChangeRank(r[j].eventType))
            && (forall i :: 0 <= i < |r| ==> ChangeRank(r[i].eventType) < 3)
            && (r == [] <==> before.status == t.status && before.priority == t.priority
                             && before.assignedTeam == t.assignedTeam)
  {
    var s := if before.status != t.status
             then [HookEvent(id, t, StatusChanged, actor, ChangePayload(before.status.Code(), t.status.Code()), now)]
             else [];
    var p := if before.priority != t.priority
             then [HookEvent(id, t, PriorityChanged, actor, ChangePayload(before.priority.Code(), t.priority.Code()), now)]
             else [];
    var a := if before.assignedTeam != t.assignedTeam
             then [HookEvent(id, t, AssignedTeamChanged, actor, ChangePayload(before.assignedTeam, t.assignedTeam), now)]
             else [];
    var r := ChangeEvents(id, before, t, actor, now);
    assert r == s + p + a;
    forall i | 0 <= i < |r|
      ensures ChangeRank(r[i].eventType) == if i < |s| then 0 else if i < |s| + |p| then 1 else 2
    {
      if i < |s| { assert r[i] == s[0]; }
      else if i < |s| + |p| { assert r[i] == p[0]; }
      else { assert r[i] == a[0]; }
    }
  }

  /** `save()` of a ticket with the two hooks around it. A ticket without a
      primary key is inserted under a fresh id (created); one with a stored
      primary key is updated. The ticket row and the hook's events are the
      only changes. */
  method SaveTicket(db: Database, pk: Option<nat>, t: Ticket, skipCreated: bool, actor: Option<ActorType>, now: Time)
    returns (id: nat)
    requires db.Valid()
    requires pk.Some? ==> pk.value in db.tickets && t.org == db.tickets[pk.value].org
    modifies db
    ensures db.Valid()
    ensures id == if pk.None? then old(db.nextId) else pk.value
    ensures db.State() == old(db.State()).(
              tickets := old(db.tickets)[id := t],
              events := old(db.events)
                        + PostSaveEvents(id, t, pk.None?, skipCreated, actor, PreSaveOld(old(db.tickets), pk), now),
              nextId := if pk.None? then old(db.nextId) + 1 else old(db.nextId))
  {
    var before := PreSaveOld(db.tickets, pk);
    if pk.None? {
      id := db.NewId();
      db.InsertTicket(id, t);
    } else {
      id := pk.value;
      db.UpdateTicket(id, t);
    }
    var more := PostSaveEvents(id, t, pk.None?, skipCreated, actor, before, now);
    AppendJoblessEvents(db.events, more);
    db.AppendEvents(more);
  }
}
