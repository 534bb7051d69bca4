// Query-string filters of the ticket list and the ticket event list. Each
// filter narrows the rows in turn, keeping their order; an absent
// parameter keeps every row.
module Filters {
  import opened Wrappers
  import opened Text
  import opened Models

  /** The rows of `s` that satisfy `p`, in their original order. */
  function Keep<T>(s: seq<T>, p: T -> bool): (r: seq<T>)
    ensures |r| <= |s|
  {
    if |s| == 0 then []
    else if p(s[0]) then [s[0]] + Keep(s[1..], p)
    else Keep(s[1..], p)
  }

  /** A row survives `Keep` exactly when it is a row of `s` that satisfies `p`. */
  lemma {:induction false} KeepIff<T>(s: seq<T>, p: T -> bool, x: T)
    ensures x in Keep(s, p) <==> x in s && p(x)
  {
    if |s| > 0 {
      KeepIff(s[1..], p, x);
      assert s == [s[0]] + s[1..];
    }
  }

  /** `field__icontains=value`, with ASCII case folding. */
  predicate IContains(field: string, value: string) {
    Contains(Lower(field), Lower(value))
  }

  // ---------------------------------------------------------------- tickets

  /** The ticket list's query parameters; `None` when not given. An empty
      value is skipped like a missing one, so `assignedTeam == Some("")`
      filters nothing; the enumerations and times are already parsed, and an
      empty value for them is `None`. */
  datatype TicketQuery = TicketQuery(
    status: Option<TicketStatus>,
    priority: Option<Priority>,
    assignedTeam: Option<string>,
    createdFrom: Option<Time>,
    createdTo: Option<Time>,
    q: Option<string>)

  /** Does the ticket mention `value` (already stripped) in its subject, body or requester e-mail? */
  predicate MentionsQ(t: Ticket, value: string) {
    IContains(t.subject, value) || IContains(t.body, value) || IContains(t.requesterEmail, value)
  }

  // One parameter each: exact matches and inclusive date bounds.
  function StatusIs(v: TicketStatus): Ticket -> bool { (t: Ticket) => t.status == v }
  function PriorityIs(v: Priority): Ticket -> bool { (t: Ticket) => t.priority == v }
  function TeamIs(v: string): Ticket -> bool { (t: Ticket) => t.assignedTeam == v }
  function TicketFrom(v: Time): Ticket -> bool { (t: Ticket) => t.createdAt >= v }
  function TicketTo(v: Time): Ticket -> bool { (t: Ticket) => t.createdAt <= v }
  function Mentioning(v: string): Ticket -> bool { (t: Ticket) => MentionsQ(t, v) }

  /** `filter_q`: a blank (after stripping) value keeps every ticket. */
  function FilterQ(ts: seq<Ticket>, value: Option<string>): (r: seq<Ticket>)
  {
    var v := Strip(value.GetOr(""));
    if v == [] then ts else Keep(ts, Mentioning(v))
  }

  /** The ticket list after every given parameter has narrowed it in turn. */
  function FilterTickets(ts: seq<Ticket>, f: TicketQuery): (r: seq<Ticket>)
  {
    var a := if f.status.Some? then Keep(ts, StatusIs(f.status.value)) else ts;
    var b := if f.priority.Some? then Keep(a, PriorityIs(f.priority.value)) else a;
    var c := if f.assignedTeam.Some? && f.assignedTeam.value != "" then Keep(b, TeamIs(f.assignedTeam.value)) else b;
    var d := if f.createdFrom.Some? then Keep(c, TicketFrom(f.createdFrom.value)) else c;
    var e := if f.createdTo.Some? then Keep(d, TicketTo(f.createdTo.value)) else d;
    FilterQ(e, f.q)
  }

  /** What a ticket must satisfy to be listed: every given parameter,
      with inclusive date bounds and a case-insensitive search. */
  predicate TicketMatches(t: Ticket, f: TicketQuery) {
    && (f.status.Some? ==> t.status == f.status.value)
    && (f.priority.Some? ==> t.priority == f.priority.value)
    && (f.assignedTeam.Some? && f.assignedTeam.value != "" ==> t.assignedTeam == f.assignedTeam.value)
    && (f.createdFrom.Some? ==> f.createdFrom.value <= t.createdAt)
    && (f.createdTo.Some? ==> t.createdAt <= f.createdTo.value)
    && (Strip(f.q.GetOr("")) != [] ==> MentionsQ(t, Strip(f.q.GetOr(""))))
  }

  /** A ticket is listed exactly when it is one of the input tickets and
      matches every given parameter: the filters combine conjunctively. */
  lemma FilterTicketsIff(ts: seq<Ticket>, f: TicketQuery, t: Ticket)
    ensures t in FilterTickets(ts, f) <==> t in ts && TicketMatches(t, f)
  {
    var a := if f.status.Some? then Keep(ts, StatusIs(f.status.value)) else ts;
    var b := if f.priority.Some? then Keep(a, PriorityIs(f.priority.value)) else a;
    var c := if f.assignedTeam.Some? && f.assignedTeam.value != "" then Keep(b, TeamIs(f.assignedTeam.value)) else b;
    var d := if f.createdFrom.Some? then Keep(c, TicketFrom(f.createdFrom.value)) else c;
    var e := if f.createdTo.Some? then Keep(d, TicketTo(f.createdTo.value)) else d;
    if f.status.Some? { KeepIff(ts, StatusIs(f.status.value), t); }
    if f.priority.Some? { KeepIff(a, PriorityIs(f.priority.value), t); }
    if f.assignedTeam.Some? && f.assignedTeam.value != "" { KeepIff(b, TeamIs(f.assignedTeam.value), t); }
    if f.createdFrom.Some? { KeepIff(c, TicketFrom(f.createdFrom.value), t); }
    if f.createdTo.Some? { KeepIff(d, TicketTo(f.createdTo.value), t); }
    var v := Strip(f.q.GetOr(""));
    if v != [] { KeepIff(e, Mentioning(v), t); }
  }

  /** A blank or whitespace-only `q` leaves the list as it is. */
  lemma BlankQueryKeepsAll(ts: seq<Ticket>, value: Option<string>)
    requires IsBlank(value.GetOr(""))
    ensures FilterQ(ts, value) == ts
  {
    StripEmptyIffBlank(value.GetOr(""));
  }

  /** With no parameter at all, or only empty ones, the whole list is
      returned, in order. */
  lemma NoParametersKeepAll(ts: seq<Ticket>)
    ensures FilterTickets(ts, TicketQuery(None, None, None, None, None, None)) == ts
    ensures FilterTickets(ts, TicketQuery(None, None, Some(""), None, None, Some(""))) == ts
  {
    assert Strip("") == [];
  }

  /** Searching is case-insensitive in the query: an upper-cased ASCII
      query finds the same tickets. */
  lemma QueryCaseInsensitive(t: Ticket, v: string, w: string)
    requires Lower(v) == Lower(w)
    ensures MentionsQ(t, v) <==> MentionsQ(t, w)
  {
  }

  // ----------------------------------------------------------------- events

  /** The event list's query parameters. */
  datatype EventQuery = EventQuery(
    eventType: Option<EventType>,
    actorType: Option<ActorType>,
    createdFrom: Option<Time>,
    createdTo: Option<Time>)

  function TypeIs(v: EventType): TicketEvent -> bool { (e: TicketEvent) => e.eventType == v }
  function ActorIs(v: ActorType): TicketEvent -> bool { (e: TicketEvent) => e.actorType == v }
  function EventFrom(v: Time): TicketEvent -> bool { (e: TicketEvent) => e.createdAt >= v }
  function EventTo(v: Time): TicketEvent -> bool { (e: TicketEvent) => e.createdAt <= v }

  function FilterEvents(es: seq<TicketEvent>, f: EventQuery): (r: seq<TicketEvent>)
  {
    var a := if f.eventType.Some? then Keep(es, TypeIs(f.eventType.value)) else es;
    var b := if f.actorType.Some? then Keep(a, ActorIs(f.actorType.value)) else a;
    var c := if f.createdFrom.Some? then Keep(b, EventFrom(f.createdFrom.value)) else b;
    if f.createdTo.Some? then Keep(c, EventTo(f.createdTo.value)) else c
  }

  predicate EventMatches(e: TicketEvent, f: EventQuery) {
    && (f.eventType.Some? ==> e.eventType == f.eventType.value)
    && (f.actorType.Some? ==> e.actorType == f.actorType.value)
    && (f.createdFrom.Some? ==> f.createdFrom.value <= e.createdAt)
    && (f.createdTo.Some? ==> e.createdAt <= f.createdTo.value)
  }

  /** An event is listed exactly when it matches the type, the actor and the
      inclusive date range that were given. */
  lemma FilterEventsIff(es: seq<TicketEvent>, f: EventQuery, e: TicketEvent)
    ensures e in FilterEvents(es, f) <==> e in es && EventMatches(e, f)
  {
    var a := if f.eventType.Some? then Keep(es, TypeIs(f.eventType.value)) else es;
    var b := if f.actorType.Some? then Keep(a, ActorIs(f.actorType.value)) else a;
    var c := if f.createdFrom.Some? then Keep(b, EventFrom(f.createdFrom.value)) else b;
    if f.eventType.Some? { KeepIff(es, TypeIs(f.eventType.value), e); }
    if f.actorType.Some? { KeepIff(a, ActorIs(f.actorType.value), e); }
    if f.createdFrom.Some? { KeepIff(b, EventFrom(f.createdFrom.value), e); }
    if f.createdTo.Some? { KeepIff(c, EventTo(f.createdTo.value), e); }
  }
}
