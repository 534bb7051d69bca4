// The tables of the triage service: enumerations, rows, the JobRun record
// with its state-changing methods, and the storage-level uniqueness
// constraints of the schema.
module Models {
  import opened Wrappers
  import opened Json

  /** A point in time as read from the clock; the clock itself is an input. */
  type Time = nat

  /** Storage width of the `JobRun.idempotency_key` column. */
  const MaxKeyLength: nat := 80

  datatype Role = Admin | Agent | Viewer {
    function Code(): string {
      match this
      case Admin => "admin"
      case Agent => "agent"
      case Viewer => "viewer"
    }
  }

  datatype TicketStatus = Open | InProgress | Resolved {
    function Code(): string {
      match this
      case Open => "open"
      case InProgress => "in_progress"
      case Resolved => "resolved"
    }
  }

  datatype Priority = Low | Medium | High | Urgent {
    function Code(): string {
      match this
      case Low => "low"
      case Medium => "medium"
      case High => "high"
      case Urgent => "urgent"
    }
  }

  datatype EventType =
    | Created | StatusChanged | PriorityChanged | AssignedTeamChanged | CommentAdded
    | AiTriageRan | AiSuggestionCreated | AutoResolutionApplied
    | SuggestionApproved | SuggestionRejected

  datatype ActorType = User | System | Ai | Webhook

  datatype JobStatus = Queued | Running | Succeeded | Failed {
    function Code(): string {
      match this
      case Queued => "queued"
      case Running => "running"
      case Succeeded => "succeeded"
      case Failed => "failed"
    }
  }

  datatype SuggestionStatus = Pending | Accepted | Rejected {
    function Code(): string {
      match this
      case Pending => "pending"
      case Accepted => "accepted"
      case Rejected => "rejected"
    }
  }

  datatype Membership = Membership(user: nat, org: nat, role: Role)

  datatype Ticket = Ticket(
    org: nat,
    requesterEmail: string,
    subject: string,
    body: string,
    status: TicketStatus,
    priority: Priority,
    assignedTeam: string,
    createdAt: Time)

  datatype TicketEvent = TicketEvent(
    org: nat,
    ticket: nat,
    jobRun: Option<nat>,
    eventType: EventType,
    actorType: ActorType,
    actorUser: Option<nat>,
    payload: Json,
    createdAt: Time)

  /** A classifier suggestion. `classification`, `confidence` and `citations`
      are columns the triage task and the serializer use. */
  datatype Suggestion = Suggestion(
    org: nat,
    ticket: nat,
    jobRun: nat,
    status: SuggestionStatus,
    suggestedPriority: Option<Priority>,
    suggestedTeam: string,
    draftReply: string,
    classification: string,
    confidence: Option<real>,
    citations: seq<nat>,
    metadata: Json,
    createdAt: Time)

  datatype Document = Document(
    org: nat,
    title: string,
    text: string,
    uploadedBy: Option<nat>,
    metadata: Json)

  /** A knowledge-base chunk row; `embedding` is NULL until computed. */
  datatype DocumentChunk = DocumentChunk(
    id: nat,
    org: nat,
    document: nat,
    chunkIndex: nat,
    text: string,
    embedding: Option<seq<real>>,
    charStart: nat,
    charEnd: nat)

  /** One triage attempt. The identifying columns never change after
      insertion; the lifecycle columns are updated in place by the `Mark*`
      methods, each of which writes exactly the columns it names. */
  class JobRun {
    const id: nat
    const org: nat
    const ticket: nat
    const idempotencyKey: string
    const triggeredBy: Option<nat>

    var status: JobStatus
    var startedAt: Option<Time>
    var finishedAt: Option<Time>
    var error: string

    /** A new row takes the column defaults: queued, never started, no error. */
    constructor (id: nat, org: nat, ticket: nat, idempotencyKey: string, triggeredBy: Option<nat>)
      ensures this.id == id && this.org == org && this.ticket == ticket
      ensures this.idempotencyKey == idempotencyKey && this.triggeredBy == triggeredBy
      ensures status == Queued && startedAt == None && finishedAt == None && error == ""
    {
      this.id := id;
      this.org := org;
      this.ticket := ticket;
      this.idempotencyKey := idempotencyKey;
      this.triggeredBy := triggeredBy;
      status := Queued;
      startedAt := None;
      finishedAt := None;
      error := "";
    }

    /** Running from `now`; whatever the previous status. */
    method MarkRunning(now: Time)
      modifies this
      ensures status == Running && startedAt == Some(now)
      ensures finishedAt == old(finishedAt) && error == old(error)
    {
      status := Running;
      startedAt := Some(now);
    }

    /** Succeeded at `now`; a previous error text is kept. */
    method MarkSucceeded(now: Time)
      modifies this
      ensures status == Succeeded && finishedAt == Some(now)
      ensures startedAt == old(startedAt) && error == old(error)
    {
      status := Succeeded;
      finishedAt := Some(now);
    }

    /** Failed at `now` with `msg` as the error text. */
    method MarkFailed(msg: string, now: Time)
      modifies this
      ensures status == Failed && error == msg && finishedAt == Some(now)
      ensures startedAt == old(startedAt)
    {
      status := Failed;
      error := msg;
      finishedAt := Some(now);
    }
  }

  /** Two events collide under the partial unique index on
      (ticket, event_type, job_run), which only covers rows with a job. */
  predicate SameJobEvent(a: TicketEvent, b: TicketEvent) {
    a.jobRun.Some? && a.jobRun == b.jobRun && a.ticket == b.ticket && a.eventType == b.eventType
  }

  /** The event table's partial unique constraint. */
  predicate UniqueJobEvents(events: seq<TicketEvent>) {
    forall i, j :: 0 <= i < j < |events| ==> !SameJobEvent(events[i], events[j])
  }

  /** Two job runs share the (ticket, idempotency_key) pair. */
  predicate SameJobKey(a: JobRun, b: JobRun) {
    a.ticket == b.ticket && a.idempotencyKey == b.idempotencyKey
  }

  /** (ticket, idempotency_key) is unique among job runs, each row is stored
      under its own id and its key fits the column. */
  predicate UniqueJobKeys(jobs: map<nat, JobRun>) {
    && (forall id :: id in jobs ==> jobs[id].id == id && |jobs[id].idempotencyKey| <= MaxKeyLength)
    && (forall a, b :: a in jobs && b in jobs && SameJobKey(jobs[a], jobs[b]) ==> a == b)
  }

  /** Suggestion.job_run is one-to-one. */
  predicate OneSuggestionPerJob(suggestions: map<nat, Suggestion>) {
    forall a, b :: (a in suggestions && b in suggestions && suggestions[a].jobRun == suggestions[b].jobRun)
      ==> a == b
  }

  /** (document, chunk_index) is unique among chunks. */
  predicate UniqueChunkIndex(chunks: seq<DocumentChunk>) {
    forall i, j :: 0 <= i < j < |chunks| ==>
      !(chunks[i].document == chunks[j].document && chunks[i].chunkIndex == chunks[j].chunkIndex)
  }

  /** (user, organization) is unique among memberships. */
  predicate UniqueMembership(ms: seq<Membership>) {
    forall i, j :: 0 <= i < j < |ms| ==> !(ms[i].user == ms[j].user && ms[i].org == ms[j].org)
  }
}
