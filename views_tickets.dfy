// The ticket endpoints that change the store: PATCH of a ticket with the
// actor header, and the idempotent triage trigger keyed by the
// `Idempotency-Key` header.
module TicketViews {
  import opened Wrappers
  import opened Text
  import opened Json
  import opened Models
  import Http
  import opened Db
  import opened Tenancy
  import opened Permissions
  import opened Signals
  import opened Serializers
  import Tasks

  /** The object permission's refusal. */
  const TicketWriteDenied: Http.ApiError :=
    Http.PermissionDenied("You do not have permission to modify tickets in this organization.")

  const KeyRequired: Http.ApiError := Http.ValidationError("Idempotency-Key", "This header is required.")
  const KeyTooLong: Http.ApiError := Http.ValidationError("Idempotency-Key", "Max length is 80 characters.")
  const ActorInvalid: Http.ApiError := Http.ValidationError("X-Actor-Type", "Must be 'webhook' or 'system'.")

  /** The ticket lookup of the detail views: the ticket exists and belongs
      to one of the user's organisations (otherwise 404). */
  predicate Visible(tickets: map<nat, Ticket>, ms: seq<Membership>, user: nat, pk: nat) {
    pk in tickets && tickets[pk].org in UserOrgIds(ms, user)
  }

  /** The lookup and object permission every ticket write goes through:
      a ticket outside the user's organisations is not found, a member
      without the write role is refused; otherwise the ticket's
      organisation. */
  function TicketAccess(tickets: map<nat, Ticket>, ms: seq<Membership>, user: nat, pk: nat, verb: string)
    : (r: Result<nat, Http.ApiError>)
    ensures r == Err(Http.NotFound) <==> !Visible(tickets, ms, user, pk)
    ensures r == Err(TicketWriteDenied) <==>
              Visible(tickets, ms, user, pk) && !HasObjectPermission(ms, user, tickets[pk].org, verb)
    ensures r.Err? ==> r == Err(Http.NotFound) || r == Err(TicketWriteDenied)
    ensures r.Ok? ==> pk in tickets && r.value == tickets[pk].org
  {
    if !Visible(tickets, ms, user, pk) then Err(Http.NotFound)
    else if !HasObjectPermission(ms, user, tickets[pk].org, verb) then Err(TicketWriteDenied)
    else Ok(tickets[pk].org)
  }

  /** A viewer can never change a ticket: only admins and agents pass the
      write check, and only in their own organisations. */
  lemma TicketWriteNeedsWriterRole(tickets: map<nat, Ticket>, ms: seq<Membership>, user: nat, pk: nat, verb: string)
    requires verb !in SafeMethods
    requires TicketAccess(tickets, ms, user, pk, verb).Ok?
    ensures tickets[pk].org in UserOrgIds(ms, user)
    ensures AdminOrAgent(UserRoleInOrg(ms, user, tickets[pk].org))
  {
  }

  // ------------------------------------------------------------------
  // Headers

  /** The `Idempotency-Key` header after stripping: a missing or blank
      header is refused as required, one longer than the column as too
      long; exactly 80 characters are accepted. */
  function ValidateIdempotencyKey(header: Option<string>): (r: Result<string, Http.ApiError>)
    ensures r == Err(KeyRequired) <==> IsBlank(header.GetOr(""))
    ensures r == Err(KeyTooLong) <==> |Strip(header.GetOr(""))| > MaxKeyLength
    ensures r.Err? ==> r == Err(KeyRequired) || r == Err(KeyTooLong)
    ensures r.Ok? ==> && r.value == Strip(header.GetOr(""))
                      && 0 < |r.value| <= MaxKeyLength && Trimmed(r.value)
  {
    var key := Strip(header.GetOr(""));
    StripEmptyIffBlank(header.GetOr(""));
    if key == [] then Err(KeyRequired)
    else if |key| > MaxKeyLength then Err(KeyTooLong)
    else Ok(key)
  }

  /** Surrounding whitespace never matters: a key and its stripped form are
      validated alike, so an accepted key validates to itself. */
  lemma KeyValidationIgnoresPadding(raw: string)
    ensures ValidateIdempotencyKey(Some(raw)) == ValidateIdempotencyKey(Some(Strip(raw)))
    ensures ValidateIdempotencyKey(Some(raw)).Ok? ==>
              ValidateIdempotencyKey(Some(ValidateIdempotencyKey(Some(raw)).value)) == ValidateIdempotencyKey(Some(raw))
  {
    StripIdempotent(raw);
  }

  /** `X-Actor-Type` after stripping and lower-casing: empty or "system"
      gives the system actor, "webhook" the webhook actor, anything else is
      refused. A user or AI actor can never be claimed through the header. */
  function ActorFromHeader(header: Option<string>): (r: Result<ActorType, Http.ApiError>)
    ensures r.Ok? ==> r.value == System || r.value == Webhook
    ensures r == Ok(Webhook) <==> Lower(Strip(header.GetOr(""))) == "webhook"
    ensures r == Ok(System) <==> Lower(Strip(header.GetOr(""))) in {"", "system"}
    ensures r.Err? ==> r == Err(ActorInvalid)
  {
    var actor := Lower(Strip(header.GetOr("")));
    if actor == "" then Ok(System)
    else if actor == "webhook" then Ok(Webhook)
    else if actor == "system" then Ok(System)
    else Err(ActorInvalid)
  }

  /** A missing or blank header records the system as the actor. */
  lemma BlankActorIsSystem(header: Option<string>)
    requires IsBlank(header.GetOr(""))
    ensures ActorFromHeader(header) == Ok(System)
  {
    StripEmptyIffBlank(header.GetOr(""));
  }

  // ------------------------------------------------------------------
  // PATCH /tickets/<pk>/

  /** `TicketDetailView.patch`: look the ticket up among the user's
      organisations, check the write permission, map the actor header, then
      save the partial update through the hooks. The row changes as the
      update says and the hook records one event per changed column, with
      the header's actor. */
  method PatchTicket(db: Database, user: nat, pk: nat, actorHeader: Option<string>, u: TicketUpdate, now: Time)
    returns (r: Result<Ticket, Http.ApiError>)
    requires db.Valid()
    modifies db
    ensures db.Valid()
    ensures TicketAccess(old(db.tickets), old(db.memberships), user, pk, "PATCH").Err? ==>
              r == Err(TicketAccess(old(db.tickets), old(db.memberships), user, pk, "PATCH").error)
    ensures TicketAccess(old(db.tickets), old(db.memberships), user, pk, "PATCH").Ok? && ActorFromHeader(actorHeader).Err? ==>
              r == Err(ActorInvalid)
    ensures r.Err? ==> db.State() == old(db.State())
    ensures r.Ok? <==> TicketAccess(old(db.tickets), old(db.memberships), user, pk, "PATCH").Ok?
                       && ActorFromHeader(actorHeader).Ok?
    ensures r.Ok? ==>
              && r.value == ApplyTicketUpdate(old(db.tickets)[pk], u)
              && db.State() == old(db.State()).(
                   tickets := old(db.tickets)[pk := r.value],
                   events := old(db.events)
                             + ChangeEvents(pk, old(db.tickets)[pk], r.value, ActorFromHeader(actorHeader).value, now))
  {
    var access := TicketAccess(db.tickets, db.memberships, user, pk, "PATCH");
    if access.Err? {
      return Err(access.error);
    }
    var actor := ActorFromHeader(actorHeader);
    if actor.Err? {
      return Err(actor.error);
    }
    var updated := ApplyTicketUpdate(db.tickets[pk], u);
    var id := SaveTicket(db, Some(pk), updated, false, Some(actor.value), now);
    r := Ok(updated);
  }

  // ------------------------------------------------------------------
  // POST /tickets/<pk>/trigger-triage/

  /** A job run of `ticket` in `org` under `key`. */
  predicate IsJobFor(job: JobRun, org: nat, ticket: nat, key: string) {
    job.org == org && job.ticket == ticket && job.idempotencyKey == key
  }

  /** Some job run exists for (org, ticket, key). */
  predicate HasJob(jobs: map<nat, JobRun>, org: nat, ticket: nat, key: string) {
    exists id :: id in jobs && IsJobFor(jobs[id], org, ticket, key)
  }

  /** The `get` half of `get_or_create`: the one job run for
      (org, ticket, key), or `None`. */
  method FindJob(jobs: map<nat, JobRun>, org: nat, ticket: nat, key: string) returns (r: Option<nat>)
    requires UniqueJobKeys(jobs)
    ensures r.None? <==> !HasJob(jobs, org, ticket, key)
    ensures r.Some? ==> r.value in jobs && IsJobFor(jobs[r.value], org, ticket, key)
    ensures r.Some? ==> forall id :: id in jobs && IsJobFor(jobs[id], org, ticket, key) ==> id == r.value
  {
    var found := set id | id in jobs && IsJobFor(jobs[id], org, ticket, key);
    assert forall id :: id in jobs && IsJobFor(jobs[id], org, ticket, key) ==> id in found;
    if found == {} {
      r := None;
    } else {
      var id :| id in found;
      r := Some(id);
    }
  }

  /** What the trigger answers: the job, whether it was created, whether a
      worker run was dispatched, the status code and the JSON body. */
  datatype Dispatch = Dispatch(jobId: nat, created: bool, enqueue: bool, statusCode: nat, body: Json)

  function TimeJson(t: Option<Time>): Json {
    match t
    case None => JNull
    case Some(v) => JNum(v)
  }

  /** The response body: the job's id and lifecycle columns and `created`. */
  function JobPayload(id: nat, status: JobStatus, created: bool, startedAt: Option<Time>,
                      finishedAt: Option<Time>, error: string): Json {
    JObj(map["job_run_id" := JNum(id), "status" := JStr(status.Code()), "created" := JBool(created),
             "started_at" := TimeJson(startedAt), "finished_at" := TimeJson(finishedAt),
             "error" := JStr(error)])
  }

  /** `should_enqueue`: a new job, or an old one still queued that no
      worker has started. */
  predicate ShouldEnqueue(created: bool, status: JobStatus, startedAt: Option<Time>) {
    created || (status == Queued && startedAt.None?)
  }

  /** A new queued run for a key nobody holds yet, stored under a fresh id. */
  method InsertNewJob(db: Database, org: nat, ticket: nat, key: string, triggeredBy: Option<nat>)
    returns (job: JobRun)
    requires db.Valid() && ticket in db.tickets && db.tickets[ticket].org == org && |key| <= MaxKeyLength
    requires !HasJob(db.jobs, org, ticket, key)
    modifies db
    ensures db.Valid()
    ensures fresh(job) && job.id == old(db.nextId) && IsJobFor(job, org, ticket, key) && job.triggeredBy == triggeredBy
    ensures job.status == Queued && job.startedAt.None? && job.finishedAt.None? && job.error == ""
    ensures db.State() == old(db.State()).(jobs := old(db.jobs)[job.id := job], nextId := job.id + 1)
  {
    var id := db.NewId();
    job := new JobRun(id, org, ticket, key, triggeredBy);
    assert forall other :: other in db.jobs && SameJobKey(db.jobs[other], job) ==>
             IsJobFor(db.jobs[other], org, ticket, key);
    db.InsertJob(job);
  }

  /** The `create` half of `get_or_create`: INSERT a new queued run
      triggered by `user` under a fresh id; when the (ticket, key)
      constraint rejects it (IntegrityError), fetch the row that holds the
      key instead. The fresh id is spent either way. */
  method InsertOrFetchJob(db: Database, org: nat, ticket: nat, key: string, user: nat)
    returns (job: JobRun, created: bool)
    requires db.Valid() && ticket in db.tickets && db.tickets[ticket].org == org && |key| <= MaxKeyLength
    modifies db
    ensures db.Valid()
    ensures job.id in db.jobs && db.jobs[job.id] == job && IsJobFor(job, org, ticket, key)
    ensures created <==> !HasJob(old(db.jobs), org, ticket, key)
    ensures created ==>
              && fresh(job) && job.id == old(db.nextId) && job.triggeredBy == Some(user)
              && job.status == Queued && job.startedAt.None? && job.finishedAt.None? && job.error == ""
              && db.State() == old(db.State()).(jobs := old(db.jobs)[job.id := job], nextId := job.id + 1)
    ensures !created ==> job.id in old(db.jobs) && db.State() == old(db.State()).(nextId := old(db.nextId) + 1)
  {
    var id := db.NewId();
    job := new JobRun(id, org, ticket, key, Some(user));
    // The key is unique per ticket; the organisation follows the ticket.
    assert forall other :: other in db.jobs && SameJobKey(db.jobs[other], job) ==>
             IsJobFor(db.jobs[other], org, ticket, key);
    var inserted := db.TryInsertJob(job);
    if inserted {
      created := true;
    } else {
      // IntegrityError: fetch the row that holds the key.
      var again := FindJob(db.jobs, org, ticket, key);
      job, created := db.jobs[again.value], false;
    }
  }

  /** `get_or_create` on (org, ticket, key): the stored job run when there
      is one, otherwise a new queued run triggered by `user` under a fresh
      id. `racer` is a concurrent request by that user for the same key
      whose insert lands between this request's lookup and its insert: the
      insert then violates the (ticket, key) constraint, and the handler
      fetches the racer's row instead and reports it as not created. Nothing
      but the job table and the id counter changes. */
  method GetOrCreateJob(db: Database, org: nat, ticket: nat, key: string, user: nat, racer: Option<nat>)
    returns (job: JobRun, created: bool)
    requires db.Valid() && ticket in db.tickets && db.tickets[ticket].org == org && |key| <= MaxKeyLength
    modifies db
    ensures db.Valid()
    ensures job.id in db.jobs && db.jobs[job.id] == job && IsJobFor(job, org, ticket, key)
    ensures forall id :: id in db.jobs && IsJobFor(db.jobs[id], org, ticket, key) ==> id == job.id
    ensures created <==> !HasJob(old(db.jobs), org, ticket, key) && racer.None?
    ensures HasJob(old(db.jobs), org, ticket, key) ==> db.State() == old(db.State()) && job.id in old(db.jobs)
    ensures !HasJob(old(db.jobs), org, ticket, key) ==>
              && fresh(job) && job.id == old(db.nextId)
              && job.triggeredBy == (if created then Some(user) else racer)
              && job.status == Queued && job.startedAt.None? && job.finishedAt.None? && job.error == ""
              && db.State() == old(db.State()).(jobs := old(db.jobs)[job.id := job],
                                                nextId := job.id + (if created then 1 else 2))
  {
    var existing := FindJob(db.jobs, org, ticket, key);
    if existing.Some? {
      return db.jobs[existing.value], false;
    }
    if racer.Some? {
      // The concurrent request's row is stored first.
      var other := InsertNewJob(db, org, ticket, key, racer);
      job, created := InsertOrFetchJob(db, org, ticket, key, user);
      assert job.id == other.id by {
        assert IsJobFor(db.jobs[other.id], org, ticket, key);
      }
    } else {
      job, created := InsertOrFetchJob(db, org, ticket, key, user);
    }
  }

  /** `TicketTriggerTriageView.post`. After the ticket lookup, the write
      permission and the key check, the job run for (org, ticket, key) is
      fetched or created. The answer is 202 for a new job and 200 for an
      existing one; a worker run is dispatched for a new job or a queued,
      never started one. `racer` is as for `GetOrCreateJob`: a concurrent
      request whose insert wins turns this one into a 200 for its job. */
  method TriggerTriage(db: Database, user: nat, pk: nat, keyHeader: Option<string>, racer: Option<nat>)
    returns (r: Result<Dispatch, Http.ApiError>)
    requires db.Valid()
    modifies db
    ensures db.Valid()
    ensures TicketAccess(old(db.tickets), old(db.memberships), user, pk, "POST").Err? ==>
              r == Err(TicketAccess(old(db.tickets), old(db.memberships), user, pk, "POST").error)
    ensures TicketAccess(old(db.tickets), old(db.memberships), user, pk, "POST").Ok? && ValidateIdempotencyKey(keyHeader).Err? ==>
              r == Err(ValidateIdempotencyKey(keyHeader).error)
    ensures r.Err? ==> db.State() == old(db.State())
    ensures r.Ok? <==> TicketAccess(old(db.tickets), old(db.memberships), user, pk, "POST").Ok?
                       && ValidateIdempotencyKey(keyHeader).Ok?
    ensures r.Ok? ==>
              var org := old(db.tickets)[pk].org;
              var key := ValidateIdempotencyKey(keyHeader).value;
              var d := r.value;
              && d.jobId in db.jobs && IsJobFor(db.jobs[d.jobId], org, pk, key)
              && (d.created <==> !HasJob(old(db.jobs), org, pk, key) && racer.None?)
              && d.enqueue == ShouldEnqueue(d.created, db.jobs[d.jobId].status, db.jobs[d.jobId].startedAt)
              && d.statusCode == (if d.created then Http.Accepted else Http.Ok)
              && d.body == JobPayload(d.jobId, db.jobs[d.jobId].status, d.created, db.jobs[d.jobId].startedAt,
                                      db.jobs[d.jobId].finishedAt, db.jobs[d.jobId].error)
    ensures r.Ok? && HasJob(old(db.jobs), old(db.tickets)[pk].org, pk, ValidateIdempotencyKey(keyHeader).value) ==>
              db.State() == old(db.State()) && r.value.jobId in old(db.jobs)
    ensures r.Ok? && !HasJob(old(db.jobs), old(db.tickets)[pk].org, pk, ValidateIdempotencyKey(keyHeader).value)
            && racer.Some? ==>
              var job := db.jobs[r.value.jobId];
              && !r.value.created && r.value.statusCode == Http.Ok
              && r.value.jobId == old(db.nextId) && fresh(job) && job.triggeredBy == racer
              && job.status == Queued && job.startedAt.None? && job.finishedAt.None? && job.error == ""
              && db.State() == old(db.State()).(jobs := old(db.jobs)[r.value.jobId := job],
                                                nextId := r.value.jobId + 2)
    ensures r.Ok? && r.value.created ==>
              var job := db.jobs[r.value.jobId];
              && r.value.jobId == old(db.nextId) && fresh(job) && job.triggeredBy == Some(user)
              && job.status == Queued && job.startedAt.None? && job.finishedAt.None? && job.error == ""
              && db.State() == old(db.State()).(jobs := old(db.jobs)[r.value.jobId := job],
                                                nextId := r.value.jobId + 1)
  {
    var access := TicketAccess(db.tickets, db.memberships, user, pk, "POST");
    if access.Err? {
      return Err(access.error);
    }
    var checked := ValidateIdempotencyKey(keyHeader);
    if checked.Err? {
      return Err(checked.error);
    }
    var job, created := GetOrCreateJob(db, access.value, pk, checked.value, user, racer);
    var enqueue := created || (job.status == Queued && job.startedAt.None?);
    var code := if created then Http.Accepted else Http.Ok;
    r := Ok(Dispatch(job.id, created, enqueue, code,
                     JobPayload(job.id, job.status, created, job.startedAt, job.finishedAt, job.error)));
  }

  /** Triggering twice with the same key finds the job the first call made
      or found, even when the first call lost an insert race: the second
      answer is 200, names the same job and changes nothing, and the key
      still has exactly one job run. */
  method TriggerTwiceSameJob(db: Database, user: nat, pk: nat, keyHeader: Option<string>, racer: Option<nat>)
    returns (r1: Result<Dispatch, Http.ApiError>, r2: Result<Dispatch, Http.ApiError>)
    requires db.Valid()
    modifies db
    ensures db.Valid()
    ensures r1.Ok? ==> && r2.Ok? && r2.value.jobId == r1.value.jobId
                       && !r2.value.created && r2.value.statusCode == Http.Ok
    ensures r1.Err? ==> r2 == r1
    ensures r1.Ok? ==>
              && pk in old(db.tickets) && ValidateIdempotencyKey(keyHeader).Ok?
              && var org, key := old(db.tickets)[pk].org, ValidateIdempotencyKey(keyHeader).value;
                 forall id :: id in db.jobs && IsJobFor(db.jobs[id], org, pk, key) ==> id == r1.value.jobId
  {
    r1 := TriggerTriage(db, user, pk, keyHeader, racer);
    r2 := TriggerTriage(db, user, pk, keyHeader, None);
    if r1.Ok? {
      assert r2.value.jobId == r1.value.jobId;
    }
  }

  /** Once the worker has finished the job stored for a key, triggering
      with that key again returns the same job and dispatches no new run. */
  method RetriggerAfterSuccess(db: Database, user: nat, pk: nat, keyHeader: Option<string>, jobId: nat, now: Time,
                               describe: Tasks.UniqueViolation -> string)
    returns (ran: Option<nat>, r: Result<Dispatch, Http.ApiError>)
    requires db.Valid()
    requires TicketAccess(db.tickets, db.memberships, user, pk, "POST").Ok? && ValidateIdempotencyKey(keyHeader).Ok?
    requires jobId in db.jobs && IsJobFor(db.jobs[jobId], db.tickets[pk].org, pk, ValidateIdempotencyKey(keyHeader).value)
    modifies db, db.jobs[jobId]
    ensures db.Valid()
    ensures ran.Some? ==> && r.Ok? && r.value.jobId == jobId && !r.value.created && !r.value.enqueue
                          && r.value.statusCode == Http.Ok
  {
    ghost var org, key := db.tickets[pk].org, ValidateIdempotencyKey(keyHeader).value;
    ghost var job := db.jobs[jobId];
    ran := Tasks.RunTicketTriage(db, jobId, now, describe);
    assert db.jobs[jobId] == job;
    assert HasJob(db.jobs, org, pk, key);
    r := TriggerTriage(db, user, pk, keyHeader, None);
    if ran.Some? {
      assert IsJobFor(db.jobs[r.value.jobId], org, pk, key);
      assert r.value.jobId == jobId;
    }
  }
}
