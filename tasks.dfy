// The background triage job: a keyword classifier that fills in a
// suggestion, and the job that runs it once per job run inside one
// transaction, recording two events and the job's lifecycle.
module Tasks {
  import opened Wrappers
  import opened Text
  import opened Json
  import opened Models
  import opened Db

  /** The suggestion fields the classifier produces. */
  datatype TriageFields = TriageFields(
    classification: string,
    suggestedTeam: string,
    suggestedPriority: Priority,
    draftReply: string,
    confidence: real,
    summary: string)

  const AuthWords: seq<string> := ["password", "login", "2fa", "mfa", "auth"]
  const PaymentWords: seq<string> := ["billing", "invoice", "payment", "card", "charge"]
  const IncidentWords: seq<string> := ["latency", "slow", "timeout", "500", "503", "error"]

  /** The four labels, in the order their keyword groups are tried. */
  const Labels: seq<string> := ["login_issue", "billing", "performance_incident", "general_support"]

  const SummaryLength: nat := 180

  const LoginReply: string :=
    "Hi,\n\nIt looks like you're having trouble signing in. "
    + "Please try resetting your password using the 'Forgot password' "
    + "link. If 2FA is enabled, verify your authenticator app is in sync. "
    + "If the issue persists, reply with the exact error message so we can investigate.\n\n"
    + "Best,\nAuth Support"
  const BillingReply: string :=
    "Hi,\n\nWe've received your request regarding billing. "
    + "Please confirm the last 4 digits of the card used and the invoice ID in question. "
    + "We'll review the recent transactions on your account and correct any discrepancies.\n\n"
    + "Best,\nBilling Support"
  const IncidentReply: string :=
    "Hi,\n\nWe see you're experiencing performance issues. "
    + "We're checking the service health and logs for elevated latency or errors. "
    + "We'll update you with mitigation steps and an ETA as soon as we have more detail.\n\n"
    + "Best,\nPlatform Team"
  const GeneralReply: string :=
    "Hi,\n\nThanks for reaching out. We've logged your request and "
    + "assigned it to our support team for further investigation. "
    + "We'll get back to you with a detailed update soon.\n\n"
    + "Best,\nSupport Team"

  /** The lower-cased text the keywords are searched in. */
  function ClassifierText(subject: string, body: string): string {
    Lower(subject + "\n\n" + body)
  }

  /** The fields that go with each label: team, priority, reply and confidence. */
  function FieldsForLabel(kind: string, subject: string): (r: TriageFields)
    requires kind in Labels
  {
    var summary := Prefix(subject, SummaryLength);
    if kind == "login_issue" then TriageFields(kind, "Auth Support", High, LoginReply, 0.88, summary)
    else if kind == "billing" then TriageFields(kind, "Billing Support", High, BillingReply, 0.85, summary)
    else if kind == "performance_incident" then TriageFields(kind, "Platform SRE", Urgent, IncidentReply, 0.9, summary)
    else TriageFields(kind, "General Support", Medium, GeneralReply, 0.72, summary)
  }

  /** `_simple_classification_and_resolution`: the first keyword group found
      in the lower-cased subject and body decides the label. */
  function SimpleClassification(subject: string, body: string): (r: TriageFields)
    ensures r.classification in Labels
    ensures r == FieldsForLabel(r.classification, subject)
    ensures r.suggestedPriority != Low
    ensures 0.72 <= r.confidence <= 0.9
    ensures r.summary == Prefix(subject, SummaryLength) && |r.summary| <= SummaryLength
  {
    FieldsForLabel(Label(ClassifierText(subject, body)), subject)
  }

  /** The first keyword group found in `text` decides the label. */
  function Label(text: string): (r: string)
    ensures r in Labels
  {
    if ContainsAny(text, AuthWords) then "login_issue"
    else if ContainsAny(text, PaymentWords) then "billing"
    else if ContainsAny(text, IncidentWords) then "performance_incident"
    else "general_support"
  }

  /** The keyword groups are tried in order: a sign-in word wins over a
      payment word, which wins over an incident word; with none of them the
      ticket is general support at medium priority. */
  lemma ClassificationPrecedence(subject: string, body: string)
    ensures var text := ClassifierText(subject, body);
            var r := SimpleClassification(subject, body);
            && (ContainsAny(text, AuthWords) ==> r.classification == "login_issue" && r.suggestedTeam == "Auth Support")
            && (!ContainsAny(text, AuthWords) && ContainsAny(text, PaymentWords) ==>
                  r.classification == "billing" && r.suggestedPriority == High)
            && (!ContainsAny(text, AuthWords) && !ContainsAny(text, PaymentWords) && ContainsAny(text, IncidentWords) ==>
                  r.classification == "performance_incident" && r.suggestedPriority == Urgent)
            && (r.classification == "general_support" <==>
                  !ContainsAny(text, AuthWords) && !ContainsAny(text, PaymentWords) && !ContainsAny(text, IncidentWords))
  {
  }

  /** The classifier text of two tickets that differ only in letter case
      is the same. */
  lemma ClassifierTextIgnoresCase(s1: string, b1: string, s2: string, b2: string)
    requires Lower(s1) == Lower(s2) && Lower(b1) == Lower(b2)
    ensures ClassifierText(s1, b1) == ClassifierText(s2, b2)
  {
    LowerAppend(s1, "\n\n" + b1);
    LowerAppend("\n\n", b1);
    LowerAppend(s2, "\n\n" + b2);
    LowerAppend("\n\n", b2);
    assert s1 + "\n\n" + b1 == s1 + ("\n\n" + b1);
    assert s2 + "\n\n" + b2 == s2 + ("\n\n" + b2);
  }

  /** The subject only feeds the summary: every other field is fixed by the label. */
  lemma FieldsForLabelOnlySummary(kind: string, s1: string, s2: string)
    requires kind in Labels
    ensures FieldsForLabel(kind, s1).classification == kind
    ensures FieldsForLabel(kind, s1).(summary := "") == FieldsForLabel(kind, s2).(summary := "")
  {
  }

  /** Only the letter case of subject and body is ignored by the label;
      the summary is cut from the subject as typed. */
  lemma ClassificationIgnoresCase(s1: string, b1: string, s2: string, b2: string)
    requires Lower(s1) == Lower(s2) && Lower(b1) == Lower(b2)
    ensures SimpleClassification(s1, b1).classification == SimpleClassification(s2, b2).classification
    ensures SimpleClassification(s1, b1).draftReply == SimpleClassification(s2, b2).draftReply
  {
    ClassifierTextIgnoresCase(s1, b1, s2, b2);
    var kind := Label(ClassifierText(s1, b1));
    assert SimpleClassification(s1, b1) == FieldsForLabel(kind, s1);
    assert SimpleClassification(s2, b2) == FieldsForLabel(kind, s2);
    FieldsForLabelOnlySummary(kind, s1, s2);
  }

  // ------------------------------------------------------------------
  // The job.

  /** The suggestion row the job inserts. */
  function NewSuggestion(job: JobRun, f: TriageFields, now: Time): (r: Suggestion)
    ensures r.org == job.org && r.ticket == job.ticket && r.jobRun == job.id
    ensures r.status == Pending && r.citations == []
    ensures r.suggestedPriority == Some(f.suggestedPriority) && r.suggestedTeam == f.suggestedTeam
    ensures r.metadata == JObj(map["summary" := JStr(f.summary)])
  {
    Suggestion(job.org, job.ticket, job.id, Pending, Some(f.suggestedPriority), f.suggestedTeam,
               f.draftReply, f.classification, Some(f.confidence), [],
               JObj(map["summary" := JStr(f.summary)]), now)
  }

  /** The two events the job records, attributed to the AI and linked to the job. */
  function TriageEvents(job: JobRun, sid: nat, f: TriageFields, now: Time): (r: seq<TicketEvent>)
    ensures |r| == 2 && r[0].eventType == AiTriageRan && r[1].eventType == AiSuggestionCreated
    ensures forall i :: 0 <= i < |r| ==>
              && r[i].org == job.org && r[i].ticket == job.ticket && r[i].jobRun == Some(job.id)
              && r[i].actorType == Ai && r[i].actorUser.None?
    ensures r[1].payload.JObj? && "suggestion_id" in r[1].payload.fields
            && r[1].payload.fields["suggestion_id"] == JNum(sid)
  {
    [TicketEvent(job.org, job.ticket, Some(job.id), AiTriageRan, Ai, None,
                 JObj(map["job_run_id" := JNum(job.id), "classification" := JStr(f.classification)]), now),
     TicketEvent(job.org, job.ticket, Some(job.id), AiSuggestionCreated, Ai, None,
                 JObj(map["job_run_id" := JNum(job.id), "suggestion_id" := JNum(sid),
                          "suggested_team" := JStr(f.suggestedTeam),
                          "suggested_priority" := JStr(f.suggestedPriority.Code())]), now)]
  }

  /** A stored event holds the (ticket, type, job) slot an event of the job would take. */
  predicate HasJobEvent(events: seq<TicketEvent>, ticket: nat, jobId: nat) {
    exists i :: 0 <= i < |events| && events[i].jobRun == Some(jobId) && events[i].ticket == ticket
                && (events[i].eventType == AiTriageRan || events[i].eventType == AiSuggestionCreated)
  }

  /** The job's transaction would violate a unique constraint. */
  predicate Conflicts(suggestions: map<nat, Suggestion>, events: seq<TicketEvent>, ticket: nat, jobId: nat) {
    HasSuggestion(suggestions, jobId) || HasJobEvent(events, ticket, jobId)
  }

  /** The unique constraint a conflicting transaction violates. */
  datatype UniqueViolation = SuggestionJobRun | TicketEventJobRun

  /** The constraint a conflicting run reports: the suggestion's when the
      job already has one, the events' otherwise. */
  function Violation(suggestions: map<nat, Suggestion>, jobId: nat): (r: UniqueViolation)
    ensures r == SuggestionJobRun <==> HasSuggestion(suggestions, jobId)
  {
    if HasSuggestion(suggestions, jobId) then SuggestionJobRun else TicketEventJobRun
  }

  /** Inserting `more` one row after another into `events`: the position of
      the first row that collides, under the event table's partial unique
      constraint, with a stored row or with a row inserted before it. */
  function FirstCollision(events: seq<TicketEvent>, more: seq<TicketEvent>): (r: Option<nat>)
    ensures r.Some? ==> r.value < |more|
    decreases |more|
  {
    if more == [] then None
    else if exists j :: 0 <= j < |events| && SameJobEvent(events[j], more[0]) then Some(0)
    else match FirstCollision(events + [more[0]], more[1..])
         case None => None
         case Some(k) => Some(k + 1)
  }

  /** No insert collides exactly when no new row matches a stored row and
      no two new rows match each other. */
  lemma {:induction false} FirstCollisionIff(events: seq<TicketEvent>, more: seq<TicketEvent>)
    ensures FirstCollision(events, more).None? <==>
              && (forall i, j :: 0 <= i < |more| && 0 <= j < |events| ==> !SameJobEvent(events[j], more[i]))
              && (forall i, j :: 0 <= j < i < |more| ==> !SameJobEvent(more[j], more[i]))
    decreases |more|
  {
    if more != [] {
      var m, rest := more[0], more[1..];
      var grown := events + [m];
      FirstCollisionIff(grown, rest);
      if !(exists j :: 0 <= j < |events| && SameJobEvent(events[j], m)) {
        assert FirstCollision(events, more).None? <==> FirstCollision(grown, rest).None?;
        if FirstCollision(grown, rest).None? {
          forall i, j | 0 <= i < |more| && 0 <= j < |events| ensures !SameJobEvent(events[j], more[i]) {
            if i > 0 { assert more[i] == rest[i - 1] && grown[j] == events[j]; }
          }
          forall i, j | 0 <= j < i < |more| ensures !SameJobEvent(more[j], more[i]) {
            assert more[i] == rest[i - 1];
            if j == 0 { assert grown[|events|] == m; } else { assert more[j] == rest[j - 1]; }
          }
        } else {
          var i, j :| (0 <= i < |rest| && 0 <= j < |grown| && SameJobEvent(grown[j], rest[i]))
                      || (0 <= j < i < |rest| && SameJobEvent(rest[j], rest[i]));
          assert rest[i] == more[i + 1];
          if 0 <= j < |grown| && SameJobEvent(grown[j], rest[i]) && 0 <= i < |rest| {
            if j < |events| { assert grown[j] == events[j]; } else { assert grown[j] == more[0]; }
          } else {
            assert rest[j] == more[j + 1];
          }
        }
      } else {
        var j :| 0 <= j < |events| && SameJobEvent(events[j], m);
        assert more[0] == m;
      }
    }
  }

  /** The unique constraint the transaction's inserts hit first, in the
      order they run: the suggestion (one per job run), then the two events. */
  function TransactionViolation(suggestions: map<nat, Suggestion>, events: seq<TicketEvent>, job: JobRun,
                                sid: nat, f: TriageFields, now: Time): Option<UniqueViolation>
  {
    if HasSuggestion(suggestions, job.id) then Some(SuggestionJobRun)
    else if FirstCollision(events, TriageEvents(job, sid, f, now)).Some? then Some(TicketEventJobRun)
    else None
  }

  /** Running the inserts in order fails exactly when the run conflicts,
      and the suggestion's constraint is the one reported whenever the job
      already has a suggestion, because that row is inserted first. */
  lemma TransactionViolationIff(suggestions: map<nat, Suggestion>, events: seq<TicketEvent>, job: JobRun,
                                sid: nat, f: TriageFields, now: Time)
    ensures TransactionViolation(suggestions, events, job, sid, f, now)
              == if Conflicts(suggestions, events, job.ticket, job.id) then Some(Violation(suggestions, job.id)) else None
  {
    var more := TriageEvents(job, sid, f, now);
    FirstCollisionIff(events, more);
    assert !SameJobEvent(more[0], more[1]);
    if HasJobEvent(events, job.ticket, job.id) {
      var i :| 0 <= i < |events| && events[i].jobRun == Some(job.id) && events[i].ticket == job.ticket
               && (events[i].eventType == AiTriageRan || events[i].eventType == AiSuggestionCreated);
      if events[i].eventType == AiTriageRan {
        assert SameJobEvent(events[i], more[0]);
      } else {
        assert SameJobEvent(events[i], more[1]);
      }
    } else {
      forall i, j | 0 <= i < |more| && 0 <= j < |events| ensures !SameJobEvent(events[j], more[i]) {
      }
    }
  }

  /** When nothing conflicts, the two new events keep the event table's
      partial unique constraint. */
  lemma AppendTriageEvents(events: seq<TicketEvent>, job: JobRun, sid: nat, f: TriageFields, now: Time)
    requires UniqueJobEvents(events)
    requires !HasJobEvent(events, job.ticket, job.id)
    ensures UniqueJobEvents(events + TriageEvents(job, sid, f, now))
  {
    var more := TriageEvents(job, sid, f, now);
    var all := events + more;
    forall i, j | 0 <= i < j < |all| ensures !SameJobEvent(all[i], all[j]) {
      if j >= |events| {
        assert all[j] == more[j - |events|];
        if i < |events| {
          assert all[i] == events[i];
          assert !(events[i].jobRun == Some(job.id) && events[i].ticket == job.ticket
                   && (events[i].eventType == AiTriageRan || events[i].eventType == AiSuggestionCreated));
        } else {
          assert all[i] == more[i - |events|];
        }
      }
    }
  }

  /** The job has already produced its suggestion and stops early. */
  predicate AlreadyDone(status: JobStatus, suggestions: map<nat, Suggestion>, jobId: nat) {
    status == Succeeded && HasSuggestion(suggestions, jobId)
  }

  /** `run_ticket_triage`. A missing job returns `None` and changes nothing.
      A job that already succeeded and has its suggestion returns that
      suggestion's id. Otherwise the job is marked running, classified, and
      its suggestion and two events are inserted before it is marked
      succeeded, all in one transaction; if an insert violates a unique
      constraint the transaction is rolled back and the job, as stored, is
      marked failed with the database's message, `describe` standing for
      the text of the driver's integrity error. */
  method RunTicketTriage(db: Database, jobId: nat, now: Time, describe: UniqueViolation -> string)
    returns (r: Option<nat>)
    requires db.Valid()
    modifies db, db.JobFrame(jobId)
    ensures db.Valid() && db.jobs == old(db.jobs)
    ensures db.tickets == old(db.tickets) && db.memberships == old(db.memberships)
    ensures r.Some? ==> && jobId in db.jobs && db.jobs[jobId].status == Succeeded
                        && r.value in db.suggestions && db.suggestions[r.value].jobRun == jobId
    ensures jobId !in db.jobs ==> r.None? && db.State() == old(db.State())
    ensures jobId in db.jobs && AlreadyDone(old(db.jobs[jobId].status), old(db.suggestions), jobId) ==>
              && r.Some? && r.value in db.suggestions && db.suggestions[r.value].jobRun == jobId
              && db.State() == old(db.State()) && unchanged(db.jobs[jobId])
    ensures jobId in db.jobs && !AlreadyDone(old(db.jobs[jobId].status), old(db.suggestions), jobId)
            && Conflicts(old(db.suggestions), old(db.events), db.jobs[jobId].ticket, jobId) ==>
              && r.None? && db.State() == old(db.State())
              && db.jobs[jobId].status == Failed && db.jobs[jobId].finishedAt == Some(now)
              && db.jobs[jobId].error == describe(Violation(old(db.suggestions), jobId))
              && db.jobs[jobId].startedAt == old(db.jobs[jobId].startedAt)
    ensures jobId in db.jobs && !AlreadyDone(old(db.jobs[jobId].status), old(db.suggestions), jobId)
            && !Conflicts(old(db.suggestions), old(db.events), db.jobs[jobId].ticket, jobId) ==>
              && r == Some(old(db.nextId))
              && Recorded(old(db.State()), db.State(), db.jobs[jobId], r.value, now)
              && db.jobs[jobId].status == Succeeded && db.jobs[jobId].startedAt == Some(now)
              && db.jobs[jobId].finishedAt == Some(now) && db.jobs[jobId].error == old(db.jobs[jobId].error)
  {
    if jobId !in db.jobs {
      return None;
    }
    var job := db.jobs[jobId];
    var existing := FindSuggestion(db.suggestions, jobId);
    if job.status == Succeeded && existing.Some? {
      return existing;
    }
    var ticket := db.tickets[job.ticket];
    var violation := TransactionViolation(db.suggestions, db.events, job, db.nextId,
                                          SimpleClassification(ticket.subject, ticket.body), now);
    TransactionViolationIff(db.suggestions, db.events, job, db.nextId,
                            SimpleClassification(ticket.subject, ticket.body), now);
    if violation.Some? {
      // The rolled-back transaction leaves the stored job as it was.
      job.MarkFailed(describe(violation.value), now);
      return None;
    }
    var sid := RecordTriage(db, job, now);
    assert db.jobs == old(db.jobs);
    r := Some(sid);
  }

  /** What a successful run adds to the tables: one fresh id, the
      suggestion filled in from the ticket's classification, and the two
      events. */
  ghost predicate Recorded(before: Tables, after: Tables, job: JobRun, sid: nat, now: Time)
    requires job.ticket in before.tickets
  {
    var t := before.tickets[job.ticket];
    var f := SimpleClassification(t.subject, t.body);
    && sid == before.nextId
    && after == before.(nextId := sid + 1,
                        suggestions := before.suggestions[sid := NewSuggestion(job, f, now)],
                        events := before.events + TriageEvents(job, sid, f, now))
  }

  /** The body of the transaction when nothing conflicts: mark the job
      running, classify its ticket, insert the suggestion and the two events,
      mark the job succeeded. */
  method RecordTriage(db: Database, job: JobRun, now: Time) returns (sid: nat)
    requires db.Valid() && job.id in db.jobs && db.jobs[job.id] == job
    requires !Conflicts(db.suggestions, db.events, job.ticket, job.id)
    modifies db, job
    ensures db.Valid() && db.jobs == old(db.jobs) && sid == old(db.nextId)
    ensures Recorded(old(db.State()), db.State(), job, sid, now)
    ensures job.status == Succeeded && job.startedAt == Some(now) && job.finishedAt == Some(now)
    ensures job.error == old(job.error)
  {
    var ticket := db.tickets[job.ticket];
    job.MarkRunning(now);
    var fields := SimpleClassification(ticket.subject, ticket.body);
    sid := db.NewId();
    db.InsertSuggestion(sid, NewSuggestion(job, fields, now));
    AppendTriageEvents(db.events, job, sid, fields, now);
    db.AppendEvents(TriageEvents(job, sid, fields, now));
    job.MarkSucceeded(now);
  }

  /** Running the job again after it succeeded returns the same suggestion
      and adds nothing. */
  method RerunReturnsSameSuggestion(db: Database, jobId: nat, now1: Time, now2: Time,
                                    describe: UniqueViolation -> string) returns (r1: Option<nat>, r2: Option<nat>)
    requires db.Valid()
    modifies db, db.JobFrame(jobId)
    ensures r1.Some? ==> r2 == r1
    ensures r1.Some? ==> |db.events| == |old(db.events)| + (if old(jobId in db.jobs && AlreadyDone(db.jobs[jobId].status, db.suggestions, jobId)) then 0 else 2)
  {
    r1 := RunTicketTriage(db, jobId, now1, describe);
    r2 := RunTicketTriage(db, jobId, now2, describe);
  }
}
