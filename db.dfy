// The database as the handlers see it: one object holding every table,
// keyed by id where rows are looked up by id and in insertion order where
// they are listed. `Valid` is the schema's uniqueness constraints, the
// foreign keys the handlers follow, and fresh ids for new rows.
module Db {
  import opened Wrappers
  import opened Json
  import opened Models

  class Database {
    var orgs: set<nat>
    var memberships: seq<Membership>
    var tickets: map<nat, Ticket>
    var jobs: map<nat, JobRun>
    var suggestions: map<nat, Suggestion>
    var events: seq<TicketEvent>
    var documents: map<nat, Document>
    var chunks: seq<DocumentChunk>
    /** The next id handed out; every stored id is below it. */
    var nextId: nat

    ghost predicate Valid()
      reads this
    {
      && nextId > 0
      && UniqueMembership(memberships)
      && UniqueJobKeys(jobs)
      && OneSuggestionPerJob(suggestions)
      && UniqueJobEvents(events)
      && UniqueChunkIndex(chunks)
      && (forall id :: id in jobs ==> jobs[id].ticket in tickets && jobs[id].org == tickets[jobs[id].ticket].org)
      && (forall id :: id in tickets ==> 0 < id < nextId)
      && (forall id :: id in jobs ==> 0 < id < nextId)
      && (forall id :: id in suggestions ==> 0 < id < nextId)
      && (forall id :: id in documents ==> 0 < id < nextId)
      && (forall i :: 0 <= i < |chunks| ==> chunks[i].document < nextId && chunks[i].id < nextId)
    }

    /** An empty database; ids start at 1. */
    constructor ()
      ensures Valid()
      ensures orgs == {} && memberships == [] && tickets == map[] && jobs == map[]
      ensures suggestions == map[] && events == [] && documents == map[] && chunks == []
      ensures nextId == 1
    {
      orgs := {};
      memberships := [];
      tickets := map[];
      jobs := map[];
      suggestions := map[];
      events := [];
      documents := map[];
      chunks := [];
      nextId := 1;
    }

    /** Every table at once, so that a method can say which ones it changed. */
    function State(): Tables
      reads this
    {
      Tables(orgs, memberships, tickets, jobs, suggestions, events, documents, chunks, nextId)
    }

    /** The job-run object stored under `id`, as a frame. */
    function JobFrame(id: nat): set<JobRun>
      reads this
    {
      if id in jobs then {jobs[id]} else {}
    }

    /** A fresh id, above every id in use. */
    method NewId() returns (id: nat)
      requires Valid()
      modifies this
      ensures Valid()
      ensures id == old(nextId) && id > 0
      ensures State() == old(State()).(nextId := id + 1)
    {
      id := nextId;
      nextId := nextId + 1;
    }

    /** `n` consecutive fresh ids for a bulk insert, starting at `first`. */
    method ReserveIds(n: nat) returns (first: nat)
      requires Valid()
      modifies this
      ensures Valid()
      ensures first == old(nextId) && first > 0
      ensures State() == old(State()).(nextId := first + n)
    {
      first := nextId;
      nextId := nextId + n;
    }

    /** INSERT of a ticket under a fresh id. */
    method InsertTicket(id: nat, t: Ticket)
      requires Valid() && 0 < id < nextId && id !in tickets
      modifies this
      ensures Valid()
      ensures State() == old(State()).(tickets := old(tickets)[id := t])
    {
      tickets := tickets[id := t];
    }

    /** UPDATE of a stored ticket; the organization of a ticket never changes. */
    method UpdateTicket(id: nat, t: Ticket)
      requires Valid() && id in tickets && t.org == tickets[id].org
      modifies this
      ensures Valid()
      ensures State() == old(State()).(tickets := old(tickets)[id := t])
    {
      tickets := tickets[id := t];
    }

    /** INSERT of a job run whose (ticket, key) pair is not taken. */
    method InsertJob(job: JobRun)
      requires Valid() && 0 < job.id < nextId && job.id !in jobs
      requires job.ticket in tickets && job.org == tickets[job.ticket].org
      requires |job.idempotencyKey| <= MaxKeyLength
      requires forall id :: id in jobs ==> !SameJobKey(jobs[id], job)
      modifies this
      ensures Valid()
      ensures State() == old(State()).(jobs := old(jobs)[job.id := job])
    {
      jobs := jobs[job.id := job];
    }

    /** INSERT of a job run under the (ticket, key) constraint: when the
        pair is already taken the database raises an integrity error and
        stores nothing. */
    method TryInsertJob(job: JobRun) returns (inserted: bool)
      requires Valid() && 0 < job.id < nextId && job.id !in jobs
      requires job.ticket in tickets && job.org == tickets[job.ticket].org
      requires |job.idempotencyKey| <= MaxKeyLength
      modifies this
      ensures Valid()
      ensures inserted <==> forall id :: id in old(jobs) ==> !SameJobKey(old(jobs)[id], job)
      ensures inserted ==> State() == old(State()).(jobs := old(jobs)[job.id := job])
      ensures !inserted ==> State() == old(State())
    {
      if forall id :: id in jobs ==> !SameJobKey(jobs[id], job) {
        InsertJob(job);
        inserted := true;
      } else {
        inserted := false;
      }
    }

    /** INSERT of the suggestion of a job that has none. */
    method InsertSuggestion(id: nat, s: Suggestion)
      requires Valid() && 0 < id < nextId && id !in suggestions
      requires !HasSuggestion(suggestions, s.jobRun)
      modifies this
      ensures Valid()
      ensures State() == old(State()).(suggestions := old(suggestions)[id := s])
    {
      var m := suggestions[id := s];
      assert forall b :: b in suggestions ==> suggestions[b].jobRun != s.jobRun;
      assert forall a :: a in m && a != id ==> m[a] == suggestions[a];
      suggestions := m;
    }

    /** UPDATE of a stored suggestion; its job run stays the same. */
    method UpdateSuggestion(id: nat, s: Suggestion)
      requires Valid() && id in suggestions && s.jobRun == suggestions[id].jobRun
      modifies this
      ensures Valid()
      ensures State() == old(State()).(suggestions := old(suggestions)[id := s])
    {
      var m := suggestions[id := s];
      assert forall a :: a in m && a != id ==> m[a] == suggestions[a];
      suggestions := m;
    }

    /** INSERT of events that keep the partial unique index. */
    method AppendEvents(more: seq<TicketEvent>)
      requires Valid() && UniqueJobEvents(events + more)
      modifies this
      ensures Valid()
      ensures State() == old(State()).(events := old(events) + more)
    {
      events := events + more;
    }

    /** INSERT of a document under a fresh id. */
    method InsertDocument(id: nat, d: Document)
      requires Valid() && 0 < id < nextId && id !in documents
      modifies this
      ensures Valid()
      ensures State() == old(State()).(documents := old(documents)[id := d])
    {
      documents := documents[id := d];
    }

    /** INSERT of chunk rows that keep (document, chunk_index) unique. */
    method AppendChunks(more: seq<DocumentChunk>)
      requires Valid() && UniqueChunkIndex(chunks + more)
      requires forall i :: 0 <= i < |more| ==> more[i].document < nextId && more[i].id < nextId
      modifies this
      ensures Valid()
      ensures State() == old(State()).(chunks := old(chunks) + more)
    {
      var all := chunks + more;
      assert forall i :: 0 <= i < |all| ==> all[i] == if i < |chunks| then chunks[i] else more[i - |chunks|];
      chunks := all;
    }
  }

  /** A snapshot of the tables. */
  datatype Tables = Tables(
    orgs: set<nat>,
    memberships: seq<Membership>,
    tickets: map<nat, Ticket>,
    jobs: map<nat, JobRun>,
    suggestions: map<nat, Suggestion>,
    events: seq<TicketEvent>,
    documents: map<nat, Document>,
    chunks: seq<DocumentChunk>,
    nextId: nat)

  /** Whether job `jobId` already has its suggestion. */
  predicate HasSuggestion(suggestions: map<nat, Suggestion>, jobId: nat) {
    exists id :: id in suggestions && suggestions[id].jobRun == jobId
  }

  /** The job's suggestion, looked up by the one-to-one key: the only row
      whose job run is `jobId`, or `None` when there is none. */
  method FindSuggestion(suggestions: map<nat, Suggestion>, jobId: nat) returns (r: Option<nat>)
    requires OneSuggestionPerJob(suggestions)
    ensures r.None? <==> !HasSuggestion(suggestions, jobId)
    ensures r.Some? ==> r.value in suggestions && suggestions[r.value].jobRun == jobId
    ensures r.Some? ==> forall id :: id in suggestions && suggestions[id].jobRun == jobId ==> id == r.value
  {
    var found := set id | id in suggestions && suggestions[id].jobRun == jobId;
    assert forall id :: id in suggestions && suggestions[id].jobRun == jobId ==> id in found;
    if found == {} {
      r := None;
    } else {
      var id :| id in found;
      r := Some(id);
    }
  }

  /** Events without a job run never collide under the partial unique index. */
  lemma AppendJoblessEvents(events: seq<TicketEvent>, more: seq<TicketEvent>)
    requires UniqueJobEvents(events)
    requires forall i :: 0 <= i < |more| ==> more[i].jobRun.None?
    ensures UniqueJobEvents(events + more)
  {
    var all := events + more;
    forall i, j | 0 <= i < j < |all| ensures !SameJobEvent(all[i], all[j]) {
      if j >= |events| {
        assert all[j] == more[j - |events|];
      }
    }
  }
}
