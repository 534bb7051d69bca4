// The request serializers with behaviour of their own: ticket ingestion,
// the partial ticket update, the chunk preview of a document and the
// validation of a knowledge-base query.
module Serializers {
  import opened Wrappers
  import opened Text
  import opened Json
  import opened Models
  import opened Http
  import opened Db
  import opened Signals
  import opened Filters
  import opened Kb

  // ------------------------------------------------------------------
  // Ticket ingestion.

  /** The validated fields of an ingested ticket. */
  datatype TicketInput = TicketInput(
    organizationId: int,
    requesterEmail: string,
    subject: string,
    body: string,
    priority: Option<Priority>)

  const UnknownOrganization: ApiError :=
    ValidationError("organization_id", "Organization with given ID does not exist.")

  /** The ticket row an ingestion creates: open, unassigned, medium priority
      unless one was given. */
  function IngestedTicket(input: TicketInput, now: Time): (r: Ticket)
    requires input.organizationId >= 0
    ensures r.org == input.organizationId && r.status == Open && r.assignedTeam == []
    ensures r.priority == input.priority.GetOr(Medium)
    ensures r.requesterEmail == input.requesterEmail && r.subject == input.subject && r.body == input.body
  {
    Ticket(input.organizationId, input.requesterEmail, input.subject, input.body, Open,
           input.priority.GetOr(Medium), "", now)
  }

  /** The single creation event of an ingested ticket, attributed to the webhook. */
  function IngestEvent(id: nat, t: Ticket, now: Time): (r: TicketEvent)
    ensures r.eventType == Created && r.actorType == Webhook && r.ticket == id && r.org == t.org
    ensures r.jobRun.None? && r.actorUser.None?
    ensures r.payload == JObj(map["source" := JStr("api"), "requester_email" := JStr(t.requesterEmail)])
  {
    TicketEvent(t.org, id, None, Created, Webhook, None,
                JObj(map["source" := JStr("api"), "requester_email" := JStr(t.requesterEmail)]), now)
  }

  /** `TicketCreateSerializer`: an unknown organization is a validation
      error and changes nothing; otherwise the ticket is saved with the hook's
      creation event suppressed, and exactly one creation event by the
      webhook is recorded in its place. No constraint of the model can fail
      inside the transaction. */
  method CreateTicket(db: Database, input: TicketInput, now: Time) returns (r: Result<nat, ApiError>)
    requires db.Valid()
    modifies db
    ensures db.Valid()
    ensures input.organizationId < 0 || input.organizationId !in old(db.orgs) ==>
              r == Err(UnknownOrganization) && db.State() == old(db.State())
    ensures input.organizationId >= 0 && input.organizationId in old(db.orgs) ==>
              var t := IngestedTicket(input, now);
              && r == Ok(old(db.nextId))
              && db.State() == old(db.State()).(
                   tickets := old(db.tickets)[r.value := t],
                   events := old(db.events) + [IngestEvent(r.value, t, now)],
                   nextId := old(db.nextId) + 1)
  {
    if input.organizationId < 0 || input.organizationId !in db.orgs {
      return Err(UnknownOrganization);
    }
    var t := IngestedTicket(input, now);
    var id := SaveTicket(db, None, t, true, None, now);
    assert PostSaveEvents(id, t, true, true, None, None, now) == [];
    AppendJoblessEvents(db.events, [IngestEvent(id, t, now)]);
    db.AppendEvents([IngestEvent(id, t, now)]);
    r := Ok(id);
  }

  // ------------------------------------------------------------------
  // Partial ticket update.

  /** The fields a PATCH may carry; absent ones are `None`. */
  datatype TicketUpdate = TicketUpdate(
    status: Option<TicketStatus>,
    priority: Option<Priority>,
    assignedTeam: Option<string>)

  /** `TicketUpdateSerializer.update`: each provided field is set, the rest
      of the row is kept. */
  function ApplyTicketUpdate(t: Ticket, u: TicketUpdate): (r: Ticket)
    ensures r.status == u.status.GetOr(t.status)
    ensures r.priority == u.priority.GetOr(t.priority)
    ensures r.assignedTeam == u.assignedTeam.GetOr(t.assignedTeam)
    ensures r.org == t.org && r.requesterEmail == t.requesterEmail && r.subject == t.subject
    ensures r.body == t.body && r.createdAt == t.createdAt
  {
    t.(status := u.status.GetOr(t.status),
       priority := u.priority.GetOr(t.priority),
       assignedTeam := u.assignedTeam.GetOr(t.assignedTeam))
  }

  /** An update logs a change event for a column only when that column was
      provided with a new value; an empty update logs nothing. */
  lemma UpdateEventsIff(id: nat, t: Ticket, u: TicketUpdate, actor: ActorType, now: Time)
    ensures var r := ChangeEvents(id, t, ApplyTicketUpdate(t, u), actor, now);
            && ((exists i :: 0 <= i < |r| && r[i].eventType == StatusChanged) <==>
                  u.status.Some? && u.status.value != t.status)
            && ((exists i :: 0 <= i < |r| && r[i].eventType == PriorityChanged) <==>
                  u.priority.Some? && u.priority.value != t.priority)
            && ((exists i :: 0 <= i < |r| && r[i].eventType == AssignedTeamChanged) <==>
                  u.assignedTeam.Some? && u.assignedTeam.value != t.assignedTeam)
            && (u == TicketUpdate(None, None, None) ==> r == [])
  {
    ChangeEventsIff(id, t, ApplyTicketUpdate(t, u), actor, now);
    ChangeEventsOrdered(id, t, ApplyTicketUpdate(t, u), actor, now);
  }

  // ------------------------------------------------------------------
  // Chunk preview.

  /** One row of the preview: chunk index and character span. */
  datatype ChunkPreview = ChunkPreview(chunkIndex: nat, charStart: nat, charEnd: nat)

  const PreviewSize: nat := 5

  predicate SortedByIndex(s: seq<DocumentChunk>) {
    forall i, j :: 0 <= i < j < |s| ==> s[i].chunkIndex <= s[j].chunkIndex
  }

  function InsertByIndex(c: DocumentChunk, s: seq<DocumentChunk>): (r: seq<DocumentChunk>)
    requires SortedByIndex(s)
    ensures |r| == |s| + 1
    ensures r[0] == c || (s != [] && r[0] == s[0])
    ensures SortedByIndex(r)
  {
    if s == [] then [c]
    else if c.chunkIndex <= s[0].chunkIndex then [c] + s
    else
      var rest := InsertByIndex(c, s[1..]);
      var r := [s[0]] + rest;
      assert forall j :: 0 < j < |r| ==> r[j] == rest[j - 1];
      r
  }

  /** Insertion adds exactly `c` to the multiset of rows. */
  lemma {:induction false} InsertByIndexPermutes(c: DocumentChunk, s: seq<DocumentChunk>)
    requires SortedByIndex(s)
    ensures multiset(InsertByIndex(c, s)) == multiset(s) + multiset{c}
  {
    if s != [] && c.chunkIndex > s[0].chunkIndex {
      InsertByIndexPermutes(c, s[1..]);
      assert s == [s[0]] + s[1..];
    }
  }

  /** `ORDER BY chunk_index`: a permutation in non-decreasing index order. */
  function OrderByIndex(s: seq<DocumentChunk>): (r: seq<DocumentChunk>)
    ensures multiset(r) == multiset(s)
    ensures SortedByIndex(r)
  {
    if s == [] then []
    else
      var rest := OrderByIndex(s[1..]);
      InsertByIndexPermutes(s[0], rest);
      assert s == [s[0]] + s[1..];
      InsertByIndex(s[0], rest)
  }

  function OfDocument(doc: nat): DocumentChunk -> bool {
    (c: DocumentChunk) => c.document == doc
  }

  function PreviewRow(c: DocumentChunk): ChunkPreview {
    ChunkPreview(c.chunkIndex, c.charStart, c.charEnd)
  }

  /** `get_chunks_preview`: the document's chunks in chunk-index order, at
      most five, reduced to index and span. */
  function ChunksPreview(chunks: seq<DocumentChunk>, doc: nat): (r: seq<ChunkPreview>)
    ensures var ordered := OrderByIndex(Keep(chunks, OfDocument(doc)));
            && |r| == Min(PreviewSize, |ordered|)
            && forall i :: 0 <= i < |r| ==> r[i] == PreviewRow(ordered[i])
  {
    var firsts := TakeAtMost(OrderByIndex(Keep(chunks, OfDocument(doc))), PreviewSize);
    seq(|firsts|, i requires 0 <= i < |firsts| => PreviewRow(firsts[i]))
  }

  /** No two rows share a chunk index. */
  predicate DistinctIndices(s: seq<DocumentChunk>) {
    forall a, b :: 0 <= a < b < |s| ==> s[a].chunkIndex != s[b].chunkIndex
  }

  /** Every preview row belongs to a chunk of the document, and under the
      (document, chunk_index) constraint the rows come in strictly increasing
      index order. */
  lemma ChunksPreviewRows(chunks: seq<DocumentChunk>, doc: nat)
    requires UniqueChunkIndex(chunks)
    ensures var r := ChunksPreview(chunks, doc);
            && (forall i :: 0 <= i < |r| ==> exists c :: c in chunks && c.document == doc && PreviewRow(c) == r[i])
            && (forall i, j :: 0 <= i < j < |r| ==> r[i].chunkIndex < r[j].chunkIndex)
  {
    var mine := Keep(chunks, OfDocument(doc));
    var ordered := OrderByIndex(mine);
    var r := ChunksPreview(chunks, doc);
    forall i | 0 <= i < |ordered| ensures ordered[i] in chunks && ordered[i].document == doc {
      assert ordered[i] in multiset(mine);
      KeepIff(chunks, OfDocument(doc), ordered[i]);
    }
    KeepUniqueIndex(chunks, doc);
    OrderKeepsDistinct(mine);
  }

  /** The chunks of one document, kept in order, have pairwise different indices. */
  lemma {:induction false} KeepUniqueIndex(chunks: seq<DocumentChunk>, doc: nat)
    requires UniqueChunkIndex(chunks)
    ensures DistinctIndices(Keep(chunks, OfDocument(doc)))
  {
    if |chunks| > 0 {
      var rest := chunks[1..];
      assert UniqueChunkIndex(rest) by {
        forall a, b | 0 <= a < b < |rest|
          ensures !(rest[a].document == rest[b].document && rest[a].chunkIndex == rest[b].chunkIndex)
        {
          assert rest[a] == chunks[a + 1] && rest[b] == chunks[b + 1];
        }
      }
      KeepUniqueIndex(rest, doc);
      var tail := Keep(rest, OfDocument(doc));
      if OfDocument(doc)(chunks[0]) {
        var mine := [chunks[0]] + tail;
        assert Keep(chunks, OfDocument(doc)) == mine;
        forall b | 0 <= b < |tail| ensures tail[b].chunkIndex != chunks[0].chunkIndex {
          KeepIff(rest, OfDocument(doc), tail[b]);
          var k :| 0 <= k < |rest| && rest[k] == tail[b];
          assert chunks[k + 1] == tail[b];
        }
        assert forall a :: 0 < a < |mine| ==> mine[a] == tail[a - 1];
      } else {
        assert Keep(chunks, OfDocument(doc)) == tail;
      }
    }
  }

  /** Insertion brings in no index other than those of `c` and `s`. */
  lemma InsertAvoids(c: DocumentChunk, s: seq<DocumentChunk>, v: nat)
    requires SortedByIndex(s)
    requires c.chunkIndex != v && forall y :: y in s ==> y.chunkIndex != v
    ensures forall y :: y in InsertByIndex(c, s) ==> y.chunkIndex != v
  {
    InsertByIndexPermutes(c, s);
    forall y | y in InsertByIndex(c, s) ensures y.chunkIndex != v {
      assert y in multiset(InsertByIndex(c, s));
      assert y in multiset(s) || y == c;
    }
  }

  /** The rows after the first of a sequence with distinct indices. */
  lemma DistinctTail(s: seq<DocumentChunk>)
    requires s != [] && DistinctIndices(s)
    ensures DistinctIndices(s[1..])
    ensures forall y :: y in s[1..] ==> y.chunkIndex != s[0].chunkIndex
  {
    var tail := s[1..];
    forall a, b | 0 <= a < b < |tail| ensures tail[a].chunkIndex != tail[b].chunkIndex {
      assert tail[a] == s[a + 1] && tail[b] == s[b + 1];
    }
    forall y | y in tail ensures y.chunkIndex != s[0].chunkIndex {
      var k :| 0 <= k < |tail| && tail[k] == y;
      assert s[k + 1] == y;
    }
  }

  /** Inserting a row whose index is new into sorted rows with distinct
      indices keeps the indices distinct. */
  lemma {:induction false} InsertKeepsDistinct(c: DocumentChunk, s: seq<DocumentChunk>)
    requires SortedByIndex(s) && DistinctIndices(s)
    requires forall y :: y in s ==> y.chunkIndex != c.chunkIndex
    ensures DistinctIndices(InsertByIndex(c, s))
  {
    if s != [] {
      if c.chunkIndex > s[0].chunkIndex {
        var tail := s[1..];
        DistinctTail(s);
        InsertKeepsDistinct(c, tail);
        InsertAvoids(c, tail, s[0].chunkIndex);
        var rest := InsertByIndex(c, tail);
        var r := [s[0]] + rest;
        assert InsertByIndex(c, s) == r;
        forall a, b | 0 <= a < b < |r| ensures r[a].chunkIndex != r[b].chunkIndex {
          assert r[b] == rest[b - 1];
          if a > 0 { assert r[a] == rest[a - 1]; }
        }
      } else {
        var r := [c] + s;
        assert InsertByIndex(c, s) == r;
        forall a, b | 0 <= a < b < |r| ensures r[a].chunkIndex != r[b].chunkIndex {
          assert r[b] == s[b - 1];
          if a > 0 { assert r[a] == s[a - 1]; }
        }
      }
    }
  }

  /** Ordering rows with distinct indices keeps them distinct. */
  lemma {:induction false} OrderKeepsDistinct(s: seq<DocumentChunk>)
    requires DistinctIndices(s)
    ensures DistinctIndices(OrderByIndex(s))
  {
    if s != [] {
      var tail := s[1..];
      DistinctTail(s);
      OrderKeepsDistinct(tail);
      var rest := OrderByIndex(tail);
      forall y | y in rest ensures y.chunkIndex != s[0].chunkIndex {
        assert y in multiset(tail);
      }
      InsertKeepsDistinct(s[0], rest);
    }
  }

  // ------------------------------------------------------------------
  // Knowledge-base query.

  /** The validated query: the trimmed query text, the ticket id and `k`. */
  datatype KbRetrieveRequest = KbRetrieveRequest(query: Option<string>, ticketId: Option<int>, k: int)

  const DefaultK: int := 5
  const MaxK: int := 50

  /** `KnowledgeBaseRetrieveSerializer`: `k` defaults to 5 and must lie in
      1..50; the query is trimmed; a request with neither a non-blank query
      nor a non-zero ticket id is refused. */
  function ValidateKbRetrieve(query: Option<string>, ticketId: Option<int>, k: Option<int>): (r: Result<KbRetrieveRequest, ApiError>)
    ensures r.Ok? ==> 1 <= r.value.k <= MaxK
    ensures r.Ok? ==> r.value.k == k.GetOr(DefaultK)
    ensures r.Ok? <==> 1 <= k.GetOr(DefaultK) <= MaxK
                       && ((query.Some? && Strip(query.value) != []) || (ticketId.Some? && ticketId.value != 0))
  {
    var kv := k.GetOr(DefaultK);
    if kv < 1 then Err(ValidationError("k", "Ensure this value is greater than or equal to 1."))
    else if kv > MaxK then Err(ValidationError("k", "Ensure this value is less than or equal to 50."))
    else
      var q := if query.Some? then Some(Strip(query.value)) else None;
      if (q.None? || q.value == []) && (ticketId.None? || ticketId.value == 0)
      then Err(ValidationError("non_field_errors", "Either 'query' or 'ticket_id' must be provided."))
      else Ok(KbRetrieveRequest(q, ticketId, kv))
  }
}
