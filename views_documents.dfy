// The knowledge-base upload endpoint: a document row and its chunk rows,
// cut by the sliding window of `Kb.ChunkText`.
module DocumentViews {
  import opened Wrappers
  import opened Text
  import opened Json
  import opened Models
  import Http
  import opened Db
  import opened Tenancy
  import opened Permissions
  import opened Kb

  const UploadDenied: Http.ApiError := Http.PermissionDenied("Only admin/agent can upload documents.")
  const TitleEmpty: Http.ApiError := Http.ValidationError("title", "Title cannot be empty.")
  const TextEmpty: Http.ApiError := Http.ValidationError("text", "Text cannot be empty.")

  /** The window and overlap the upload chunks with. */
  const UploadChunkSize: int := 1200
  const UploadOverlap: int := 200

  /** `metadata or {}`: a missing or falsy value becomes the empty object. */
  function DocumentMetadata(metadata: Option<Json>): (r: Json)
    ensures metadata.Some? && Truthy(metadata.value) ==> r == metadata.value
    ensures metadata.None? || !Truthy(metadata.value) ==> r == JObj(map[])
  {
    if metadata.Some? && Truthy(metadata.value) then metadata.value else JObj(map[])
  }

  /** The chunk rows of a new document: row `i` holds the `i`-th piece's
      text and offsets under id `firstId + i`, with no embedding yet. */
  function ChunkRows(pieces: seq<Piece>, org: nat, doc: nat, firstId: nat): (r: seq<DocumentChunk>)
    requires forall k :: 0 <= k < |pieces| ==> 0 <= pieces[k].start && 0 <= pieces[k].end
    ensures |r| == |pieces|
    ensures forall i :: 0 <= i < |r| ==>
              r[i] == DocumentChunk(firstId + i, org, doc, i, pieces[i].text, None, pieces[i].start, pieces[i].end)
  {
    seq(|pieces|, i requires 0 <= i < |pieces| =>
          DocumentChunk(firstId + i, org, doc, i, pieces[i].text, None, pieces[i].start, pieces[i].end))
  }

  /** A normalised text that is not empty always yields at least one
      chunk, the first one starting at offset 0, and the last one ending at
      the end of the text: the "Could not chunk text." branch of the
      handler cannot be taken. */
  lemma NormalizedTextChunks(text: string)
    requires text != [] && Trimmed(text)
    ensures var pieces := Chunks(text, UploadChunkSize, UploadOverlap);
            && pieces != [] && pieces[0].start == 0 && pieces[|pieces| - 1].end == |text|
  {
    var pieces := Chunks(text, UploadChunkSize, UploadOverlap);
    var step := StepSize(UploadChunkSize, UploadOverlap);
    assert OnGrid(0, step, 0);
    ChunkEmittedIffNotBlank(text, UploadChunkSize, UploadOverlap, 0);
    assert !IsSpace(text[0..Min(|text|, UploadChunkSize)][0]);
    var k :| 0 <= k < |pieces| && pieces[k].start == 0;
    ChunksWellFormed(text, UploadChunkSize, UploadOverlap);
    ChunksIncreasing(text, UploadChunkSize, UploadOverlap);
    assert pieces[0].start <= pieces[k].start;
    LastChunkEndsAtLength(text, UploadChunkSize, UploadOverlap);
  }

  /** The checks of the upload before anything is stored: membership
      (404), the admin/agent role (403), then the stripped title and the
      normalised text must not be empty (400). On success, the title and
      text to store. */
  function UploadCheck(ms: seq<Membership>, user: nat, org: nat, title: string, text: Option<string>)
    : (r: Result<(string, string), Http.ApiError>)
    ensures r == Err(Http.NotFound) <==> !IsMember(ms, user, org)
    ensures r == Err(UploadDenied) <==> IsMember(ms, user, org) && !AdminOrAgent(UserRoleInOrg(ms, user, org))
    ensures r == Err(TitleEmpty) <==>
              IsMember(ms, user, org) && AdminOrAgent(UserRoleInOrg(ms, user, org)) && Strip(title) == []
    ensures r == Err(TextEmpty) <==>
              && IsMember(ms, user, org) && AdminOrAgent(UserRoleInOrg(ms, user, org))
              && Strip(title) != [] && NormalizeText(text) == []
    ensures r.Ok? ==> && r.value == (Strip(title), NormalizeText(text))
                      && r.value.0 != [] && r.value.1 != [] && Trimmed(r.value.0) && Trimmed(r.value.1)
  {
    if !IsMember(ms, user, org) then Err(Http.NotFound)
    else if !AdminOrAgent(UserRoleInOrg(ms, user, org)) then Err(UploadDenied)
    else if Strip(title) == [] then Err(TitleEmpty)
    else if NormalizeText(text) == [] then Err(TextEmpty)
    else Ok((Strip(title), NormalizeText(text)))
  }

  /** The transaction of the upload: the document under a fresh id, then
      its chunk rows under the ids that follow, numbered from 0. */
  method StoreDocument(db: Database, org: nat, user: nat, title: string, body: string, meta: Json)
    returns (doc: nat)
    requires db.Valid() && body != [] && Trimmed(body)
    modifies db
    ensures db.Valid()
    ensures var pieces := Chunks(body, UploadChunkSize, UploadOverlap);
            && doc == old(db.nextId)
            && AllWellFormed(body, UploadChunkSize, pieces) && pieces != []
            && db.State() == old(db.State()).(
                 documents := old(db.documents)[doc := Document(org, title, body, Some(user), meta)],
                 chunks := old(db.chunks) + ChunkRows(pieces, org, doc, doc + 1),
                 nextId := doc + 1 + |pieces|)
  {
    var pieces := ChunkText(body, UploadChunkSize, UploadOverlap);
    NormalizedTextChunks(body);
    ChunksWellFormed(body, UploadChunkSize, UploadOverlap);
    doc := db.NewId();
    db.InsertDocument(doc, Document(org, title, body, Some(user), meta));
    var first := db.ReserveIds(|pieces|);
    var rows := ChunkRows(pieces, org, doc, first);
    // Every stored chunk belongs to an older document than this one.
    assert forall i :: 0 <= i < |db.chunks| ==> db.chunks[i].document < doc;
    UniqueNewChunks(db.chunks, rows, doc);
    db.AppendChunks(rows);
  }

  /** `DocumentViewSet.create`: the checks of `UploadCheck`, the
      organisation lookup (404), then the document and its chunks are
      stored. `NormalizedTextChunks` shows that the handler's "Could not
      chunk text." branch cannot be reached, so it is not modelled. */
  method CreateDocument(db: Database, user: nat, org: nat, title: string, text: Option<string>, metadata: Option<Json>)
    returns (r: Result<nat, Http.ApiError>)
    requires db.Valid()
    modifies db
    ensures db.Valid()
    ensures UploadCheck(old(db.memberships), user, org, title, text).Err? ==>
              r == Err(UploadCheck(old(db.memberships), user, org, title, text).error)
    ensures UploadCheck(old(db.memberships), user, org, title, text).Ok? && org !in old(db.orgs) ==>
              r == Err(Http.NotFound)
    ensures r.Err? ==> db.State() == old(db.State())
    ensures r.Ok? <==> UploadCheck(old(db.memberships), user, org, title, text).Ok? && org in old(db.orgs)
    ensures r.Ok? ==>
              var body := NormalizeText(text);
              var pieces := Chunks(body, UploadChunkSize, UploadOverlap);
              && r.value == old(db.nextId)
              && AllWellFormed(body, UploadChunkSize, pieces) && pieces != []
              && db.State() == old(db.State()).(
                   documents := old(db.documents)[r.value := Document(org, Strip(title), body, Some(user),
                                                                      DocumentMetadata(metadata))],
                   chunks := old(db.chunks) + ChunkRows(pieces, org, r.value, r.value + 1),
                   nextId := r.value + 1 + |pieces|)
  {
    var checked := UploadCheck(db.memberships, user, org, title, text);
    if checked.Err? {
      return Err(checked.error);
    }
    var meta := DocumentMetadata(metadata);
    if org !in db.orgs {
      return Err(Http.NotFound);
    }
    var doc := StoreDocument(db, org, user, checked.value.0, checked.value.1, meta);
    r := Ok(doc);
  }

  /** Rows of one new document with distinct indices keep
      (document, chunk_index) unique. */
  lemma UniqueNewChunks(chunks: seq<DocumentChunk>, rows: seq<DocumentChunk>, doc: nat)
    requires UniqueChunkIndex(chunks)
    requires forall i :: 0 <= i < |chunks| ==> chunks[i].document < doc
    requires forall i :: 0 <= i < |rows| ==> rows[i].document == doc && rows[i].chunkIndex == i
    ensures UniqueChunkIndex(chunks + rows)
  {
    var all := chunks + rows;
    forall i, j | 0 <= i < j < |all|
      ensures !(all[i].document == all[j].document && all[i].chunkIndex == all[j].chunkIndex)
    {
      if j >= |chunks| {
        assert all[j] == rows[j - |chunks|];
        if i >= |chunks| {
          assert all[i] == rows[i - |chunks|];
        } else {
          assert all[i] == chunks[i];
        }
      }
    }
  }

  /** The chunk rows of an upload cover the stored text: row `i` has index
      `i`, holds exactly the characters between its offsets, spans at most
      the window, is not blank, and the rows start at 0, advance strictly
      and end at the end of the text. */
  lemma UploadedChunksCoverText(text: Option<string>, org: nat, doc: nat)
    requires NormalizeText(text) != []
    ensures var body := NormalizeText(text);
            var pieces := Chunks(body, UploadChunkSize, UploadOverlap);
            AllWellFormed(body, UploadChunkSize, pieces) &&
            var rows := ChunkRows(pieces, org, doc, doc + 1);
            && rows != [] && rows[0].charStart == 0 && rows[|rows| - 1].charEnd == |body|
            && (forall i :: 0 <= i < |rows| ==>
                  && rows[i].chunkIndex == i && rows[i].document == doc && rows[i].org == org
                  && rows[i].charStart < rows[i].charEnd <= |body|
                  && rows[i].charEnd - rows[i].charStart <= UploadChunkSize
                  && rows[i].text == body[rows[i].charStart..rows[i].charEnd] && !IsBlank(rows[i].text))
            && (forall i, j :: 0 <= i < j < |rows| ==> rows[i].charStart < rows[j].charStart)
  {
    var body := NormalizeText(text);
    NormalizedTextChunks(body);
    ChunksWellFormed(body, UploadChunkSize, UploadOverlap);
    ChunksIncreasing(body, UploadChunkSize, UploadOverlap);
  }
}
