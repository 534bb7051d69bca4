// The suggestion endpoints that change the store: the role-restricted
// partial update with its audit diff, and the idempotent rejection.
module SuggestionViews {
  import opened Wrappers
  import opened Json
  import opened Models
  import Http
  import opened Db
  import opened Tenancy
  import opened Permissions

  const EditDenied: Http.ApiError := Http.PermissionDenied("Only admin/agent can edit suggestions.")
  const RejectDenied: Http.ApiError := Http.PermissionDenied("Only admin/agent can reject suggestions.")

  /** The suggestion lookup of the nested routes: the row exists under the
      organisation and ticket of the URL (otherwise 404). */
  predicate SuggestionAt(suggestions: map<nat, Suggestion>, sid: nat, org: nat, ticket: nat) {
    sid in suggestions && suggestions[sid].org == org && suggestions[sid].ticket == ticket
  }

  // ------------------------------------------------------------------
  // Partial update

  /** The fields a PATCH body may carry; absent ones are `None`. */
  datatype SuggestionEdit = SuggestionEdit(
    status: Option<SuggestionStatus>,
    draftReply: Option<string>,
    suggestedTeam: Option<string>,
    suggestedPriority: Option<Priority>,
    metadata: Option<Json>)

  /** The fields the role's serializer accepts: an admin may set all five,
      anyone else only the draft reply and the metadata (other fields in
      the body are ignored). */
  function PermittedEdit(role: Option<Role>, e: SuggestionEdit): (r: SuggestionEdit)
    ensures role == Some(Admin) ==> r == e
    ensures role != Some(Admin) ==> r == SuggestionEdit(None, e.draftReply, None, None, e.metadata)
  {
    if role == Some(Admin) then e else SuggestionEdit(None, e.draftReply, None, None, e.metadata)
  }

  /** The serializer's `save()`: each provided field is set, the rest of
      the row is kept. */
  function ApplyEdit(s: Suggestion, e: SuggestionEdit): (r: Suggestion)
    ensures r.status == e.status.GetOr(s.status) && r.draftReply == e.draftReply.GetOr(s.draftReply)
    ensures r.suggestedTeam == e.suggestedTeam.GetOr(s.suggestedTeam)
    ensures r.suggestedPriority == (if e.suggestedPriority.Some? then e.suggestedPriority else s.suggestedPriority)
    ensures r.metadata == e.metadata.GetOr(s.metadata)
    ensures r.(status := s.status, draftReply := s.draftReply, suggestedTeam := s.suggestedTeam,
               suggestedPriority := s.suggestedPriority, metadata := s.metadata) == s
  {
    s.(status := e.status.GetOr(s.status),
       draftReply := e.draftReply.GetOr(s.draftReply),
       suggestedTeam := e.suggestedTeam.GetOr(s.suggestedTeam),
       suggestedPriority := if e.suggestedPriority.Some? then e.suggestedPriority else s.suggestedPriority,
       metadata := e.metadata.GetOr(s.metadata))
  }

  /** The five columns the audit diff compares, in the order it visits them. */
  datatype Column = StatusColumn | DraftReplyColumn | TeamColumn | PriorityColumn | MetadataColumn {
    function Name(): string {
      match this
      case StatusColumn => "status"
      case DraftReplyColumn => "draft_reply"
      case TeamColumn => "suggested_team"
      case PriorityColumn => "suggested_priority"
      case MetadataColumn => "metadata"
    }

    /** The column's value as it goes into the JSON payload. */
    function Value(s: Suggestion): Json {
      match this
      case StatusColumn => JStr(s.status.Code())
      case DraftReplyColumn => JStr(s.draftReply)
      case TeamColumn => JStr(s.suggestedTeam)
      case PriorityColumn => (match s.suggestedPriority
                              case None => JNull
                              case Some(p) => JStr(p.Code()))
      case MetadataColumn => s.metadata
    }
  }

  const TrackedColumns: seq<Column> := [StatusColumn, DraftReplyColumn, TeamColumn, PriorityColumn, MetadataColumn]

  function DiffEntry(from: Json, to: Json): Json {
    JObj(map["from" := from, "to" := to])
  }

  /** The `changes` dict after visiting `cols` in order: one entry per
      column whose value differs. */
  function DiffOver(cols: seq<Column>, before: Suggestion, after: Suggestion): map<string, Json>
    decreases |cols|
  {
    if cols == [] then map[]
    else
      var c := cols[|cols| - 1];
      var m := DiffOver(cols[..|cols| - 1], before, after);
      if !PyEq(c.Value(before), c.Value(after)) then m[c.Name() := DiffEntry(c.Value(before), c.Value(after))]
      else m
  }

  /** The `changes` dict of `perform_update`. */
  function Changes(before: Suggestion, after: Suggestion): map<string, Json> {
    DiffOver(TrackedColumns, before, after)
  }

  /** A column's name is in the diff exactly when the column is among those
      visited and its value changed, and the entry holds both values. */
  lemma {:induction false} DiffOverIff(cols: seq<Column>, before: Suggestion, after: Suggestion)
    ensures forall c :: c in cols ==>
              (c.Name() in DiffOver(cols, before, after) <==> !PyEq(c.Value(before), c.Value(after)))
    ensures forall c :: c in cols && c.Name() in DiffOver(cols, before, after) ==>
              DiffOver(cols, before, after)[c.Name()] == DiffEntry(c.Value(before), c.Value(after))
    decreases |cols|
  {
    if cols != [] {
      var init, last := cols[..|cols| - 1], cols[|cols| - 1];
      var m, r := DiffOver(init, before, after), DiffOver(cols, before, after);
      DiffOverIff(init, before, after);
      assert cols == init + [last];
      assert r == if !PyEq(last.Value(before), last.Value(after))
                  then m[last.Name() := DiffEntry(last.Value(before), last.Value(after))] else m;
      forall c | c in cols
        ensures c.Name() in r <==> !PyEq(c.Value(before), c.Value(after))
        ensures c.Name() in r ==> r[c.Name()] == DiffEntry(c.Value(before), c.Value(after))
      {
        if c != last {
          assert c in init;
          NameInjective(c, last);
        } else if c.Name() in m && c !in init {
          DiffOverKeys(init, before, after);
          var d :| d in init && d.Name() == c.Name();
          NameInjective(c, d);
        }
      }
    }
  }

  /** The diff has no entry other than the names of the visited columns. */
  lemma {:induction false} DiffOverKeys(cols: seq<Column>, before: Suggestion, after: Suggestion)
    ensures forall k :: k in DiffOver(cols, before, after) ==> exists c :: c in cols && c.Name() == k
    decreases |cols|
  {
    if cols != [] {
      var init, last := cols[..|cols| - 1], cols[|cols| - 1];
      var m, r := DiffOver(init, before, after), DiffOver(cols, before, after);
      DiffOverKeys(init, before, after);
      assert cols == init + [last];
      forall k | k in r ensures exists c :: c in cols && c.Name() == k {
        if k == last.Name() {
          assert last in cols;
        } else {
          assert k in m;
          var c :| c in init && c.Name() == k;
          assert c in cols;
        }
      }
    }
  }

  /** Distinct columns have distinct names. */
  lemma NameInjective(c1: Column, c2: Column)
    ensures c1.Name() == c2.Name() ==> c1 == c2
  {
  }

  /** The diff has an entry for a tracked column exactly when that column
      changed, with its old and new value, and no other entries. */
  lemma ChangesIff(before: Suggestion, after: Suggestion)
    ensures forall c :: c in TrackedColumns ==>
              (c.Name() in Changes(before, after) <==> !PyEq(c.Value(before), c.Value(after)))
    ensures forall c :: c in TrackedColumns && c.Name() in Changes(before, after) ==>
              Changes(before, after)[c.Name()] == DiffEntry(c.Value(before), c.Value(after))
    ensures forall k :: k in Changes(before, after) ==> exists c :: c in TrackedColumns && c.Name() == k
  {
    DiffOverIff(TrackedColumns, before, after);
    DiffOverKeys(TrackedColumns, before, after);
  }

  /** The diff is empty exactly when none of the five columns changed. */
  lemma NoChangesIffSameColumns(before: Suggestion, after: Suggestion)
    ensures Changes(before, after) == map[] <==>
              && before.status == after.status && before.draftReply == after.draftReply
              && before.suggestedTeam == after.suggestedTeam
              && before.suggestedPriority == after.suggestedPriority
              && PyEq(before.metadata, after.metadata)
  {
    ChangesIff(before, after);
    var tracked := TrackedColumns;
    assert StatusColumn in tracked && DraftReplyColumn in tracked && TeamColumn in tracked;
    assert PriorityColumn in tracked && MetadataColumn in tracked;
    if Changes(before, after) == map[] {
      assert StatusColumn.Value(before) == StatusColumn.Value(after);
      assert PriorityColumn.Value(before) == PriorityColumn.Value(after);
    }
  }

  /** Values are compared with Python's `==`: metadata `{"x": 1}` saved as
      `{"x": true}` is no change, and no audit event is written for it. */
  lemma TrueForOneIsNoChange(s: Suggestion)
    requires s.metadata == JObj(map["x" := JNum(1)])
    ensures Changes(s, s.(metadata := JObj(map["x" := JBool(true)]))) == map[]
  {
    var after := s.(metadata := JObj(map["x" := JBool(true)]));
    assert PyEq(s.metadata.fields["x"], after.metadata.fields["x"]);
    NoChangesIffSameColumns(s, after);
  }

  /** Whatever an agent sends, the audit diff can only name the draft reply
      and the metadata. */
  lemma AgentDiffOnlyReplyAndMetadata(s: Suggestion, role: Option<Role>, e: SuggestionEdit)
    requires role != Some(Admin)
    ensures forall k :: k in Changes(s, ApplyEdit(s, PermittedEdit(role, e))) ==> k == "draft_reply" || k == "metadata"
  {
    var after := ApplyEdit(s, PermittedEdit(role, e));
    UnchangedColumnNotInDiff(StatusColumn, s, after);
    UnchangedColumnNotInDiff(TeamColumn, s, after);
    UnchangedColumnNotInDiff(PriorityColumn, s, after);
    ChangesIff(s, after);
    forall k | k in Changes(s, after) ensures k == "draft_reply" || k == "metadata" {
      var c :| c in TrackedColumns && c.Name() == k;
      assert c != StatusColumn && c != TeamColumn && c != PriorityColumn;
    }
  }

  /** A tracked column with the same value before and after has no entry. */
  lemma UnchangedColumnNotInDiff(c: Column, before: Suggestion, after: Suggestion)
    requires c in TrackedColumns && c.Value(before) == c.Value(after)
    ensures c.Name() !in Changes(before, after)
  {
    ChangesIff(before, after);
    PyEqReflexive(c.Value(before));
  }

  /** `perform_update`'s loop over the tracked columns. */
  method Diff(before: Suggestion, after: Suggestion) returns (changes: map<string, Json>)
    ensures changes == Changes(before, after)
  {
    changes := map[];
    var i := 0;
    while i < |TrackedColumns|
      invariant 0 <= i <= |TrackedColumns|
      invariant changes == DiffOver(TrackedColumns[..i], before, after)
    {
      var c := TrackedColumns[i];
      assert TrackedColumns[..i + 1][..i] == TrackedColumns[..i];
      if !PyEq(c.Value(before), c.Value(after)) {
        changes := changes[c.Name() := DiffEntry(c.Value(before), c.Value(after))];
      }
      i := i + 1;
    }
    assert TrackedColumns[..i] == TrackedColumns;
  }

  /** The audit event of an edit: a comment by the user carrying the
      suggestion id and the diff; none when nothing changed. */
  function EditEvents(user: nat, sid: nat, before: Suggestion, after: Suggestion, now: Time): (r: seq<TicketEvent>)
    ensures |r| <= 1 && (r == [] <==> Changes(before, after) == map[])
    ensures forall i :: 0 <= i < |r| ==> r[i].jobRun.None? && r[i].eventType == CommentAdded
                                         && r[i].actorType == User && r[i].actorUser == Some(user)
  {
    var changes := Changes(before, after);
    if changes == map[] then []
    else [TicketEvent(after.org, after.ticket, None, CommentAdded, User, Some(user),
                      JObj(map["suggestion_id" := JNum(sid), "changes" := JObj(changes)]), now)]
  }

  /** `SuggestionViewSet.partial_update` with `perform_update`: membership
      (404), the admin/agent role (403), the suggestion under the URL's
      organisation and ticket (404); then the role's fields are saved and a
      comment event records the diff when there is one. */
  method EditSuggestion(db: Database, user: nat, org: nat, ticket: nat, sid: nat, e: SuggestionEdit, now: Time)
    returns (r: Result<Suggestion, Http.ApiError>)
    requires db.Valid()
    modifies db
    ensures db.Valid()
    ensures !IsMember(old(db.memberships), user, org) ==> r == Err(Http.NotFound) && db.State() == old(db.State())
    ensures IsMember(old(db.memberships), user, org) && !AdminOrAgent(UserRoleInOrg(old(db.memberships), user, org)) ==>
              r == Err(EditDenied) && db.State() == old(db.State())
    ensures IsMember(old(db.memberships), user, org) && AdminOrAgent(UserRoleInOrg(old(db.memberships), user, org))
            && !SuggestionAt(old(db.suggestions), sid, org, ticket) ==>
              r == Err(Http.NotFound) && db.State() == old(db.State())
    ensures r.Ok? <==> && IsMember(old(db.memberships), user, org)
                       && AdminOrAgent(UserRoleInOrg(old(db.memberships), user, org))
                       && SuggestionAt(old(db.suggestions), sid, org, ticket)
    ensures r.Ok? ==>
              var before := old(db.suggestions)[sid];
              && r.value == ApplyEdit(before, PermittedEdit(UserRoleInOrg(old(db.memberships), user, org), e))
              && db.State() == old(db.State()).(
                   suggestions := old(db.suggestions)[sid := r.value],
                   events := old(db.events) + EditEvents(user, sid, before, r.value, now))
  {
    if !IsMember(db.memberships, user, org) {
      return Err(Http.NotFound);
    }
    var role := UserRoleInOrg(db.memberships, user, org);
    if !AdminOrAgent(role) {
      return Err(EditDenied);
    }
    if !(sid in db.suggestions && db.suggestions[sid].org == org && db.suggestions[sid].ticket == ticket) {
      return Err(Http.NotFound);
    }
    var before := db.suggestions[sid];
    var updated := ApplyEdit(before, PermittedEdit(role, e));
    db.UpdateSuggestion(sid, updated);
    var changes := Diff(before, updated);
    var more: seq<TicketEvent> := [];
    if changes != map[] {
      more := [TicketEvent(updated.org, updated.ticket, None, CommentAdded, User, Some(user),
                           JObj(map["suggestion_id" := JNum(sid), "changes" := JObj(changes)]), now)];
    }
    assert more == EditEvents(user, sid, before, updated, now);
    AppendJoblessEvents(db.events, more);
    db.AppendEvents(more);
    r := Ok(updated);
  }

  // ------------------------------------------------------------------
  // Rejection

  /** The two successful answers: the suggestion was already rejected, or
      it has just been. */
  datatype RejectReply = AlreadyRejected(status: SuggestionStatus) | RejectedNow(id: nat, status: SuggestionStatus)

  const AlreadyRejectedDetail: string := "Suggestion already rejected."

  /** The 200 response body. */
  function RejectBody(reply: RejectReply): Json {
    match reply
    case AlreadyRejected(status) => JObj(map["detail" := JStr(AlreadyRejectedDetail), "status" := JStr(status.Code())])
    case RejectedNow(id, status) => JObj(map["id" := JNum(id), "status" := JStr(status.Code())])
  }

  /** The audit event of a rejection: by the user, from the old status to
      rejected. */
  function RejectEvent(user: nat, sid: nat, s: Suggestion, now: Time): (r: TicketEvent)
    ensures r.jobRun.None? && r.eventType == SuggestionRejected && r.actorType == User && r.actorUser == Some(user)
    ensures r.org == s.org && r.ticket == s.ticket
  {
    TicketEvent(s.org, s.ticket, None, SuggestionRejected, User, Some(user),
                JObj(map["suggestion_id" := JNum(sid), "from_status" := JStr(s.status.Code()),
                         "to_status" := JStr(Rejected.Code())]), now)
  }

  /** `SuggestionRejectView.post`: membership (404), the admin/agent role
      (403), the suggestion under the URL's organisation and ticket (404).
      An already rejected suggestion is answered as such and nothing
      changes; otherwise its status becomes rejected and one rejection
      event is recorded. */
  method RejectSuggestion(db: Database, user: nat, org: nat, ticket: nat, sid: nat, now: Time)
    returns (r: Result<RejectReply, Http.ApiError>)
    requires db.Valid()
    modifies db
    ensures db.Valid()
    ensures !IsMember(old(db.memberships), user, org) ==> r == Err(Http.NotFound) && db.State() == old(db.State())
    ensures IsMember(old(db.memberships), user, org) && !AdminOrAgent(UserRoleInOrg(old(db.memberships), user, org)) ==>
              r == Err(RejectDenied) && db.State() == old(db.State())
    ensures IsMember(old(db.memberships), user, org) && AdminOrAgent(UserRoleInOrg(old(db.memberships), user, org))
            && !SuggestionAt(old(db.suggestions), sid, org, ticket) ==>
              r == Err(Http.NotFound) && db.State() == old(db.State())
    ensures r.Ok? <==> && IsMember(old(db.memberships), user, org)
                       && AdminOrAgent(UserRoleInOrg(old(db.memberships), user, org))
                       && SuggestionAt(old(db.suggestions), sid, org, ticket)
    ensures r.Ok? ==> sid in db.suggestions && db.suggestions[sid].status == Rejected
    ensures r.Ok? && old(db.suggestions)[sid].status == Rejected ==>
              r.value == AlreadyRejected(Rejected) && db.State() == old(db.State())
    ensures r.Ok? && old(db.suggestions)[sid].status != Rejected ==>
              && r.value == RejectedNow(sid, Rejected)
              && db.State() == old(db.State()).(
                   suggestions := old(db.suggestions)[sid := old(db.suggestions)[sid].(status := Rejected)],
                   events := old(db.events) + [RejectEvent(user, sid, old(db.suggestions)[sid], now)])
  {
    if !IsMember(db.memberships, user, org) {
      return Err(Http.NotFound);
    }
    var role := UserRoleInOrg(db.memberships, user, org);
    if !AdminOrAgent(role) {
      return Err(RejectDenied);
    }
    if !(sid in db.suggestions && db.suggestions[sid].org == org && db.suggestions[sid].ticket == ticket) {
      return Err(Http.NotFound);
    }
    var s := db.suggestions[sid];
    if s.status == Rejected {
      return Ok(AlreadyRejected(s.status));
    }
    db.UpdateSuggestion(sid, s.(status := Rejected));
    var more := [RejectEvent(user, sid, s, now)];
    AppendJoblessEvents(db.events, more);
    db.AppendEvents(more);
    r := Ok(RejectedNow(sid, Rejected));
  }

  /** Rejecting twice: the second call answers "already rejected" and
      changes nothing, so at most one rejection event is ever recorded. */
  method RejectTwice(db: Database, user: nat, org: nat, ticket: nat, sid: nat, now1: Time, now2: Time)
    returns (r1: Result<RejectReply, Http.ApiError>, r2: Result<RejectReply, Http.ApiError>)
    requires db.Valid()
    modifies db
    ensures db.Valid()
    ensures r1.Ok? ==> r2 == Ok(AlreadyRejected(Rejected))
    ensures r1.Ok? ==> |db.events| <= |old(db.events)| + 1
    ensures r1.Err? ==> r2 == r1 && db.State() == old(db.State())
  {
    r1 := RejectSuggestion(db, user, org, ticket, sid, now1);
    r2 := RejectSuggestion(db, user, org, ticket, sid, now2);
  }
}
