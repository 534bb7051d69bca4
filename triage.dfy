// The rule-based triage of a ticket: keyword groups on the lower-cased
// subject and body choose a priority, a team and a resolution line; the
// summary is the first line of the body, cut to 160 characters.
module Triage {
  import opened Wrappers
  import opened Text
  import opened Models

  datatype TriageRules = TriageRules(
    resolution: string,
    summary: string,
    proposedStatus: string,
    proposedPriority: string,
    proposedTeamName: string,
    confidence: real)

  /** The routing a keyword group imposes. */
  datatype Route = Route(priority: string, team: string, line: string)

  /** Python raises this when an attribute the code reads does not exist. */
  datatype PyError = AttributeError(name: string)

  const LoginWords: seq<string> := ["password", "login", "sign in"]
  const BillingWords: seq<string> := ["payment", "billing", "invoice", "refund"]
  const ErrorWords: seq<string> := ["error", "exception", "stack trace", "500", "crash"]
  const SlownessWords: seq<string> := ["slow", "latency", "performance"]

  const LoginLine: string :=
    "Confirm the user's identity, walk them through the password reset flow, "
    + "and verify they can sign in successfully."
  const BillingLine: string :=
    "Review recent invoices and payment status, correct any billing discrepancies, "
    + "and send the customer a confirmation of the updated balance."
  const ErrorLine: string :=
    "Reproduce the error, capture logs and request context, create a bug ticket for "
    + "the backend team, and notify the user once a fix is deployed."
  const SlownessLine: string :=
    "Gather response-time metrics for the affected endpoints, check recent deployments "
    + "or incidents, and escalate to the platform team if regression is confirmed."
  const DefaultLine: string :=
    "Acknowledge the issue, collect any missing details (steps to reproduce, screenshots, "
    + "expected vs actual behaviour), and route the ticket to the default support queue "
    + "for deeper investigation."

  const ProposedStatus: string := "open"
  const Confidence: real := 0.65
  const SummaryLimit: nat := 160

  /** The text the keywords are searched in. */
  function SearchText(t: Ticket): string {
    Lower(t.subject + "\n\n" + t.body)
  }

  /** The first keyword group that matches decides the route, in the order
      login, billing, error, slowness; `None` when none does. */
  function MatchRoute(text: string): (r: Option<Route>)
    ensures ContainsAny(text, LoginWords) ==> r == Some(Route("low", "support", LoginLine))
    ensures !ContainsAny(text, LoginWords) && ContainsAny(text, BillingWords) ==>
              r == Some(Route("high", "billing", BillingLine))
    ensures !ContainsAny(text, LoginWords) && !ContainsAny(text, BillingWords) && ContainsAny(text, ErrorWords) ==>
              r == Some(Route("high", "backend", ErrorLine))
    ensures !ContainsAny(text, LoginWords) && !ContainsAny(text, BillingWords) && !ContainsAny(text, ErrorWords)
            && ContainsAny(text, SlownessWords) ==>
              r == Some(Route("medium", "platform", SlownessLine))
    ensures r.None? <==> !ContainsAny(text, LoginWords) && !ContainsAny(text, BillingWords)
                         && !ContainsAny(text, ErrorWords) && !ContainsAny(text, SlownessWords)
  {
    if ContainsAny(text, LoginWords) then Some(Route("low", "support", LoginLine))
    else if ContainsAny(text, BillingWords) then Some(Route("high", "billing", BillingLine))
    else if ContainsAny(text, ErrorWords) then Some(Route("high", "backend", ErrorLine))
    else if ContainsAny(text, SlownessWords) then Some(Route("medium", "platform", SlownessLine))
    else None
  }

  /** `s.split("\n", 1)[0]`: everything before the first line break. */
  function FirstLine(s: string): (r: string)
    ensures '\n' !in r
    ensures StartsWith(s, r)
    ensures r == s || (|r| < |s| && s[|r|] == '\n')
  {
    var k := Find(s, '\n');
    if k == -1 then s else s[..k]
  }

  /** The console summary: the first line of the stripped body when there is
      a body, the subject otherwise, cut to 157 characters plus "..." when
      longer than 160. */
  function Summary(subject: string, body: string): (r: string)
    ensures |r| <= SummaryLimit
  {
    var base := if body != [] then FirstLine(Strip(body)) else subject;
    if |base| > SummaryLimit then base[..157] + "..." else base
  }

  /** The summary is the whole base text when it fits, and otherwise keeps
      its first 157 characters and marks the cut. */
  lemma SummaryKeepsPrefix(subject: string, body: string)
    ensures var base := if body != [] then FirstLine(Strip(body)) else subject;
            var r := Summary(subject, body);
            && (|base| <= SummaryLimit ==> r == base)
            && (|base| > SummaryLimit ==> |r| == SummaryLimit && StartsWith(base, r[..157]))
            && (|base| > SummaryLimit ==> r[157..] == "...")
  {
  }

  /** A summary taken from a body is a single line. */
  lemma SummaryOfBodyIsOneLine(subject: string, body: string)
    requires body != []
    ensures '\n' !in Summary(subject, body)
  {
    var base := FirstLine(Strip(body));
    if |base| > SummaryLimit {
      var r := base[..157] + "...";
      forall i | 0 <= i < |r| ensures r[i] != '\n' {
        if i < 157 { assert r[i] == base[i]; }
      }
    }
  }

  /** `_basic_triage_rules` as the team default was evidently meant: the
      ticket's `assigned_team` column, or "support" when it is empty. */
  function BasicTriageRules(t: Ticket): (r: TriageRules)
    ensures r.proposedStatus == "open" && r.confidence == 0.65
    ensures r.summary == Summary(t.subject, t.body) && |r.summary| <= SummaryLimit
    ensures MatchRoute(SearchText(t)).Some? ==>
              var route := MatchRoute(SearchText(t)).value;
              r.proposedPriority == route.priority && r.proposedTeamName == route.team && r.resolution == route.line
    ensures MatchRoute(SearchText(t)).None? ==>
              && r.proposedPriority == OrElse(t.priority.Code(), "medium")
              && r.proposedTeamName == OrElse(t.assignedTeam, "support") && r.resolution == DefaultLine
  {
    Triage(t, OrElse(t.assignedTeam, "support"))
  }

  /** The shared rule body, given the team the ticket would keep. */
  function Triage(t: Ticket, defaultTeam: string): (r: TriageRules)
    ensures r.proposedStatus == "open" && r.confidence == 0.65
    ensures r.summary == Summary(t.subject, t.body) && |r.summary| <= SummaryLimit
    ensures MatchRoute(SearchText(t)).Some? ==>
              var route := MatchRoute(SearchText(t)).value;
              r.proposedPriority == route.priority && r.proposedTeamName == route.team && r.resolution == route.line
    ensures MatchRoute(SearchText(t)).None? ==>
              && r.proposedPriority == OrElse(t.priority.Code(), "medium")
              && r.proposedTeamName == defaultTeam && r.resolution == DefaultLine
  {
    var route := MatchRoute(SearchText(t));
    var priority := if route.Some? then route.value.priority else OrElse(t.priority.Code(), "medium");
    var team := if route.Some? then route.value.team else defaultTeam;
    var line := if route.Some? then route.value.line else DefaultLine;
    TriageRules(Join([line], " "), Summary(t.subject, t.body), ProposedStatus, priority, team, Confidence)
  }

  /** Routing precedence and the fall-back: login words win over billing
      words, which win over error words, which win over slowness words; with
      no keyword at all the ticket keeps its own priority and team, and the
      default resolution line is used. */
  lemma TriagePrecedence(t: Ticket)
    ensures var text, r := SearchText(t), BasicTriageRules(t);
            && (ContainsAny(text, LoginWords) ==>
                  r.proposedPriority == "low" && r.proposedTeamName == "support" && r.resolution == LoginLine)
            && (!ContainsAny(text, LoginWords) && ContainsAny(text, BillingWords) ==>
                  r.proposedPriority == "high" && r.proposedTeamName == "billing" && r.resolution == BillingLine)
            && (!ContainsAny(text, LoginWords) && !ContainsAny(text, BillingWords) && ContainsAny(text, ErrorWords) ==>
                  r.proposedPriority == "high" && r.proposedTeamName == "backend" && r.resolution == ErrorLine)
            && (!ContainsAny(text, LoginWords) && !ContainsAny(text, BillingWords) && !ContainsAny(text, ErrorWords)
                && ContainsAny(text, SlownessWords) ==>
                  r.proposedPriority == "medium" && r.proposedTeamName == "platform" && r.resolution == SlownessLine)
    ensures MatchRoute(SearchText(t)).None? ==>
              && BasicTriageRules(t).proposedPriority == t.priority.Code()
              && BasicTriageRules(t).proposedTeamName == OrElse(t.assignedTeam, "support")
              && BasicTriageRules(t).resolution == DefaultLine
  {
  }

  /** The keyword routing ignores ASCII letter case in subject and body. */
  lemma TriageIgnoresCase(t: Ticket, u: Ticket)
    requires Lower(t.subject) == Lower(u.subject) && Lower(t.body) == Lower(u.body)
    requires t.priority == u.priority && t.assignedTeam == u.assignedTeam
    ensures BasicTriageRules(t).proposedPriority == BasicTriageRules(u).proposedPriority
    ensures BasicTriageRules(t).proposedTeamName == BasicTriageRules(u).proposedTeamName
    ensures BasicTriageRules(t).resolution == BasicTriageRules(u).resolution
  {
    LowerAppend(t.subject, "\n\n" + t.body);
    LowerAppend("\n\n", t.body);
    LowerAppend(u.subject, "\n\n" + u.body);
    LowerAppend("\n\n", u.body);
    assert t.subject + "\n\n" + t.body == t.subject + ("\n\n" + t.body);
    assert u.subject + "\n\n" + u.body == u.subject + ("\n\n" + u.body);
  }

  // ------------------------------------------------------------------
  // The code as written reads `ticket.assigned_team_name`, which is not a
  // column of the ticket.

  /** Attribute lookup on a ticket instance: its text-valued columns. */
  function TicketAttribute(t: Ticket, name: string): (r: Option<string>)
    ensures name == "assigned_team" ==> r == Some(t.assignedTeam)
  {
    if name == "subject" then Some(t.subject)
    else if name == "body" then Some(t.body)
    else if name == "requester_email" then Some(t.requesterEmail)
    else if name == "status" then Some(t.status.Code())
    else if name == "priority" then Some(t.priority.Code())
    else if name == "assigned_team" then Some(t.assignedTeam)
    else None
  }

  /** `_basic_triage_rules` as written: the team default reads the missing
      attribute `assigned_team_name`. */
  function BasicTriageRulesAsWritten(t: Ticket): (r: Result<TriageRules, PyError>)
  {
    match TicketAttribute(t, "assigned_team_name")
    case None => Err(AttributeError("assigned_team_name"))
    case Some(team) => Ok(Triage(t, OrElse(team, "support")))
  }

  /** As written, the function raises for every ticket, before any keyword
      is looked at. */
  lemma AsWrittenAlwaysRaises(t: Ticket)
    ensures BasicTriageRulesAsWritten(t) == Err(AttributeError("assigned_team_name"))
  {
    assert TicketAttribute(t, "assigned_team_name") == None;
  }
}
