// The second LLM client: the knowledge-base block of the prompt, reading
// the reply content out of the chat response, locating and decoding its
// JSON object, and the lenient defaults of the classification. The HTTP
// transport and the JSON decoder are inputs.
module LlmClient {
  import opened Wrappers
  import opened Text
  import opened Json
  import opened Kb
  import opened Llm

  /** What the client raises: its own `LLMError`, or a Python error it lets through. */
  datatype ClientError = ClientLlmError(message: string) | TypeError | AttributeError

  /** How many search hits go into the prompt. */
  const MaxSnippets: nat := 5

  /** `f"{v}"` of an optional title. */
  function TitleText(title: Option<string>): string {
    match title
    case Some(t) => t
    case None => "None"
  }

  /** One knowledge-base line of the prompt. */
  function SnippetLine(r: KbResult): string {
    "- [doc:" + TitleText(r.documentTitle) + "] " + r.text
  }

  /** The lines for the first five hits, in order. */
  function KbSnippets(results: seq<KbResult>): (r: seq<string>)
    ensures |r| == Min(MaxSnippets, |results|)
    ensures forall i :: 0 <= i < |r| ==> r[i] == SnippetLine(results[i])
  {
    var firsts := TakeAtMost(results, MaxSnippets);
    seq(|firsts|, i requires 0 <= i < |firsts| => SnippetLine(firsts[i]))
  }

  /** The loop that builds the knowledge-base lines. */
  method BuildKbSnippets(results: seq<KbResult>) returns (snippets: seq<string>)
    ensures snippets == KbSnippets(results)
  {
    var firsts := TakeAtMost(results, MaxSnippets);
    snippets := [];
    var i := 0;
    while i < |firsts|
      invariant 0 <= i <= |firsts|
      invariant |snippets| == i
      invariant forall j :: 0 <= j < i ==> snippets[j] == SnippetLine(results[j])
    {
      snippets := snippets + [SnippetLine(firsts[i])];
      i := i + 1;
    }
  }

  /** The lines joined by newlines, or "None found." when there are none. */
  function KbBlock(snippets: seq<string>): (r: string)
    ensures snippets == [] ==> r == "None found."
    ensures |snippets| == 1 ==> r == snippets[0]
    ensures |snippets| >= 2 ==> r == KbBlock(snippets[..|snippets| - 1]) + "\n" + snippets[|snippets| - 1]
  {
    if snippets == [] then "None found."
    else if |snippets| == 1 then snippets[0]
    else
      JoinSnoc(snippets, "\n");
      Join(snippets, "\n")
  }

  /** The user message: subject, body, the knowledge-base block and the closing instruction. */
  function UserMessage(subject: string, body: string, kbBlock: string): string {
    "Ticket subject:\n" + subject + "\n\n"
    + "Ticket body:\n" + body + "\n\n"
    + "Relevant knowledge base snippets:\n"
    + kbBlock + "\n\n"
    + "Now produce ONLY the JSON object as described in the schema."
  }

  /** `obj["message"]["content"]` of the decoded chat response: a missing key
      is an `LLMError`, indexing into a value that is not a dict a `TypeError`. */
  function ChatContent(response: Json): (r: Result<Json, ClientError>)
    ensures r.Ok? <==> response.JObj? && "message" in response.fields
                       && response.fields["message"].JObj? && "content" in response.fields["message"].fields
    ensures r.Ok? ==> r.value == response.fields["message"].fields["content"]
    ensures response.JObj? && "message" !in response.fields ==> r.Err? && r.error.ClientLlmError?
  {
    match response
    case JObj(f) =>
      if "message" !in f then Err(ClientLlmError("Unexpected Ollama response"))
      else
        (match f["message"]
         case JObj(g) =>
           if "content" in g then Ok(g["content"]) else Err(ClientLlmError("Unexpected Ollama response"))
         case _ => Err(TypeError))
    case _ => Err(TypeError)
  }

  /** `_parse_json_from_text`: the text between the first '{' and the last '}'
      decoded; a reply without such a span is an `LLMError`, a decoding
      failure is the decoder's error. */
  function ParseJsonFromText(text: string, parse: string -> Result<Json, string>): (r: Result<Json, string>)
    ensures ExtractJsonText(text).None? ==> r.Err?
    ensures ExtractJsonText(text).Some? ==> r == parse(ExtractJsonText(text).value)
  {
    match ExtractJsonText(text)
    case None => Err("No JSON object found in LLM output")
    case Some(snippet) => parse(snippet)
  }

  /** The classification `classify_ticket_with_llm` returns. Values other
      than the priority are passed through as decoded. */
  datatype Classification = Classification(
    category: Json,
    team: Json,
    priority: string,
    draftReply: Json,
    rawOutput: string)

  /** The lenient defaults: a missing or falsy value takes its default, the
      priority is lower-cased but not checked against any list. */
  function NormalizeClassification(parsed: Json, raw: string): (r: Result<Classification, ClientError>)
    ensures !parsed.JObj? ==> r == Err(AttributeError)
    ensures parsed.JObj? && r.Ok? ==> r.value.rawOutput == raw
  {
    match parsed
    case JObj(f) =>
      (match GetOr(f, "priority", JStr("medium"))
       case JStr(p) =>
         Ok(Classification(GetOr(f, "category", JStr("general")), GetOr(f, "team", JStr("support")),
                           Lower(p), GetOr(f, "draft_reply", JStr("")), raw))
       case _ => Err(AttributeError))
    case _ => Err(AttributeError)
  }

  /** The two chat messages: the fixed system prompt, then the ticket and
      the knowledge-base block as the user message. */
  function ClassifyMessages(subject: string, body: string, results: seq<KbResult>, system: string): (r: seq<ChatMessage>)
    ensures |r| == 2 && r[0] == ChatMessage("system", system) && r[1].role == "user"
    ensures r[1].content == UserMessage(subject, body, KbBlock(KbSnippets(results)))
  {
    [ChatMessage("system", system), ChatMessage("user", UserMessage(subject, body, KbBlock(KbSnippets(results))))]
  }

  /** `classify_ticket_with_llm`. `transport` performs the chat request and
      returns the decoded response, or `None` when the request failed. */
  function ClassifyTicketWithLlm(subject: string, body: string, results: seq<KbResult>, system: string,
                                 transport: seq<ChatMessage> -> Option<Json>,
                                 parse: string -> Result<Json, string>): (r: Result<Classification, ClientError>)
    ensures var response := transport(ClassifyMessages(subject, body, results, system));
            && (response.None? ==> r.Err? && r.error.ClientLlmError?)
            && (response.Some? && ChatContent(response.value).Err? ==> r == Err(ChatContent(response.value).error))
            && (response.Some? && ChatContent(response.value).Ok? ==>
                  var content := ChatContent(response.value).value;
                  && (content.JStr? && ParseJsonFromText(content.s, parse).Ok? ==>
                        r == NormalizeClassification(ParseJsonFromText(content.s, parse).value, content.s))
                  && (!content.JStr? || ParseJsonFromText(content.s, parse).Err? ==>
                        r.Err? && r.error.ClientLlmError?))
  {
    match transport(ClassifyMessages(subject, body, results, system))
    case None => Err(ClientLlmError("Ollama request failed"))
    case Some(response) =>
      var content :- ChatContent(response);
      match content
      case JStr(raw) =>
        (match ParseJsonFromText(raw, parse)
         case Err(_) => Err(ClientLlmError("Failed to parse JSON from LLM output"))
         case Ok(parsed) => NormalizeClassification(parsed, raw))
      case _ => Err(ClientLlmError("Failed to parse JSON from LLM output"))
  }

  /** Every failure to find or decode a JSON object in the reply surfaces
      as the client's `LLMError`; a successful classification keeps the reply
      text verbatim as `raw_output`. */
  lemma ClassifyErrors(subject: string, body: string, results: seq<KbResult>, system: string,
                       transport: seq<ChatMessage> -> Option<Json>, parse: string -> Result<Json, string>,
                       raw: string)
    requires transport(ClassifyMessages(subject, body, results, system)) == Some(JObj(map["message" := JObj(map["content" := JStr(raw)])]))
    ensures var r := ClassifyTicketWithLlm(subject, body, results, system, transport, parse);
            && (ParseJsonFromText(raw, parse).Err? ==> r.Err? && r.error.ClientLlmError?)
            && (r.Ok? ==> r.value.rawOutput == raw)
  {
    var resp := JObj(map["message" := JObj(map["content" := JStr(raw)])]);
    assert ChatContent(resp) == Ok(JStr(raw));
  }

  /** Defaults of the classification: a truthy category, team or draft
      reply is kept as it is, a missing or falsy one takes "general",
      "support" or ""; a string priority is only lower-cased, so a value
      outside low/medium/high/urgent survives, a missing or falsy one is
      "medium", and any other truthy priority raises `AttributeError` on
      `.lower()`. */
  lemma ClassificationDefaults(f: map<string, Json>, raw: string)
    ensures var r := NormalizeClassification(JObj(f), raw);
            && (r.Ok? <==> "priority" !in f || !Truthy(f["priority"]) || f["priority"].JStr?)
            && (r.Err? ==> r.error == AttributeError)
            && (r.Ok? ==>
                  && ("category" in f && Truthy(f["category"]) ==> r.value.category == f["category"])
                  && ("category" !in f || !Truthy(f["category"]) ==> r.value.category == JStr("general"))
                  && ("team" in f && Truthy(f["team"]) ==> r.value.team == f["team"])
                  && ("team" !in f || !Truthy(f["team"]) ==> r.value.team == JStr("support"))
                  && ("draft_reply" in f && Truthy(f["draft_reply"]) ==> r.value.draftReply == f["draft_reply"])
                  && ("draft_reply" !in f || !Truthy(f["draft_reply"]) ==> r.value.draftReply == JStr(""))
                  && ("priority" in f && Truthy(f["priority"]) ==> r.value.priority == Lower(f["priority"].s))
                  && ("priority" !in f || !Truthy(f["priority"]) ==> r.value.priority == "medium"))
            && ("priority" in f && f["priority"] == JStr("CRITICAL") ==> r.Ok? && r.value.priority == "critical")
  {
    LowerOfLowercase("medium");
    if "priority" in f && f["priority"] == JStr("CRITICAL") {
      assert Lower("CRITICAL") == "critical";
    }
  }
}
