// The LLM triage helper: the chat message list, locating the JSON object in
// a model reply, and normalising the parsed answer with defaults and a
// priority whitelist. The HTTP call and the JSON decoder are inputs: `reply`
// stands for what the backend answered and `parse` for `json.loads`.
module Llm {
  import opened Wrappers
  import opened Text
  import opened Json

  datatype LlmError = LlmError(message: string)

  datatype ChatMessage = ChatMessage(role: string, content: string)

  /** The chat messages: the system prompt when it is non-empty, then the
      one user message. */
  function ChatMessages(prompt: string, system: Option<string>): (r: seq<ChatMessage>)
    ensures 1 <= |r| <= 2 && r[|r| - 1] == ChatMessage("user", prompt)
    ensures |r| == 2 <==> system.Some? && system.value != []
    ensures |r| == 2 ==> r[0] == ChatMessage("system", system.value)
  {
    (if system.Some? && system.value != [] then [ChatMessage("system", system.value)] else [])
    + [ChatMessage("user", prompt)]
  }

  /** The backend name: the configured value lower-cased, "ollama" when unset. */
  function BackendName(configured: Option<string>): (r: string)
    ensures configured.None? ==> r == "ollama"
    ensures configured.Some? ==> r == Lower(configured.value)
  {
    Lower(configured.GetOr("ollama"))
  }

  /** The part of `text` from its first '{' to its last '}' inclusive; `None`
      when either is missing or the last '}' does not come after the first '{'. */
  function ExtractJsonText(text: string): (r: Option<string>)
    ensures r.None? <==> '{' !in text || '}' !in text || RFind(text, '}') <= Find(text, '{')
  {
    var first := Find(text, '{');
    var last := RFind(text, '}');
    if first == -1 || last == -1 || last <= first then None else Some(text[first..last + 1])
  }

  /** The extracted text is an infix of the reply that opens with '{' and
      closes with '}', with no '{' before it and no '}' after it. */
  lemma ExtractJsonTextBounds(text: string) returns (a: nat)
    requires ExtractJsonText(text).Some?
    ensures var s := ExtractJsonText(text).value;
            && a + |s| <= |text| && s == text[a..a + |s|]
            && |s| >= 2 && s[0] == '{' && s[|s| - 1] == '}'
            && '{' !in text[..a] && '}' !in text[a + |s|..]
  {
    a := Find(text, '{');
  }

  /** `generate_json`: a backend other than "ollama" answers `{}` without
      being asked; otherwise the reply is stripped, its JSON object located
      and decoded, and a root that is not an object is refused. */
  function GenerateJson(backend: string, reply: Result<string, LlmError>,
                        parse: string -> Result<Json, string>): (r: Result<map<string, Json>, LlmError>)
    ensures backend != "ollama" ==> r == Ok(map[])
    ensures backend == "ollama" && reply.Err? ==> r == Err(reply.error)
    ensures backend == "ollama" && r.Ok? ==>
              && reply.Ok?
              && ExtractJsonText(Strip(reply.value)).Some?
              && parse(ExtractJsonText(Strip(reply.value)).value) == Ok(JObj(r.value))
  {
    if backend != "ollama" then Ok(map[])
    else
      var raw :- reply;
      var text := Strip(raw);
      match ExtractJsonText(text)
      case None => Err(LlmError("LLM did not return a JSON object"))
      case Some(jsonText) => RootObject(parse(jsonText))
  }

  /** The decoder's answer as the returned dict: a decoding error or a root
      that is not an object is refused. */
  function RootObject(parsed: Result<Json, string>): (r: Result<map<string, Json>, LlmError>)
    ensures r.Ok? <==> parsed.Ok? && parsed.value.JObj?
    ensures r.Ok? ==> r.value == parsed.value.fields
  {
    match parsed
    case Err(e) => Err(LlmError("Failed to parse LLM JSON: " + e))
    case Ok(v) => if v.JObj? then Ok(v.fields) else Err(LlmError("LLM JSON root must be an object"))
  }

  /** An object is returned exactly when the backend is not "ollama" or
      the decoder read a JSON object from the located text, and it is that
      object's fields; a non-object root is an error, not an empty answer. */
  lemma GenerateJsonIsObject(backend: string, reply: Result<string, LlmError>,
                             parse: string -> Result<Json, string>)
    requires backend == "ollama"
    ensures GenerateJson(backend, reply, parse).Ok? <==>
              && reply.Ok?
              && ExtractJsonText(Strip(reply.value)).Some?
              && parse(ExtractJsonText(Strip(reply.value)).value).Ok?
              && parse(ExtractJsonText(Strip(reply.value)).value).value.JObj?
    ensures GenerateJson(backend, reply, parse).Ok? ==>
              GenerateJson(backend, reply, parse).value == parse(ExtractJsonText(Strip(reply.value)).value).value.fields
  {
  }

  /** `str(v)` of a decoded JSON value; `repr` stands for Python's rendering
      of lists and dicts. */
  function PyStr(v: Json, repr: Json -> string): string {
    match v
    case JStr(s) => s
    case JNum(n) => IntToString(n)
    case JBool(b) => if b then "True" else "False"
    case JNull => "None"
    case _ => repr(v)
  }

  /** `"\n\n-----\n".join(snippets)`, or a fixed notice when there are none. */
  function KbText(snippets: seq<string>): (r: string)
    ensures snippets == [] ==> r == "No KB context available."
    ensures |snippets| == 1 ==> r == snippets[0]
    ensures |snippets| >= 2 ==>
              r == KbText(snippets[..|snippets| - 1]) + "\n\n-----\n" + snippets[|snippets| - 1]
  {
    if snippets == [] then "No KB context available."
    else if |snippets| == 1 then snippets[0]
    else
      JoinSnoc(snippets, "\n\n-----\n");
      Join(snippets, "\n\n-----\n")
  }

  const AllowedPriorities: set<string> := {"low", "medium", "high"}

  datatype TriageAnswer = TriageAnswer(category: string, priority: string, team: string, draftReply: string) {
    /** The returned dict. */
    function ToJson(): Json {
      JObj(map["category" := JStr(category), "priority" := JStr(priority),
               "team" := JStr(team), "draft_reply" := JStr(draftReply)])
    }
  }

  /** The defensive defaults of `triage_ticket`. */
  function NormalizeTriage(obj: map<string, Json>, repr: Json -> string): (r: TriageAnswer)
    ensures r.priority in AllowedPriorities
    ensures r.category != [] && r.team != []
    ensures Trimmed(r.category) && Trimmed(r.team) && Trimmed(r.draftReply)
    ensures "category" in obj && Truthy(obj["category"]) && Strip(PyStr(obj["category"], repr)) != [] ==>
              r.category == Strip(PyStr(obj["category"], repr))
    ensures "team" in obj && Truthy(obj["team"]) && Strip(PyStr(obj["team"], repr)) != [] ==>
              r.team == Strip(PyStr(obj["team"], repr))
    ensures "draft_reply" in obj && Truthy(obj["draft_reply"]) ==> r.draftReply == Strip(PyStr(obj["draft_reply"], repr))
    ensures "priority" in obj && Truthy(obj["priority"]) ==>
              var p := Lower(Strip(PyStr(obj["priority"], repr)));
              r.priority == if p in AllowedPriorities then p else "medium"
  {
    var category := Strip(PyStr(GetOr(obj, "category", JStr("general")), repr));
    var priority := Lower(Strip(PyStr(GetOr(obj, "priority", JStr("medium")), repr)));
    var team := Strip(PyStr(GetOr(obj, "team", JStr("support")), repr));
    var draftReply := Strip(PyStr(GetOr(obj, "draft_reply", JStr("")), repr));
    StripWord("general");
    StripWord("support");
    TriageAnswer(
      if category == [] then "general" else category,
      if priority in AllowedPriorities then priority else "medium",
      if team == [] then "support" else team,
      draftReply)
  }

  /** A category or team that is missing, falsy or only whitespace takes
      its default; a missing or falsy draft reply or priority becomes "" or
      "medium". */
  lemma NormalizeTriageDefaults(obj: map<string, Json>, repr: Json -> string)
    ensures "category" !in obj || !Truthy(obj["category"]) || Strip(PyStr(obj["category"], repr)) == [] ==>
              NormalizeTriage(obj, repr).category == "general"
    ensures "team" !in obj || !Truthy(obj["team"]) || Strip(PyStr(obj["team"], repr)) == [] ==>
              NormalizeTriage(obj, repr).team == "support"
    ensures "draft_reply" !in obj || !Truthy(obj["draft_reply"]) ==> NormalizeTriage(obj, repr).draftReply == ""
    ensures "priority" !in obj || !Truthy(obj["priority"]) ==> NormalizeTriage(obj, repr).priority == "medium"
  {
    StripWord("medium");
    LowerOfLowercase("medium");
    StripWord("general");
    StripWord("support");
    assert Strip("") == "";
  }

  /** An empty answer object normalises to the defaults. */
  lemma NormalizeEmptyObject(repr: Json -> string)
    ensures NormalizeTriage(map[], repr) == TriageAnswer("general", "medium", "support", "")
  {
    var empty: map<string, Json> := map[];
    assert GetOr(empty, "category", JStr("general")) == JStr("general");
    assert GetOr(empty, "priority", JStr("medium")) == JStr("medium");
    assert GetOr(empty, "team", JStr("support")) == JStr("support");
    assert GetOr(empty, "draft_reply", JStr("")) == JStr("");
    StripWord("general");
    StripWord("medium");
    StripWord("support");
    assert Strip("") == "";
    LowerOfLowercase("medium");
  }

  /** A whitelisted priority string passes through unchanged. */
  lemma NormalizeTriageKeepsPriority(obj: map<string, Json>, repr: Json -> string)
    requires "priority" in obj && obj["priority"].JStr? && obj["priority"].s in AllowedPriorities
    ensures NormalizeTriage(obj, repr).priority == obj["priority"].s
  {
    var p := obj["priority"].s;
    assert GetOr(obj, "priority", JStr("medium")) == JStr(p);
    assert p == "low" || p == "medium" || p == "high";
    StripWord(p);
    LowerOfLowercase(p);
  }

  /** The answer has exactly the keys category, priority, team and draft_reply. */
  lemma TriageAnswerKeys(a: TriageAnswer)
    ensures a.ToJson().JObj? && a.ToJson().fields.Keys == {"category", "priority", "team", "draft_reply"}
  {
  }

  /** `triage_ticket`: the knowledge-base text goes into the prompt, the
      backend is asked through `GenerateJson` and the answer normalised.
      `ask(subject, body, kbText)` is the backend's reply to the prompt. */
  function TriageTicket(subject: string, body: string, snippets: seq<string>, backend: string,
                        ask: (string, string, string) -> Result<string, LlmError>,
                        parse: string -> Result<Json, string>, repr: Json -> string): (r: Result<TriageAnswer, LlmError>)
    ensures r.Ok? ==> r.value.priority in AllowedPriorities
    ensures backend != "ollama" ==> r == Ok(TriageAnswer("general", "medium", "support", ""))
    ensures var g := GenerateJson(backend, ask(subject, body, KbText(snippets)), parse);
            && (r.Ok? <==> g.Ok?)
            && (r.Ok? ==> r.value == NormalizeTriage(g.value, repr))
  {
    var obj :- GenerateJson(backend, ask(subject, body, KbText(snippets)), parse);
    NormalizeEmptyObject(repr);
    Ok(NormalizeTriage(obj, repr))
  }
}
