/** The chat endpoint of the front end (apps/fe/src/pages/api/chat.ts): the
    order in which a request is checked, and the message list sent to the
    completion model — a system prompt first, then the optional page and
    retrieval context, then the caller's conversation.

    The HTML sanitiser is the parameter `stripJunk`; the completion call is
    not modelled, only what it is asked and what it answered. */
module ChatApi {
  import opened Wrappers
  import opened Text
  import opened Environ

  datatype Role = UserRole | AssistantRole | SystemRole
  datatype Message = Message(role: Role, content: string)

  /** The fields of the request body; a field that is not a string (or, for
      `messages`, not an array) is `None`. An absent body reads as `{}`. */
  datatype ChatBody = ChatBody(messages: Option<seq<Message>>, model: Option<string>,
                               pageHtml: Option<string>, ragContext: Option<string>)

  datatype Request = Request(httpMethod: string, body: ChatBody)

  /** What the completion call settled to: the first choice's content, if
      any, or the text of the error it threw. */
  datatype Completion = Answered(content: Option<string>) | Threw(message: string)

  datatype ResponseBody = ErrorBody(error: string) | ContentBody(content: string)

  /** The response, its `Allow` header, and the completion request made on
      the way, if one was. */
  datatype Outcome = Outcome(status: int, allow: Option<string>, body: ResponseBody,
                             sent: Option<(string, seq<Message>)>)

  const DefaultModel: string := "solar-pro2"
  /** The opening sentence of the default system prompt; the rest of its
      wording is not part of this model. */
  const DefaultSystemPrompt: string := "You are Pagemate, an on-page AI assistant embedded in a website."
  const HtmlContextHeader: string := "Context: Current page HTML (sanitized)\n"
  const RagContextHeader: string := "RAG Context\n"

  /** The page context: sent only when the page HTML is a non-blank string
      whose sanitised form is not empty. */
  function HtmlContext(pageHtml: Option<string>, stripJunk: string -> string): (r: Option<Message>)
    ensures r.Some? <==> pageHtml.Some? && JsTrim(pageHtml.value) != "" && stripJunk(pageHtml.value) != ""
    ensures r.Some? ==> r.value == Message(SystemRole, HtmlContextHeader + stripJunk(pageHtml.value))
  {
    var sanitized := if pageHtml.Some? && JsTrim(pageHtml.value) != "" then stripJunk(pageHtml.value) else "";
    if sanitized != "" then Some(Message(SystemRole, HtmlContextHeader + sanitized)) else None
  }

  /** The retrieval context: sent only for a non-blank string, trimmed. */
  function RagContext(ragContext: Option<string>): (r: Option<Message>)
    ensures r.Some? <==> ragContext.Some? && !JsBlank(ragContext.value)
    ensures r.Some? ==> r.value == Message(SystemRole, RagContextHeader + JsTrim(ragContext.value))
  {
    JsTrimEmpty(if ragContext.Some? then ragContext.value else "");
    if ragContext.Some? && JsTrim(ragContext.value) != "" then
      Some(Message(SystemRole, RagContextHeader + JsTrim(ragContext.value)))
    else None
  }

  /** The context text sent is the retrieval text with its surrounding white
      space removed and nothing else changed. */
  lemma RagContextTrimmed(ragContext: string)
    requires !JsBlank(ragContext)
    ensures var c := RagContext(Some(ragContext)).value.content[|RagContextHeader|..];
      && c != "" && !JsSpace(c[0]) && !JsSpace(c[|c| - 1])
      && c == JsTrim(ragContext)
  {
    JsTrimEmpty(ragContext);
    StripSpec(ragContext, JsSpace);
    var m := RagContext(Some(ragContext)).value;
    assert m.content == RagContextHeader + JsTrim(ragContext);
    assert m.content[|RagContextHeader|..] == JsTrim(ragContext);
  }

  function Extras(html: Option<Message>, rag: Option<Message>): seq<Message> {
    (if html.Some? then [html.value] else []) + (if rag.Some? then [rag.value] else [])
  }

  predicate LeadingSystem(m: seq<Message>) {
    |m| > 0 && m[0].role == SystemRole
  }

  /** The caller's messages after any leading system message. */
  function Conversation(m: seq<Message>): seq<Message> {
    if LeadingSystem(m) then m[1..] else m
  }

  /** `finalMessages`: the caller's own system message, else the default
      prompt; then the page context, then the retrieval context; then the
      rest of the conversation. */
  function FinalMessages(m: seq<Message>, html: Option<Message>, rag: Option<Message>): (r: seq<Message>)
    ensures |r| == 1 + |Extras(html, rag)| + |Conversation(m)|
  {
    if |m| == 0 || m[0].role != SystemRole then [Message(SystemRole, DefaultSystemPrompt)] + Extras(html, rag) + m
    else [m[0]] + Extras(html, rag) + m[1..]
  }

  /** The list starts with a system message — the caller's when it sent one
      first, else the default prompt — and the contexts come right after it,
      the page before the retrieval one. */
  lemma FinalMessagesHead(m: seq<Message>, html: Option<Message>, rag: Option<Message>)
    ensures var r := FinalMessages(m, html, rag);
      && r[0].role == SystemRole
      && r[0] == (if LeadingSystem(m) then m[0] else Message(SystemRole, DefaultSystemPrompt))
      && (html.Some? ==> r[1] == html.value)
      && (rag.Some? ==> r[if html.Some? then 2 else 1] == rag.value)
  {
  }

  /** Every caller message after a leading system message appears unchanged
      and in order at the end of the list. */
  lemma FinalMessagesKeepConversation(m: seq<Message>, html: Option<Message>, rag: Option<Message>)
    ensures var r, c := FinalMessages(m, html, rag), Conversation(m);
      forall i :: 0 <= i < |c| ==> r[1 + |Extras(html, rag)| + i] == c[i]
  {
    var r, e := FinalMessages(m, html, rag), Extras(html, rag);
    if LeadingSystem(m) {
      assert r == [m[0]] + e + m[1..];
    } else {
      assert r == [Message(SystemRole, DefaultSystemPrompt)] + e + m;
    }
  }

  /** `handler`, with the API key from the environment and what the
      completion call settled to as parameters. */
  function Handle(req: Request, apiKey: Option<string>, stripJunk: string -> string, completion: Completion): (r: Outcome)
    ensures req.httpMethod != "POST" <==> r.status == 405
    ensures r.status == 405 ==> r.allow == Some("POST") && r.sent.None?
    ensures r.status != 405 ==> r.allow.None?
    ensures req.httpMethod == "POST" && !Truthy(apiKey) ==> r.status == 500 && r.sent.None?
    ensures req.httpMethod == "POST" && Truthy(apiKey) ==>
              (r.status == 400 <==> req.body.messages.None? || req.body.messages.value == [])
    ensures r.sent.Some? ==>
              && req.body.messages.Some? && req.body.messages.value != []
              && r.sent.value.0 == (if Truthy(req.body.model) then req.body.model.value else DefaultModel)
              && r.sent.value.1 == FinalMessages(req.body.messages.value, HtmlContext(req.body.pageHtml, stripJunk),
                                                 RagContext(req.body.ragContext))
    ensures r.status == 200 <==> r.sent.Some? && completion.Answered?
    ensures r.status == 200 ==> r.body == ContentBody(completion.content.GetOr(""))
    ensures r.sent.Some? && completion.Threw? ==>
              r.status == 500 && r.body == ErrorBody(if completion.message != "" then completion.message else "Unknown error")
    ensures req.httpMethod == "POST" && Truthy(apiKey) && req.body.messages.Some? && req.body.messages.value != [] ==>
              r.sent.Some?
  {
    if req.httpMethod != "POST" then Outcome(405, Some("POST"), ErrorBody("Method Not Allowed"), None)
    else if !Truthy(apiKey) then Outcome(500, None, ErrorBody("Missing UPSTAGE_API_KEY"), None)
    else if req.body.messages.None? || req.body.messages.value == [] then
      Outcome(400, None, ErrorBody("messages[] is required"), None)
    else
      var messages := FinalMessages(req.body.messages.value, HtmlContext(req.body.pageHtml, stripJunk),
                                    RagContext(req.body.ragContext));
      var model := if Truthy(req.body.model) then req.body.model.value else DefaultModel;
      match completion
      case Answered(content) => Outcome(200, None, ContentBody(content.GetOr("")), Some((model, messages)))
      case Threw(message) =>
        Outcome(500, None, ErrorBody(if message != "" then message else "Unknown error"), Some((model, messages)))
  }
}
