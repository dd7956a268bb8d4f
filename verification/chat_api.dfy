/** The chat-completions service as the application sees it: the stored
    connection settings (`getOpenAIConfig` in `src/lib/openai-categorizer.ts`)
    and the reading of a non-streaming reply. The HTTP exchange itself is an
    input: a reply is either a failure (non-2xx status, network error or a
    body that is not JSON, all of which throw) or a parsed JSON body. */
module ChatApi {
  import opened Wrappers
  import Json
  import Strings

  const BaseUrlKey: string := "OPENAI_BASE_URL"
  const ApiKeyKey: string := "OPENAI_API_KEY"
  const ModelKey: string := "OPENAI_MODEL"

  datatype Config = Config(baseUrl: string, apiKey: string, model: string)

  /** `getOpenAIConfig` over the key/value rows of the system configuration;
      `fault` stands for a failing lookup, which the function catches. */
  function GetOpenAIConfig(rows: map<string, string>, fault: bool): (r: Option<Config>)
    ensures r.Some? <==> !fault && BaseUrlKey in rows && ApiKeyKey in rows && ModelKey in rows
                         && rows[ApiKeyKey] != ""
    ensures r.Some? ==> r.value.baseUrl == rows[BaseUrlKey] && r.value.apiKey == rows[ApiKeyKey]
                        && r.value.model == rows[ModelKey] && r.value.apiKey != ""
  {
    if fault then None
    else if BaseUrlKey !in rows || ApiKeyKey !in rows || ModelKey !in rows then None
    else if rows[ApiKeyKey] == "" then None
    else Some(Config(rows[BaseUrlKey], rows[ApiKeyKey], rows[ModelKey]))
  }

  /** The result of the HTTP exchange. */
  datatype Reply = Failed | Body(data: Json.Value)

  /** What `data.choices?.[0]?.message?.content?.trim()` evaluates to. */
  datatype ContentOutcome =
    | Text(text: string)   // a string, trimmed
    | Missing              // undefined or null somewhere along the path
    | Throws               // `data` is null, or the content has no `trim`

  function ReplyContent(data: Json.Value): (r: ContentOutcome)
    ensures r.Text? ==> Strings.IsTrimmed(r.text)
    ensures data.Null? ==> r.Throws?
  {
    if data.Null? then Throws
    else
      var c := Json.Prop(Json.Prop(Json.Index(Json.Prop(Some(data), "choices"), 0), "message"), "content");
      match c
      case None => Missing
      case Some(Null) => Missing
      case Some(Str(s)) => Text(Strings.Trim(s))
      case Some(_) => Throws
  }

  /** The reply `{"choices": [{"message": {"content": s}}]}`. */
  function ReplyWith(s: string): Json.Value {
    Json.Obj([Json.Field("choices", Json.Arr([
      Json.Obj([Json.Field("message", Json.Obj([Json.Field("content", Json.Str(s))]))])]))])
  }

  /** A well-formed reply yields its trimmed content. */
  lemma ReplyWithContent(s: string)
    ensures ReplyContent(ReplyWith(s)) == Text(Strings.Trim(s))
  {
    var message := Json.Obj([Json.Field("content", Json.Str(s))]);
    var choice := Json.Obj([Json.Field("message", message)]);
    var choices := Json.Arr([choice]);
    assert Json.Prop(Some(ReplyWith(s)), "choices") == Some(choices);
    assert Json.Index(Some(choices), 0) == Some(choice);
    assert Json.Prop(Some(choice), "message") == Some(message);
    assert Json.Prop(Some(message), "content") == Some(Json.Str(s));
  }
}
