/**
 * The request handler of api/generate.js as a function from the request,
 * the server's key and the upstream service to the response it sends.
 * The upstream completion call and the JSON parser are parameters.
 */
module Handler {
  import opened Wrappers
  import opened Safety
  import opened Text
  import opened Ideas

  const MethodNotAllowed := "Method not allowed"
  const UnsafeInput := "Please keep it respectful and safe."
  const MissingKey := "Missing OPENAI_API_KEY on server."
  const UpstreamError := "Upstream error"
  const ServerCrashed := "Server crashed"

  /** The fields of the JSON request body; `None` is a field that is not given. */
  datatype Body = Body(who: Option<string>, situation: Option<string>, vibe: Option<string>, style: Option<string>)

  /** The request after defaults, as it is sent upstream. */
  datatype GenerationRequest = GenerationRequest(who: string, situation: string, vibe: string, style: string)

  /** A JSON response body: `{ error }` or `{ ideas }`. */
  datatype Payload = ErrorBody(error: string) | IdeasBody(ideas: seq<string>)

  /** Status code, the `Allow` header when one is set, and the body. */
  datatype Response = Response(status: nat, allow: Option<seq<string>>, payload: Payload)

  /** What the checks before the upstream call decide. */
  datatype Gate = Reject(response: Response) | Proceed(request: GenerationRequest, key: string)

  /** The upstream reply's `choices[0].message.content`. */
  datatype Content =
    | Absent            // some link of `choices?.[0]?.message?.content` is missing or null
    | Present(text: string)
    | NonString         // present but not a string: calling `.trim()` throws

  /** How the upstream call ends. */
  datatype Completion =
    | Faulted           // `fetch` or `completion.json()` throws, the reply body is JSON `null`,
                        // or a non-2xx reply whose `completion.text()` rejects
    | NotOk             // a status outside 2xx
    | Ok(content: Content)

  /** Line 11: `req.body || {}` destructured with its defaults. */
  function WithDefaults(body: Option<Body>): (req: GenerationRequest)
    ensures body.None? ==> req == GenerationRequest("", "", "funny", "")
    ensures body.Some? && body.value.vibe.Some? ==> req.vibe == body.value.vibe.value
    ensures body.Some? && body.value.vibe.None? ==> req.vibe == "funny"
    ensures body.Some? ==> req.who == (if body.value.who.Some? then body.value.who.value else "")
    ensures body.Some? ==> req.situation == (if body.value.situation.Some? then body.value.situation.value else "")
    ensures body.Some? ==> req.style == (if body.value.style.Some? then body.value.style.value else "")
  {
    var b := body.GetOr(Body(None, None, None, None));
    GenerationRequest(b.who.GetOr(""), b.situation.GetOr(""), b.vibe.GetOr("funny"), b.style.GetOr(""))
  }

  /** The fields the guardrail looks at: `who`, `situation` and `style`, never `vibe`. */
  predicate IsUnsafeRequest(req: GenerationRequest) {
    IsUnsafe(req.who) || IsUnsafe(req.situation) || IsUnsafe(req.style)
  }

  function ErrorResponse(status: nat, message: string): Response {
    Response(status, None, ErrorBody(message))
  }

  /**
   * Lines 5-31: the method gate, the guardrail and the key check, in that
   * order. A key that is absent or empty counts as missing.
   */
  function Decide(httpMethod: string, body: Option<Body>, key: Option<string>): (g: Gate)
    ensures httpMethod != "POST" ==> g == Reject(Response(405, Some(["POST"]), ErrorBody(MethodNotAllowed)))
    ensures httpMethod == "POST" ==>
              (g == Reject(ErrorResponse(400, UnsafeInput)) <==> IsUnsafeRequest(WithDefaults(body)))
    ensures g == Reject(ErrorResponse(500, MissingKey)) <==>
              httpMethod == "POST" && !IsUnsafeRequest(WithDefaults(body)) && (key == None || key == Some(""))
    ensures g.Proceed? <==>
              httpMethod == "POST" && !IsUnsafeRequest(WithDefaults(body)) && key.Some? && key.value != ""
    ensures g.Proceed? ==> g.request == WithDefaults(body) && key == Some(g.key)
  {
    if httpMethod != "POST" then
      Reject(Response(405, Some(["POST"]), ErrorBody(MethodNotAllowed)))
    else
      var req := WithDefaults(body);
      if IsUnsafeRequest(req) then Reject(ErrorResponse(400, UnsafeInput))
      else if key.None? || key.value == "" then Reject(ErrorResponse(500, MissingKey))
      else Proceed(req, key.value)
  }

  /** Line 57: the message content trimmed, or the empty text when there is none. */
  function ReplyText(content: Content): string {
    if content.Present? then Trim(content.text) else ""
  }

  /** Lines 56-71: the reply text trimmed, parsed or split into lines, then post-filtered. */
  function Respond(content: Content, parse: string -> Parsed): (r: Response)
    requires !content.NonString?
    ensures r.status == 200 && r.allow == None && r.payload.IdeasBody?
    ensures r.payload.ideas == ClientIdeas(parse(ReplyText(content)), ReplyText(content))
    ensures |r.payload.ideas| <= MaxIdeas
    ensures forall x :: x in r.payload.ideas ==> |x| <= MaxIdeaLength && IsSafe(x)
  {
    var raw := ReplyText(content);
    ClientIdeasShape(parse(raw), raw);
    Response(200, None, IdeasBody(ClientIdeas(parse(raw), raw)))
  }

  /**
   * The whole handler. `complete` stands for the upstream call made with the
   * request and the key; `parse` for `JSON.parse` and the read of `.ideas`.
   */
  function Handle(httpMethod: string, body: Option<Body>, key: Option<string>,
                  complete: (GenerationRequest, string) -> Completion,
                  parse: string -> Parsed): (r: Response)
    ensures r.status in {200, 400, 405, 500}
    ensures r.status == 200 <==>
              Decide(httpMethod, body, key).Proceed? &&
              var g := Decide(httpMethod, body, key);
              complete(g.request, g.key).Ok? && !complete(g.request, g.key).content.NonString?
    ensures r.status == 200 ==>
              r.payload.IdeasBody? && |r.payload.ideas| <= MaxIdeas &&
              forall x :: x in r.payload.ideas ==> |x| <= MaxIdeaLength && IsSafe(x)
    ensures r.status == 200 ==>
              var g := Decide(httpMethod, body, key);
              var text := ReplyText(complete(g.request, g.key).content);
              r.payload == IdeasBody(ClientIdeas(parse(text), text))
    ensures Decide(httpMethod, body, key).Proceed? ==>
              var g := Decide(httpMethod, body, key);
              var c := complete(g.request, g.key);
              (c.Faulted? || (c.Ok? && c.content.NonString?)) ==> r == ErrorResponse(500, ServerCrashed)
    ensures r.status != 200 ==> r.payload.ErrorBody?
    ensures r.allow.Some? <==> r.status == 405
  {
    match Decide(httpMethod, body, key)
    case Reject(response) => response
    case Proceed(req, k) =>
      match complete(req, k)
      case Faulted => ErrorResponse(500, ServerCrashed)
      case NotOk => ErrorResponse(500, UpstreamError)
      case Ok(content) =>
        if content.NonString? then ErrorResponse(500, ServerCrashed) else Respond(content, parse)
  }

  /** Any method other than POST gets 405, `Allow: POST` and the fixed message, whatever else is sent. */
  lemma NonPostIsRejected(httpMethod: string, body: Option<Body>, key: Option<string>,
                          complete: (GenerationRequest, string) -> Completion, parse: string -> Parsed)
    requires httpMethod != "POST"
    ensures Handle(httpMethod, body, key, complete, parse) == Response(405, Some(["POST"]), ErrorBody(MethodNotAllowed))
  {
  }

  /** A POST gets 400 exactly when `who`, `situation` or `style` is unsafe. */
  lemma UnsafeIffBadRequest(body: Option<Body>, key: Option<string>,
                            complete: (GenerationRequest, string) -> Completion, parse: string -> Parsed)
    ensures Handle("POST", body, key, complete, parse) == ErrorResponse(400, UnsafeInput) <==>
              IsUnsafeRequest(WithDefaults(body))
  {
  }

  /** Whatever `vibe` holds, it never decides the outcome of the checks. */
  lemma VibeIsNotChecked(httpMethod: string, b: Body, key: Option<string>, vibe: Option<string>)
    ensures Decide(httpMethod, Some(b), key).Reject? == Decide(httpMethod, Some(b.(vibe := vibe)), key).Reject?
    ensures Decide(httpMethod, Some(b), key).Reject? ==>
              Decide(httpMethod, Some(b), key) == Decide(httpMethod, Some(b.(vibe := vibe)), key)
  {
  }

  /**
   * A rejected request never reaches the upstream service or the parser:
   * its response is the same whatever they would have returned.
   */
  lemma RejectionMakesNoUpstreamCall(httpMethod: string, body: Option<Body>, key: Option<string>,
                                     complete1: (GenerationRequest, string) -> Completion,
                                     complete2: (GenerationRequest, string) -> Completion,
                                     parse1: string -> Parsed, parse2: string -> Parsed)
    requires Decide(httpMethod, body, key).Reject?
    ensures Handle(httpMethod, body, key, complete1, parse1) == Handle(httpMethod, body, key, complete2, parse2)
    ensures Handle(httpMethod, body, key, complete1, parse1) == Decide(httpMethod, body, key).response
  {
  }

  /** With no body at all the request goes upstream as `who = situation = style = ''` and `vibe = 'funny'`. */
  lemma EmptyBodyDefaults(key: string)
    requires key != ""
    ensures Decide("POST", None, Some(key)) == Proceed(GenerationRequest("", "", "funny", ""), key)
  {
    EmptyIsSafe();
  }

  /** A failed upstream call gives 500 with the fixed message, never the upstream's own text. */
  lemma UpstreamFailureIsServerError(httpMethod: string, body: Option<Body>, key: Option<string>,
                                     complete: (GenerationRequest, string) -> Completion, parse: string -> Parsed)
    requires Decide(httpMethod, body, key).Proceed?
    requires complete(Decide(httpMethod, body, key).request, Decide(httpMethod, body, key).key) == NotOk
    ensures Handle(httpMethod, body, key, complete, parse) == ErrorResponse(500, UpstreamError)
  {
  }

  /**
   * An accepted request whose upstream reply parses to an array of short,
   * safe ideas is answered with 200 and the first three of them.
   */
  lemma WellFormedReplyIsServed(httpMethod: string, body: Option<Body>, key: Option<string>,
                                complete: (GenerationRequest, string) -> Completion,
                                parse: string -> Parsed, reply: string, items: seq<string>)
    requires Decide(httpMethod, body, key).Proceed?
    requires complete(Decide(httpMethod, body, key).request, Decide(httpMethod, body, key).key) == Ok(Present(reply))
    requires parse(Trim(reply)) == IdeasArray(items)
    requires forall i :: 0 <= i < |items| ==> |items[i]| <= MaxIdeaLength && IsSafe(items[i])
    ensures Handle(httpMethod, body, key, complete, parse) == Response(200, None, IdeasBody(Seqs.Take(items, MaxIdeas)))
  {
    WellFormedArrayPassesThrough(items, Trim(reply));
  }
}
