/**
 * The webhook handler of the bot: authenticate, take the decoded interaction (or the default
 * one), and answer according to the interaction type. In this version a command interaction is
 * always answered "Pong!"; the command module is not called.
 */
module Gateway {
  import opened Wrappers
  import opened Results
  import opened Primitives
  import opened Json
  import opened Validator

  /** The handler's own view of the payload: serde ignores the fields it does not name. */
  datatype InteractionData = InteractionData(id: string, commandType: i32, name: string)
  datatype InteractionObject = InteractionObject(id: string, applicationId: string, interactionType: i32, data: Option<InteractionData>)

  /** `InteractionObject::default()`. */
  const DefaultObject := InteractionObject("", "", 0, None)

  /**
   * An inbound request. `payload` is what decoding the body as an interaction gave: None when
   * the body is missing or does not decode.
   */
  datatype Request = Request(headers: seq<Header>, body: Body, payload: Option<InteractionObject>)

  datatype Response = Response(status: int, headers: seq<(string, string)>, body: Json)

  /** What the handler ends with: a response, an authentication error, or a panic. */
  datatype Reply = Respond(response: Response) | Failed(error: AuthError) | Panicked

  const JsonContentType := [("Content-Type", "application/json")]

  /** The interaction the handler works on: the decoded one, or the default. */
  function Interaction(payload: Option<InteractionObject>): (r: InteractionObject)
    ensures payload.Some? ==> r == payload.value
    ensures payload.None? ==> r.interactionType == 0 && r.data.None? && r.id == "" && r.applicationId == ""
  {
    payload.UnwrapOr(DefaultObject)
  }

  /** The acknowledgement of a handshake. */
  const PongBody := JObj(map["type" := JNum(1)])

  /** The answer to every command: a channel message "Pong!" read aloud, without embeds or mentions. */
  const CommandBody := JObj(map[
    "type" := JNum(4),
    "data" := JObj(map[
      "tts" := JBool(true),
      "content" := JStr("Pong!"),
      "embeds" := JArr([]),
      "allowed_mentions" := JObj(map["parse" := JArr([])])])])

  const NotImplementedBody := JObj(map["error" := JStr("Not implemented.")])

  /** The match on the interaction type. */
  function Route(obj: InteractionObject): (r: Reply)
    ensures !r.Failed?
    ensures r.Panicked? <==> obj.interactionType == 2 && obj.data.None?
    ensures r.Respond? ==> (r.response.status == 200 <==> obj.interactionType == 1 || obj.interactionType == 2)
    ensures r.Respond? && r.response.status != 200 ==> r.response.status == 404
    ensures obj.interactionType == 1 ==> r == Respond(Response(200, [], PongBody))
    ensures obj.interactionType == 2 && obj.data.Some? ==> r == Respond(Response(200, JsonContentType, CommandBody))
    ensures obj.interactionType != 1 && obj.interactionType != 2 ==> r == Respond(Response(404, JsonContentType, NotImplementedBody))
  {
    match obj.interactionType
    case 1 => Respond(Response(200, [], PongBody))
    case 2 =>
      if obj.data.Some? then Respond(Response(200, JsonContentType, CommandBody)) else Panicked
    case _ => Respond(Response(404, JsonContentType, NotImplementedBody))
  }

  /** `handler`: the signature is checked before anything of the payload is looked at. */
  function Handler(key: PublicKey, verify: Verifier, req: Request): (r: Reply)
    ensures Verdict(key, verify, req.headers, req.body).Err? ==> !r.Respond?
    ensures Verdict(key, verify, req.headers, req.body) == Err(SignatureOverflow) ==> r == Panicked
    ensures Verdict(key, verify, req.headers, req.body).Err? && Verdict(key, verify, req.headers, req.body).error != SignatureOverflow ==>
      r == Failed(Verdict(key, verify, req.headers, req.body).error)
    ensures Verdict(key, verify, req.headers, req.body).Ok? ==> r == Route(Interaction(req.payload))
  {
    match Verdict(key, verify, req.headers, req.body)
    case Err(SignatureOverflow) => Panicked
    case Err(e) => Failed(e)
    case Ok(_) => Route(Interaction(req.payload))
  }

  /** An unauthenticated request gets the same reply whatever its payload says. */
  lemma UnauthenticatedIgnoresPayload(key: PublicKey, verify: Verifier, req: Request, payload: Option<InteractionObject>)
    requires Verdict(key, verify, req.headers, req.body).Err?
    ensures Handler(key, verify, req) == Handler(key, verify, req.(payload := payload))
  {
  }

  /** An authenticated request whose payload is missing or undecodable is answered 404. */
  lemma UndecodablePayloadNotImplemented(key: PublicKey, verify: Verifier, req: Request)
    requires Verdict(key, verify, req.headers, req.body).Ok? && req.payload.None?
    ensures Handler(key, verify, req) == Respond(Response(404, JsonContentType, NotImplementedBody))
  {
  }

  /** A command is answered "Pong!" whatever command it names. */
  lemma CommandAnswerIgnoresName(obj: InteractionObject, name: string)
    requires obj.interactionType == 2 && obj.data.Some?
    ensures Route(obj) == Route(obj.(data := Some(obj.data.value.(name := name))))
    ensures Route(obj).Respond? && Route(obj).response.body.fields["data"].fields["content"] == JStr("Pong!")
  {
  }
}
