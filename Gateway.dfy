/**
 * The worker's entry point: route selection on (method, path), the shape
 * check of a review request, and the status each outcome of a review gets.
 */
module Gateway {
  import opened Wrappers
  import opened Json
  import opened Types
  import DeepInfra
  import Prompt

  /** The worker's configuration; `model` is `DEEPINFRA_MODEL`, which may be unset. */
  datatype Env = Env(apiKey: string, model: Option<string>)

  /** `env.DEEPINFRA_MODEL || "meta-llama/Llama-3.3-70B-Instruct"`: an unset or empty model falls back. */
  function ModelOf(env: Env): (model: string)
    ensures env.model.Some? && env.model.value != [] ==> model == env.model.value
    ensures env.model.None? || env.model.value == [] ==> model == DeepInfra.DefaultModel
  {
    if env.model.Some? && env.model.value != [] then env.model.value else DeepInfra.DefaultModel
  }

  /** `v.key` where `v` is known not to be `undefined` or `null`. */
  function Member(v: Option<Json>, key: string): Option<Json>
    requires v.Some?
  {
    Get(v.value, key)
  }

  /** `!e || typeof e.label !== "string" || typeof e.type !== "string"`. */
  predicate BadEntity(e: Option<Json>) {
    !Truthy(e) || !IsString(Member(e, "label")) || !IsString(Member(e, "type"))
  }

  /** An entity a valid request carries: string label and type; its properties are not looked at. */
  predicate EntityShaped(e: Option<Json>) {
    && e.Some? && e.value.JObject?
    && IsString(Get(e.value, "label"))
    && IsString(Get(e.value, "type"))
  }

  /**
   * `validateRequest`, with its checks in the source's order. The requests it
   * accepts are exactly the objects whose `entity1` and `entity2` are objects
   * with string `label` and `type`, and whose `similarity` is a number other
   * than NaN. An array body passes the `typeof` test but has no such members;
   * `properties` may be anything.
   */
  function ValidateRequest(body: Json): (valid: bool)
    ensures valid <==>
      && body.JObject?
      && EntityShaped(Get(body, "entity1"))
      && EntityShaped(Get(body, "entity2"))
      && Get(body, "similarity").Some? && Get(body, "similarity").value.JNumber?
      && !Get(body, "similarity").value.n.isNaN
  {
    if !Truthy(Some(body)) || !IsObjectType(Some(body)) then false
    else
      var entity1, entity2, similarity := Get(body, "entity1"), Get(body, "entity2"), Get(body, "similarity");
      if BadEntity(entity1) then false
      else if BadEntity(entity2) then false
      else if !(similarity.Some? && similarity.value.JNumber?) || similarity.value.n.isNaN then false
      else true
  }

  /** The entity a valid request carries under `key`. */
  function EntityAt(body: Json, key: string): (e: Entity)
    requires EntityShaped(Get(body, key))
    ensures var v := Get(body, key).value;
      && Some(JString(e.entityLabel)) == Get(v, "label")
      && Some(JString(e.entityType)) == Get(v, "type")
      && e.properties == Get(v, "properties")
  {
    var v := Get(body, key).value;
    Entity(Get(v, "label").value.s, Get(v, "type").value.s, Get(v, "properties"))
  }

  /**
   * Whether writing the prompt for a valid request throws, because a
   * property value of either entity has no string form.
   */
  predicate Unconvertible(body: Json) {
    ValidateRequest(body) && Prompt.PromptThrows(EntityAt(body, "entity1"), EntityAt(body, "entity2"))
  }

  /** The result `reviewMerge` gives for a valid request. */
  function Merged(body: Json, network: nat -> DeepInfra.Outcome): (r: Result<ReviewResult, DeepInfra.Failure>)
    requires ValidateRequest(body)
    ensures Unconvertible(body) <==> r == Err(DeepInfra.Unconvertible)
    ensures !Unconvertible(body) ==> r == DeepInfra.Review(DeepInfra.Call(network, DeepInfra.MaxRetries).0)
  {
    if Unconvertible(body) then Err(DeepInfra.Unconvertible)
    else
      DeepInfra.CallNeverUnconvertible(network, DeepInfra.MaxRetries);
      DeepInfra.Review(DeepInfra.Call(network, DeepInfra.MaxRetries).0)
  }

  /** Why a review ended in status 500. */
  datatype Cause =
    | UnparsableBody
    | Failed(failure: DeepInfra.Failure)

  /** The JSON body of a response, or none. */
  datatype Body =
    | NoBody
    | HealthBody(status: string, service: string)
    | ReviewBody(result: ReviewResult)
    | ErrorBody(error: string)
    | InternalError(error: string, cause: Cause)
    | NotFoundBody(error: string, availableEndpoints: seq<string>)

  datatype HttpResponse = HttpResponse(status: nat, body: Body)

  const InvalidFormat: string :=
    "Invalid request format. Expected: { entity1: { label, type, properties? }, entity2: { label, type, properties? }, similarity: number }"
  const Endpoints: seq<string> := ["GET /health - Health check", "POST /review - Entity resolution review"]

  /**
   * What `handleReview` answers: 500 when the body is not JSON, 400 when it
   * fails validation, 500 when the prompt cannot be written, otherwise 200
   * with the review or 500 with the call's failure.
   */
  function ReviewResponse(body: Option<Json>, env: Env, network: nat -> DeepInfra.Outcome): (response: HttpResponse)
    ensures response.status in {200, 400, 500}
    ensures response.status == 400 <==> body.Some? && !ValidateRequest(body.value)
    ensures response.status == 200 <==>
      && body.Some? && ValidateRequest(body.value) && !Unconvertible(body.value)
      && DeepInfra.Review(DeepInfra.Call(network, DeepInfra.MaxRetries).0).Ok?
    ensures response.status == 200 ==>
      response.body == ReviewBody(DeepInfra.Review(DeepInfra.Call(network, DeepInfra.MaxRetries).0).value)
    ensures response.status == 400 ==> response.body == ErrorBody(InvalidFormat)
    ensures response.status == 500 && body.None? ==> response.body == InternalError("Internal server error", UnparsableBody)
    ensures body.Some? && Unconvertible(body.value) ==>
      response == HttpResponse(500, InternalError("Internal server error", Failed(DeepInfra.Unconvertible)))
    ensures response.status == 500 && body.Some? && !Unconvertible(body.value) ==>
      response.body == InternalError("Internal server error", Failed(DeepInfra.Review(DeepInfra.Call(network, DeepInfra.MaxRetries).0).error))
  {
    if body.None? then HttpResponse(500, InternalError("Internal server error", UnparsableBody))
    else if !ValidateRequest(body.value) then HttpResponse(400, ErrorBody(InvalidFormat))
    else
      match Merged(body.value, network)
      case Ok(result) => HttpResponse(200, ReviewBody(result))
      case Err(failure) => HttpResponse(500, InternalError("Internal server error", Failed(failure)))
  }

  /**
   * The requests a review sends: none unless the body is a valid request
   * whose prompt can be written.
   */
  function ReviewRequests(body: Option<Json>, env: Env, network: nat -> DeepInfra.Outcome): (sent: seq<DeepInfra.ChatRequest>)
    ensures sent != [] ==> body.Some? && ValidateRequest(body.value) && !Unconvertible(body.value)
  {
    if body.None? || !ValidateRequest(body.value) || Unconvertible(body.value) then []
    else
      var b := body.value;
      var prompt := Prompt.BuildPrompt(EntityAt(b, "entity1"), EntityAt(b, "entity2"), Get(b, "similarity").value.n.fixed3);
      seq(DeepInfra.Call(network, DeepInfra.MaxRetries).1, _ => DeepInfra.RequestFor(env.apiKey, ModelOf(env), prompt))
  }

  /**
   * `handleReview`. `body` is what `request.json()` gave, `None` when it
   * threw; a body that fails validation never reaches the model.
   */
  method HandleReview(body: Option<Json>, env: Env, network: nat -> DeepInfra.Outcome)
    returns (response: HttpResponse, sent: seq<DeepInfra.ChatRequest>, sleeps: seq<nat>)
    ensures response == ReviewResponse(body, env, network)
    ensures sent == ReviewRequests(body, env, network)
    ensures sleeps == DeepInfra.Schedule(DeepInfra.Pauses(|sent|))
  {
    if body.None? {
      return HttpResponse(500, InternalError("Internal server error", UnparsableBody)), [], [];
    }
    if !ValidateRequest(body.value) {
      return HttpResponse(400, ErrorBody(InvalidFormat)), [], [];
    }
    var b := body.value;
    var model := ModelOf(env);
    var result;
    result, sent, sleeps := DeepInfra.ReviewMerge(env.apiKey, model,
      EntityAt(b, "entity1"), EntityAt(b, "entity2"), Get(b, "similarity").value.n.fixed3, network);
    if result.Ok? {
      response := HttpResponse(200, ReviewBody(result.value));
    } else {
      response := HttpResponse(500, InternalError("Internal server error", Failed(result.error)));
    }
  }

  /** The entity whose `note` property is an object with its own `toString` member. */
  const NoteEntity: Json :=
    JObject([("label", JString("a")), ("type", JString("t")), ("properties", JObject([("note", JObject([("toString", JString("x"))]))]))])
  const PlainEntity: Json := JObject([("label", JString("b")), ("type", JString("t"))])
  const NoteRequest: Json :=
    JObject([("entity1", NoteEntity), ("entity2", PlainEntity), ("similarity", JNumber(Number(false, false, "0.5", "0.500")))])

  /**
   * A valid request whose entity carries `properties: {"note": {"toString": "x"}}`
   * gets status 500 and sends nothing, whatever the network would answer.
   */
  lemma UnconvertibleProperty(network: nat -> DeepInfra.Outcome, env: Env)
    ensures ReviewResponse(Some(NoteRequest), env, network)
      == HttpResponse(500, InternalError("Internal server error", Failed(DeepInfra.Unconvertible)))
    ensures ReviewRequests(Some(NoteRequest), env, network) == []
  {
    NoteRequestValid();
    NoteEntityProperties();
    Prompt.ToStringPropertyThrows();
    assert Unconvertible(NoteRequest);
  }

  lemma NoteRequestValid()
    ensures ValidateRequest(NoteRequest)
    ensures Get(NoteRequest, "entity1") == Some(NoteEntity)
  {
    var b := NoteRequest;
    assert "similarity"[0] != "entity2"[0] && "entity2"[6] != "entity1"[6];
    assert b.fields[..2] == [("entity1", NoteEntity), ("entity2", PlainEntity)] && b.fields[..1] == [("entity1", NoteEntity)];
    assert Field(b.fields, "entity1") == Field(b.fields[..2], "entity1") == Field(b.fields[..1], "entity1");
    assert Field(b.fields, "entity2") == Field(b.fields[..2], "entity2");
    assert EntityShaped(Get(b, "entity1")) by {
      NoteEntityShaped();
    }
    assert EntityShaped(Get(b, "entity2")) by {
      assert "type"[0] != "label"[0];
      assert PlainEntity.fields[..1] == [("label", JString("b"))];
    }
  }

  lemma NoteEntityShaped()
    ensures Get(NoteEntity, "label") == Some(JString("a"))
    ensures Get(NoteEntity, "type") == Some(JString("t"))
  {
    var fields := NoteEntity.fields;
    assert "properties"[0] != "type"[0] && "properties"[0] != "label"[0] && "type"[0] != "label"[0];
    assert fields[..2] == [("label", JString("a")), ("type", JString("t"))] && fields[..1] == [("label", JString("a"))];
    assert Field(fields, "label") == Field(fields[..2], "label") == Field(fields[..1], "label");
    assert Field(fields, "type") == Field(fields[..2], "type");
  }

  lemma NoteEntityProperties()
    ensures Get(NoteEntity, "properties") == Some(JObject([("note", JObject([("toString", JString("x"))]))]))
  {
  }

  /** The handler a request reaches. */
  datatype Route = Preflight | Health | Review | NotFound

  /** The dispatch of `fetch`: OPTIONS first, whatever the path. */
  function RouteOf(verb: string, path: string): (route: Route)
    ensures route == Preflight <==> verb == "OPTIONS"
    ensures route == Health <==> verb == "GET" && path == "/health"
    ensures route == Review <==> verb == "POST" && path == "/review"
  {
    if verb == "OPTIONS" then Preflight
    else if path == "/health" && verb == "GET" then Health
    else if path == "/review" && verb == "POST" then Review
    else NotFound
  }

  /** An incoming request: its HTTP method, its URL's path and, for a review, its parsed body. */
  datatype Request = Request(verb: string, path: string, body: Option<Json>)

  /**
   * The worker's `fetch`: a preflight gets 204 and no body, the health
   * check 200, a review whatever `handleReview` answers, anything else 404.
   */
  method Fetch(request: Request, env: Env, network: nat -> DeepInfra.Outcome)
    returns (response: HttpResponse, sent: seq<DeepInfra.ChatRequest>, sleeps: seq<nat>)
    ensures match RouteOf(request.verb, request.path)
      case Preflight => response == HttpResponse(204, NoBody) && sent == []
      case Health => response == HttpResponse(200, HealthBody("ok", "ai-review-gateway")) && sent == []
      case Review => response == ReviewResponse(request.body, env, network)
        && sent == ReviewRequests(request.body, env, network)
      case NotFound => response == HttpResponse(404, NotFoundBody("Not found", Endpoints)) && sent == []
    ensures sleeps == DeepInfra.Schedule(DeepInfra.Pauses(|sent|))
    ensures sent != [] ==>
      request.verb == "POST" && request.path == "/review" && request.body.Some? && ValidateRequest(request.body.value)
  {
    sent, sleeps := [], [];
    if request.verb == "OPTIONS" {
      return HttpResponse(204, NoBody), sent, sleeps;
    }
    if request.path == "/health" && request.verb == "GET" {
      return HttpResponse(200, HealthBody("ok", "ai-review-gateway")), sent, sleeps;
    }
    if request.path == "/review" && request.verb == "POST" {
      response, sent, sleeps := HandleReview(request.body, env, network);
      return;
    }
    response := HttpResponse(404, NotFoundBody("Not found", Endpoints));
  }
}
