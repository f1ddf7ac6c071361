/** The HTTP resources of sample/api/endpoints/person.py (`PersonCollection`,
    `PersonItem`), with the status and token resources of sample/api/endpoints/
    status.py and token.py, as one dispatch from a request to a response. Every
    exception a handler raises is turned into a response by the handlers of
    sample/api/restplus.py. */
module PersonEndpoints {
  import opened Runtime
  import opened PersonModel
  import opened Accessible
  import opened Authentication
  import opened Restplus

  datatype HttpMethod = Get | Post | Put | Delete

  /** `/status`, `/token`, `/person` and `/person/<int:id>` (the int converter admits
      no negative ids). */
  datatype Route = StatusRoute | TokenRoute | PersonCollection | PersonItem(id: nat)

  /** A request: its method and route, the Authorization header, and `request.json`. */
  datatype Request = Request(verb: HttpMethod, route: Route, authorization: Option<Token>, json: Option<Dict>)

  /** What a request sees of the world outside the process: the local clock for audit
      stamps, the UTC clock for tokens, the random generator's draws, and the date parser. */
  datatype Context = Context(localNow: int, utcNow: int, draws: seq<int>, parse: DateParser)

  predicate ValidContext(ctx: Context)
  {
    |ctx.draws| == JtiLength && ValidDraws(ctx.draws, |Alphabet|)
  }

  /** The state the requests share: the person table and the token lists. */
  datatype ServerState = ServerState(table: TableState, raw: seq<Claims>, tokens: seq<Token>)

  ghost predicate ValidServer(key: nat, s: ServerState)
  {
    ValidTable(s.table) && Issued(key, s.raw, s.tokens)
  }

  /** The framework's answer for a method the route does not offer. */
  const MethodNotAllowed: Response := Response(NoBody, 405)

  /** The response of a `get` of the access layer: a list or a single person. */
  function FetchedResponse(r: Result<Fetched>): Response
  {
    match r
    case Ok(All(rows)) => Response(PersonList(rows), 200)
    case Ok(One(row)) => Response(PersonBody(row), 200)
    case Raised(e) => HandleError(e)
  }

  /** The response of a handler that returns `(None, 204)` after its call. */
  function NoContentResponse(r: Result<()>): Response
  {
    match r
    case Ok(_) => Response(NoBody, 204)
    case Raised(e) => HandleError(e)
  }

  /** The person handlers behind `@token_validation`, once the token is accepted. */
  function PersonHandler(s: ServerState, m: HttpMethod, route: Route, json: Option<Dict>, ctx: Context): (Response, ServerState)
    requires ValidTable(s.table) && (route.PersonCollection? || route.PersonItem?) && m != Delete
    requires route.PersonCollection? ==> m in {Get, Post}
    requires route.PersonItem? ==> m in {Get, Put}
  {
    match route
    case PersonCollection =>
      if m == Get then (FetchedResponse(GetSpec(s.table, None)), s)
      else
        var e := CreateSpec(s.table, UserId(), json, ctx.localNow, ctx.parse);
        (match e.result case Ok(row) => Response(PersonBody(row), 201) case Raised(err) => HandleError(err),
         s.(table := e.table))
    case PersonItem(id) =>
      if m == Get then (FetchedResponse(GetSpec(s.table, Some(id))), s)
      else
        var e := UpdateSpec(s.table, UserId(), id, json, ctx.localNow, ctx.parse);
        (NoContentResponse(e.result), s.(table := e.table))
  }

  /** The methods each route is declared with. */
  predicate Offered(route: Route, verb: HttpMethod)
  {
    match route
    case StatusRoute => verb == Get
    case TokenRoute => verb == Get
    case PersonCollection => verb in {Get, Post}
    case PersonItem(_) => verb in {Get, Put, Delete}
  }

  /** The response to `req` and the shared state after it, for the process key `key`:
      405 answers exactly the methods a route is not declared with, and changes nothing;
      only the token route touches the issued tokens. */
  function Respond(key: nat, s: ServerState, req: Request, ctx: Context): (r: (Response, ServerState))
    requires ValidTable(s.table) && ValidContext(ctx)
    ensures r.0.status == 405 <==> !Offered(req.route, req.verb)
    ensures r.0.status == 405 ==> r.1 == s
    ensures !req.route.TokenRoute? ==> r.1.raw == s.raw && r.1.tokens == s.tokens
  {
    match req.route
    case StatusRoute =>
      if req.verb == Get then (Response(Message("Online"), 200), s) else (MethodNotAllowed, s)
    case TokenRoute =>
      if req.verb == Get then
        var c := IssuedClaims(Jti(ctx.draws), ctx.utcNow);
        (Response(TokenBody(Sign(key, c)), 200), s.(raw := s.raw + [c], tokens := s.tokens + [Sign(key, c)]))
      else (MethodNotAllowed, s)
    case PersonCollection =>
      if req.verb in {Get, Post} then
        if Authorize(key, s.raw, req.authorization, ctx.utcNow).Raised? then (HandleError(Unauthorized), s)
        else PersonHandler(s, req.verb, req.route, req.json, ctx)
      else (MethodNotAllowed, s)
    case PersonItem(id) =>
      if req.verb in {Get, Put} then
        if Authorize(key, s.raw, req.authorization, ctx.utcNow).Raised? then (HandleError(Unauthorized), s)
        else PersonHandler(s, req.verb, req.route, req.json, ctx)
      else if req.verb == Delete then
        var e := DeleteSpec(s.table, UserId(), id, true, ctx.localNow);
        (NoContentResponse(e.result), s.(table := e.table))
      else (MethodNotAllowed, s)
  }

  // ---------------------------------------------------------------------------
  // Properties of the dispatch
  // ---------------------------------------------------------------------------

  /** Every request keeps the shared state valid. */
  lemma RespondKeepsValid(key: nat, s: ServerState, req: Request, ctx: Context)
    requires ValidServer(key, s) && ValidContext(ctx)
    ensures ValidServer(key, Respond(key, s, req, ctx).1)
  {
    var t := s.table;
    match req.route
    case PersonCollection =>
      CreateProperties(t, UserId(), req.json, ctx.localNow, ctx.parse);
    case PersonItem(id) =>
      UpdateProperties(t, UserId(), id, req.json, ctx.localNow, ctx.parse);
      DeleteProperties(t, UserId(), id, true, ctx.localNow);
    case _ =>
  }

  /** GET on the collection with a valid token lists every row with 200. */
  lemma ListPersons(key: nat, s: ServerState, token: Token, json: Option<Dict>, ctx: Context)
    requires ValidTable(s.table) && ValidContext(ctx)
    requires CheckToken(key, s.raw, token, ctx.utcNow) == Ok(true)
    ensures Respond(key, s, Request(Get, PersonCollection, Some(token), json), ctx)
         == (Response(PersonList(AllRows(s.table)), 200), s)
  {
  }

  /** POST with a valid token creates the person as user 1 and answers 201 with the
      new row, which the table keeps without its modification stamps; a body it
      cannot store gives 500 and writes nothing. */
  lemma CreatePerson(key: nat, s: ServerState, token: Token, json: Option<Dict>, ctx: Context)
    requires ValidTable(s.table) && ValidContext(ctx)
    requires CheckToken(key, s.raw, token, ctx.utcNow) == Ok(true)
    ensures var (resp, s') := Respond(key, s, Request(Post, PersonCollection, Some(token), json), ctx);
      && s'.raw == s.raw && s'.tokens == s.tokens
      && (Creatable(json, ctx.parse) ==>
            && resp.status == 201
            && resp.body.PersonBody?
            && resp.body.row.id == Some(s.table.nextId)
            && resp.body.row.createdById == Int(1)
            && resp.body.row.modifiedById == Int(1)
            && resp.body.row.active == Bool(true)
            && s'.table.rows == s.table.rows[s.table.nextId := Persisted(resp.body.row)])
      && (!Creatable(json, ctx.parse) ==> resp.status == 500 && s' == s)
  {
    var e := CreateSpec(s.table, UserId(), json, ctx.localNow, ctx.parse);
    CreateProperties(s.table, UserId(), json, ctx.localNow, ctx.parse);
    if e.result.Ok? {
      CreatedRow(s.table, UserId(), json, ctx.localNow, ctx.parse);
    } else {
      MapDataFails(Constructed(Null, Null, Null), json, ctx.parse);
    }
  }

  /** GET on an item with a valid token: the row with 200, or 404 with the fixed
      message when there is none. Id 0 is falsy for the access layer, so it lists
      every row instead. */
  lemma ReadPerson(key: nat, s: ServerState, token: Token, id: nat, json: Option<Dict>, ctx: Context)
    requires ValidTable(s.table) && ValidContext(ctx)
    requires CheckToken(key, s.raw, token, ctx.utcNow) == Ok(true)
    ensures var (resp, s') := Respond(key, s, Request(Get, PersonItem(id), Some(token), json), ctx);
      && s' == s
      && (id != 0 && id in s.table.rows ==> resp == Response(PersonBody(s.table.rows[id]), 200))
      && (id != 0 && id !in s.table.rows ==> resp == Response(Message("A database result was not found"), 404))
      && (id == 0 ==> resp == Response(PersonList(AllRows(s.table)), 200))
  {
  }

  /** PUT with a valid token answers 204 without a body once `update` succeeds, and
      404 with nothing written when the id is missing. */
  lemma UpdatePerson(key: nat, s: ServerState, token: Token, id: nat, json: Option<Dict>, ctx: Context)
    requires ValidTable(s.table) && ValidContext(ctx)
    requires CheckToken(key, s.raw, token, ctx.utcNow) == Ok(true)
    ensures var (resp, s') := Respond(key, s, Request(Put, PersonItem(id), Some(token), json), ctx);
      && (id !in s.table.rows ==> resp == Response(Message("A database result was not found"), 404) && s' == s)
      && (resp.status == 204 <==> UpdateSpec(s.table, 1, id, json, ctx.localNow, ctx.parse).result.Ok?)
      && (resp.status == 204 ==> resp.body == NoBody)
  {
    UpdateProperties(s.table, UserId(), id, json, ctx.localNow, ctx.parse);
  }

  /** The four guarded person methods (GET and POST on the collection, GET and PUT
      on an item) need a valid token: without one the answer is 401 without a body,
      and nothing changes. */
  lemma UnauthorizedRejected(key: nat, s: ServerState, req: Request, ctx: Context)
    requires ValidTable(s.table) && ValidContext(ctx)
    requires (req.route.PersonCollection? && req.verb in {Get, Post})
          || (req.route.PersonItem? && req.verb in {Get, Put})
    requires req.authorization.None? || CheckToken(key, s.raw, req.authorization.value, ctx.utcNow) != Ok(true)
    ensures Respond(key, s, req, ctx) == (Response(NoBody, 401), s)
  {
  }

  /** A method a person route has no handler for (PUT or DELETE on the collection,
      POST on an item) is refused with 405 before any token check, and nothing
      changes. */
  lemma UnofferedMethodsNotAllowed(key: nat, s: ServerState, req: Request, ctx: Context)
    requires ValidTable(s.table) && ValidContext(ctx)
    requires (req.route.PersonCollection? && req.verb in {Put, Delete})
          || (req.route.PersonItem? && req.verb == Post)
    ensures Respond(key, s, req, ctx) == (MethodNotAllowed, s)
    ensures MethodNotAllowed.status == 405
  {
  }

  /** DELETE needs no token and always ends in the default handler with 500: on an
      existing row after marking it inactive, on a missing one with nothing written. */
  lemma DeleteAlwaysFails(key: nat, s: ServerState, id: nat, authorization: Option<Token>, json: Option<Dict>, ctx: Context)
    requires ValidTable(s.table) && ValidContext(ctx)
    ensures var (resp, s') := Respond(key, s, Request(Delete, PersonItem(id), authorization, json), ctx);
      && resp.status == 500
      && (id in s.table.rows ==>
            resp.body == ErrorMessage(NotImplemented)
            && s'.table.rows.Keys == s.table.rows.Keys
            && s'.table.rows[id].active == Bool(false))
      && (id !in s.table.rows ==> s' == s)
  {
    DeleteProperties(s.table, UserId(), id, true, ctx.localNow);
  }

  /** GET /status answers 200 "Online" whatever the token. */
  lemma StatusOnline(key: nat, s: ServerState, authorization: Option<Token>, json: Option<Dict>, ctx: Context)
    requires ValidTable(s.table) && ValidContext(ctx)
    ensures Respond(key, s, Request(Get, StatusRoute, authorization, json), ctx) == (Response(Message("Online"), 200), s)
  {
  }

  /** GET /token issues one more claim set and its signed token, and answers with it. */
  lemma IssueToken(key: nat, s: ServerState, authorization: Option<Token>, json: Option<Dict>, ctx: Context)
    requires ValidTable(s.table) && ValidContext(ctx)
    ensures var c := IssuedClaims(Jti(ctx.draws), ctx.utcNow);
      Respond(key, s, Request(Get, TokenRoute, authorization, json), ctx)
        == (Response(TokenBody(Sign(key, c)), 200), s.(raw := s.raw + [c], tokens := s.tokens + [Sign(key, c)]))
  {
  }

  /** A client takes a token and, within its lifetime, lists the persons with it:
      200 with every row, and the table is unchanged. */
  lemma TokenThenListPersons(key: nat, s: ServerState, ctx1: Context, ctx2: Context)
    requires ValidTable(s.table) && ValidContext(ctx1) && ValidContext(ctx2)
    requires ctx1.utcNow <= ctx2.utcNow <= ctx1.utcNow + 1800
    ensures var (r1, s1) := Respond(key, s, Request(Get, TokenRoute, None, None), ctx1);
      && r1.status == 200 && r1.body.TokenBody?
      && Respond(key, s1, Request(Get, PersonCollection, Some(r1.body.token), None), ctx2)
           == (Response(PersonList(AllRows(s.table)), 200), s1)
  {
    IssueToken(key, s, None, None, ctx1);
    var (r1, s1) := Respond(key, s, Request(Get, TokenRoute, None, None), ctx1);
    IssuedTokenValidates(key, s.raw, Jti(ctx1.draws), ctx1.utcNow, ctx2.utcNow);
    ListPersons(key, s1, r1.body.token, None, ctx2);
  }

  /** The body of the scenario below. */
  const AnnLee: Dict := map["first_name" := Str("Ann"), "last_name" := Str("Lee")]

  /** POST of Ann Lee with a valid token answers 201 with a stored row named Ann. */
  lemma CreateAnnLee(key: nat, s: ServerState, token: Token, ctx: Context)
    requires ValidTable(s.table) && ValidContext(ctx)
    requires CheckToken(key, s.raw, token, ctx.utcNow) == Ok(true)
    ensures var (resp, s') := Respond(key, s, Request(Post, PersonCollection, Some(token), Some(AnnLee)), ctx);
      && ValidTable(s'.table)
      && resp.status == 201 && resp.body.PersonBody? && resp.body.row.firstName == Str("Ann")
      && resp.body.row.id.Some? && resp.body.row.id.value in s'.table.rows
  {
    assert Creatable(Some(AnnLee), ctx.parse);
    var e := CreateSpec(s.table, UserId(), Some(AnnLee), ctx.localNow, ctx.parse);
    CreateProperties(s.table, UserId(), Some(AnnLee), ctx.localNow, ctx.parse);
    CreatedRow(s.table, UserId(), Some(AnnLee), ctx.localNow, ctx.parse);
    assert e.result.value.Get(FirstName) == Str("Ann");
  }

  /** A client takes a token, creates Ann Lee with it (201, the body names Ann) and
      then asks for that person without a token (401). */
  lemma TokenCreateReadScenario(key: nat, s: ServerState, ctx1: Context, ctx2: Context, ctx3: Context)
    requires ValidServer(key, s) && ValidContext(ctx1) && ValidContext(ctx2) && ValidContext(ctx3)
    requires ctx1.utcNow <= ctx2.utcNow <= ctx1.utcNow + 1800
    ensures var (r1, s1) := Respond(key, s, Request(Get, TokenRoute, None, None), ctx1);
      && r1.status == 200 && r1.body.TokenBody?
      && var (r2, s2) := Respond(key, s1, Request(Post, PersonCollection, Some(r1.body.token), Some(AnnLee)), ctx2);
      && r2.status == 201 && r2.body.PersonBody? && r2.body.row.firstName == Str("Ann")
      && r2.body.row.id.Some?
      && ValidTable(s2.table)
      && Respond(key, s2, Request(Get, PersonItem(r2.body.row.id.value), None, None), ctx3).0 == Response(NoBody, 401)
  {
    IssueToken(key, s, None, None, ctx1);
    var (r1, s1) := Respond(key, s, Request(Get, TokenRoute, None, None), ctx1);
    IssuedTokenValidates(key, s.raw, Jti(ctx1.draws), ctx1.utcNow, ctx2.utcNow);
    CreateAnnLee(key, s1, r1.body.token, ctx2);
    var (r2, s2) := Respond(key, s1, Request(Post, PersonCollection, Some(r1.body.token), Some(AnnLee)), ctx2);
    UnauthorizedRejected(key, s2, Request(Get, PersonItem(r2.body.row.id.value), None, None), ctx3);
  }

  // ---------------------------------------------------------------------------
  // The resources as objects
  // ---------------------------------------------------------------------------

  /** The state of the process versus the value the specification works on. */
  function StateOf(access: DatabaseAccess, factory: TokenFactory): ServerState
    reads access, access.db, factory
  {
    ServerState(access.db.State(), factory.raw, factory.tokens)
  }

  /** The resources' handling of one request, with the Person access object, the
      token factory and the error handlers. */
  method Dispatch(access: DatabaseAccess, factory: TokenFactory, req: Request, ctx: Context) returns (resp: Response)
    requires access.db.Valid() && factory.Valid() && ValidContext(ctx)
    modifies access.db, factory
    ensures access.db.Valid() && factory.Valid()
    ensures (resp, StateOf(access, factory)) == Respond(factory.key, old(StateOf(access, factory)), req, ctx)
  {
    match req.route
    case StatusRoute =>
      resp := if req.verb == Get then Response(Message("Online"), 200) else MethodNotAllowed;
    case TokenRoute =>
      if req.verb == Get {
        var token := factory.MakeToken(ctx.utcNow, ctx.draws);
        resp := Response(TokenBody(token), 200);
      } else {
        resp := MethodNotAllowed;
      }
    case PersonCollection =>
      if req.verb == Get || req.verb == Post {
        var authorized := TokenValidation(factory, req.authorization, ctx.utcNow);
        if authorized.Raised? {
          return HandleError(authorized.error);
        }
        if req.verb == Get {
          var persons := access.Get();
          resp := FetchedResponse(persons);
        } else {
          var created := access.Create(UserId(), req.json, ctx.localNow, ctx.parse);
          resp := if created.Ok? then Response(PersonBody(created.value), 201) else HandleError(created.error);
        }
      } else {
        resp := MethodNotAllowed;
      }
    case PersonItem(id) =>
      if req.verb == Get || req.verb == Put {
        var authorized := TokenValidation(factory, req.authorization, ctx.utcNow);
        if authorized.Raised? {
          return HandleError(authorized.error);
        }
        if req.verb == Get {
          var person := access.Get(Some(id));
          resp := FetchedResponse(person);
        } else {
          var updated := access.Update(UserId(), id, req.json, ctx.localNow, ctx.parse);
          resp := NoContentResponse(updated);
        }
      } else if req.verb == Delete {
        var deleted := access.Delete(UserId(), id, ctx.localNow);
        resp := NoContentResponse(deleted);
      } else {
        resp := MethodNotAllowed;
      }
  }
}
