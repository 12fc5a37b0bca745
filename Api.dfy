/**
 * The request handler of `api/index.js`: the route table, the cookie
 * authentication of the protected routes, and what each route does to the
 * user store.  The store, the token signer and verifier, the password
 * hasher, the image upload and the upstream call are parameters.
 */
module Api {
  import opened Wrappers
  import opened Text
  import opened Cookies
  import opened Json
  import opened Gemini

  /** A stored user; `passwordHash` is what the hasher made of the password. */
  datatype User = User(
    id: nat,
    name: string,
    email: string,
    passwordHash: string,
    assistantName: Option<string>,
    assistantImage: Option<string>,
    history: seq<string>)

  /** The user store: users in creation order, and the id the next created user receives. */
  datatype Db = Db(users: seq<User>, nextId: nat)

  /** An HTTP request: method (`req.method`), URL, the `Cookie` header if sent, and the string fields of the JSON body. */
  datatype Request = Request(httpMethod: string, url: string, cookie: Option<string>, body: map<string, string>)

  /** What signup and signin send back about the user. */
  datatype Profile = Profile(id: nat, name: string, email: string, assistantName: Option<string>, assistantImage: Option<string>)

  /** A stored user without the password hash, as `.select("-password")` gives it. */
  datatype Account = Account(id: nat, name: string, email: string, assistantName: Option<string>, assistantImage: Option<string>, history: seq<string>)

  /** The body of a response. */
  datatype Body =
    | Empty                 // `res.end()`
    | Message(text: string) // `{ message }`
    | SignedIn(profile: Profile)
    | Current(account: Account)
    | NoAccount             // `json(null)`
    | Intent(intent: Json)

  /** A response: status, the `Set-Cookie` header if set, and the body. */
  datatype Response = Response(status: nat, setCookie: Option<string>, body: Body)

  /**
   * The foreign parts of the handler: the token verifier (`jwt.verify`,
   * giving the `userId` it signed), the signer (`createToken`), the password
   * hasher and comparer, the image upload, the upstream call and `JSON.parse`.
   */
  datatype Env = Env(
    verify: string -> Option<nat>,
    issue: nat -> string,
    hash: string -> string,
    matches: (string, string) -> bool,
    upload: string -> string,
    call: string -> Upstream,
    parse: string -> Option<Json>)

  const SignupPath: string := "/api/auth/signup"
  const SigninPath: string := "/api/auth/signin"
  const LogoutPath: string := "/api/auth/logout"
  const CurrentPath: string := "/api/user/current"
  const UpdatePath: string := "/api/user/update"
  const AskPath: string := "/api/user/asktoassistant"

  /** The six paths are pairwise distinct. */
  lemma PathsDistinct()
    ensures SignupPath != SigninPath && SignupPath != LogoutPath && SignupPath != CurrentPath
    ensures SignupPath != UpdatePath && SignupPath != AskPath
    ensures SigninPath != LogoutPath && SigninPath != CurrentPath && SigninPath != UpdatePath && SigninPath != AskPath
    ensures LogoutPath != CurrentPath && LogoutPath != UpdatePath && LogoutPath != AskPath
    ensures CurrentPath != UpdatePath && CurrentPath != AskPath
    ensures UpdatePath != AskPath
  {
    assert SignupPath[15] != SigninPath[15];
    assert SignupPath[10] != LogoutPath[10] && SigninPath[10] != LogoutPath[10];
    assert SignupPath[5] != UpdatePath[5] && SigninPath[5] != UpdatePath[5] && LogoutPath[5] != UpdatePath[5];
  }

  // ---------------------------------------------------------------- store

  /** Ids and emails are unique and every id was handed out before. */
  predicate ValidDb(db: Db) {
    (forall i :: 0 <= i < |db.users| ==> db.users[i].id < db.nextId)
    && (forall i, j :: 0 <= i < j < |db.users| ==> db.users[i].id != db.users[j].id && db.users[i].email != db.users[j].email)
  }

  /** `User.findOne({ email })`: the first user with that email. */
  function FindByEmail(users: seq<User>, email: string): (r: Option<nat>)
    ensures r.Some? ==> r.value < |users| && users[r.value].email == email
    ensures r.Some? ==> forall j :: 0 <= j < r.value ==> users[j].email != email
    ensures r.None? ==> forall j :: 0 <= j < |users| ==> users[j].email != email
  {
    if users == [] then None
    else if users[0].email == email then Some(0)
    else
      match FindByEmail(users[1..], email)
      case None => None
      case Some(i) => Some(i + 1)
  }

  /**
   * `User.findById(id)`: the position of the user with that id. The search is
   * the one `FindByEmail` makes, on another field: the handler issues two
   * different queries, and each keeps its own name here.
   */
  function FindById(users: seq<User>, id: nat): (r: Option<nat>)
    ensures r.Some? ==> r.value < |users| && users[r.value].id == id
    ensures r.Some? ==> forall j :: 0 <= j < r.value ==> users[j].id != id
    ensures r.None? ==> forall j :: 0 <= j < |users| ==> users[j].id != id
  {
    if users == [] then None
    else if users[0].id == id then Some(0)
    else
      match FindById(users[1..], id)
      case None => None
      case Some(i) => Some(i + 1)
  }

  function ProfileOf(u: User): Profile {
    Profile(u.id, u.name, u.email, u.assistantName, u.assistantImage)
  }

  function AccountOf(u: User): Account {
    Account(u.id, u.name, u.email, u.assistantName, u.assistantImage, u.history)
  }

  /**
   * `findByIdAndUpdate(id, { assistantName, assistantImage })`: a field the
   * request leaves `undefined` is dropped from the update and keeps its value.
   */
  function Updated(u: User, assistantName: Option<string>, assistantImage: Option<string>): User {
    u.(assistantName := if assistantName.Some? then assistantName else u.assistantName,
       assistantImage := if assistantImage.Some? then assistantImage else u.assistantImage)
  }

  // ---------------------------------------------------------------- request pieces

  /** `req.url.split("?")[0]`. */
  function RequestPath(url: string): string {
    Split(url, '?')[0]
  }

  /** A body field; `None` when the body does not carry it (`undefined`). */
  function Field(body: map<string, string>, key: string): Option<string> {
    if key in body then Some(body[key]) else None
  }

  /** JavaScript truthiness of a string field: present and non-empty. */
  predicate Truthy(v: Option<string>) {
    v.Some? && v.value != ""
  }

  /** `user.assistantName || "Assistant"`. */
  function AssistantNameOrDefault(name: Option<string>): (r: string)
    ensures r != ""
    ensures Truthy(name) ==> r == name.value
    ensures !Truthy(name) ==> r == "Assistant"
  {
    if Truthy(name) then name.value else "Assistant"
  }

  function Reply(status: nat, text: string): Response {
    Response(status, None, Message(text))
  }

  /** The outcome of the cookie check on a protected route. */
  datatype Auth = Denied(response: Response) | Granted(userId: nat)

  /** The token from the cookie, then the verifier: 401 without a token, 401 for a token the verifier rejects. */
  function Authenticate(cookie: Option<string>, env: Env): Auth {
    match GetTokenFromCookies(cookie)
    case None => Denied(Reply(401, "Not authenticated"))
    case Some(token) =>
      match env.verify(token)
      case None => Denied(Reply(401, "Invalid token"))
      case Some(id) => Granted(id)
  }

  // ---------------------------------------------------------------- routes

  /** `POST /api/auth/signup`. */
  function Signup(db: Db, body: map<string, string>, env: Env): (Response, Db) {
    var name, email, password := Field(body, "name"), Field(body, "email"), Field(body, "password");
    if !Truthy(name) || !Truthy(email) || !Truthy(password) then (Reply(400, "All fields required"), db)
    else if FindByEmail(db.users, email.value).Some? then (Reply(400, "User already exists"), db)
    else
      var user := User(db.nextId, name.value, email.value, env.hash(password.value), None, None, []);
      (Response(201, Some(SetCookieHeader(env.issue(user.id))), SignedIn(ProfileOf(user))),
       Db(db.users + [user], db.nextId + 1))
  }

  /** `POST /api/auth/signin`. */
  function Signin(db: Db, body: map<string, string>, env: Env): Response {
    var email, password := Field(body, "email"), Field(body, "password");
    if !Truthy(email) || !Truthy(password) then Reply(400, "All fields required")
    else
      match FindByEmail(db.users, email.value)
      case None => Reply(400, "Invalid credentials")
      case Some(i) =>
        var user := db.users[i];
        if !env.matches(password.value, user.passwordHash) then Reply(400, "Invalid credentials")
        else Response(200, Some(SetCookieHeader(env.issue(user.id))), SignedIn(ProfileOf(user)))
  }

  /** `GET /api/user/current`. */
  function CurrentUser(db: Db, cookie: Option<string>, env: Env): Response {
    match Authenticate(cookie, env)
    case Denied(r) => r
    case Granted(id) =>
      match FindById(db.users, id)
      case None => Reply(404, "User not found")
      case Some(i) => Response(200, None, Current(AccountOf(db.users[i])))
  }

  /** The image of an update: the upload of `imageBase64` when that is truthy, `imageUrl` otherwise. */
  function NewImage(body: map<string, string>, env: Env): Option<string> {
    if Truthy(Field(body, "imageBase64")) then Some(env.upload(body["imageBase64"])) else Field(body, "imageUrl")
  }

  /** `POST /api/user/update`. */
  function UpdateAssistant(db: Db, cookie: Option<string>, body: map<string, string>, env: Env): (Response, Db) {
    match Authenticate(cookie, env)
    case Denied(r) => (r, db)
    case Granted(id) =>
      match FindById(db.users, id)
      case None => (Response(200, None, NoAccount), db)
      case Some(i) =>
        var user := Updated(db.users[i], Field(body, "assistantName"), NewImage(body, env));
        (Response(200, None, Current(AccountOf(user))), db.(users := db.users[i := user]))
  }

  /** `POST /api/user/asktoassistant`. */
  function AskAssistant(db: Db, cookie: Option<string>, body: map<string, string>, env: Env): Response {
    match Authenticate(cookie, env)
    case Denied(r) => r
    case Granted(id) =>
      match FindById(db.users, id)
      case None => Reply(404, "User not found")
      case Some(i) =>
        var user := db.users[i];
        var command := Field(body, "command");
        var response := GeminiResponse(env.call, command, AssistantNameOrDefault(user.assistantName), user.name);
        Response(200, None, Intent(Normalise(env.parse, response, command)))
  }

  /** The handler: the response to a request and the store after it. */
  function Respond(db: Db, req: Request, env: Env): (Response, Db) {
    if req.httpMethod == "OPTIONS" then (Response(200, None, Empty), db)
    else
      var path := RequestPath(req.url);
      if path == SignupPath && req.httpMethod == "POST" then Signup(db, req.body, env)
      else if path == SigninPath && req.httpMethod == "POST" then (Signin(db, req.body, env), db)
      else if path == LogoutPath && req.httpMethod == "GET" then (Response(200, Some(ClearCookieHeader()), Message("Logged out")), db)
      else if path == CurrentPath && req.httpMethod == "GET" then (CurrentUser(db, req.cookie, env), db)
      else if path == UpdatePath && req.httpMethod == "POST" then UpdateAssistant(db, req.cookie, req.body, env)
      else if path == AskPath && req.httpMethod == "POST" then (AskAssistant(db, req.cookie, req.body, env), db)
      else (Reply(404, "Not found"), db)
  }

  /** Which route function answers a request, route by route. */
  lemma RespondDispatch(db: Db, req: Request, env: Env)
    ensures req.httpMethod == "OPTIONS" ==> Respond(db, req, env) == (Response(200, None, Empty), db)
    ensures RequestPath(req.url) == SignupPath && req.httpMethod == "POST" ==> Respond(db, req, env) == Signup(db, req.body, env)
    ensures RequestPath(req.url) == SigninPath && req.httpMethod == "POST" ==> Respond(db, req, env) == (Signin(db, req.body, env), db)
    ensures RequestPath(req.url) == LogoutPath && req.httpMethod == "GET" ==>
      Respond(db, req, env) == (Response(200, Some(ClearCookieHeader()), Message("Logged out")), db)
    ensures RequestPath(req.url) == CurrentPath && req.httpMethod == "GET" ==> Respond(db, req, env) == (CurrentUser(db, req.cookie, env), db)
    ensures RequestPath(req.url) == UpdatePath && req.httpMethod == "POST" ==> Respond(db, req, env) == UpdateAssistant(db, req.cookie, req.body, env)
    ensures RequestPath(req.url) == AskPath && req.httpMethod == "POST" ==> Respond(db, req, env) == (AskAssistant(db, req.cookie, req.body, env), db)
  {
    PathsDistinct();
  }

  /** One of the three routes that read the session cookie. */
  predicate Protected(req: Request) {
    var path := RequestPath(req.url);
    (path == CurrentPath && req.httpMethod == "GET")
    || (path == UpdatePath && req.httpMethod == "POST")
    || (path == AskPath && req.httpMethod == "POST")
  }

  // ---------------------------------------------------------------- the server

  /** The serverless function's user store, updated in place by the handler. */
  class Server {
    var users: seq<User>
    var nextId: nat

    function State(): Db
      reads this
    {
      Db(users, nextId)
    }

    predicate Valid()
      reads this
    {
      ValidDb(State())
    }

    constructor()
      ensures Valid() && users == [] && nextId == 0
    {
      users := [];
      nextId := 0;
    }

    /** `handler(req, res)`: route, authenticate, read and change the store, answer. */
    method Handle(req: Request, env: Env) returns (res: Response)
      requires Valid()
      modifies this
      ensures Valid()
      ensures (res, State()) == Respond(old(State()), req, env)
    {
      RespondDispatch(State(), req, env);
      if req.httpMethod == "OPTIONS" {
        return Response(200, None, Empty);
      }
      var path := RequestPath(req.url);
      if path == SignupPath && req.httpMethod == "POST" {
        res := SignUp(req.body, env);
      } else if path == SigninPath && req.httpMethod == "POST" {
        res := SignIn(req.body, env);
      } else if path == LogoutPath && req.httpMethod == "GET" {
        res := Response(200, Some(ClearCookieHeader()), Message("Logged out"));
      } else if path == CurrentPath && req.httpMethod == "GET" {
        res := GetCurrentUser(req.cookie, env);
      } else if path == UpdatePath && req.httpMethod == "POST" {
        res := UpdateAssistantOf(req.cookie, req.body, env);
      } else if path == AskPath && req.httpMethod == "POST" {
        res := AskToAssistant(req.cookie, req.body, env);
      } else {
        res := Reply(404, "Not found");
      }
    }

    /** The signup route on the stored users: check the fields, look the email up, append the new user. */
    method SignUp(body: map<string, string>, env: Env) returns (res: Response)
      requires Valid()
      modifies this
      ensures Valid()
      ensures (res, State()) == Signup(old(State()), body, env)
    {
      SignupKeepsValid(State(), body, env);
      var name, email, password := Field(body, "name"), Field(body, "email"), Field(body, "password");
      if !Truthy(name) || !Truthy(email) || !Truthy(password) {
        return Reply(400, "All fields required");
      }
      if FindByEmail(users, email.value).Some? {
        return Reply(400, "User already exists");
      }
      var user := User(nextId, name.value, email.value, env.hash(password.value), None, None, []);
      users := users + [user];
      nextId := nextId + 1;
      return Response(201, Some(SetCookieHeader(env.issue(user.id))), SignedIn(ProfileOf(user)));
    }

    /** The signin route on the stored users. */
    method SignIn(body: map<string, string>, env: Env) returns (res: Response)
      ensures res == Signin(State(), body, env)
    {
      var email, password := Field(body, "email"), Field(body, "password");
      if !Truthy(email) || !Truthy(password) {
        return Reply(400, "All fields required");
      }
      var found := FindByEmail(users, email.value);
      if found.None? || !env.matches(password.value, users[found.value].passwordHash) {
        return Reply(400, "Invalid credentials");
      }
      var user := users[found.value];
      return Response(200, Some(SetCookieHeader(env.issue(user.id))), SignedIn(ProfileOf(user)));
    }

    /** The current-user route on the stored users. */
    method GetCurrentUser(cookie: Option<string>, env: Env) returns (res: Response)
      ensures res == CurrentUser(State(), cookie, env)
    {
      var auth := Authenticate(cookie, env);
      if auth.Denied? {
        return auth.response;
      }
      var found := FindById(users, auth.userId);
      if found.None? {
        return Reply(404, "User not found");
      }
      return Response(200, None, Current(AccountOf(users[found.value])));
    }

    /** The update route: the image is chosen before the user is looked up, then that one user is replaced. */
    method UpdateAssistantOf(cookie: Option<string>, body: map<string, string>, env: Env) returns (res: Response)
      requires Valid()
      modifies this
      ensures Valid()
      ensures (res, State()) == UpdateAssistant(old(State()), cookie, body, env)
    {
      UpdateKeepsValid(State(), cookie, body, env);
      var auth := Authenticate(cookie, env);
      if auth.Denied? {
        return auth.response;
      }
      var assistantImage := Field(body, "imageUrl");
      if Truthy(Field(body, "imageBase64")) {
        assistantImage := Some(env.upload(body["imageBase64"]));
      }
      var found := FindById(users, auth.userId);
      if found.None? {
        return Response(200, None, NoAccount);
      }
      var user := Updated(users[found.value], Field(body, "assistantName"), assistantImage);
      users := users[found.value := user];
      return Response(200, None, Current(AccountOf(user)));
    }

    /** The ask route on the stored users. */
    method AskToAssistant(cookie: Option<string>, body: map<string, string>, env: Env) returns (res: Response)
      ensures res == AskAssistant(State(), cookie, body, env)
    {
      var auth := Authenticate(cookie, env);
      if auth.Denied? {
        return auth.response;
      }
      var found := FindById(users, auth.userId);
      if found.None? {
        return Reply(404, "User not found");
      }
      var user := users[found.value];
      var command := Field(body, "command");
      var response := GeminiResponse(env.call, command, AssistantNameOrDefault(user.assistantName), user.name);
      return Response(200, None, Intent(Normalise(env.parse, response, command)));
    }
  }

  // ---------------------------------------------------------------- properties

  /** Signup appends one user with a fresh id and an unused email, so the store stays valid. */
  lemma SignupKeepsValid(db: Db, body: map<string, string>, env: Env)
    requires ValidDb(db)
    ensures ValidDb(Signup(db, body, env).1)
  {
    var email := Field(body, "email");
    if Truthy(Field(body, "name")) && Truthy(email) && Truthy(Field(body, "password")) && FindByEmail(db.users, email.value).None? {
      var after := Signup(db, body, env).1;
      assert after.users[..|db.users|] == db.users;
    }
  }

  /** An update changes one user's assistant fields only, so ids and emails stay as they were. */
  lemma UpdateKeepsValid(db: Db, cookie: Option<string>, body: map<string, string>, env: Env)
    requires ValidDb(db)
    ensures ValidDb(UpdateAssistant(db, cookie, body, env).1)
  {
    var auth := Authenticate(cookie, env);
    if auth.Granted? && FindById(db.users, auth.userId).Some? {
      var after := UpdateAssistant(db, cookie, body, env).1;
      assert |after.users| == |db.users|;
      assert forall k :: 0 <= k < |after.users| ==> after.users[k].id == db.users[k].id && after.users[k].email == db.users[k].email;
    }
  }

  /** Every request leaves a valid store valid. */
  lemma RespondKeepsValid(db: Db, req: Request, env: Env)
    requires ValidDb(db)
    ensures ValidDb(Respond(db, req, env).1)
  {
    var path := RequestPath(req.url);
    if req.httpMethod != "OPTIONS" && path == SignupPath && req.httpMethod == "POST" {
      SignupKeepsValid(db, req.body, env);
    } else if req.httpMethod != "OPTIONS" && path == UpdatePath && req.httpMethod == "POST" {
      UpdateKeepsValid(db, req.cookie, req.body, env);
    }
  }

  /** The routes the handler serves, as (path, method). */
  const Routes: seq<(string, string)> := [
    (SignupPath, "POST"), (SigninPath, "POST"), (LogoutPath, "GET"),
    (CurrentPath, "GET"), (UpdatePath, "POST"), (AskPath, "POST")
  ]

  /** A preflight request is answered 200 with an empty body whatever its path, and nothing else happens. */
  lemma PreflightAnswered(db: Db, req: Request, env: Env)
    requires req.httpMethod == "OPTIONS"
    ensures Respond(db, req, env) == (Response(200, None, Empty), db)
  {
  }

  /** The path is the URL up to its first `?`: a prefix without `?`, the whole URL when it has no query. */
  lemma PathStopsAtQuery(url: string)
    ensures '?' !in RequestPath(url)
    ensures |RequestPath(url)| <= |url| && url[..|RequestPath(url)|] == RequestPath(url)
    ensures |RequestPath(url)| < |url| ==> url[|RequestPath(url)|] == '?'
    ensures '?' !in url ==> RequestPath(url) == url
  {
    var parts := Split(url, '?');
    SplitLacksSeparator(url, '?');
    JoinSplit(url, '?');
    if |parts| > 1 {
      assert url == parts[0] + ['?'] + Join(parts[1..], '?');
    }
  }

  /** A query string never changes what the handler does. */
  lemma QueryIgnored(db: Db, req: Request, env: Env, query: string)
    requires '?' !in req.url
    ensures Respond(db, req.(url := req.url + "?" + query), env) == Respond(db, req, env)
  {
    SplitWhole(req.url, '?');
    SplitAfter(req.url, query, '?');
    assert req.url + "?" + query == req.url + ['?'] + query;
  }

  /** A protected route without a token answers 401 "Not authenticated" and leaves the store alone. */
  lemma MissingTokenRejected(db: Db, req: Request, env: Env)
    requires Protected(req)
    requires GetTokenFromCookies(req.cookie).None?
    ensures Respond(db, req, env) == (Reply(401, "Not authenticated"), db)
  {
    RespondDispatch(db, req, env);
  }

  /** A protected route whose token the verifier rejects answers 401 "Invalid token" and leaves the store alone. */
  lemma InvalidTokenRejected(db: Db, req: Request, env: Env)
    requires Protected(req)
    requires GetTokenFromCookies(req.cookie).Some? && env.verify(GetTokenFromCookies(req.cookie).value).None?
    ensures Respond(db, req, env) == (Reply(401, "Invalid token"), db)
  {
    RespondDispatch(db, req, env);
  }

  /**
   * Authentication comes before any store access and any other service:
   * when it fails, the answer is the same whatever the store holds and
   * whatever the other services would do.
   */
  lemma AuthFailureConsultsNothing(db: Db, other: Db, req: Request, env: Env,
                                   issue: nat -> string, hash: string -> string, matches: (string, string) -> bool,
                                   upload: string -> string, call: string -> Upstream, parse: string -> Option<Json>)
    requires Protected(req) && Authenticate(req.cookie, env).Denied?
    ensures Respond(db, req, env).0 == Respond(other, req, env.(issue := issue, hash := hash, matches := matches,
                                                                upload := upload, call := call, parse := parse)).0
    ensures Respond(db, req, env).1 == db
  {
    var env2 := env.(issue := issue, hash := hash, matches := matches, upload := upload, call := call, parse := parse);
    assert Authenticate(req.cookie, env2) == Authenticate(req.cookie, env);
    RespondDispatch(db, req, env);
    RespondDispatch(other, req, env2);
  }

  /** Reading the current user or asking the assistant for a user id no stored user has answers 404 "User not found". */
  lemma UnknownUserNotFound(db: Db, req: Request, env: Env)
    requires (RequestPath(req.url) == CurrentPath && req.httpMethod == "GET") || (RequestPath(req.url) == AskPath && req.httpMethod == "POST")
    requires Authenticate(req.cookie, env).Granted?
    requires forall k :: 0 <= k < |db.users| ==> db.users[k].id != Authenticate(req.cookie, env).userId
    ensures Respond(db, req, env) == (Reply(404, "User not found"), db)
  {
    assert FindById(db.users, Authenticate(req.cookie, env).userId).None?;
    if RequestPath(req.url) == CurrentPath && req.httpMethod == "GET" {
      RoutesToCurrentUser(db, req, env);
    } else {
      RoutesToAsk(db, req, env);
    }
  }

  /** A request matching no route (and not a preflight) answers 404 "Not found" and leaves the store alone. */
  lemma UnmatchedNotFound(db: Db, req: Request, env: Env)
    requires req.httpMethod != "OPTIONS"
    requires forall k :: 0 <= k < |Routes| ==> Routes[k] != (RequestPath(req.url), req.httpMethod)
    ensures Respond(db, req, env) == (Reply(404, "Not found"), db)
  {
    assert Routes[0] == (SignupPath, "POST");
    assert Routes[1] == (SigninPath, "POST");
    assert Routes[2] == (LogoutPath, "GET");
    assert Routes[3] == (CurrentPath, "GET");
    assert Routes[4] == (UpdatePath, "POST");
    assert Routes[5] == (AskPath, "POST");
  }

  /** A request on one of the six routes is never answered "Not found". */
  lemma MatchedIsRouted(db: Db, req: Request, env: Env, k: nat)
    requires k < |Routes| && Routes[k] == (RequestPath(req.url), req.httpMethod)
    ensures Respond(db, req, env).0 != Reply(404, "Not found")
  {
    RespondDispatch(db, req, env);
  }

  /** Signup with a missing or empty name, email or password answers 400 and stores nothing. */
  lemma SignupNeedsAllFields(db: Db, req: Request, env: Env)
    requires RequestPath(req.url) == SignupPath && req.httpMethod == "POST"
    requires !Truthy(Field(req.body, "name")) || !Truthy(Field(req.body, "email")) || !Truthy(Field(req.body, "password"))
    ensures Respond(db, req, env) == (Reply(400, "All fields required"), db)
  {
    RespondDispatch(db, req, env);
  }

  /** Signin without an email or a password answers 400 and leaves the store alone. */
  lemma SigninNeedsBothFields(db: Db, req: Request, env: Env)
    requires RequestPath(req.url) == SigninPath && req.httpMethod == "POST"
    requires !Truthy(Field(req.body, "email")) || !Truthy(Field(req.body, "password"))
    ensures Respond(db, req, env) == (Reply(400, "All fields required"), db)
  {
    RespondDispatch(db, req, env);
  }

  /** Signup with an email some user already has answers 400 and stores nothing. */
  lemma SignupRejectsTakenEmail(db: Db, req: Request, env: Env, k: nat)
    requires RequestPath(req.url) == SignupPath && req.httpMethod == "POST"
    requires Truthy(Field(req.body, "name")) && Truthy(Field(req.body, "email")) && Truthy(Field(req.body, "password"))
    requires k < |db.users| && db.users[k].email == req.body["email"]
    ensures Respond(db, req, env) == (Reply(400, "User already exists"), db)
  {
    RespondDispatch(db, req, env);
  }

  /**
   * Signup with all fields and an unused email stores one new user under the
   * next id with the hashed password, answers 201 with its profile, and sets
   * the session cookie for a token issued for that id.
   */
  lemma SignupCreatesUser(db: Db, req: Request, env: Env)
    requires RequestPath(req.url) == SignupPath && req.httpMethod == "POST"
    requires Truthy(Field(req.body, "name")) && Truthy(Field(req.body, "email")) && Truthy(Field(req.body, "password"))
    requires forall k :: 0 <= k < |db.users| ==> db.users[k].email != req.body["email"]
    ensures var user := User(db.nextId, req.body["name"], req.body["email"], env.hash(req.body["password"]), None, None, []);
      Respond(db, req, env) ==
        (Response(201, Some(SetCookieHeader(env.issue(db.nextId))), SignedIn(ProfileOf(user))),
         Db(db.users + [user], db.nextId + 1))
  {
    RespondDispatch(db, req, env);
  }

  /**
   * Signin never changes the store, and with both fields given it succeeds
   * exactly when a stored user has that email and the password matches its hash.
   */
  lemma SigninSucceedsIffCredentialsMatch(db: Db, req: Request, env: Env)
    requires ValidDb(db)
    requires RequestPath(req.url) == SigninPath && req.httpMethod == "POST"
    requires Truthy(Field(req.body, "email")) && Truthy(Field(req.body, "password"))
    ensures Respond(db, req, env).1 == db
    ensures Respond(db, req, env).0.status == 200 <==>
      exists k :: 0 <= k < |db.users| && db.users[k].email == req.body["email"] && env.matches(req.body["password"], db.users[k].passwordHash)
    ensures Respond(db, req, env).0.status != 200 ==> Respond(db, req, env).0 == Reply(400, "Invalid credentials")
  {
    RespondDispatch(db, req, env);
    var email, password := req.body["email"], req.body["password"];
    var found := FindByEmail(db.users, email);
    if exists k :: 0 <= k < |db.users| && db.users[k].email == email && env.matches(password, db.users[k].passwordHash) {
      var k :| 0 <= k < |db.users| && db.users[k].email == email && env.matches(password, db.users[k].passwordHash);
      assert found.Some?;
      assert db.users[found.value].email == db.users[k].email;
      assert found.value == k;
    }
  }

  /** Logout clears the cookie, which then reads as no token at all, and leaves the store alone. */
  lemma LogoutEndsSession(db: Db, req: Request, env: Env)
    requires RequestPath(req.url) == LogoutPath && req.httpMethod == "GET"
    ensures Respond(db, req, env) == (Response(200, Some(ClearCookieHeader()), Message("Logged out")), db)
    ensures GetTokenFromCookies(Some(ClearCookieHeader())).None?
  {
    RespondDispatch(db, req, env);
    ClearCookieReadsAsNoToken();
  }

  /** Dispatch to the current-user route. */
  lemma RoutesToCurrentUser(db: Db, req: Request, env: Env)
    requires RequestPath(req.url) == CurrentPath && req.httpMethod == "GET"
    ensures Respond(db, req, env) == (CurrentUser(db, req.cookie, env), db)
  {
  }

  /** Dispatch to the ask route. */
  lemma RoutesToAsk(db: Db, req: Request, env: Env)
    requires RequestPath(req.url) == AskPath && req.httpMethod == "POST"
    ensures Respond(db, req, env) == (AskAssistant(db, req.cookie, req.body, env), db)
  {
  }

  /** A user appended under the next id of a valid store is the one `findById` finds for that id. */
  lemma AppendedUserFound(db: Db, user: User)
    requires ValidDb(db) && user.id == db.nextId
    ensures FindById(db.users + [user], db.nextId) == Some(|db.users|)
  {
    var users := db.users + [user];
    var found := FindById(users, db.nextId);
    assert users[|db.users|].id == db.nextId;
    assert forall k :: 0 <= k < |db.users| ==> users[k].id == db.users[k].id < db.nextId;
  }

  /**
   * Signup, then current user: when the issued token survives the cookie
   * and the verifier accepts it, the browser's next request reads back the
   * account just created.
   */
  lemma SignupThenCurrentUser(db: Db, req: Request, env: Env, url: string)
    requires ValidDb(db)
    requires RequestPath(req.url) == SignupPath && req.httpMethod == "POST"
    requires Truthy(Field(req.body, "name")) && Truthy(Field(req.body, "email")) && Truthy(Field(req.body, "password"))
    requires forall k :: 0 <= k < |db.users| ==> db.users[k].email != req.body["email"]
    requires WellFormedToken(env.issue(db.nextId)) && env.verify(env.issue(db.nextId)) == Some(db.nextId)
    requires RequestPath(url) == CurrentPath
    ensures var after := Respond(db, req, env).1;
      var next := Request("GET", url, Some("token=" + env.issue(db.nextId)), map[]);
      Respond(after, next, env).0 ==
        Response(200, None, Current(Account(db.nextId, req.body["name"], req.body["email"], None, None, [])))
  {
    var user := User(db.nextId, req.body["name"], req.body["email"], env.hash(req.body["password"]), None, None, []);
    SignupCreatesUser(db, req, env);
    var after := Db(db.users + [user], db.nextId + 1);
    assert Respond(db, req, env).1 == after;
    RequestCookieCarriesToken(env.issue(db.nextId));
    AppendedUserFound(db, user);
    var next := Request("GET", url, Some("token=" + env.issue(db.nextId)), map[]);
    RoutesToCurrentUser(after, next, env);
    assert Authenticate(next.cookie, env) == Granted(db.nextId);
    assert CurrentUser(after, next.cookie, env) == Response(200, None, Current(AccountOf(user)));
  }

  /**
   * An update stores the uploaded image when `imageBase64` is truthy and
   * `imageUrl` otherwise, the new assistant name when one is given, keeps
   * every field the request leaves out, touches no other user, and answers
   * with the updated account.
   */
  lemma UpdateChangesOnlyAssistant(db: Db, req: Request, env: Env, i: nat)
    requires RequestPath(req.url) == UpdatePath && req.httpMethod == "POST"
    requires Authenticate(req.cookie, env).Granted?
    requires FindById(db.users, Authenticate(req.cookie, env).userId) == Some(i)
    ensures var (res, after) := Respond(db, req, env);
      |after.users| == |db.users| && after.nextId == db.nextId
      && (forall k :: 0 <= k < |db.users| && k != i ==> after.users[k] == db.users[k])
      && var old_ := db.users[i];
      var new_ := after.users[i];
      new_.id == old_.id && new_.name == old_.name && new_.email == old_.email
      && new_.passwordHash == old_.passwordHash && new_.history == old_.history
      && new_.assistantName == (if "assistantName" in req.body then Some(req.body["assistantName"]) else old_.assistantName)
      && new_.assistantImage ==
           (if "imageBase64" in req.body && req.body["imageBase64"] != "" then Some(env.upload(req.body["imageBase64"]))
            else if "imageUrl" in req.body then Some(req.body["imageUrl"])
            else old_.assistantImage)
      && res == Response(200, None, Current(AccountOf(new_)))
  {
    RespondDispatch(db, req, env);
  }

  /** An update for a user id no stored user has answers 200 with `null` and changes nothing. */
  lemma UpdateOfUnknownUser(db: Db, req: Request, env: Env)
    requires RequestPath(req.url) == UpdatePath && req.httpMethod == "POST"
    requires Authenticate(req.cookie, env).Granted?
    requires forall k :: 0 <= k < |db.users| ==> db.users[k].id != Authenticate(req.cookie, env).userId
    ensures Respond(db, req, env) == (Response(200, None, NoAccount), db)
  {
    RespondDispatch(db, req, env);
  }

  /**
   * The ask route itself: a failed upstream call yields the `general` intent
   * with the apology for every command, echoing the command as the fence
   * stripping leaves it, and the command itself when it holds no fence.
   */
  lemma AskAssistantFailsSoft(db: Db, cookie: Option<string>, body: map<string, string>, env: Env, i: nat)
    requires Authenticate(cookie, env).Granted?
    requires FindById(db.users, Authenticate(cookie, env).userId) == Some(i)
    requires AgreesWithFlat(env.parse)
    requires env.call(BuildPrompt(AssistantNameOrDefault(db.users[i].assistantName), db.users[i].name,
                                  CommandText(Field(body, "command")))).Failed?
    ensures AskAssistant(db, cookie, body, env) ==
      Response(200, None, Intent(GeneralIntent(StrippedCommand(Field(body, "command")), "Sorry, error occurred.")))
    ensures (Field(body, "command").Some? ==> NoFence(body["command"])) ==>
      AskAssistant(db, cookie, body, env) == Response(200, None, Intent(GeneralIntent(Field(body, "command"), "Sorry, error occurred.")))
  {
    var user := db.users[i];
    var command := Field(body, "command");
    UpstreamFailureYieldsGeneral(env.parse, env.call, command, AssistantNameOrDefault(user.assistantName), user.name);
  }

  /**
   * Fail-soft ask: when the upstream call fails, the answer is 200 with the
   * `general` intent and "Sorry, error occurred.", whatever the command;
   * a fence-free command is echoed unchanged.
   */
  lemma AskFailsSoft(db: Db, req: Request, env: Env, i: nat)
    requires RequestPath(req.url) == AskPath && req.httpMethod == "POST"
    requires Authenticate(req.cookie, env).Granted?
    requires FindById(db.users, Authenticate(req.cookie, env).userId) == Some(i)
    requires AgreesWithFlat(env.parse)
    requires env.call(BuildPrompt(AssistantNameOrDefault(db.users[i].assistantName), db.users[i].name,
                                  CommandText(Field(req.body, "command")))).Failed?
    ensures Respond(db, req, env) ==
      (Response(200, None, Intent(GeneralIntent(StrippedCommand(Field(req.body, "command")), "Sorry, error occurred."))), db)
    ensures (Field(req.body, "command").Some? ==> NoFence(req.body["command"])) ==>
      Respond(db, req, env) == (Response(200, None, Intent(GeneralIntent(Field(req.body, "command"), "Sorry, error occurred."))), db)
  {
    RoutesToAsk(db, req, env);
    AskAssistantFailsSoft(db, req.cookie, req.body, env, i);
  }
}
