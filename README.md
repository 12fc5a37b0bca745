# Voice assistant: session, routes and intent pipeline

This project models the core of a small voice-assistant web application.

The serverless handler `api/index.js` has several parts:

- **Cookie session.** A `token` cookie is issued on signup and signin and cleared on logout. The three protected routes read it back out of the `Cookie` header.
- **Six routes.**
  - Signup, signin and logout.
  - Read the current user.
  - Update the assistant's name and image.
  - Ask the assistant.
- **Ask pipeline.** The ask route builds a prompt from the assistant's name, the user's name and the spoken command, then sends it upstream. If that call fails, a serialised `general` intent stands in for the reply. The reply has its code fences stripped and is trimmed, then parsed as JSON. A reply that does not parse becomes the `general` intent carrying the raw text.

The browser's user context (`frontend/src/context/UserContext.jsx`) does two things:

- It throttles submissions to one every 2000 ms.
- It turns a failed call into a local reply of kind `error` that echoes the command.

The Dafny modules follow that structure:

| module | models |
|---|---|
| `Wrappers` | the `Option` type |
| `Text` | `split`, `join`, JavaScript `trim`, decimal numerals |
| `Cookies` | `getTokenFromCookies`, `setCookieHeader`, `clearCookieHeader` |
| `Json` | JSON values, `JSON.stringify` of flat string objects, a parser restricted to those objects |
| `Gemini` | the prompt, `geminiResponse`, fence stripping, the normaliser of the ask route |
| `Api` | the handler: a specification function `Respond` over a user store, and a class `Server` whose `Handle` method updates its store in place and is proved equal to `Respond` |
| `UserContext` | the class `Session`, holding the time ref, the loading flag and the error; the method `GetGeminiResponse` with its two phases `Begin` and `Finish` |

The foreign services are parameters of the handler, gathered in `Api.Env`:

- the token signer and verifier;
- the password hasher and comparer;
- the image upload;
- the upstream call;
- `JSON.parse`.

The model assumes two things about `JSON.parse`:

- `Json.AgreesWithFlat`: wherever the restricted flat-object parser reads an object, `JSON.parse` returns that same object.
- `Json.RejectsProse`: `JSON.parse` throws on empty text and on text whose first character cannot open a JSON value. Only `Gemini.ProseFallsBack` relies on it.

On the client, the clock (`Date.now()`) and the outcome of the POST are parameters.

**The kind is never checked.** The prompt at api/index.js:65 asks for one of twelve kinds (`general`, `google-search`, `youtube-play`, `instagram-open`, …). The code checks the kind of a reply nowhere. Its two fallback paths build an intent of kind `general` themselves:

- `Gemini.ParseFailureFallsBack` covers a reply that does not parse.
- `Gemini.UpstreamFailureYieldsGeneral` covers an upstream call that fails.

On the success path, the parsed reply is returned as it is. Following the code, the model adds no check. `Gemini.SuccessPathKeepsAnyKind` and `Gemini.UncheckedKindReachesClient` show a reply of type `play-music` reaching the client unchanged.

**A fence in the command.** After a failed upstream call, the fence replacement runs over the serialised fallback, command included. Escaping writes no line feed, so inside the command it removes exactly "```json" and "```" (`Gemini.StripTicks`). The intent is still `general` with the apology. The echoed `userInput` loses those runs, though: "a```b" comes back as "ab" (`Gemini.FencedCommandEcho`).

## Model

| member | source | states |
|---|---|---|
| Cookies.ParseEntry | api/index.js:42 | defines one cookie entry: the trimmed piece split at `=`, its key the text before the first `=` and its value, when there is one, the text up to the second `=` |
| Cookies.FromEntries | api/index.js:42 | defines `Object.fromEntries`: the entries entered in order, a later key overriding an earlier one |
| Cookies.CookieMap | api/index.js:42 | defines the cookie object: the header split at `;`, each piece read as an entry, entered in order |
| Cookies.CookieHeader | api/index.js:46-47 | defines the header text both cookie functions write: `token=`, the token, the shared attributes and the Max-Age value |
| Cookies.SetCookieHeader | api/index.js:46 | defines the issuing header: `token=` and the token, then the shared attributes ending in `Max-Age=604800`, seven days in seconds |
| Cookies.ClearCookieHeader | api/index.js:47 | defines the clearing header: an empty token, the same attributes and `Max-Age=0` |
| Cookies.GetTokenFromCookies | api/index.js:40-44 | an absent or empty header gives no token; a token given is non-empty and holds neither `;` nor `=` |
| Cookies.TokenFromLastEntry | api/index.js:42-43 | the token is the value of the last `;`-piece whose key is `token`, or none when that value is missing or empty |
| Cookies.NoTokenEntry | api/index.js:42-43 | a header without a `token` piece gives no token |
| Cookies.CookieValuesClean | api/index.js:42 | every value of the cookie object holds neither `;` nor `=` |
| Cookies.LaterTokenOverrides | api/index.js:42-43 | a `token` entry appended to any header overrides every earlier one |
| Cookies.RequestCookieCarriesToken | api/index.js:40-44 | the cookie `token=t` a browser returns reads as `t` for every well-formed `t` |
| Cookies.CookieHeaderEntries | api/index.js:46-47 | the shared header text yields its token under `token` and its Max-Age value under `Max-Age` |
| Cookies.ClearCookieIsCookieHeader | api/index.js:46-47 | the clearing header is the issuing header's shape with an empty token and Max-Age `0` |
| Cookies.SetCookieRoundTrip | api/index.js:46 | round trip: the issued token is read back unchanged, and the cookie lasts 604800 s, the seven days of the token |
| Cookies.EmptyTokenReadsAsNone | api/index.js:43 | a header with an empty token holds the `token` key, yet reads as no token |
| Cookies.ClearCookieReadsAsNoToken | api/index.js:47 | after logout the header reads as no token and expires at once (Max-Age `0`) |
| Text.Split | api/index.js:42 | defines `split` with a one-character separator: the pieces between the separators, always at least one, empty ones included |
| Text.IsSpace | api/index.js:173 | defines the characters `trim` removes: the JavaScript WhiteSpace and LineTerminator characters |
| Text.Trim | api/index.js:173 | defines `trim`: the leading whitespace removed, then the trailing |
| Text.NatToDecimal | api/index.js:46 | defines how a template literal writes a non-negative integer: decimal digits only, with a leading zero only for zero itself |
| Text.JoinSplit | api/index.js:42 | joining the `split` pieces with the separator gives the text back |
| Text.SplitJoin | api/index.js:42 | splitting a join of separator-free pieces gives the pieces back |
| Text.TrimSpec | api/index.js:173 | `trim` removes exactly the leading and trailing whitespace and keeps the middle |
| Text.DecimalRoundTrip | api/index.js:46 | the decimal numeral written for a number reads back as that number |
| Json.EscapeChar | api/index.js:73 | defines how `JSON.stringify` writes one character of a string: a backslash before `"` and `\\`, the short escapes, `\u00xx` for the other control characters, and the character itself otherwise |
| Json.Escape | api/index.js:73 | defines the escaped body of a string: each character escaped in turn |
| Json.Quote | api/index.js:73 | defines `JSON.stringify` of a string: the escaped body between double quotes |
| Json.Members | api/index.js:73 | defines the members of a flat object: each key and value quoted, joined by `:`, the members separated by commas in insertion order |
| Json.StringifyFlat | api/index.js:73 | defines `JSON.stringify` of an object whose every property is a string: its members between braces, without whitespace |
| Json.ParseFlat | api/index.js:173 | defines the restricted parser: a flat object of string properties written without whitespace, or nothing |
| Json.CharsRoundTrip | api/index.js:73 | a string body written by `JSON.stringify` parses back to the string and leaves what follows |
| Json.MembersRoundTrip | api/index.js:73 | the members of a flat object parse back to its fields entered in order |
| Json.FlatRoundTrip | api/index.js:73 | round trip: the restricted parser reads `JSON.stringify` of a flat object back as that object |
| Json.ParseStringified | api/index.js:173 | given `AgreesWithFlat`, `JSON.parse` of a stringified flat object is that object |
| Gemini.CommandText | api/index.js:66 | defines how the template interpolates the command: its text, or `undefined` when it is absent |
| Gemini.PromptText | api/index.js:64-66 | defines the prompt template: the introduction, the assistant's name, " created by ", the user's name, the reply format with its list of kinds, then the command |
| Gemini.BuildPrompt | api/index.js:64-66 | defines the prompt: the template filled in with the twelve kinds, the two names and the command text |
| Gemini.PromptCarriesInputs | api/index.js:64-66 | the prompt holds the assistant's name and the user's name verbatim at fixed offsets, and ends with the command |
| Gemini.PromptListsKind | api/index.js:65 | each of the twelve kinds occurs in the prompt |
| Gemini.KindListAlternatives | api/index.js:65 | read as bar-separated alternatives, the prompt's list is exactly the twelve kinds |
| Gemini.FallbackFields | api/index.js:73 | defines the catch branch's object before serialisation: `type` "general", then `userInput` when the command is present, then `response` "Sorry, error occurred." |
| Gemini.UpstreamFallback | api/index.js:73 | defines the catch branch's reply: `JSON.stringify` of that object |
| Gemini.GeminiResponse | api/index.js:62-75 | a reply is passed on unchanged; after a failed call, the text parses as a flat object whose JSON value is the `general` intent with the apology, carrying the command exactly when there is one |
| Gemini.StripFences | api/index.js:173 | defines the fence replacement: scanning left to right, "```json" with an optional following line feed, or else "```" with an optional preceding line feed, is removed, and every other character stays |
| Gemini.Unfenced | api/index.js:173 | defines the text `JSON.parse` receives: the reply with its fences replaced, then trimmed |
| Gemini.StripNoFence | api/index.js:173 | the fence replacement leaves text without three backticks in a row unchanged |
| Gemini.UnfencedPlain | api/index.js:173 | on a reply without backticks, `JSON.parse` sees the reply trimmed |
| Gemini.StripWrapped | api/index.js:173 | a reply wrapped in a `json` code fence on lines of its own is stripped to its inside |
| Gemini.EscapeNoFence | api/index.js:73 | `JSON.stringify` creates no fence in a fence-free string |
| Gemini.StringifyNoFence | api/index.js:73 | a stringified flat object with fence-free fields is fence-free and braced |
| Gemini.UnfencedStringified | api/index.js:173 | a stringified flat object with fence-free fields reaches `JSON.parse` unchanged |
| Gemini.GeneralIntent | api/index.js:174 | defines the parse-failure object: `type` "general", the given `response`, and `userInput` exactly when the command is present |
| Gemini.Normalise | api/index.js:172-176 | defines the ask route's normaliser: the parse of the stripped, trimmed reply when it succeeds, and otherwise the `general` intent carrying the command and the raw reply |
| Gemini.GeneralIntentKind | api/index.js:174 | the fallback intent has kind `general` and the response given; it carries `userInput` exactly when a command was sent |
| Gemini.ParseFailureFallsBack | api/index.js:172-174 | when the stripped reply does not parse, the result is the `general` intent with the raw reply |
| Gemini.ProseFallsBack | api/index.js:172-174 | a prose reply falls back to the `general` intent and keeps the reply as it came |
| Gemini.FencedReplyParsed | api/index.js:172-176 | a fenced JSON reply parses as its trimmed inside and is returned unchanged |
| Gemini.FallbackMap | api/index.js:73 | the catch branch's object, entered in order, is the `general` intent with "Sorry, error occurred." |
| Gemini.FallbackRoundTrip | api/index.js:72-74 | for an absent command or one without three backticks in a row, normalising the catch branch's reply gives the very `general` intent it serialised |
| Gemini.StrippedCommand | api/index.js:173 | present exactly when the command is; then it is the command with "```json" and "```" removed, as the stripped catch-branch reply echoes it |
| Gemini.StripTicksNoFence | api/index.js:173 | a string without three backticks in a row loses nothing to the stripping inside a serialised string |
| Gemini.StripEscaped | api/index.js:173 | on an escaped string followed by a closing quote, the fence replacement removes from the string exactly the runs "```json" and "```" |
| Gemini.UnfencedMiddle | api/index.js:173 | stripping a three-member object whose other fields have no backtick changes only the middle value, as `StripTicks` says |
| Gemini.FallbackStripped | api/index.js:173 | the catch branch's reply, stripped and trimmed, is the same serialised object with the command stripped |
| Gemini.StrippedFenceFree | api/index.js:173 | a command without three backticks in a row is echoed unchanged |
| Gemini.FencedCommandEcho | api/index.js:173 | the command "a```b" is echoed as "ab" |
| Gemini.FallbackNormalised | api/index.js:172-174 | for every command, normalising the catch branch's reply gives the `general` intent with "Sorry, error occurred." and the stripped command |
| Gemini.UpstreamFailureYieldsGeneral | api/index.js:170-174 | for every command, a failed upstream call gives the `general` intent with "Sorry, error occurred."; it echoes the command as the stripping leaves it, and unchanged when the command has no three backticks in a row |
| Gemini.SuccessPathKeepsAnyKind | api/index.js:172-176 | a parsed reply keeps whatever `type` it has, one of the twelve or not |
| Gemini.UncheckedKindReachesClient | api/index.js:172-176 | a reply of type `play-music`, not among the twelve kinds, is returned with that type |
| Api.Field | api/index.js:96 | defines reading a body field by destructuring: its value, or nothing when the body lacks it |
| Api.Truthy | api/index.js:97 | defines JavaScript truthiness of a string field: present and non-empty |
| Api.ProfileOf | api/index.js:103 | defines the profile signup and signin answer with: id, name, email, assistant name and assistant image |
| Api.AccountOf | api/index.js:134 | defines the user as `select("-password")` returns it: every stored field except the password hash |
| Api.Updated | api/index.js:153 | defines the merge of `findByIdAndUpdate`: a present assistant name or image replaces the stored one, and an absent one keeps it |
| Api.NewImage | api/index.js:150-151 | defines the image of an update: the upload of `imageBase64` when that is truthy, otherwise `imageUrl` |
| Api.FindByEmail | api/index.js:99 | the first user with the email, or none when no user has it |
| Api.FindById | api/index.js:134 | the first user with the id, or none when no user has it |
| Api.AssistantNameOrDefault | api/index.js:170 | the stored assistant name when truthy, "Assistant" otherwise; never empty |
| Api.RequestPath | api/index.js:90 | defines the path as the text of the URL before its first `?` |
| Api.Authenticate | api/index.js:127-131 | defines the token check of the protected routes: no token gives 401 "Not authenticated", a token the verifier rejects gives 401 "Invalid token", and otherwise the verified id |
| Api.Signup | api/index.js:94-103 | defines the signup route: 400 "All fields required", 400 "User already exists", or a new user appended and answered 201 with the issuing cookie and the profile |
| Api.Signin | api/index.js:107-117 | defines the signin route: 400 "All fields required", 400 "Invalid credentials" for an unknown email or a wrong password, or 200 with the issuing cookie and the profile |
| Api.CurrentUser | api/index.js:126-138 | defines the current-user route: the authentication failure, 404 "User not found", or 200 with the account without its password hash |
| Api.UpdateAssistant | api/index.js:141-155 | defines the update route: the authentication failure, 200 with `null` for an id no user has, or the user with the new assistant name and image, answered 200 with the account |
| Api.AskAssistant | api/index.js:158-177 | defines the ask route: the authentication failure, 404 "User not found", or 200 with the normalised upstream reply to the command |
| Api.Respond | api/index.js:86-184 | defines the handler: a preflight gets 200 with an empty body, the six routes are tried on path and method in the order of the code, and anything else gets 404 "Not found" |
| Api.Server.Handle | api/index.js:86-184 | the response and the new store are those of `Respond` on the old store; the store stays valid |
| Api.Server.SignUp | api/index.js:94-103 | the response and the new store equal the signup route applied to the old store; the store stays valid |
| Api.Server.SignIn | api/index.js:107-117 | the response is the signin route's answer on the current store, which it leaves unchanged |
| Api.Server.GetCurrentUser | api/index.js:126-138 | the response is the current-user route's answer on the current store |
| Api.Server.UpdateAssistantOf | api/index.js:141-155 | the response and the new store equal the update route applied to the old store; the store stays valid |
| Api.Server.AskToAssistant | api/index.js:158-177 | the response is the ask route's answer on the current store |
| Api.SignupKeepsValid | api/index.js:94-104 | signup keeps ids below the counter and ids and emails pairwise distinct |
| Api.UpdateKeepsValid | api/index.js:141-155 | an update keeps ids and emails, so the store stays valid |
| Api.RespondKeepsValid | api/index.js:86-184 | every request leaves a valid store valid |
| Api.PreflightAnswered | api/index.js:88 | a preflight on any path gets 200 with an empty body and changes nothing |
| Api.PathStopsAtQuery | api/index.js:90 | the path is the longest prefix of the URL without `?`, and the whole URL when it has none |
| Api.QueryIgnored | api/index.js:90 | adding a query string never changes the response or the store |
| Api.MissingTokenRejected | api/index.js:127-128 | a protected route without a token answers 401 "Not authenticated" and changes nothing |
| Api.InvalidTokenRejected | api/index.js:130-131 | a protected route whose token the verifier rejects answers 401 "Invalid token" and changes nothing |
| Api.AuthFailureConsultsNothing | api/index.js:126-133 | a failed authentication answers the same whatever the store holds and whatever the other services do |
| Api.UnknownUserNotFound | api/index.js:134-135 | current-user and ask for an id no user has answer 404 "User not found" |
| Api.UnmatchedNotFound | api/index.js:179 | a request matching none of the six routes answers 404 "Not found" and changes nothing |
| Api.MatchedIsRouted | api/index.js:93-177 | a request on one of the six routes is never answered "Not found" |
| Api.SignupNeedsAllFields | api/index.js:96-97 | signup with a missing or empty name, email or password answers 400 and stores nothing |
| Api.SigninNeedsBothFields | api/index.js:109-110 | signin with a missing or empty email or password answers 400 "All fields required" and changes nothing |
| Api.SignupRejectsTakenEmail | api/index.js:99 | signup with an email already stored answers 400 "User already exists" and stores nothing |
| Api.SignupCreatesUser | api/index.js:101-103 | signup appends one user (next id, hashed password, no assistant), answers 201 with its profile and sets the cookie for its token |
| Api.SigninSucceedsIffCredentialsMatch | api/index.js:109-116 | with both fields present, signin never changes the store; it answers 200 exactly when a stored user has the email and the password matches, and otherwise 400 "Invalid credentials" |
| Api.LogoutEndsSession | api/index.js:120-123 | logout answers 200 "Logged out" with the clearing cookie, which reads as no token, and changes nothing |
| Api.SignupThenCurrentUser | api/index.js:101-137 | after signup, a request carrying the issued token reads back the account just created |
| Api.UpdateChangesOnlyAssistant | api/index.js:149-154 | an update sets the uploaded or given image and the given name, keeps every field left out, touches no other user, and answers with the account |
| Api.UpdateOfUnknownUser | api/index.js:153-154 | an update for an id no user has answers 200 with `null` and changes nothing |
| Api.AskAssistantFailsSoft | api/index.js:165-176 | for every command, the ask route turns a failed upstream call into the `general` intent with the apology and the stripped command; a command without three backticks in a row is echoed unchanged |
| Api.AskFailsSoft | api/index.js:158-176 | for every command, a failed upstream call on the ask route answers 200 with that intent and changes nothing; a command without three backticks in a row is echoed unchanged |
| UserContext.ShouldThrottle | frontend/src/context/UserContext.jsx:31-34 | defines the throttle test: less than `MIN_REQUEST_INTERVAL`, 2000 ms, since the last admitted request |
| UserContext.ReplyFor | frontend/src/context/UserContext.jsx:47-75 | defines the reply once the request has completed: the server's data as it came, or a local `error` reply echoing the command, with its own text for status 429 |
| UserContext.ErrorFor | frontend/src/context/UserContext.jsx:45-70 | defines the error shown once the request has completed: none after a delivered reply, the rate-limit message for status 429, and the generic message otherwise |
| UserContext.Throttled | frontend/src/context/UserContext.jsx:34-41 | the throttled reply has kind `error` and echoes the command |
| UserContext.ThrottleBoundary | frontend/src/context/UserContext.jsx:31-34 | a request at last + 1999 is throttled, one at last + 2000 is admitted, and in general exactly those before last + 2000 are throttled |
| UserContext.FirstRequestAdmitted | frontend/src/context/UserContext.jsx:16-17 | with the ref at its initial 0, a request is admitted exactly when the clock reads at least 2000 |
| UserContext.LocalRepliesEchoCommand | frontend/src/context/UserContext.jsx:47-76 | server data is passed through exactly on success; every local reply has kind `error` and echoes the command; an error is shown exactly on failure |
| UserContext.OnlyTooManyRequestsIsRateLimit | frontend/src/context/UserContext.jsx:59-76 | only status 429 is reported as rate limiting; every other failure gets the generic apology |
| UserContext.Session.constructor | frontend/src/context/UserContext.jsx:12-16 | a fresh context is not loading, has no error, and its time ref is 0 |
| UserContext.Session.Begin | frontend/src/context/UserContext.jsx:29-45 | a throttled request changes nothing and returns its reply; an admitted one records the time, raises the loading flag and clears the error before the POST |
| UserContext.Session.Finish | frontend/src/context/UserContext.jsx:47-76 | the loading flag drops; the reply and the error follow the outcome; success leaves the error as it was |
| UserContext.Session.GetGeminiResponse | frontend/src/context/UserContext.jsx:29-77 | throttled: the `error` reply and no state change; admitted: the time ref is `now`, loading is off, and the reply and the error follow the outcome |
| UserContext.RapidResubmission | frontend/src/context/UserContext.jsx:29-45 | a second submission within 2000 ms of an admitted one is throttled whatever happened to the first |
| UserContext.OverlappingSubmission | frontend/src/context/UserContext.jsx:31-53 | a submission while the first POST is in flight is throttled, because the time was recorded before the POST |

## Left out

- Database access (`connectDb`, the cached Mongoose connection) and the schema's timestamps. The store is a sequence of users with a counter standing in for ObjectIds, so `createdAt` and `updatedAt` are not modelled.
- The schema's `required` and `unique` constraints are not modelled as database-level checks. Email uniqueness is kept as the invariant `ValidDb`, which the handler's own lookup maintains.
- JWT signing and verification, and bcrypt hashing and comparison, are parameters (`Env.issue`, `Env.verify`, `Env.hash`, `Env.matches`). Token expiry is therefore the verifier's affair. A payload without `userId` is not modelled: the verifier is taken to give an id or nothing.
- The upstream HTTP call is a parameter (`Env.call`) that either replies with a text or fails. A reply without a `text` field (where `undefined` would be passed on) and request timeouts are not modelled.
- Cloudinary configuration and upload are represented by the parameter `Env.upload`. An upload that throws would end in the generic 500, which is not modelled.
- `JSON.parse` in general is a parameter. Only the restricted parser for flat string objects is defined, and it accepts no whitespace between tokens. Key order in objects and non-string body fields are not modelled.
- Lone surrogate escapes (`\ud800`) are not representable: Dafny's `char` is a Unicode scalar value. The restricted parser rejects them.
- The HTTP serialisation of responses (`res.json`, headers, status line) and `setCors` are not modelled, and neither is logging.
- The generic `catch` that answers 500 "Server error" is not modelled. This includes `findById` failing on a malformed id.
- A request without a JSON body is not modelled as such. There, destructuring `req.body` throws and the answer is 500. In the model a body is a map, so such a request reads as an empty body: 400 on signup and signin, and, once authenticated, 200 on update and ask (the ask route still answers 404 for an id no user has).
- Api.UpdateChangesOnlyAssistant: assumes Mongoose 6 or later, which drops keys whose value is `undefined` in `findByIdAndUpdate`. An absent `assistantName` or image then keeps the stored value, as `Api.Updated` says. No file of this model pins the Mongoose version. An older version that wrote those keys would clear the field instead.
- Concurrency between requests on the server is not modelled, including two signups with the same email racing past the lookup.
- `backend/index.js`, `backend/config/cloudinary.js` and `backend/middlewares/multer.js` are not part of this model: they are the non-serverless variant and its upload middleware.
- In the user context, React state, rendering, `handleCurrentUser` with its `useEffect`, and the other state variables are not modelled. axios is represented by the `CallOutcome` parameter. Between `Begin` and `Finish`, other calls can interleave only as `OverlappingSubmission` shows.
- The code has no defence against prompt injection, so the model does not describe one.
