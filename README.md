# Ticket API: a verified model of the permission-aware core

This project is a Dafny model of the backend of a small ticket-tracking REST
API. Users register and log in, receive a signed token, and then create,
list, read, update, assign and delete support tickets. Permissions depend on
the caller's role:

- A `consultant` sees and edits only the tickets they created, and edits
  only their title and description.
- A `manager` or `dev` sees every ticket and may also change status,
  priority and category.
- Only a `manager` may delete or assign a ticket.

The model is split by source file:

| module | file | models |
|---|---|---|
| `TicketModel` | `ticket_model.dfy` | the Ticket schema: enumerations, defaults, required and trimmed fields, timestamps |
| `UserModel` | `user_model.dfy` | the User schema: role enumeration and default, trimmed name, lower-cased and pattern-checked e-mail, password length; the document class whose save hook re-hashes only a modified password |
| `AuthMiddleware` | `auth_middleware.dfy` | `protect` (header, then token, then verifier, then identity or 401) and `authorize` (role membership, or 403) |
| `TicketController` | `ticket_controller.dfy` | the seven ticket handlers as methods of a `TicketStore` class over a map from ObjectId to ticket, with their specification functions and lemmas |
| `AuthController` | `auth_controller.dfy` | register, login and "me" as methods of a `UserStore` class over a map from ObjectId to user |
| `TicketRoutes` | `ticket_routes.dfy` | the router built by successive registrations, first-match dispatch, and middleware chains run as Express runs them |

Supporting modules:

- `Options` holds `Option` and `Result`.
- `Http` holds the reply envelope and the store faults that reach a catch block.
- `JsString` holds the JavaScript string operations the code relies on:
  `trim`, `toLowerCase`, `split`, `startsWith`, `length` (in UTF-16 code
  units) and truthiness.
- `ObjectIds` holds the cast of request text to a 24-hex-digit ObjectId.

Things the code relies on but that are outside the model are parameters:

- the token signer and verifier (`Signer`, `Verifier`);
- the password hash and compare functions;
- the generated document id;
- the salt;
- the clock reading `now`;
- for ticket replies, the users collection used to populate references.

A request body or query is a `map<string, string>`; a key that is absent is
`undefined`.

Three behaviours of the code are worth knowing and are kept as written:

- Only the `manager` role may assign a ticket (`backend/routes/ticketRoutes.js`
  line 59); `dev` is refused with 403.
- A schema validation failure answers 500, since every catch block maps an
  error it does not recognise to 500 (for example
  `backend/controllers/ticketController.js` lines 31-36 and 202-205).
- A malformed ticket id answers 404 on get, update and delete, whose catch
  blocks test for an ObjectId cast error (lines 119-124, 195-200, 280-285).
  On assignment it answers 500, because that catch block (lines 244-249)
  has no such test.

## Model

| member | source | states |
|---|---|---|
| TicketModel.ParseStatus | backend/models/Ticket.js:13-17 | a status is accepted exactly when it is the name of one of open, in_progress, resolved, closed |
| TicketModel.ParsePriority | backend/models/Ticket.js:18-22 | a priority is accepted exactly when it is the name of one of low, medium, high |
| TicketModel.ParseCategory | backend/models/Ticket.js:23-27 | a category is accepted exactly when it is the name of one of bug, feature, support, question |
| TicketModel.NewTicket | backend/models/Ticket.js:3-41 | creation succeeds iff every validator accepts (a non-blank title, a description, enum values or defaults, a castable creator, a null or castable assignee); a failure is a validation fault; the record is valid, its title trimmed, its fields as given or defaulted, and both timestamps are `now` |
| TicketModel.DefaultsApply | backend/models/Ticket.js:13-38 | omitted status, priority, category and assignee become open, medium, support and null |
| TicketModel.RequiredTextFields | backend/models/Ticket.js:4-12 | a missing title, a missing description, or an all-whitespace title is a validation failure |
| UserModel.ParseRole | backend/models/User.js:24-28 | a role is accepted exactly when it is the name of one of consultant, manager, dev |
| UserModel.EmailPatternIsRegex | backend/models/User.js:16 | the e-mail check holds iff the address splits into three non-empty whitespace-free runs around an `@` and a later `.`, which is the reading of `^\S+@\S+\.\S+$` |
| UserModel.ValidateUser | backend/models/User.js:5-31 | validation succeeds iff the trimmed name is non-empty, the lower-cased e-mail is non-empty and matches the pattern, the password has at least 6 UTF-16 code units (JavaScript's `length`), and the role is valid or omitted; the record stores the trimmed name and the lower-cased e-mail, and both timestamps are `now` |
| UserModel.PasswordLengthInCodeUnits | backend/models/User.js:21 | the minimum length counts UTF-16 code units: for text within the Basic Multilingual Plane it is the number of characters, and three characters outside it already reach 6 |
| UserModel.RoleDefaultsToConsultant | backend/models/User.js:24-28 | an omitted role becomes consultant |
| UserModel.UserDocument.constructor | backend/controllers/authController.js:29-34 | `User.create` builds a document of the schema that holds the given record, and its password counts as modified |
| UserModel.UserDocument.SetPassword | backend/models/User.js:18-23 | assigning the password path changes only the password and marks it modified |
| UserModel.UserDocument.PreSave | backend/models/User.js:34-40 | the hook replaces the password by its hash with the salt iff the password was modified; nothing else changes |
| UserModel.UserDocument.Save | backend/models/User.js:34-40 | save runs the hook and then clears the modified flag |
| UserModel.SaveTwiceHashesOnce | backend/models/User.js:34-40 | saving an unchanged document a second time keeps the first hash: the password is hashed once |
| UserModel.SaveThenCompare | backend/models/User.js:34-45 | `comparePassword` on a saved document compares the candidate with the hash the save hook stored, never with the plaintext |
| AuthMiddleware.Protect | backend/middleware/auth.js:3-33 | the method's effects (calls to next and responses, in order) equal the decision function `ProtectEffects` |
| AuthMiddleware.ProtectDecision | backend/middleware/auth.js:7-32 | next is called first iff the header starts with "Bearer" and its token verifies, and then with the decoded identity; a header that is missing or not Bearer gives only a 401 "no token" answer; a token that fails verification gives only a 401 "invalid token" answer |
| AuthMiddleware.ExactlyOneOutcome | backend/middleware/auth.js:7-32 | a request has exactly one outcome unless the verifier accepts an undefined or empty token; a verifier that refuses those always gives exactly one outcome |
| AuthMiddleware.BearerHeaderToken | backend/middleware/auth.js:7-10 | the header "Bearer " + t passes the prefix test and yields exactly t as the second space-separated piece, when t has no space |
| AuthMiddleware.Authorize | backend/middleware/auth.js:36-45 | next is called iff the caller's role is listed, and with the same identity; otherwise the answer is 403 with a message naming the role |
| TicketController.Populate | backend/controllers/ticketController.js:66-68 | a reference is populated iff it is set and names a stored user, and then it carries that user's id, name, e-mail and role |
| TicketController.UpdateData | backend/controllers/ticketController.js:164-176 | the update document holds exactly the role's allowed fields that the body defines, with the body's values |
| TicketController.ConsultantUpdateAllowList | backend/controllers/ticketController.js:166-168 | a consultant's update document mentions only title and description, whatever the body holds |
| TicketController.CollectUpdate | backend/controllers/ticketController.js:171-176 | the loop copies exactly the allowed fields the body defines, with their values |
| TicketController.ApplyUpdate | backend/controllers/ticketController.js:179-187 | the validated update is refused iff some given field fails its validator (a blank title, an empty description, a value outside an enumeration); otherwise given fields take the body's values (title trimmed), the other fields, the creator, the assignee and `createdAt` keep their values, `updatedAt` becomes `now`, and validity is preserved |
| TicketController.ApplyUpdateIdempotent | backend/controllers/ticketController.js:179-187 | applying an accepted update document again changes nothing more |
| TicketController.UpdateForbiddenExactly | backend/controllers/ticketController.js:154-160 | an update answers 403 iff a consultant addresses an existing ticket that someone else created, and then the store is unchanged |
| TicketController.UpdateFrame | backend/controllers/ticketController.js:140-207 | an update keeps the set of tickets and changes at most the addressed one; it never changes a creator or an assignee; a consultant's update never changes status, priority or category; a ticket the caller may not access is unchanged |
| TicketController.UpdateIdempotent | backend/controllers/ticketController.js:164-187 | sending the same update twice with the same clock reading leaves the store as the first request left it |
| TicketController.CreateFromCaller | backend/controllers/ticketController.js:13-23 | a created ticket's creator is the caller and it starts open and unassigned; only title, description, priority and category of the body matter; a missing title or description is a validation failure |
| TicketController.BuildFilter | backend/controllers/ticketController.js:52-63 | the filter built field by field equals the list filter: the creator forced to the caller for a consultant, plus each truthy status, priority and category parameter |
| TicketController.ListScoping | backend/controllers/ticketController.js:55-63 | a consultant's filter admits only tickets the consultant created, whatever the query; every filter admits only tickets that the caller's filter with no query parameters also admits |
| TicketController.InsertPosition | backend/controllers/ticketController.js:69 | the insertion point in a newest-first listing comes after every strictly newer entry and before every entry that is not newer |
| TicketController.InsertFacts | backend/controllers/ticketController.js:69 | inserting a new entry keeps a listing newest first and its ids distinct, and adds exactly that entry |
| TicketController.ListingStep | backend/controllers/ticketController.js:66-69 | visiting one more ticket keeps the partial listing complete, distinct and newest first over the tickets visited so far |
| TicketController.StatusCountsSumToSize | backend/controllers/ticketController.js:314-323 | the four per-status counts add up to the number of tickets |
| TicketController.TicketStore.constructor | backend/models/Ticket.js:43 | the ticket collection starts empty and valid |
| TicketController.TicketStore.CreateTicket | backend/controllers/ticketController.js:10-37 | a validation failure answers 500 and adds nothing; a colliding generated id answers 500 and adds nothing; otherwise 201 with the new record, stored under the new id, and nothing else changes |
| TicketController.TicketStore.FindNewestFirst | backend/controllers/ticketController.js:66-69 | the scan returns every matching ticket exactly once, populated, newest first |
| TicketController.TicketStore.GetTickets | backend/controllers/ticketController.js:46-83 | an uncastable creator constraint answers 500; otherwise 200 with a listing of exactly the tickets the filter admits, newest first, whose count is its length |
| TicketController.TicketStore.GetTicket | backend/controllers/ticketController.js:88-131 | a malformed or unknown id answers 404; a consultant whose ticket's creator is no longer a stored user gets 500 (the populated reference is null); a consultant who is not the creator gets 403; otherwise 200 with the populated ticket; the store is not modified |
| TicketController.TicketStore.UpdateTicket | backend/controllers/ticketController.js:140-207 | the new store and the reply are `UpdatedStore` and `UpdateReply` of the old store: 404 for a malformed or unknown id, 403 before any write, 500 when a validator refuses, otherwise 200 with the updated ticket |
| TicketController.TicketStore.FindByIdAndUpdate | backend/controllers/ticketController.js:179-187 | a refused update answers 500 and leaves the store unchanged; an accepted one replaces only the addressed ticket and answers 200 with its new version, populated |
| TicketController.TicketStore.AssignTicket | backend/controllers/ticketController.js:212-250 | a falsy assignee answers 400 before the store is read; a malformed ticket or assignee id answers 500, not 404; an unknown ticket answers 404; otherwise only the assignee (and `updatedAt`) of that ticket change and the reply is 200 with it populated |
| TicketController.TicketStore.DeleteTicket | backend/controllers/ticketController.js:259-292 | a malformed or unknown id answers 404 and removes nothing; otherwise exactly that ticket is removed and the reply echoes the id as the request gave it |
| TicketController.TicketStore.GroupByStatus | backend/controllers/ticketController.js:304-311 | the aggregation has an entry exactly for each status that occurs, holding the number of tickets with that status |
| TicketController.TicketStore.GetStats | backend/controllers/ticketController.js:301-336 | the reply is 200; it has all four status keys; each holds the number of tickets in the whole store with that status, 0 when there are none |
| AuthController.FindByEmail | backend/controllers/authController.js:20 | a lookup by address finds a user iff one has the lower-cased address, and the found user has it |
| AuthController.FindByEmailUnique | backend/controllers/authController.js:73 | with the unique index, the user found for an address is the one that has it |
| AuthController.RegisterOutcome | backend/controllers/authController.js:15-56 | registration is refused as a duplicate iff the address is already stored; it stores a user iff the address is new, validation passes and the generated id is free; every other refusal is a validation or duplicate-key fault |
| AuthController.RegisteredUser | backend/controllers/authController.js:29-34 | a registered user is valid, with the trimmed name, the lower-cased address, the password hashed once with the salt, the requested or default role, and both timestamps `now` |
| AuthController.RegisterPreservesValid | backend/models/User.js:11-17 | registration keeps the users collection valid: canonical keys, valid users, unique addresses |
| AuthController.InsertPreservesValid | backend/models/User.js:14 | a valid user with a fresh id and an address nobody has keeps the collection valid |
| AuthController.LoginDecision | backend/controllers/authController.js:60-110 | a falsy address or password answers 400; otherwise the answer is 200 or 401 "invalid credentials", with the same message for an unknown address and a wrong password; it is 200 iff some stored user has the address and a hash the password matches, and then it carries that user's token and summary |
| AuthController.RegisterThenLogin | backend/controllers/authController.js:29-48 | a user who has just registered, logging in with the same body, gets 200 with the same token and summary the registration returned |
| AuthController.LoginTokenDecodes | backend/controllers/authController.js:5-11 | the token of a successful login, under a verifier that decodes what the signer produced, carries exactly the logged-in user's id, address and role, and the reply's user is that user's summary |
| AuthController.GetMeReply | backend/controllers/authController.js:114-128 | an uncastable token id answers 500; otherwise 200, carrying a user iff the id names one, and then that user's public fields under that id |
| AuthController.RegisteredTokenAuthenticates | backend/controllers/authController.js:5-11 | the token a registration returns, presented as "Bearer <token>" to a verifier that decodes what the signer produced, passes protect with the identity (id, e-mail, role), and GET /me then shows the new user |
| AuthController.UserStore.constructor | backend/models/User.js:47 | the users collection starts empty and valid |
| AuthController.UserStore.Register | backend/controllers/authController.js:15-56 | the collection stays valid; the new collection and the reply are `RegisteredUsers` and `RegisterReply` of the old one: 400 for a known address, 500 for a store refusal, otherwise 201 with the token and summary of the one added user |
| AuthController.UserStore.Login | backend/controllers/authController.js:60-110 | the reply equals `LoginReply` of the collection; the collection is not modified |
| AuthController.UserStore.GetMe | backend/controllers/authController.js:114-128 | the reply equals `GetMeReply` of the collection and the caller |
| TicketRoutes.Router.constructor | backend/routes/ticketRoutes.js:2 | a new router has no routes |
| TicketRoutes.Router.Register | backend/routes/ticketRoutes.js:28-59 | each registration appends exactly one route |
| TicketRoutes.BuildTicketRouter | backend/routes/ticketRoutes.js:28-59 | the registrations produce the seven routes in file order with their middleware chains |
| TicketRoutes.MatchSegments | backend/routes/ticketRoutes.js:46 | a pattern matches iff there is one path piece per segment, a non-empty piece for each parameter and a piece equal up to letter case for each literal; the bound names are exactly the pattern's parameters, each bound to its piece (the last one wins when a name repeats) |
| TicketRoutes.Dispatch | backend/routes/ticketRoutes.js:28-59 | the chosen route applies to the request and binds the returned parameters, and no earlier route applies; no route is chosen only when none applies |
| TicketRoutes.RunChain | backend/routes/ticketRoutes.js:30-59 | a chain always produces an event; any handler called belongs to the chain and gets the bound parameters; behind `protect` (or with a user already set) it is called with a user; the middleware answers only 401 or 403 |
| TicketRoutes.RunEffects | backend/middleware/auth.js:16-18 | every handler reached through `next` of `protect` belongs to the rest of the chain and is called with a user and the bound parameters; if protect answers only 401, every answer is 401 or 403 |
| TicketRoutes.Handle | backend/routes/ticketRoutes.js:28-59 | a request no route takes is passed on; any handler called belongs to the chain of the dispatched route and gets its bound parameters; every answer is 401 or 403 |
| TicketRoutes.DispatchFirst | backend/routes/ticketRoutes.js:28-59 | the first route that applies is the one dispatched to |
| TicketRoutes.ChainShapes | backend/routes/ticketRoutes.js:30-59 | every chain starts with protect and ends with a handler; only deletion and assignment carry a role gate, and that gate is `manager` alone |
| TicketRoutes.StatsShadowsId | backend/routes/ticketRoutes.js:38-48 | GET "/stats" also matches `/:id`, yet it is dispatched to the statistics route because that route is registered first |
| TicketRoutes.MatchId | backend/routes/ticketRoutes.js:46 | "/<id>" binds `id`, with or without a trailing slash, and matches neither the root nor the assignment pattern |
| TicketRoutes.TwoSegmentsNeverMatchId | backend/routes/ticketRoutes.js:46-59 | a path of two non-empty pieces never matches `/:id` |
| TicketRoutes.GetTicketPath | backend/routes/ticketRoutes.js:46-48 | GET "/<id>" reaches the single-ticket handler with that id, unless the id is "stats" in some letter case |
| TicketRoutes.UpdateAndDeletePaths | backend/routes/ticketRoutes.js:46-52 | PUT and DELETE on "/<id>" reach update and deletion with that id |
| TicketRoutes.AssignPath | backend/routes/ticketRoutes.js:59 | PUT "/<id>/assign" reaches assignment, not update, with that id |
| TicketRoutes.HandleProtected | backend/routes/ticketRoutes.js:30-59 | every dispatched request runs protect first, with the rest of the route's chain behind `next` |
| TicketRoutes.GatedEffects | backend/middleware/auth.js:36-45 | behind a role gate, every handler call is made for a user whose role the gate lists, whatever protect decided |
| TicketRoutes.ManagerOnlyReachesGatedHandlers | backend/routes/ticketRoutes.js:52-59 | deletion and assignment are only ever called for a caller whose role is `manager` |
| TicketRoutes.AssignRefusedToOthers | backend/routes/ticketRoutes.js:59 | an authenticated caller whose role is not manager (a `dev` among them) asking to assign gets exactly a 403 naming the role, and the handler is not called |
| TicketRoutes.OpenRoutesReachHandler | backend/routes/ticketRoutes.js:28-50 | list, create, stats, get and update reach their handler for every authenticated caller, whatever the role, with the caller's identity and the bound parameters |
| TicketRoutes.UnauthenticatedRefused | backend/routes/ticketRoutes.js:30-59 | without a Bearer header every route answers exactly 401 "no token" and runs nothing else |
| ObjectIds.Cast | backend/controllers/ticketController.js:119-124 | text casts to an ObjectId iff it is 24 hexadecimal digits, and the result is the canonical lower-case spelling |
| ObjectIds.CastCanonical | backend/controllers/authController.js:116 | a canonical id casts to itself |
| JsString.TrimmedExactly | backend/models/Ticket.js:7 | a trimmed string has no leading or trailing whitespace, and a string equals its trim iff it has none |
| JsString.TrimIdempotent | backend/models/User.js:9 | trimming twice is trimming once |
| JsString.ToLowerIdempotent | backend/models/User.js:15 | lower-casing twice is lower-casing once, and the result holds no upper-case ASCII letter |
| JsString.Utf16Length | backend/models/User.js:21 | JavaScript's length lies between the number of characters and twice that |
| JsString.Utf16LengthOfBmp | backend/models/User.js:21 | within the Basic Multilingual Plane, JavaScript's length is the number of characters |
| JsString.SplitJoin | backend/middleware/auth.js:10 | joining the pieces of a split with the separator gives back the string |
| JsString.SplitAfterFirst | backend/middleware/auth.js:10 | splitting a + sep + b, when a has no separator, gives a followed by the pieces of b |

## Left out

- The database connection, the server bootstrap and environment variables
  (secret, expiry, port, database address) are not modelled; they are I/O
  set-up.
- Token signing, verification and expiry, and password salting, hashing and
  comparison, are function parameters rather than cryptography. A
  verifier that throws is `None`.
- Requests run one at a time. `async`/`await` interleavings are not
  modelled, and neither is a concurrent request removing a ticket between
  the lookup and the write of an update.
- AuthController.UserStore.Register: the race between the address lookup
  and the insert (which the unique index would catch) is not modelled. The
  duplicate-key refusal covers only a generated id that is already used.
- Body and query values are strings. JSON numbers, booleans, arrays,
  objects and `null`, and Mongoose's casting of them, are not modelled.
- AuthController.EmailTaken: an undefined address is taken to match no
  stored user, since every stored user has an address. The exact meaning
  the store gives to an undefined query value is not modelled.
- JsString.ToLower: lower-cases ASCII letters only. Unicode case mapping is
  not modelled, and neither is the case-insensitive matching of route
  paths beyond ASCII.
- ObjectIds.Cast: accepts 24 hexadecimal digits only. The 12-byte-string
  form that the ObjectId constructor also accepts is not modelled.
- Routes: URL decoding, query strings, HEAD and OPTIONS handling, and the
  `/api/tickets` mount point are not modelled. Paths are relative to the
  router.
- The JSON envelope is not modelled: `success` flags, the `_id`/`__v`
  serialization and error message texts of the store's own exceptions. A
  store error is a `Fault` carried by the 500 reply.
- `populate` is a lookup projecting a user to id, name, e-mail and role;
  the password is never projected. A ticket's `assignedTo` is not checked
  against the users collection, as in the code.
- TicketController.TicketStore.FindNewestFirst: tickets with equal
  `createdAt` may come in any order, as the sort leaves their order
  unspecified.
- The aggregation pipeline is modelled by its counting result only
  (`GroupByStatus`).
- The role baked into a token is trusted as it is, as in the code. There is
  no re-check against the stored role.
