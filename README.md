# taxfree — a Dafny model of the card-wallet back end and its sign-in front end

taxfree is a small web application for keeping tax-free shopping cards (bar
codes with merchant, amount, date, note and the person the card belongs to).
It has an Express back end over SQLite (better-sqlite3), a JWT-based sign-in,
and a Vue front end with a Pinia store for the session and a router guard.

This project models in Dafny:

- **`Values`** (`values.dfy`): the JSON reply envelope `{success, data, message}` /
  `{success: false, error}` with its HTTP status; request fields as
  absent / `null` / given; JavaScript truthiness; small string helpers.
- **`Tables`** (`tables.dfy`): the `users` and `cards` tables of the default
  database as classes. Rows are kept in ascending id order. The statement
  methods model INSERT, UPDATE and DELETE, with AUTOINCREMENT ids, NOT NULL and
  UNIQUE constraint errors, and the row counts they report.
- **`CardsController`** (`cards_controller.dfy`): the five card handlers and
  `getOwners`. The WHERE clause and its bound parameters are built the way
  `getCards` builds them. Every read and write touches only the caller's own
  cards.
- **`AuthController`** (`auth_controller.dfy`): the `register` validation chain and
  insert, the outcomes of `login`, `getCurrentUser`, and the `authenticateToken`
  gateway. Bcrypt and JWT are passed in as function parameters.
- **`UserController`** (`user_controller.dfy`): user CRUD, which has no ownership checks and
  stores no passwords.
- **`DatabaseManager`** (`database_manager.dfy`): the registry of open connections and
  the `.db` file listing.
- **`DatabaseController`** (`database_controller.dfy`): listing, creating and deleting
  databases by name.
- **`Router`** (`router.dfy`): the front end's route table and its `beforeEach` guard.
- **`AuthStore`** (`auth_store.dfy`): the front end's session store (`token`, `user`,
  `loading`, `error`) and its mirror in `localStorage`. Each awaited service call
  is a parameter, namely the response or the rejection it ended with.

Points where the model follows the code rather than the stated intent:

- `getOwners` keeps any owner that is not made only of spaces. SQLite's `TRIM`
  removes spaces alone, so an owner made only of tabs is listed.
- A failed insert in `register` (for example a UNIQUE race) gives the generic 500.
- `updateCard` does not translate constraint errors, so they give 500.
- `deleteDatabase` never checks the characters of the name.

## Model

| member | source | states |
|---|---|---|
| Tables.OwnedIndex | backend/src/controllers/cards.controller.js:49-50 | the index found holds a row with that id owned by that user; when there is none, no row has both |
| Tables.UserIndex | backend/src/controllers/user.controller.js:22-24 | the index found holds a row with that id; when there is none, no row has that id |
| Tables.FindByEmail | backend/src/controllers/auth.controller.js:97-98 | a found user is a row with that email; None means no row has the email |
| Tables.CardTable.constructor | backend/src/config/database-manager.js:130-146 | the table starts empty and the next AUTOINCREMENT id is 1 |
| Tables.CardTable.Insert | backend/src/config/database-manager.js:130-146 | a NULL barcode fails NOT NULL; a (barcode, user_id) already present fails UNIQUE; otherwise one row with the next id is appended and that id is reported; a failed insert consumes no id |
| Tables.CardTable.UpdateOwned | backend/src/controllers/cards.controller.js:104-113 | no owned row with that id: 0 changes and nothing altered; otherwise NOT NULL and UNIQUE are checked on that row, and only it is rewritten |
| Tables.CardTable.DeleteOwned | backend/src/controllers/cards.controller.js:133-134 | no owned row with that id: 0 changes; otherwise exactly that row is removed and 1 change is reported |
| Tables.UserTable.constructor | backend/src/config/database-manager.js:99-108 | the table starts empty and the next id is 1 |
| Tables.UserTable.Insert | backend/src/config/database-manager.js:99-108 | a taken email fails UNIQUE and nothing changes; otherwise one row with the next id and the given password is appended |
| Tables.UserTable.Update | backend/src/controllers/user.controller.js:64-69 | no row with that id: 0 changes; a NULL name or email fails NOT NULL; an email held by another row fails UNIQUE; otherwise only that row's name, email and updated_at change |
| Tables.UserTable.Delete | backend/src/controllers/user.controller.js:86-87 | no row with that id: 0 changes; otherwise exactly that row is removed |
| CardsController.OwnRowsAppend | backend/src/controllers/cards.controller.js:8 | selecting one user's cards distributes over concatenation of row sequences |
| CardsController.OwnRowsAppendForeign | backend/src/controllers/cards.controller.js:77-82 | appending another user's card leaves a user's own cards unchanged |
| CardsController.OwnRowsRemoveForeign | backend/src/controllers/cards.controller.js:133-134 | removing another user's card leaves a user's own cards unchanged |
| CardsController.OwnRowsReplaceForeign | backend/src/controllers/cards.controller.js:104-113 | rewriting another user's card leaves a user's own cards unchanged |
| CardsController.JoinIsConjuncts | backend/src/controllers/cards.controller.js:28-30 | `' AND ' + conditions.join(' AND ')` is the same text as prefixing each condition with `' AND '` |
| CardsController.PlaceholdersOfSelect | backend/src/controllers/cards.controller.js:8-9 | the base query has one placeholder, matching the single user-id parameter |
| CardsController.PlaceholdersOfOwner | backend/src/controllers/cards.controller.js:12-15 | the owner condition has one placeholder for its one parameter |
| CardsController.PlaceholdersOfMerchant | backend/src/controllers/cards.controller.js:17-20 | the merchant condition has one placeholder for its one parameter |
| CardsController.PlaceholdersOfSearch | backend/src/controllers/cards.controller.js:22-26 | the search condition has four placeholders for its four parameters |
| CardsController.PlaceholdersOfConjunct | backend/src/controllers/cards.controller.js:29 | the `' AND '` separator adds no placeholders |
| CardsController.PlaceholdersOfFilters | backend/src/controllers/cards.controller.js:12-30 | the appended conditions have exactly as many placeholders as the filter parameters pushed |
| CardsController.ConjunctsAppend | backend/src/controllers/cards.controller.js:28-30 | the joined condition text of two condition lists is the concatenation of their texts |
| CardsController.CollectFilters | backend/src/controllers/cards.controller.js:9-26 | the conditions and parameters collected are the ones of the active filters, in order (owner unless empty or 全部, then merchant, then search as `%term%` four times), after the user id |
| CardsController.BuildCardsQuery | backend/src/controllers/cards.controller.js:8-32 | the query is the base SELECT, the active conditions, then ORDER BY; the first parameter is the caller's id; the query has exactly one `?` per bound parameter |
| CardsController.ListCardsMembers | backend/src/controllers/cards.controller.js:8-35 | a card is listed iff it is a row owned by the caller that passes every active filter |
| CardsController.ListCardsNewestFirst | backend/src/controllers/cards.controller.js:32 | rows stored in ascending id order are listed in descending id order |
| CardsController.GetCards | backend/src/controllers/cards.controller.js:4-42 | a 200 reply whose cards are exactly the caller's matching rows, all owned by the caller, newest first |
| CardsController.GetCardById | backend/src/controllers/cards.controller.js:45-61 | 200 iff some row has that id and belongs to the caller, and then the card is that row; otherwise 404 `Card not found` |
| CardsController.InsertOrdered | backend/src/controllers/cards.controller.js:183 | inserting into an ascending list keeps it ascending, and the members are the old ones plus the new one |
| CardsController.SortDistinct | backend/src/controllers/cards.controller.js:177-183 | `DISTINCT ... ORDER BY`: the result is strictly ascending and has the same members as the input |
| CardsController.StrLessIsStrictOrder | backend/src/controllers/cards.controller.js:183 | the text ordering used by ORDER BY is irreflexive, transitive and total |
| CardsController.OwnerValuesMembers | backend/src/controllers/cards.controller.js:176-187 | an owner value is collected iff some card of the caller has it and it is not blank under TRIM |
| CardsController.GetOwners | backend/src/controllers/cards.controller.js:148-201 | always 200; `[]` when the schema probe fails or lacks a column; otherwise exactly the caller's non-blank owners, strictly ascending |
| CardsController.CreateCard | backend/src/controllers/cards.controller.js:64-95 | 400 without a barcode or owner; 400 `该一维码已存在` for a barcode the caller already has; otherwise 201 with the next id, the fields as sent and the caller's id (never a `user_id` from the body), and the row holds each field `\|\| null`; other users' cards never change |
| CardsController.UpdateCard | backend/src/controllers/cards.controller.js:98-125 | 400 without an owner; 404 when the caller owns no such card; with an unsent or null barcode, or one the caller already has on another card, 500 and nothing changes; otherwise only that card is rewritten, unsent fields becoming NULL; other users' cards never change |
| CardsController.DeleteCard | backend/src/controllers/cards.controller.js:128-145 | 404 when the caller owns no such card; otherwise exactly that card is removed; other users' cards never change |
| CardsController.OwnedCardInOwnRows | backend/src/controllers/cards.controller.js:49-50 | the lookup by id sees only the caller's own cards |
| CardsController.ListCardsInOwnRows | backend/src/controllers/cards.controller.js:8 | the listing sees only the caller's own cards |
| CardsController.OwnerValuesInOwnRows | backend/src/controllers/cards.controller.js:179 | the owner list sees only the caller's own cards |
| CardsController.ReadsDependOnOwnRowsOnly | backend/src/routes/cards.routes.js:15-20 | every card read gives the same reply when the table is cut down to the caller's own cards |
| CardsController.ForeignCardIsInvisible | backend/src/controllers/cards.controller.js:45-61 | removing another user's card changes no reply the caller can get |
| AuthController.EmailPatternMeaning | backend/src/controllers/auth.controller.js:22-28 | `^[^\s@]+@[^\s@]+\.[^\s@]+$` matches iff there is no whitespace, exactly one `@`, a non-empty local part, and a domain with a `.` that has text on both sides |
| AuthController.PatternIsAccepted | backend/src/controllers/auth.controller.js:22 | a string built from the pattern's three segments passes the structural check |
| AuthController.AcceptedMatchesPattern | backend/src/controllers/auth.controller.js:22 | a string passing the structural check can be split into the pattern's segments |
| AuthController.Utf16Length | backend/src/controllers/auth.controller.js:31 | `password.length` counts UTF-16 code units: between one and two per character |
| AuthController.Utf16LengthOfBmp | backend/src/controllers/auth.controller.js:31 | a text without astral characters has one code unit per character |
| AuthController.RegistrationError | backend/src/controllers/auth.controller.js:14-36 | no error iff all three fields are truthy, the email is accepted and the password has at least 6 code units; otherwise the first failing check's message, in the order required, format, length |
| AuthController.SixCharactersSuffice | backend/src/controllers/auth.controller.js:31-36 | with valid fields and a password without astral characters (each one UTF-16 unit), 6 characters pass and 5 get `密码长度至少为6位` |
| AuthController.Register | backend/src/controllers/auth.controller.js:9-81 | a validation error is a 400 with no insert; a registered email is a 400 `该邮箱已被注册`; otherwise one user row holding the hash of the password, never the password itself, and a 201 carrying a token signed over the new id and email with the public user (no password) |
| AuthController.Login | backend/src/controllers/auth.controller.js:84-149 | 400 on a missing field; 401 for an unknown email; 200 only for an existing user with a password that the comparison accepts, with a token signed over that user's id and email; every failure is 400 or 401 |
| AuthController.LoginSucceedsIff | backend/src/controllers/auth.controller.js:96-122 | with unique emails, login succeeds iff the user with that email has a password and the comparison accepts it |
| AuthController.UnknownEmailLooksLikeWrongPassword | backend/src/controllers/auth.controller.js:100-122 | an unknown email and a wrong password give the same reply, `邮箱或密码错误` |
| AuthController.PasswordlessAccountIsReported | backend/src/controllers/auth.controller.js:108-113 | an account without a password gets `该账户未设置密码，请先注册`, not the wrong-credentials reply |
| AuthController.GetCurrentUser | backend/src/controllers/auth.controller.js:152-176 | 200 iff some row has the token's id, and then the profile is that row; otherwise 404 `用户不存在` |
| AuthController.Split | backend/src/controllers/auth.controller.js:181 | `split(' ')` yields at least one part and no part contains the separator |
| AuthController.SplitJoin | backend/src/controllers/auth.controller.js:181 | joining the parts with the separator gives back the header |
| AuthController.SplitAtFirst | backend/src/controllers/auth.controller.js:181 | text before the first separator is the first part, and the rest splits on its own |
| AuthController.ExtractToken | backend/src/controllers/auth.controller.js:180-181 | a token, when found, is a non-empty, space-free part of a present header |
| AuthController.ExtractTokenOfTwoWords | backend/src/controllers/auth.controller.js:181 | `<scheme> <token>`, the form of section 2.1 of RFC 6750, yields the token, whatever the scheme word is |
| AuthController.ExtractTokenWithoutSpace | backend/src/controllers/auth.controller.js:181-183 | a header without a space yields no token |
| AuthController.ExtractTokenDoubleSpace | backend/src/controllers/auth.controller.js:181-183 | two spaces after the scheme leave the second field empty, so there is no token |
| AuthController.Gate | backend/src/controllers/auth.controller.js:179-200 | the request is forwarded iff a token is present and verifies, with the verified claims; otherwise it is rejected, with 401 `未提供认证令牌` exactly when there is no token, and 403 `令牌无效或已过期` when a token is present and `verify` refuses it |
| AuthController.GateOnTwoWords | backend/src/controllers/auth.controller.js:179-200 | a two-word header is forwarded or refused with 403 according to the verifier alone |
| AuthController.Exchange.constructor | backend/src/controllers/auth.controller.js:179 | a fresh request has no user, no `next` call and no reply sent |
| AuthController.AuthenticateToken | backend/src/controllers/auth.controller.js:179-200 | without a token the 401 reply is sent, and for a token `verify` refuses the 403 `令牌无效或已过期` reply; in both cases neither `req.user` nor `next` is touched; otherwise `req.user` is the verified claims, `next` is called exactly once and no reply is sent |
| UserController.Reverse | backend/src/controllers/user.controller.js:6 | the reversed sequence has the same length and the elements in opposite order |
| UserController.GetUsers | backend/src/controllers/user.controller.js:4-13 | 200 with exactly the stored users, newest first |
| UserController.GetUserById | backend/src/controllers/user.controller.js:16-31 | 200 iff some row has that id, and then the user is that row; otherwise 404 `User not found` |
| UserController.UserIndexAppend | backend/src/controllers/user.controller.js:22-24 | an appended row is found by id only when no earlier row has that id |
| UserController.AppendedUserIsFound | backend/src/controllers/user.controller.js:50-51 | a user appended under a fresh id is what the lookup returns for that id |
| UserController.RemovedUserIsGone | backend/src/controllers/user.controller.js:86-91 | with unique ids, a deleted user is no longer found |
| UserController.CreateUser | backend/src/controllers/user.controller.js:34-56 | 400 without a name or email; 400 `Email already exists` for a taken email; otherwise 201 and one row without a password under the next id |
| UserController.UpdateUser | backend/src/controllers/user.controller.js:59-79 | 404 when no such user exists; an unsent or null name or email on an existing user gives 500; 400 for an email held by another user; otherwise only that user's name, email and updated time change |
| UserController.DeleteUser | backend/src/controllers/user.controller.js:82-98 | 404 when no such user exists; otherwise exactly that row is removed |
| DatabaseManager.DbNameOrDefault | backend/src/config/database-manager.js:26 | an omitted name means `taxfree` |
| DatabaseManager.Connection.constructor | backend/src/config/database-manager.js:33-34 | a new connection is open on its database |
| DatabaseManager.Connection.Close | backend/src/config/database-manager.js:82 | a closed connection is no longer open |
| DatabaseManager.Registry.constructor | backend/src/config/database-manager.js:16-19 | at load, the registry holds just the default database |
| DatabaseManager.Registry.GetDatabase | backend/src/config/database-manager.js:26-44 | a cached connection is returned with the registry unchanged; otherwise a fresh open connection is stored under exactly that name; every entry stays open and keyed by its own name |
| DatabaseManager.Registry.CreateDatabase | backend/src/config/database-manager.js:67-72 | get-or-create: the same results as `getDatabase` on that name |
| DatabaseManager.Registry.CreateDatabaseTwice | backend/src/config/database-manager.js:67-72 | creating twice returns the same connection, and the second call changes nothing |
| DatabaseManager.Registry.DeleteDatabase | backend/src/config/database-manager.js:78-84 | the connection under that name, if any, is closed and removed; every other entry stays |
| DatabaseManager.IndexOf | backend/src/config/database-manager.js:59 | `indexOf` finds the first position where the pattern occurs, or there is none |
| DatabaseManager.ListDatabases | backend/src/config/database-manager.js:55-60 | a name is listed iff some file ends in `.db` and the name is that file with its first `.db` removed; there are no more names than files |
| DatabaseManager.ListDatabasesAppend | backend/src/config/database-manager.js:57-59 | listing distributes over concatenation of directory listings |
| DatabaseManager.RemoveOwnExtension | backend/src/config/database-manager.js:59 | the file of a name without `.` ends in `.db` and loses exactly that suffix |
| DatabaseManager.ListsItsOwnName | backend/src/config/database-manager.js:55-60 | such a database's file lists under its own name |
| DatabaseManager.RemovesFirstOccurrenceOnly | backend/src/config/database-manager.js:59 | `a.db.db` lists as `a.db` |
| DatabaseController.ValidNameIsPlain | backend/src/controllers/database.controller.js:28-33 | an accepted name has no `.`, `/`, `\` or whitespace, and its file lists under that name |
| DatabaseController.CreateNameError | backend/src/controllers/database.controller.js:23-33 | no error iff the name is a string matching `^[a-zA-Z0-9_-]+$`; a missing, non-string or empty name is `Database name is required` |
| DatabaseController.GetAllDatabases | backend/src/controllers/database.controller.js:8-16 | 200 with exactly the manager's listing, in directory order; so every accepted name whose file exists is listed, and every listed name comes from a `.db` file |
| DatabaseController.CreateDatabase | backend/src/controllers/database.controller.js:19-45 | a refused name is a 400 and the registry is unchanged; an accepted one is a 201 and is opened (or kept) in the registry |
| DatabaseController.DeleteNameError | backend/src/controllers/database.controller.js:52-62 | only the empty name and `taxfree` are refused |
| DatabaseController.DeleteSkipsTheWhitelist | backend/src/controllers/database.controller.js:48-64 | `../data`, refused on creation, is accepted for deletion |
| DatabaseController.DeleteDatabase | backend/src/controllers/database.controller.js:48-70 | a refused name is a 400 with nothing changed; otherwise 200, the entry removed and its connection closed |
| Router.RouteTableShape | frontend/src/router/index.js:13-60 | `/` redirects to `/cards`; no page is both guest-only and signed-in-only; the guest pages are Login and Register; Cards, Scan, Home, Users and DatabaseViewer need sign-in |
| Router.MatchKey | frontend/src/router/index.js:11-13 | the request path is compared with ASCII letters folded to lower case and one trailing `/` dropped, as the default (not `sensitive`, not `strict`) matcher does |
| Router.Lookup | frontend/src/router/index.js:13-60 | a matched record is in the table and its path equals the request's match key; unmatched means no record's does |
| Router.Resolve | frontend/src/router/index.js:13-60 | an unmatched path has no name and empty meta; a matched page keeps the requested full path and takes that page's name and meta; a named result always carries the meta of the table's page of that name |
| Router.CaseAndTrailingSlashIgnored | frontend/src/router/index.js:11-35 | `/Cards/` resolves to the Cards page, and signed out it goes to Login with `redirect=/Cards/` |
| Router.BeforeEach | frontend/src/router/index.js:64-80 | signed-in-only while signed out goes to Login with `redirect` set to the full path; guest-only while signed in goes to Cards; every other navigation proceeds; exactly one of these |
| Router.RedirectsSettle | frontend/src/router/index.js:64-80 | wherever the guard redirects, the next navigation is allowed, so it never loops |
| Router.RootWhileSignedOut | frontend/src/router/index.js:14-17 | `/` resolves to Cards, and signed out it goes to Login with `redirect=/cards`, which is allowed |
| AuthStore.AuthStore.IsAuthenticated | frontend/src/stores/auth.js:12 | authenticated only with a non-empty token and a user; a null or empty token, or a null user, is not authenticated |
| AuthStore.LocalStorage.GetItem | frontend/src/stores/auth.js:16-17 | a missing key reads as `null`, otherwise the stored text |
| AuthStore.FirstTruthy | frontend/src/stores/auth.js:51 | `a \|\| b \|\| fallback` picks the first truthy text and is never empty |
| AuthStore.FailureText | frontend/src/stores/auth.js:50-56 | the error text is the server's error, then the error message, then the fallback, never empty |
| AuthStore.AuthStore.constructor | frontend/src/stores/auth.js:6-9 | the token starts as the stored token when that is truthy, otherwise null; user and error null; not loading; not authenticated |
| AuthStore.AuthStore.InitAuth | frontend/src/stores/auth.js:15-31 | the token is restored only when one is stored; a stored user that does not parse leaves `user` null; storage is untouched |
| AuthStore.AuthStore.BeginRequest | frontend/src/stores/auth.js:35-36 | while a register or login call is awaited, `loading` is true and `error` is null |
| AuthStore.AuthStore.Settle | frontend/src/stores/auth.js:41-59 | success adopts and stores token and user; failure leaves them and sets `error` to the failure text; the 401/403 interceptor clears storage; `loading` ends false either way |
| AuthStore.AuthStore.Register | frontend/src/stores/auth.js:34-60 | success returns `{success: true}`, stores both keys and authenticates when the token is non-empty; failure returns `{success: false, error}` with the server text or `注册失败`; `loading` ends false |
| AuthStore.AuthStore.Login | frontend/src/stores/auth.js:63-89 | the same as register, with the fallback `登录失败` |
| AuthStore.AuthStore.Logout | frontend/src/stores/auth.js:92-97 | token, user and error become null; both stored keys are removed; no longer authenticated |
| AuthStore.AuthStore.FetchCurrentUser | frontend/src/stores/auth.js:100-116 | nothing happens without a token; a fetched user replaces the stored user; an unsuccessful body changes nothing; a failed request logs out |
| AuthStore.AuthStore.ClearError | frontend/src/stores/auth.js:119-121 | only `error` is cleared |
| AuthStore.LoginThenLogout | frontend/src/stores/auth.js:63-97 | a login followed by logout leaves no session in the store or in storage, whatever the login returned |

## Left out

- Bcrypt hashing and comparison, and JWT signing and verification, are function parameters. Cost factors, token encoding and the `7d` expiry are not modelled.
- AuthController.Register: `hash` is a deterministic function, while bcrypt draws a fresh salt on every call. No proof relies on two hashes of the same password being equal.
- SQL is not parsed. The WHERE clause's text is built and its placeholders are counted, but `LIKE` matching is an uninterpreted relation.
- SQLite type affinity and the coercion of `:id` route parameters from text are left out. Handlers take the id as an integer.
- Request fields are absent, `null` or a value of the expected type. JSON values of other types are left out.
- Card amounts are `real`, not IEEE doubles. `date` and timestamps are opaque values that the caller supplies.
- Engine faults other than NOT NULL and UNIQUE violations are not modelled. These include I/O errors, a locked database and a missing table. The 500 branches for them are not reached.
- CardsController.UpdateCard and UserController.UpdateUser bind the body's fields to anonymous `?` parameters. The model takes better-sqlite3 to bind an unsent (`undefined`) field there as NULL, as it does `null`; the NOT NULL, UNIQUE and 404 outcomes then follow from the table.
- The `updated_at` triggers are modelled as the handler setting `updated_at` to the supplied time.
- `ORDER BY created_at DESC` is modelled as reverse insertion order. Rows inserted with the same timestamp may come back in another order.
- UserController: user.controller.js imports `config/database.js`, which is not part of this model. The `users` table of database-manager.js stands in for it.
- UserController.GetUsers returns every column, password hashes included. This is modelled as written and not flagged.
- The file system is not modelled. This covers creating the data directory, opening and unlinking `.db` files, and `readdirSync` (its listing is a parameter).
- DatabaseController.DeleteDatabase: the model admits names such as `../data` but not the `unlink` of `data/<name>.db` that follows.
- The Express plumbing is not modelled: `req`, `res`, middleware wiring, the route files and the 500 catch-alls around unexpected exceptions. The only routing fact kept is that the card handlers run behind `authenticateToken` and receive the caller's id.
- `db.controller.js`, `init-cards-table.js`, the certificate scripts, `main.js`, the db-viewer service, the cards and users services, and the build configuration are not part of this model.
- Router: query strings and hashes on the requested path, percent-encoding, lazy components, history mode and the navigation itself are left out. `fullPath` is the requested path, or the target of a redirect record.
- AuthStore: a single scalar `loading` cannot show the interval while a call is awaited. That interval is the state `BeginRequest` leaves, and overlapping calls are not modelled.
- AuthStore: `JSON.parse` and `JSON.stringify` are function parameters. The page reload that the 401/403 interceptor starts with `window.location.href = '/login'` is left out.
- AuthStore.AuthStore.InitAuth: when the stored user parses to a non-object truthy value (a number, say), the model has no such value and treats it as `null`.
