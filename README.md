# Storefront API handlers, modelled in Dafny

This project models the request-decision logic of three HTTP route handlers
of a demonstration storefront built on Next.js:

- `GET /api/products` (module `Products`, `products.dfy`). It turns the query
  string into a sparse filter record with the members `category`, `search`,
  `minPrice`, `maxPrice` and `featured`, and hands the record to the catalogue
  query. It answers `{ products }`, or 500 with a generic message if the
  query throws.
- `POST /api/auth/login` (module `Login`, `login.dfy`). It requires an email
  and a password. In database mode it asks the database authenticator. It
  falls back to a fixed in-memory user table when there is no database, or
  when the authenticator throws. A user found in the table is returned
  without their password.
- `POST /api/auth/register` (module `Register`, `register.dfy`). It checks, in
  order, that all fields are given and that the password's `length` is at
  least 6. That is 6 UTF-16 code units, so 3 characters beyond the BMP
  already pass. In database mode it then rejects a known email (409) and
  reports a failed creation (500). A thrown database error is 500, with no
  fallback. Without a database it echoes the name and email back.

Every handler is pure: a function from the request, the environment and its
collaborators to a `Response` (a status code and a JSON body).

Shared modules:

- `Js` (`js.dfy`) holds the JavaScript semantics the handlers depend on.
  A request body is a JSON value (`JsValue`), with `Undefined` standing for a
  missing member. The module defines truthiness (the `!x` and `x || undefined`
  tests), strict equality `===`, member access, and `length`, which counts
  UTF-16 code units in a string. It also defines object rest destructuring
  (`const { password: _, ...rest } = user`).
- `Http` (`http.dfy`) holds the parsed request body (`Malformed` when
  `request.json()` rejects), the response and the status codes.
- `Environment` (`environment.dfy`) holds the `USE_DATABASE` predicate over
  the `DB_HOST` variable.

Collaborators whose code is not part of this model are function parameters
returning an `Outcome` (`Returned(value)` or `Threw`): `getPublicProducts`,
`authenticateUser`, `findUserByEmail` and `createUser`. "Not consulted" is
stated as "the response is the same whatever that parameter is".
`Number.parseFloat` is a parameter `string -> N` for any type `N`. The clock
reading `Date.now()` is an `int` parameter. `DB_HOST` is an
`Option<string>` parameter.

Two edge cases follow from the JSON value model. A body that is not JSON
reaches the outer `catch` (500). So does the body `null`, because
destructuring `null` throws.

The catalogue handler does not check prices: `parseFloat(raw)` is passed on
unchecked, so a non-numeric price is never a client error. It reads only the
five keys above, so a `limit` or `strain_type` parameter has no effect
(`Products.PriceBounds`, `Products.IgnoresOtherParams`,
`Products.GetResponse`).

## Model

| member | source | states |
|---|---|---|
| `Js.GetProperty` | app/api/auth/login/route.ts:27 | member access after destructuring: on an object that has the key, the value of the last entry with that key; `undefined` for anything but an object or for a missing key |
| `Js.Length` | app/api/auth/register/route.ts:16 | `password.length`: for a string, between its code-point count and twice that; for an array, its element count; `undefined` for null, booleans and numbers |
| `Js.TruthyString` | app/api/auth/login/route.ts:29-31 | `Js.Truthy` models JavaScript truthiness (`!x`); a string field counts as missing (`!x`) exactly when it is empty |
| `Js.StrictEqualsString` | app/api/auth/login/route.ts:55 | `Js.StrictEquals` models `===`; `x === "s"` holds exactly when `x` is that very string; a number, boolean, null or object never equals it |
| `Js.Member` | app/api/auth/login/route.ts:27 | reading a member of a parsed object: absent exactly when no entry has the key, else the value of the last entry with that key |
| `Js.Utf16LengthBounds` | app/api/auth/register/route.ts:16 | a string's `length` lies between its number of code points and twice that, and equals the number of code points exactly when all lie in the BMP |
| `Js.Without` | app/api/auth/login/route.ts:61 | rest destructuring never grows the object, and every member it keeps is an original member under another key |
| `Js.WithoutMember` | app/api/auth/login/route.ts:61 | after `{ password: _, ...rest }` the dropped key is absent, and every other key has exactly its original value |
| `Environment.UseDatabase` | app/api/auth/login/route.ts:7 | `USE_DATABASE`: on only when `DB_HOST` is set and non-empty, and never for `"localhost"` |
| `Environment.UseDatabaseIff` | app/api/auth/login/route.ts:7 | database mode is on exactly when `DB_HOST` is set, non-empty and not `"localhost"` (the same definition as app/api/auth/register/route.ts:6) |
| `Products.ExtractFilters` | app/api/products/route.ts:10-16 | the `filters` record: `category` and `search` are never `""`, `featured` is never `false`, and a price bound is present only when its parameter is given |
| `Products.Get` | app/api/products/route.ts:6-25 | the handler `GET`: it answers only 200 or 500, and 200 exactly when `getPublicProducts` returns on the extracted filters |
| `Products.SearchParam` | app/api/products/route.ts:11-15 | `searchParams.get(name)` is null exactly when no pair has that name, else the value of the first such pair |
| `Products.FirstOccurrenceWins` | app/api/products/route.ts:11-15 | with a parameter repeated, the first occurrence decides |
| `Products.TextFilters` | app/api/products/route.ts:11-12 | `category` and `search` are absent exactly when the parameter is absent or empty; otherwise they are the parameter unchanged |
| `Products.FeaturedOnlyTrue` | app/api/products/route.ts:15 | `featured` is never `false`; it is `true` exactly when the parameter equals `"true"` |
| `Products.PriceBounds` | app/api/products/route.ts:13-14 | `minPrice` / `maxPrice` are present exactly when the parameter is a non-empty string, and are then `parseFloat` of it, numeric or not |
| `Products.ZeroPriceIsPresent` | app/api/products/route.ts:13 | `?minPrice=0` gives the present bound `parseFloat("0")` |
| `Products.IgnoresOtherParams` | app/api/products/route.ts:10-16 | inserting a parameter other than the five filter keys anywhere in the query leaves the filter record unchanged |
| `Products.GetResponse` | app/api/products/route.ts:18-24 | on success the answer is 200 `{ products }` holding exactly the collaborator's result; if it throws, 500 with the generic message; no other status (no 400 for a bad price) |
| `Products.GetDependsOnlyOnFilters` | app/api/products/route.ts:18 | the catalogue query is consulted only at the filter record built from the query string |
| `Login.PostWith` | app/api/auth/login/route.ts:25-71 | the handler `POST` over a given user table: it answers only 200, 400, 401 or 500, and 500 exactly when the body is not JSON or is `null` |
| `Login.Post` | app/api/auth/login/route.ts:25-71 | the handler over the fixed table (lines 10-23): statuses as above, and without a database a 200 answer carries no `token` |
| `Login.DatabaseLogin` | app/api/auth/login/route.ts:37-47 | the database answer: 200 exactly when the authenticator's result is truthy, else 401 |
| `Login.FallbackLogin` | app/api/auth/login/route.ts:55-66 | the in-memory answer: 200 exactly when `users.find` finds a row, else 401 |
| `Login.Matches` | app/api/auth/login/route.ts:55 | the `find` callback: a match means the request's email and password equal the row's own values; an object or array never matches |
| `Login.Find` | app/api/auth/login/route.ts:55 | `users.find` gives the first row whose email and password are both strictly equal to the request's, and nothing exactly when no row matches |
| `Login.UnreadableBodyIs500` | app/api/auth/login/route.ts:27 | a body that is not JSON, or is `null`, answers 500 with the generic message (lines 67-70) |
| `Login.MissingCredentialsIs400` | app/api/auth/login/route.ts:29-31 | a missing or falsy email or password answers 400, whatever the authenticator and the user table are |
| `Login.EmptyEmailIs400` | app/api/auth/login/route.ts:29-31 | an empty-string email answers 400 |
| `Login.DemoModeIgnoresAuthenticator` | app/api/auth/login/route.ts:33 | outside database mode the answer does not depend on the authenticator |
| `Login.DatabaseFalsyIs401` | app/api/auth/login/route.ts:37-41 | in database mode a falsy authenticator result answers 401 without consulting the table |
| `Login.DatabaseSuccess` | app/api/auth/login/route.ts:43-47 | in database mode a truthy authenticator result answers 200 with the success message and the result's own `user` and `token` |
| `Login.DatabaseThrowFallsBack` | app/api/auth/login/route.ts:48-51 | a thrown authenticator error gives the answer of the in-memory lookup, the same as without a database |
| `Login.FallbackSucceedsIff` | app/api/auth/login/route.ts:55-59 | the fallback answers 200 exactly when some row matches both email and password, and 401 otherwise |
| `Login.FallbackStripsPassword` | app/api/auth/login/route.ts:61-66 | a fallback success returns the matched row with no `password` and every other member unchanged, and the body has no `token` |
| `Login.RecordWithoutPassword` | app/api/auth/login/route.ts:61 | stripping the password from a table row leaves exactly its `id`, `name` and `email`, in that order |
| `Login.RowLogsIn` | app/api/auth/login/route.ts:55-66 | outside database mode, a row that is the first match for non-empty credentials logs in and shows only its `id`, `name` and `email` |
| `Login.MatchesRecord` | app/api/auth/login/route.ts:55 | a table row matches string credentials exactly when both strings equal its own |
| `Login.DemoUserLogsIn` | app/api/auth/login/route.ts:10-16 | `demo@exemplo.com` / `123456` logs in without a database as user 1, "Usuário Demo" |
| `Login.AdminUserLogsIn` | app/api/auth/login/route.ts:17-22 | `admin@sistema.com` / `admin123` logs in without a database as user 2, "Admin Sistema" |
| `Login.WrongPasswordIs401` | app/api/auth/login/route.ts:55-59 | without a database, `demo@exemplo.com` with the admin row's password `admin123` answers 401 |
| `Register.Post` | app/api/auth/register/route.ts:8-53 | the handler `POST`: it answers only 200, 400, 409 or 500, and a body that is not JSON or is `null` gets the generic 500 |
| `Register.Checked` | app/api/auth/register/route.ts:12-48 | the chain after destructuring: 400 exactly when a field is falsy or the password's `length` is below 6, and 409 only in database mode |
| `Register.DatabaseRegister` | app/api/auth/register/route.ts:20-41 | the database branch: 200, 409 or 500; 409 exactly when `findUserByEmail` returns a truthy value; 200 only when both collaborators returned |
| `Register.DemoRegister` | app/api/auth/register/route.ts:44-48 | the demo answer: 200 with the demo message and a user of exactly `id` (the clock reading), `name` and `email` |
| `Register.UnreadableBodyIs500` | app/api/auth/register/route.ts:10 | a body that is not JSON, or is `null`, answers 500 with the generic message (lines 49-52) |
| `Register.MissingFieldIs400` | app/api/auth/register/route.ts:12-14 | a missing or falsy name, email or password answers 400 "Todos os campos são obrigatórios", whatever the database setting, the clock and the collaborators are |
| `Register.EmptyPasswordIsMissing` | app/api/auth/register/route.ts:12-18 | an empty password is reported as missing: the field check comes before the length check |
| `Register.ShortPasswordIs400` | app/api/auth/register/route.ts:16-18 | with name and email given, a non-empty string password of fewer than 6 UTF-16 code units answers 400 with the length message (an empty one is reported as missing) |
| `Register.LongPasswordPasses` | app/api/auth/register/route.ts:16-20 | with name and email given, a string password of 6 or more code units goes on to the database branch in database mode and to the demo branch otherwise |
| `Register.PasswordLengthBoundary` | app/api/auth/register/route.ts:16 | `"123456"` has length 6 (accepted) and `"12345"` length 5 (rejected); three characters beyond the BMP already have length 6 |
| `Register.NonStringPasswordSkipsLengthCheck` | app/api/auth/register/route.ts:16 | a numeric or `true` password has no `length`, so the length check never rejects it |
| `Register.LengthCheckRejects` | app/api/auth/register/route.ts:16 | `password.length < 6` rejects a given password exactly when it is a string of fewer than 6 UTF-16 code units, an array of fewer than 6 elements, or an object whose own `length` is a number below 6, `null` or a boolean; a number or `true` is never rejected; a string, array or object `length` member compares as false in this model |
| `Register.ExistingEmailIs409` | app/api/auth/register/route.ts:24-27 | in database mode a truthy `findUserByEmail` result answers 409, whatever `createUser` is |
| `Register.CreateFalsyIs500` | app/api/auth/register/route.ts:29-32 | in database mode a falsy `createUser` result answers 500 "Erro ao criar usuário" |
| `Register.DatabaseThrowIs500` | app/api/auth/register/route.ts:38-41 | a thrown `findUserByEmail` or `createUser` error answers 500 "Erro no banco de dados", never the demo answer |
| `Register.DatabaseSuccess` | app/api/auth/register/route.ts:34-37 | a database success answers 200 with a user made of exactly the created record's `id`, `name` and `email`, and no password |
| `Register.DemoEchoesNameAndEmail` | app/api/auth/register/route.ts:44-48 | without a database a valid form answers 200 with the demo message and a user of exactly `id` (the clock reading), `name` and `email`, the last two the request's own |
| `Register.FormReachesDatabase` | app/api/auth/register/route.ts:12-24 | in database mode a form with non-empty name and email and a password of 6 or more code units is answered by the database branch |
| `Register.HandlerExistingEmailIs409` | app/api/auth/register/route.ts:24-27 | at the handler: in database mode a valid form whose email `findUserByEmail` finds answers 409 "Este email já está cadastrado" |

## Left out

- The internals of `getPublicProducts`, `authenticateUser`, `findUserByEmail` and `createUser` (`lib/marketplace`, `lib/auth`) are not part of this model. They are parameters returning `Returned(value)` or `Threw`. A failing dynamic `import("@/lib/auth")` counts as its collaborator throwing.
- `Number.parseFloat` is an uninterpreted parameter. NaN and floating-point arithmetic are not modelled, and `Truthy` never meets a NaN.
- `Date.now()` is the `now: int` parameter, and `process.env.DB_HOST` is an `Option<string>` parameter. No other environment is read.
- `new URL(request.url)` is assumed to succeed. The query string is given already percent-decoded, as name/value pairs.
- `NextResponse.json` serialisation is not modelled: headers, and JSON.stringify dropping `undefined` members. `console.error` logging is left out too.
- Js.LessThan: a string, array or object operand compares as false in this model, where JavaScript would convert it to a number first. Only an object password's own `length` member can put such an operand in the length check. So `Register.LengthCheckRejects` accepts an object whose `length` is a string, array or object, which JavaScript might reject.
- `Js.Number` holds the exact value of the number literal. Rounding to a double, overflow to Infinity and underflow to 0 are not modelled. So a field such as `1e-400`, which is 0 and falsy in JavaScript, counts as truthy at app/api/auth/login/route.ts:29 and app/api/auth/register/route.ts:12.
- Js.StrictEquals: arrays and objects are never strictly equal to anything. A value parsed from a request body is a fresh object, so object identity is not modelled.
- Js.GetProperty: reads only an object's own members. Inherited prototype members are not modelled, nor the index members of strings and arrays. None of them is read under the names the handlers use.
- Strings are sequences of Unicode scalar values, so a lone UTF-16 surrogate in a JSON string cannot be represented.
- `app/api/admin/stats/route.ts` (SQL aggregates run concurrently, and an `admin-token` header check) is not part of this model. Neither are the React pages under `app/`.
