# Link shortener core, modelled in Dafny

This project models the part of the link-shortener backend that does real work:

- the **link service**, which creates short links and resolves a short alias to its original URL while counting the redirect;
- the **create-link request schema**, which decides which request bodies reach the service;
- the **error classes**, which carry a message, an HTTP status code and optional details.

The store is modelled as a table of links. Its rows are keyed by a store-assigned id. It has a unique index on `shortAlias` and a unique index on the nullable `alias` column.

## Files

- `wrappers.dfy`: `Option` and `Result`.
- `errors.dfy` (module `Errors`): the error classes as one record `CustomError`, with a `kind` tag naming the subclass that built it. Also the status-code and default-message tables, and one constructor function per class.
- `link_schema.dfy` (module `LinkSchema`): the body schema. `Accepts` is the acceptance predicate and `Parse` gives the typed value the service receives. The URL and ISO 8601 checks belong to the validation library, so they are passed in as uninterpreted predicates `isUrl` and `isDatetime`.
- `link_store.dfy` (module `LinkStore`): the table's value `Db` (rows by id, plus the next id). It holds the ghost specification of the store operations: find by a unique key, insert (checked against both unique indexes), and increment of the click counter. It also holds the class `LinkTable`, which keeps the rows and both indexes and updates them in place. `LinkTable.Valid` ties the indexes to the rows, and `ValidIsConsistent` proves that this gives the uniqueness invariant `Consistent`.
- `link_service.dfy` (module `LinkService`): the candidate-alias generator, plus `CreateOutcome` and `ResolveOutcome`. These give each operation's result and the table's new value as functions of the old value. The methods `CreateShortLink` and `GetOriginalUrl` perform the source's steps against a `LinkTable` and are proved equal to those functions. The lemmas state what the operations guarantee. Two client methods, `CustomAliasScenario` and `RedirectScenario`, restate the end-to-end scenarios as client code checked against these contracts. `CustomAliasScenario` asserts the service's own conflict message, not the one the end-to-end test expects (see the notes below).

Things that are not pure become parameters:

- **Random source.** The generator does `Math.random().toString(36).substring(2, 9)`. It is given the base-36 fraction digits of the random number (`fraction`).
- **Clock.** Resolution takes the current time as an integer `now`.
- **Date parser.** `new Date(expiresAt)` becomes the function parameter `parseDate`.
- **Store failures.** A store failure other than a uniqueness violation is the oracle `fault` on insert.

## Model

| member | source | states |
|---|---|---|
| `Errors.StatusCode` | backend/express/src/utils/errors.util.ts:30-68 | BadRequest, NotFound, Conflict and InternalServer use 400, 404, 409 and 500. Only InternalServer is not a 4xx code. `StatusKind` inverts the table. |
| `Errors.NewCustomError` | backend/express/src/utils/errors.util.ts:13-24 | The base constructor keeps exactly the message, status code and details it is given. |
| `Errors.NewBadRequestError` | backend/express/src/utils/errors.util.ts:30-35 | Status 400, default message "Bad Request", and the details passed in are kept. |
| `Errors.NewNotFoundError` | backend/express/src/utils/errors.util.ts:41-46 | Status 404, default message "Resource Not Found", no details. |
| `Errors.NewConflictError` | backend/express/src/utils/errors.util.ts:52-57 | Status 409, default message "Conflict", no details. |
| `Errors.NewInternalServerError` | backend/express/src/utils/errors.util.ts:63-68 | Status 500, default message "Internal Server Error", no details. |
| `Errors.StatusIdentifiesKind` | backend/express/src/utils/errors.util.ts:28-68 | For a well-formed subclass error, the status code alone tells which subclass built it. |
| `Errors.StatusCodeInjective` | backend/express/src/utils/errors.util.ts:30-68 | No two subclasses share a status code. |
| `Errors.ExplicitMessageWins` | backend/express/src/utils/errors.util.ts:31-64 | For all four subclasses, an explicit message replaces the default. |
| `LinkSchema.Parse` | shared/schemas/link.schema.ts:4-32 | A body parses if and only if all of these hold: `originalUrl` is a non-empty string satisfying the URL check; `alias` is missing, null, or a string of 1 to 20 characters, each a letter, digit, `-` or `_`; `expiresAt` is missing, null, or a string satisfying the date-time check. The parsed value carries those strings, with a missing or null field becoming none. |
| `LinkSchema.AliasPatternIff` | shared/schemas/link.schema.ts:23-26 | `^[a-zA-Z0-9_-]+$` matches exactly the non-empty strings of letters, digits, `-` and `_`. |
| `LinkSchema.AliasAcceptedIff` | shared/schemas/link.schema.ts:18-29 | A string alias is accepted if and only if it has 1 to 20 characters, each a letter, a digit, `-` or `_`. |
| `LinkSchema.NoAliasAccepted` | shared/schemas/link.schema.ts:18-29 | A missing or null alias is accepted. A non-string alias is rejected. |
| `LinkSchema.AcceptedAliasNonEmpty` | shared/schemas/link.schema.ts:21 | An accepted body never hands the service an empty alias string. |
| `LinkStore.FindByShortAlias` | backend/express/src/services/link.service.ts:52-54 | Finds a link exactly when some row has that `shortAlias`. The result is that row, the only one with that key. |
| `LinkStore.FindByAlias` | backend/express/src/services/link.service.ts:18-20 | Finds a link exactly when some row has that `alias`. The result is that row, the only one with that key. |
| `LinkStore.Insert` | backend/express/src/services/link.service.ts:30-38 | With no fault, an insert fails with code P2002 exactly when a unique index would break. A failed insert changes nothing. A successful one adds one row under the next id. |
| `LinkStore.IncrementClickCount` | backend/express/src/services/link.service.ts:64-67 | The counter goes up by exactly 1. No other field, no other row and no id changes. |
| `LinkStore.InsertPreservesConsistent` | backend/express/src/services/link.service.ts:30-38 | Every insert outcome keeps `shortAlias` unique and non-null `alias` unique. |
| `LinkStore.IncrementPreservesConsistent` | backend/express/src/services/link.service.ts:64-67 | Incrementing a counter keeps the table invariant. |
| `LinkStore.LinkTable.ValidIsConsistent` | backend/express/src/services/link.service.ts:18-38 | If both unique indexes match the rows, no two rows share a `shortAlias` or a non-null `alias`. |
| `LinkStore.LinkTable.constructor` | backend/express/src/services/link.service.ts:6 | A new store is valid and empty. |
| `LinkStore.LinkTable.FindUniqueByShortAlias` | backend/express/src/services/link.service.ts:52-54 | An index lookup returns exactly what `FindByShortAlias` specifies. |
| `LinkStore.LinkTable.FindUniqueByAlias` | backend/express/src/services/link.service.ts:18-20 | An index lookup returns exactly what `FindByAlias` specifies. |
| `LinkStore.LinkTable.Create` | backend/express/src/services/link.service.ts:30-38 | The in-place insert keeps both indexes valid. It gives the result and new table that `Insert` specifies. |
| `LinkStore.LinkTable.IncrementClickCountOf` | backend/express/src/services/link.service.ts:64-67 | The in-place increment keeps the indexes valid and leaves the table as `IncrementClickCount` specifies. |
| `LinkService.JsSubstring` | backend/express/src/services/link.service.ts:9 | With in-range ordered indexes, `substring` returns exactly that slice. It is never longer than the string. |
| `LinkService.GenerateUniqueShortAlias` | backend/express/src/services/link.service.ts:8-10 | The candidate has at most 7 characters, all lowercase base-36 digits. It is the first 7 fraction digits, or all of them when there are fewer. |
| `LinkService.CreateShortLink` | backend/express/src/services/link.service.ts:12-49 | Create against the in-place table keeps it valid. It gives the result and new table that `CreateOutcome` specifies. |
| `LinkService.CreateWithTakenAlias` | backend/express/src/services/link.service.ts:17-23 | A custom alias already held as some link's `alias` gives a 409 with the message "The alias '…' is already in use.", and the table is unchanged. |
| `LinkService.CreateWithFreeAlias` | backend/express/src/services/link.service.ts:17-38 | A free custom alias adds exactly one fresh row. Its `shortAlias` and `alias` are that alias, it has the given URL and expiry, and its counter is 0. Existing rows are untouched. |
| `LinkService.CreateWithGeneratedAlias` | backend/express/src/services/link.service.ts:25-36 | With no alias, an unused candidate becomes `shortAlias` and `alias` is null. `expiresAt` is the parsed time for a non-empty string and null otherwise (absent, null or ""). The counter is 0. |
| `LinkService.CreateRefusedByIndex` | backend/express/src/services/link.service.ts:29-45 | After the alias check passes, a row the unique indexes refuse gives a 409 naming the short alias, and nothing is inserted. |
| `LinkService.CustomAliasClashesWithShortAlias` | backend/express/src/services/link.service.ts:17-45 | A custom alias equal to another link's generated `shortAlias` passes the alias check. The insert then refuses it with the "generated short URL … already exists" conflict. |
| `LinkService.CreateStoreFaultPropagates` | backend/express/src/services/link.service.ts:40-48 | Any store error other than P2002 is rethrown unchanged, and nothing is inserted. |
| `LinkService.CreateAllOrNothing` | backend/express/src/services/link.service.ts:12-49 | A failed create leaves the table as it was, and every application error it throws is a 409. A successful create adds one row under a fresh id. That row's `shortAlias` was unused before and is present after, and its counter is 0. |
| `LinkService.CreatePreservesConsistent` | backend/express/src/services/link.service.ts:29-48 | After any create, no two links share a `shortAlias` and no two non-null aliases coincide. |
| `LinkService.CreateKeepsAliasIsShortAlias` | backend/express/src/services/link.service.ts:24-34 | If the service is never handed an empty alias string, every link whose `alias` is set still has `alias` equal to its `shortAlias`. |
| `LinkService.AcceptedBodyChoosesBranch` | backend/express/src/services/link.service.ts:17 | For a schema-accepted body, `if (alias)` takes the custom branch exactly when the body supplied an alias string. The alias is then never the empty string. |
| `LinkService.GetOriginalUrl` | backend/express/src/services/link.service.ts:51-70 | Resolve against the in-place table keeps it valid. It gives the result and new table that `ResolveOutcome` specifies. |
| `LinkService.ResolveUnknown` | backend/express/src/services/link.service.ts:52-58 | An unknown short alias gives a 404 "Short URL not found." and changes nothing. |
| `LinkService.ResolveExpired` | backend/express/src/services/link.service.ts:60-62 | A link whose `expiresAt` is strictly before now gives a 404 "Short URL has expired." Its counter and the whole table are unchanged. |
| `LinkService.ResolveServes` | backend/express/src/services/link.service.ts:60-69 | A link that has not expired is served, even one expiring exactly at now. Resolve returns its `originalUrl` and raises its counter by exactly 1. Every other field, every other link and the id counter are unchanged. |
| `LinkService.ResolveSucceedsIff` | backend/express/src/services/link.service.ts:51-70 | Resolve succeeds if and only if the alias exists and its link has not expired. A failure is a 404 and changes nothing. |
| `LinkService.ResolveKeepsAliasIsShortAlias` | backend/express/src/services/link.service.ts:64-67 | Resolving changes only a counter, so every link whose `alias` is set still has `alias` equal to its `shortAlias`. |
| `LinkService.ResolvePreservesConsistent` | backend/express/src/services/link.service.ts:64-67 | Resolving keeps the uniqueness invariant. |
| `LinkService.CreateThenResolve` | backend/express/src/__tests__/link.e2e.test.ts:53-73 | A link just created without an expiry is served by its short alias and returns its URL. Its counter goes from 0 to 1. |

## Left out

- HTTP plumbing is not part of this model: the controller, the routes, the app and server setup, and the error-handling and request-validation middleware. This includes the `shortUrl` string built from the request's protocol and host.
- The controller imports info, analytics, delete and paginated-list operations. The service defines none of them, so there is nothing to model.
- Click rows and the caller's IP address are not modelled. `getOriginalUrl` ignores the IP address it is passed and writes no Click row. `clickCount` is therefore not claimed to equal a number of clicks. The IP-logging middleware is never registered.
- There is no retry loop. The generator produces one candidate, and a collision surfaces as a conflict at insert time. The "short alias generation" message in `errors.constants.ts` is never thrown. That file is only a lookup table and is not modelled.
- Concurrency is not modelled. The operations are asynchronous and the alias check and the insert can race. The model is sequential; the unique indexes checked at insert cover the outcome of such a race.
- `Math.random()` is a floating-point random source. The model takes the base-36 digits of its fraction as an oracle and does not model how a double is rendered in base 36, for example how many digits there are.
- `new Date(...)` and date comparison become an integer `now` and a `parseDate: string -> int` parameter. An unparsable date string (an Invalid Date) is not modelled.
- The library's URL and ISO 8601 date-time checks are uninterpreted predicates. So is whether a local date-time is allowed. The schema's per-field issue messages are not modelled; only whether a body is accepted is.
- The store's own id generation and its `createdAt` default are not modelled. The Prisma schema is not part of this model. Ids come from a counter, and `createdAt` is absent.
- Store failures on the lookups and on the counter update are not modelled. In the source they would propagate uncaught. `LinkTable.IncrementClickCountOf` requires the row to exist: the service has just read that row, and nothing in a sequential run can delete it.
- `console.error` logging before rethrowing a store error is not modelled.
- An error's details are modelled as entries with an optional `path` and an optional `message`. The further arbitrary keys that `ErrorDetails` allows are not.
- The prototype fix-ups that keep `instanceof` working become the `kind` tag.

## Notes on the source

- A generated candidate is at most 7 characters long, not exactly 7. If the random fraction has fewer than 7 base-36 digits, it is shorter. If `Math.random()` returns 0, the candidate is empty, because `"0".substring(2, 9)` is `""`. `GenerateUniqueShortAlias` states this bound.
- An expired link is a 404 with its own message, "Short URL has expired.", distinct from "Short URL not found.".
- The Conflict message the service throws depends on where the clash is found:
  - the alias check: "The alias '…' is already in use.";
  - the insert: "The generated short URL '…' already exists. …". This includes a custom alias that equals another link's generated `shortAlias`. The alias check looks only at the `alias` column, so this case passes it.

  The end-to-end test expects "Alias is already in use." instead. The model follows the service.
- The stored `alias` column is the input `alias` as given. Only a schema-validated call guarantees that it is never `""`. If it were `""`, `if (alias)` would take the generated branch and still store `alias = ""`. `CreateKeepsAliasIsShortAlias` therefore needs a non-empty alias input.
