# Router reset and request pipeline of the admin client

This project models two parts of a Vue admin client:

- **The router.** It has two route tables. `constantRoutes` is always installed. `asyncRoutes` holds role-gated pages and ends with a catch-all not-found route. `resetRouter` takes every record that has a non-empty name and a non-empty role list back out of the live router (a record with roles but no name stays), and if the router throws while doing so, it reloads the page instead.
- **The request layer** built on axios. It merges each call's config over fixed defaults (`Object.assign`). A request interceptor sets `Authorization: Bearer <token>` from local storage when it runs, which axios does in a microtask after `request` is called (see "Left out"). A response-error interceptor turns the HTTP status into a user message, logs out and reloads on 401, shows one error pop-up and rejects, except for a 400 without a body, which rejects with no pop-up (see below).

Modules:

- `JsValues` (`js_values.dfy`): the JavaScript values the logic depends on, and how they turn into strings.
- `Platform` (`platform.dfy`): the page the code runs in, reduced to a `Host` object. It holds the stored token and an ordered log of effects: logout, reload, error pop-up.
- `RouteTable` (`route_table.dfy`): the two tables as constants. It defines how a table is flattened into live records and, as functions over sequences, what a reset removes, keeps and logs. It holds the lemmas about both.
- `Router` (`router.dfy`): the live router as a class with `getRoutes`, `hasRoute` and `removeRoute`. `resetRouter` is a loop over a snapshot, proved against the `RouteTable` functions.
- `Service` (`service.dfy`): the config merge, the bearer header and the status classifier as functions. The service and its interceptors are a class whose methods update the request, the error object and the host, proved against those functions.

Modelling decisions:

- **Record order.** The model keeps live records in registration order: each definition, then its children. vue-router orders `getRoutes()` by its own path ranking instead, so the order is the model's choice, not the router's (see "Left out").
- **Throwing removals.** The router's `failing` set names the records whose `removeRoute` throws. A throw leaves the table as it was and ends the walk. The page reload that follows is then recorded in the host's effects.
- **Unique names.** The router keeps one record per name, because vue-router replaces a record when another with the same name is added. `LiveRouter.Valid` states this.

Three behaviours of the response-error interceptor worth knowing:

- **400 without a body.** A 400 whose body is `null` or `undefined` throws a `TypeError` while reading `errMsg.message`, before the pop-up. No pop-up is shown, and the rejection is that `TypeError` (`Rejection.TypeError`).
- **Status 505** has its own message, like 500 to 504.
- **401.** The interceptor calls the user store's `logout()` and then reloads. `logout`'s body is not part of this model, so after a 401 the model promises nothing about the stored token.

## Model

| member | source | states |
|---|---|---|
| RouteTable.ConstantRoutes | src/router/index.ts:6-77 | the always-installed table: its six definitions with their paths, names, redirects, roles and children |
| RouteTable.AsyncRoutes | src/router/index.ts:84-176 | the role-gated table: its four definitions, ending with the catch-all |
| RouteTable.CatchAll | src/router/index.ts:168-175 | the catch-all `/:pathMatch(.*)*`, named `ErrorPage`, redirecting to `/404`, hidden and without roles |
| RouteTable.Flatten | src/router/index.ts:6-77 | registration: each definition becomes a record under its joined path, followed by its children's records; at least one record per definition |
| RouteTable.Registered | src/router/index.ts:178-184 | the records a top-level table registers; at least one per definition |
| RouteTable.Gated | src/router/index.ts:192 | the reset condition: a non-empty name and a non-empty role list |
| RouteTable.Ungated | src/router/index.ts:190-195 | the records a reset keeps, in order (characterized by UngatedMembers) |
| RouteTable.GatedNames | src/router/index.ts:192-193 | the names a reset passes to removeRoute, in order (characterized by GatedNamesMembers) |
| RouteTable.RemoveNamed | src/router/index.ts:193 | the effect of removeRoute(name): the records with other names, in order (characterized by RemoveNamedMembers) |
| RouteTable.JoinPath | src/router/index.ts:46-50 | a child path starting with '/' is registered as written; a relative one is registered under its parent's path |
| RouteTable.FlattenConcat | src/router/index.ts:6-77 | registering two tables in turn registers their records in turn |
| RouteTable.RegisteredConstantRoutes | src/router/index.ts:6-77 | the constant table registers exactly the nine records of `ConstantRecords`, listed in registration order (each definition, then its children) |
| RouteTable.RegisteredAsyncRoutes | src/router/index.ts:84-176 | the gated table registers exactly the nine records of `AsyncRecords`, in registration order, the catch-all last |
| RouteTable.ConstantRoutesWellFormed | src/router/index.ts:6-77 | the constant records have distinct names, none is gated, and a reset leaves them all in place |
| RouteTable.AsyncRoutesWellFormed | src/router/index.ts:79-83 | every gated-table record with roles has a non-empty name; names are distinct; a record is removed by reset exactly when it requires SUPER_ADMIN, and kept exactly when it has no roles |
| RouteTable.CatchAllIsLast | src/router/index.ts:168-175 | the catch-all is the last entry of the gated table and the last record registered; it is named `ErrorPage`, has no roles, and is still last after a reset |
| RouteTable.FullInstallUnique | src/router/index.ts:6-176 | with both tables registered, no two records share a name |
| RouteTable.ResetAfterFullInstall | src/router/index.ts:190-195 | with both tables registered, a reset leaves all constant records followed by the gated table's role-less records |
| RouteTable.UngatedMembers | src/router/index.ts:192 | a record survives a reset exactly when it was live and does not have both a non-empty name and a non-empty role list |
| RouteTable.GatedNamesMembers | src/router/index.ts:192-193 | the names a reset removes are exactly the names of the gated records |
| RouteTable.UngatedConcat | src/router/index.ts:190-195 | a reset acts on each record independently, so on a concatenation it acts on each part |
| RouteTable.GatedNamesConcat | src/router/index.ts:190-195 | the removal log of a concatenation is the logs of its parts in order |
| RouteTable.UngatedIdentity | src/router/index.ts:190-195 | a reset leaves a table unchanged exactly when it holds no gated record |
| RouteTable.NoGatedNoNames | src/router/index.ts:192-193 | a table without gated records makes a reset remove nothing, so nothing can throw |
| RouteTable.ResetRemovesAllGated | src/router/index.ts:190-195 | after a successful reset no live record has both a name and a non-empty role list |
| RouteTable.ResetIdempotent | src/router/index.ts:190-195 | a second reset after a successful one removes nothing, cannot throw and leaves the same records |
| RouteTable.UnnamedGatedSurvives | src/router/index.ts:188-192 | a record with roles but without a name is never removed |
| RouteTable.CountNamedZero | src/router/index.ts:193 | no record carries a name exactly when its count is zero |
| RouteTable.RemoveNamedMembers | src/router/index.ts:193 | removing a name keeps exactly the records with other names |
| RouteTable.RemoveNamedUnique | src/router/index.ts:193 | removing a record keeps the names of the rest unique |
| RouteTable.UngatedPrefixUnique | src/router/index.ts:190-195 | dropping gated records from a prefix keeps names unique |
| RouteTable.WalkEnds | src/router/index.ts:190 | the walk starts from the whole snapshot and, after every record, ends where a reset does |
| RouteTable.WalkedToUnique | src/router/index.ts:190-194 | at every point of the walk over a snapshot with unique names, the live records have unique names |
| RouteTable.WalkSkip | src/router/index.ts:192 | passing a record that is not gated changes nothing |
| RouteTable.NextRecordPosition | src/router/index.ts:190-193 | the record the walk visits next is still live, right after the survivors of the records already passed |
| RouteTable.ResetStep | src/router/index.ts:193 | with unique names, removing the next gated record's name removes exactly that record |
| RouteTable.GatedNamesStep | src/router/index.ts:192-193 | the removal log grows by the visited record's name exactly when it is gated |
| RouteTable.RemovalThrowsStep | src/router/index.ts:189-195 | a visited record that does not throw extends the throw-free prefix |
| RouteTable.FirstThrow | src/router/index.ts:189-196 | when some removal throws, it names the first gated record whose removal throws, with no throw before it |
| RouteTable.FirstThrowAt | src/router/index.ts:189-196 | a walk that meets a throwing record without an earlier throw stops exactly there |
| RouteTable.GatedNamesDistinct | src/router/index.ts:193 | with unique names, no name is passed to removeRoute twice |
| Router.LiveRouter.constructor | src/router/index.ts:178-184 | a router created from a table holds that table's records, with unique names and an empty removal log |
| Router.LiveRouter.GetRoutes | src/router/index.ts:190 | getRoutes returns the live records |
| Router.LiveRouter.HasRoute | src/router/index.ts:193 | hasRoute(name) holds exactly when some live record has that name |
| Router.LiveRouter.RemoveRoute | src/router/index.ts:193 | removeRoute logs the name, throws exactly for a failing name, and otherwise removes exactly the record with that name, keeping names unique |
| Router.CreateRouter | src/router/index.ts:178-184 | the application's router starts with only the constant routes and an empty removal log, for any set of failing removals |
| Router.VisitRecord | src/router/index.ts:191-194 | one step of the walk: a gated record is removed, or the step throws, and the state matches the walk functions |
| Router.ResetRouter | src/router/index.ts:187-200 | without a throw the live records become the ungated ones and every gated name was removed, with no reload; on a throw the walk stops at the first throwing record, the page reloads, and nothing reaches the caller |
| Platform.Host.GetToken | src/utils/service.ts:21 | getToken reads the stored token at the moment of the call |
| Platform.Host.Logout | src/utils/service.ts:40 | the logout call is recorded as an effect; the stored token is left unconstrained |
| Platform.Host.Reload | src/router/index.ts:198 | a page reload is recorded as an effect |
| Platform.Host.ShowError | src/utils/service.ts:73 | an error pop-up with the given text is recorded as an effect |
| Platform.ShownCount | src/utils/service.ts:73 | counts the pop-ups in an effect log: zero exactly when there is none |
| JsValues.ReadMessage | src/utils/service.ts:36 | reading `message` throws exactly on undefined and null, gives the property of an object that has it, and undefined otherwise |
| JsValues.ToJsString | src/utils/service.ts:36 | the text `"..." + v` appends: "undefined", "null", "true"/"false", the decimal numeral of a number, a string as is, "[object Object]" for an object |
| JsValues.IntToDecimal | src/utils/service.ts:36 | a number's text is its decimal numeral without leading zeros, with a leading '-' when it is negative |
| JsValues.DecimalRoundTrip | src/utils/service.ts:36 | reading the numeral a number is written as gives the number back |
| Service.Assign | src/utils/service.ts:88 | Object.assign: the keys of both; the source's value for each key it has, the target's for the rest |
| Service.ConfigDefault | src/utils/service.ts:83-87 | the per-call defaults: timeout 5000, the base address, and an empty `data` object |
| Service.MergeConfig | src/utils/service.ts:88 | the caller's config assigned over the defaults (characterized by MergeConfigFields) |
| Service.MergeConfigFields | src/utils/service.ts:83-88 | every caller field is kept as given; omitted `timeout`, `baseURL`, `data` take 5000, the base address and `{}`; no other field appears |
| Service.MergeTimeout | src/utils/service.ts:83-88 | a caller timeout of 10000 gives 10000; no caller timeout gives 5000 |
| Service.MergeExplicitUndefined | src/utils/service.ts:88 | a field the caller sets to undefined still overrides the default |
| Service.MergeConfigIdempotent | src/utils/service.ts:83-88 | merging an already merged config again changes nothing |
| Service.TokenText | src/utils/service.ts:21 | the text `"Bearer " + getToken()` appends: the stored token, or "null" when there is none |
| Service.AuthorizationHeader | src/utils/service.ts:21 | the header is "Bearer " followed by the token text |
| Service.AuthorizationHeaderRoundTrip | src/utils/service.ts:21 | reading the credential back out of the header gives the token text |
| Service.AuthorizationHeaderInjective | src/utils/service.ts:21 | two stored tokens give the same header exactly when they are equal |
| Service.MissingTokenHeader | src/utils/service.ts:21 | without a stored token the header is "Bearer null" |
| Service.FixedMessage | src/utils/service.ts:43-69 | the nine statuses with a fixed message, each with its message; none for any other status |
| Service.Handled | src/utils/service.ts:34-72 | a status the switch has a case for: the numbers 400, 401 and the nine fixed ones, compared strictly |
| Service.HandleResponseError | src/utils/service.ts:30-75 | every failure rejects; a TypeError exactly for a 400 with an undefined or null body; otherwise exactly one pop-up, last, with the final message; logout and reload exactly on 401; an unhandled status keeps its message |
| Service.BadRequestMessage | src/utils/service.ts:35-36 | a 400 gives "请求错误 " followed by the body's `message` as text, or "undefined" for an object without `message` and for a string, number or boolean body |
| Service.ClientErrorMessages | src/utils/service.ts:43-51 | 403, 404 and 408 give their fixed messages |
| Service.ServerErrorMessages | src/utils/service.ts:52-69 | 500 to 505 give their fixed messages |
| Service.FixedMessagesDistinct | src/utils/service.ts:43-69 | no two fixed statuses share a message |
| Service.FixedStatusIgnoresInput | src/utils/service.ts:43-69 | for a fixed status the outcome does not depend on the body or the previous message |
| Service.UnauthorizedSequence | src/utils/service.ts:38-42 | a 401 logs out, then reloads, then shows the unchanged message, and rejects |
| Service.UnhandledStatus | src/utils/service.ts:70-74 | a missing or unlisted status only shows the error's own message, and rejects |
| Service.MessageChangesOnlyWhenHandled | src/utils/service.ts:34-72 | the message changes only for a status with a case other than 401 |
| Service.ResponseStatus | src/utils/service.ts:32 | `get(error, "response.status")`: the response's status, or undefined without a response |
| Service.ResponseData | src/utils/service.ts:33 | `get(error, "response.data")`: the response's body, or undefined without a response |
| Service.HttpService.constructor | src/utils/service.ts:9-17 | the instance defaults are timeout 5000, the base address and withCredentials true |
| Service.HttpService.OnRequest | src/utils/service.ts:19-23 | the interceptor sets Authorization from the token stored now and returns the same request |
| Service.HttpService.OnRequestError | src/utils/service.ts:25 | a failure before sending rejects with the same error |
| Service.HttpService.OnResponse | src/utils/service.ts:29 | a successful response passes through unchanged |
| Service.HttpService.OnResponseError | src/utils/service.ts:30-75 | the error's new message, the effects on the host and the rejection are those of HandleResponseError; on any status other than 401 the stored token is untouched |
| Service.HttpService.Request | src/utils/service.ts:81-90 | the request sent carries the merged config and the header built from the token stored when the interceptor runs, which the model places inside the call of `request` |
| Service.TokenRotation | src/utils/service.ts:19-23 | when the stored token changes after the first request's interceptor has run (for example after an `await`), each request carries the token stored when its interceptor ran |

## Left out

- Route ranking: vue-router orders `getRoutes()` by a path score; the model keeps registration order. Every statement about positions holds for that order only: the record order in RegisteredConstantRoutes, RegisteredAsyncRoutes and ResetAfterFullInstall, the catch-all being last, and, in ResetRouter's throw case, which gated records were already removed when the walk stopped.
- The alias `/:pathMatch(.*)*` of `/404`: vue-router adds it as a second record; it has no name and no roles, so a reset keeps it like `/404` itself.
- Removal of nested children and aliases by `removeRoute`: no gated record in the tables has children, so removing a name removes one record.
- Router.LiveRouter.constructor: requires distinct names instead of modelling vue-router's replacement of a record by a later one with the same name.
- Components, lazy `import()`, history modes and the presentation fields of `meta` (title, icon, affix, alwaysShow): they do not affect which records exist or what a reset removes.
- The role filter that installs gated routes, and the body of the user store's `logout()`: neither is part of the modelled files. Logout is recorded only as an event.
- The body of `getToken` is not part of this model; it is taken to return the stored string, or null when there is none.
- axios itself: the transport, its merge of the instance defaults with each request config, its default headers and the meaning of `withCredentials`.
- The generated API clients `UsersApi`, `RolesApi` and `FilesApi`: thin wrappers over code that is not part of this model.
- Concurrent in-flight requests racing on a 401: only one request or error is handled at a time.
- JavaScript numbers are integers here: no fractions, NaN or exponent notation when a number is turned into text. Arrays and functions do not occur as values.
- Service.TokenRotation and Service.HttpService.Request: the model runs the request interceptor, and so reads the token, inside the call of `request`. axios registers the interceptor without `synchronous: true` and runs it in a later microtask, so `request(a); setToken(x); request(b)` in one synchronous block sends `x` with both. The rotation in TokenRotation stands for a token change made after the first request's interceptor has run, for example after an `await`.
- Promises: an interceptor's result is modelled as its returned value or its rejection, not as an asynchronous settlement.
