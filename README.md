# Deployment dashboard core, modelled in Dafny

This project models the logic behind a small deployment dashboard.

- **The store.** `MemStorage` is an in-memory store with three tables: users, deployments and configurations. Each table is a JavaScript `Map` keyed by a serial id and has its own counter starting at 1.
- **The REST handlers.** For each request they decide the status code (200, 201, 400, 404), the body, and what happens to the store. They also attach a password-free user summary to deployments and compute the `/api/stats` body.
- **The record shapes.** These are the users, deployments and configurations rows, and the `insert*` picks. A pick is the set of fields a caller supplies; the store assigns the rest.
- **The nginx configuration generator script.** It folds `--key=value` arguments into settings with defaults, does the two literal placeholder replacements, and builds a server block with `generateServerBlock`.

Modules, one concept each:

- `Wrappers` (wrappers.dfy): `Option`.
- `OrderedMap` (ordered_map.dfy): a JavaScript `Map` with integer keys.
  - It holds the key/value pairs plus the order in which keys were first set.
  - `values()` iterates in that order.
  - `set` on a present key replaces the value in place; `set` on a new key appends it.
- `Schema` (schema.dfy): the three row types, the three insert types, and how a row is built from an insert.
- `DeploymentOrder` (deployment_order.dfy): the order `getDeployments` returns.
  - The newest-first sort is specified as a stable insertion fold, `SortByTime`.
  - It is implemented as an in-place insertion sort on an `array`.
  - `Limit` models `Array.prototype.slice(0, limit)`.
- `Storage` (storage.dfy): `class MemStorage`.
  - Its fields are the three tables and the three counters.
  - Methods change only the fields they name in `modifies`.
  - The invariant `Valid()` says:
    - every key is below its table's counter;
    - keys are in increasing order, so iteration order is id order;
    - each row carries its own key as its id.
- `Routes` (routes.dfy): the handlers, written as methods over a `MemStorage`; and the pure projections and counts.
- `Strings` (strings.dfy): the JavaScript string operations the script uses:
  - `split` on a one-character separator;
  - `join`;
  - a global `replace` with a literal pattern.
- `Nginx` (nginx.dfy): the generator script.

Inputs that come from outside the program are parameters:

- **Time.** The current time (`new Date()`) is a `now: nat` argument.
- **Path and query numbers.** Each is an `Option<int>`: the result of `parseInt`, or none when it is absent or NaN. NaN never matches a `Map` key.
- **Schema-checked bodies.** Each is an `Option` of the insert record; none stands for a `ZodError`.
- **Single body fields.** A field such as `status` or `content` is a `Field`: missing, a string, or some other JSON value.

## Model

| member | source | states |
|---|---|---|
| OrderedMap.Empty | server/storage.ts:36-38 | `new Map()` satisfies the map invariant and iterates over nothing |
| OrderedMap.Get | server/storage.ts:128-130 | `get` finds a value exactly when the key is stored, and it is the stored value |
| OrderedMap.Values | server/storage.ts:148 | `Array.from(values())` has one element per key, in key order, and each is that key's value |
| OrderedMap.Set | server/storage.ts:142 | after `set(k, v)`, `get(k)` is `v`, every other key reads as before, and the invariant holds |
| OrderedMap.SetAbsentAppends | server/storage.ts:172 | setting a new key appends its value at the end of the iteration |
| OrderedMap.SetPresentReplaces | server/storage.ts:181 | setting a present key keeps the key order and changes only that key's slot in the iteration |
| Schema.NewUser | shared/schema.ts:33-38 | the row built from an insert has exactly the insert's picked fields plus the given id |
| Schema.NewDeployment | shared/schema.ts:40-46 | the row built from an insert has exactly the picked fields (name, buildNumber, status, environment, deployedBy), plus the id and `deployedAt` the store assigns |
| Schema.NewConfiguration | shared/schema.ts:48-53 | the row built from an insert has exactly the picked fields, and `createdAt == updatedAt == now` |
| Schema.DeploymentSplit | shared/schema.ts:13-21 | a deployment row is its picked fields plus `id` and `deployedAt`; nothing else is dropped by the pick |
| Schema.ConfigurationSplit | shared/schema.ts:23-31 | a configuration row with equal timestamps is its picked fields plus `id` and the timestamp |
| Schema.UserSplit | shared/schema.ts:5-11 | a user row is its picked fields plus `id` |
| DeploymentOrder.InsertByTimePermutes | server/storage.ts:150-155 | one step of the insertion sort adds the element and keeps every other (multiset) |
| DeploymentOrder.InsertByTimeSorted | server/storage.ts:150-155 | one step of the insertion sort keeps a newest-first list newest first |
| DeploymentOrder.SortByTime | server/storage.ts:150-155 | the sorted list is ordered by non-increasing `deployedAt` and is a permutation of the input |
| DeploymentOrder.InsertByTimeStable | server/storage.ts:150-155 | an inserted element goes at the end of its own time group, and every group keeps its order |
| DeploymentOrder.SortByTimeStable | server/storage.ts:150-155 | stability: for every time, the deployments made at that time keep their input order in the sorted list |
| DeploymentOrder.SliceEnd | server/storage.ts:158 | the end index of `slice(0, end)`: a non-negative end is capped at the length; a negative end counts back from the length, stopping at 0 |
| DeploymentOrder.Limit | server/storage.ts:157-161 | the result is a prefix; an absent limit or 0 keeps everything; a positive limit keeps min(limit, count); a negative one drops that many from the end; a newest-first list stays newest first |
| DeploymentOrder.InsertInPlace | server/storage.ts:150-155 | moving `a[i]` left past the older elements leaves `a[..i+1]` equal to the insertion step, with the rest of the array unchanged |
| DeploymentOrder.SortNewestFirst | server/storage.ts:148-155 | the in-place sort leaves the array equal to `SortByTime` of its old contents |
| Storage.FirstWithUsername | server/storage.ts:133-135 | `find`: none exactly when no user has the name; otherwise the user at the earliest index with that name |
| Storage.FirstWithName | server/storage.ts:191-193 | `find`: none exactly when no configuration has the name; otherwise the one at the earliest index with that name |
| Storage.WithConfigType | server/storage.ts:197-199 | `filter`: exactly the configurations of the type, never more than the input |
| Storage.WithConfigTypeAppend | server/storage.ts:197-199 | filtering a concatenation filters each part, so the filter keeps list order |
| Storage.MemStorage.constructor | server/storage.ts:35-125 | a fresh store is valid, with counters 2/4/3, the admin user as id 1, the nginx and angular configurations as ids 1-2, and the three sample deployments as ids 1-3 |
| Storage.MemStorage.SeedUsers | server/storage.ts:43-49 | seeding the admin user gives a one-row user table |
| Storage.MemStorage.SeedConfigurations | server/storage.ts:51-98 | seeding gives the nginx configuration as id 1 and the angular one as id 2, created by user 1 |
| Storage.MemStorage.SeedDeployments | server/storage.ts:101-124 | seeding gives production (458, successful), staging (457, successful) and development (456, failed) as ids 1-3 |
| Storage.MemStorage.GetUser | server/storage.ts:128-130 | `getUser` is the map lookup; a user found has that id and is in the user list; read-only |
| Storage.MemStorage.GetUserByUsername | server/storage.ts:132-136 | the first user in insertion order with the username, or none; read-only |
| Storage.MemStorage.CreateUser | server/storage.ts:138-144 | the new user is the insert plus the old counter as id; the counter rises by 1; every older key is below the new id; the table is `set(id, user)`; the user list gains the user at the end |
| Storage.MemStorage.GetDeployments | server/storage.ts:147-162 | every stored deployment, newest first with ties in insertion order, then cut by the limit; read-only |
| Storage.MemStorage.GetDeployment | server/storage.ts:164-166 | `getDeployment` is the map lookup; a deployment found has that id and is in the list; read-only |
| Storage.MemStorage.CreateDeployment | server/storage.ts:168-174 | the new row is the insert plus the old counter as id and `deployedAt = now`; the counter rises by 1; older keys are below the new id; the table is `set(id, row)`, so the row is then found under its id and other entries are unchanged; the list gains the row at the end |
| Storage.MemStorage.UpdateDeploymentStatus | server/storage.ts:176-183 | unknown id: none and the table is unchanged; known id: the old row with only `status` replaced, stored in its old place in the iteration |
| Storage.MemStorage.GetConfigurations | server/storage.ts:186-188 | all configurations in insertion order; read-only |
| Storage.MemStorage.GetConfigurationByName | server/storage.ts:190-194 | the first configuration in insertion order with the name, or none; read-only |
| Storage.MemStorage.GetConfigurationByType | server/storage.ts:196-200 | exactly the configurations of the type, in insertion order; read-only |
| Storage.MemStorage.CreateConfiguration | server/storage.ts:202-213 | the new row is the insert plus the old counter as id and `createdAt == updatedAt == now`; the counter rises by 1; the table is `set(id, row)`; the list gains the row at the end |
| Storage.MemStorage.UpdateConfiguration | server/storage.ts:215-226 | unknown id: none and no change; known id: the old row with only `content` and `updatedAt` replaced, in its old place in the iteration |
| Storage.MemStorage.DeploymentIdsIncrease | server/storage.ts:168-174 | in a valid store, deployment ids strictly increase along the iteration order and each row is stored under its own id |
| Routes.SummaryHidesPassword | server/routes.ts:58-63 | the user summary is `{id, username, email, fullName}` and does not depend on the password |
| Routes.Enrich | server/routes.ts:51-64 | every deployment field is copied; `deployedBy` becomes the user's summary exactly when it is set, non-zero and names a stored user, and is undefined otherwise |
| Routes.RequiredText | server/routes.ts:95-97 | `!x \|\| typeof x !== "string"` passes exactly a non-empty string |
| Routes.CountStatus | server/routes.ts:194-195 | `filter(status === s).length` is at most the list length, and 0 exactly when no deployment has the status |
| Routes.CountsDisjoint | server/routes.ts:194-195 | the counts for two different statuses add up to at most the total, since no deployment is counted twice |
| Routes.CountStatusSorted | server/routes.ts:192-195 | sorting newest first does not change any status count |
| Routes.NewestFirstHead | server/routes.ts:203 | the head of the sorted list is a stored deployment at least as new as every other |
| Routes.StatsOf | server/routes.ts:192-214 | `successfulDeployments` and `failedDeployments` are the counts of "successful" and "failed", which sum to at most the total; `avgBuildTime` is "3m 42s"; a last time is given exactly when the list is non-empty, and it is that of its first element |
| Routes.ListDeployments | server/routes.ts:9-39 | 200 with one entry per element of the limited newest-first list, in that order, each enriched with its user summary |
| Routes.GetDeploymentById | server/routes.ts:42-69 | 404 "Deployment not found" exactly when the id is NaN or not stored; otherwise 200 with the enriched deployment |
| Routes.PostDeployment | server/routes.ts:72-87 | schema failure: 400 "Invalid deployment data" and the store unchanged; otherwise 201 with the created row, appended to the list |
| Routes.PatchDeploymentStatus | server/routes.ts:90-110 | missing, empty or non-string status: 400 and no change; then unknown id: 404 and no change; otherwise 200 with the row whose status alone changed, stored in place |
| Routes.ListConfigurations | server/routes.ts:113-129 | 200 with exactly the configurations of the type when a non-empty type is given, otherwise all of them |
| Routes.GetConfigurationNamed | server/routes.ts:132-146 | 404 "Configuration not found" exactly when no configuration has the name; when one has it, 200 with the first one in insertion order |
| Routes.PostConfiguration | server/routes.ts:149-164 | schema failure: 400 "Invalid configuration data" and no change; otherwise 201 with the created row, appended to the list |
| Routes.PatchConfiguration | server/routes.ts:167-187 | missing, empty or non-string content: 400 and no change; then unknown id: 404 and no change; otherwise 200 with content and `updatedAt` replaced, in place |
| Routes.GetStats | server/routes.ts:190-219 | 200; the counts of "successful" and "failed" over all stored deployments; "3m 42s"; a last time exactly when there are deployments, namely the newest stored time |
| Strings.Split | angular-app-example/scripts/nginx-config-generator.js:18 | `split` gives at least one piece and no piece contains the separator |
| Strings.SplitHead | angular-app-example/scripts/nginx-config-generator.js:18 | the first piece is the text before the first separator; the remaining pieces split what follows it |
| Strings.SplitOnePiece | angular-app-example/scripts/nginx-config-generator.js:18 | there is a second piece exactly when the separator occurs |
| Strings.SplitSecondPiece | angular-app-example/scripts/nginx-config-generator.js:18 | the second piece runs from just after the first separator to the next separator or the end |
| Strings.JoinSplit | angular-app-example/scripts/nginx-config-generator.js:76 | joining the pieces of a split with the separator gives back the string |
| Strings.SplitJoin | angular-app-example/scripts/nginx-config-generator.js:76 | splitting a join of separator-free pieces gives back the pieces |
| Strings.ReplaceAllSelf | angular-app-example/scripts/nginx-config-generator.js:40 | replacing a pattern by itself changes nothing (so the default domain leaves the template as it is) |
| Strings.ReplaceAllAbsent | angular-app-example/scripts/nginx-config-generator.js:40-41 | without an occurrence of the pattern, the replacement changes nothing |
| Strings.ReplaceAllFront | angular-app-example/scripts/nginx-config-generator.js:40-41 | an occurrence at the front is replaced and the scan resumes after it, so matches never overlap |
| Nginx.StripDashes | angular-app-example/scripts/nginx-config-generator.js:18 | one leading `--` is removed when present; otherwise the argument is unchanged |
| Nginx.ArgKeyBeforeFirstEquals | angular-app-example/scripts/nginx-config-generator.js:18 | the key is the stripped argument up to its first `=`, or all of it |
| Nginx.ArgValueBetweenEquals | angular-app-example/scripts/nginx-config-generator.js:18 | the value is undefined exactly when there is no `=`; otherwise it is the text between the first `=` and the next one or the end, so text after a second `=` is dropped |
| Nginx.FoldKeys | angular-app-example/scripts/nginx-config-generator.js:17-21 | the folded object has a key exactly for the keys of the arguments |
| Nginx.FoldLastWins | angular-app-example/scripts/nginx-config-generator.js:17-21 | under each key the folded object holds the value of the last argument with that key |
| Nginx.ParseArgs | angular-app-example/scripts/nginx-config-generator.js:17-21 | the `reduce` loop yields the fold of the parsed arguments, in argument order |
| Nginx.ValueOr | angular-app-example/scripts/nginx-config-generator.js:24-28 | `args[key] \|\| fallback` is the given value unless it is missing, undefined or empty |
| Nginx.SettingsOf | angular-app-example/scripts/nginx-config-generator.js:24-28 | the defaults are env "dev", domain "example.com", api "http://api:8080" and output "./nginx.conf"; SSL is off exactly when `ssl` is "false" |
| Nginx.NoArgumentsDefaults | angular-app-example/scripts/nginx-config-generator.js:24-28 | with no arguments every setting takes its default and SSL is on |
| Nginx.TemplateName | angular-app-example/scripts/nginx-config-generator.js:31 | the template file name is "nginx-" + env + ".conf" |
| Nginx.Render | angular-app-example/scripts/nginx-config-generator.js:40-41 | every `example.com` becomes the domain, then every `http://api-backend:8080` becomes the API URL; with the default domain the first step is the identity; a template with neither comes back unchanged |
| Nginx.IndentAll | angular-app-example/scripts/nginx-config-generator.js:76 | the map keeps the number of lines and puts eight spaces before each |
| Nginx.IndentEveryLine | angular-app-example/scripts/nginx-config-generator.js:76 | splitting the indented config gives back exactly the indented lines, so every config line is indented by eight spaces |
| Nginx.ConcatMapAppend | angular-app-example/scripts/nginx-config-generator.js:74-80 | the location blocks of a concatenation are those of each part, in order |
| Nginx.ConcatMapCons | angular-app-example/scripts/nginx-config-generator.js:74-80 | the blocks of a list start with the block of its first location |
| Nginx.ServerBlockShape | angular-app-example/scripts/nginx-config-generator.js:62-84 | a server block starts with the `server {` / `listen 80` / `server_name` / `root` / `index` head, then the first location's block, then the rest in order, and ends with "}\n" |
| Nginx.GenerateServerBlock | angular-app-example/scripts/nginx-config-generator.js:62-84 | the `+=` loop yields the head, one `location <path> { … }` block per location in input order, and the closing "}\n" |

## Left out

- Express plumbing (`app.get`, `req`/`res`, `createServer`), `async`/`Promise.all`, and the 500 paths behind every `try`/`catch`. These are I/O and error reporting around a store that cannot throw.
- The zod schema check is not modelled. A body either already parsed into the insert record or failed (none). What zod accepts is not part of this model.
- The `errors` array of the 400 replies is not part of this model.
- `Storage.MemStorage.constructor`: every seeded row gets the same clock reading `now`. The source reads `new Date()` once per `create*` call, so the seed timestamps may differ there.
- `toLocaleString` is not modelled. The stats give the newest time as a number, and its display string is left abstract.
- Parsing of ids and limits (`parseInt`) is not modelled. The handlers receive its result as an `Option<int>`, with none for NaN.
- The regular-expression SSL commenting in the generator script (lines 44-55) is left out. Its meaning rests on regex matching, and the model does not include a regex engine.
- The `$` patterns in JavaScript replacement strings are not modelled. The model reads a domain or API URL containing `$` literally.
- In the argument `reduce`, a key such as `__proto__`, which a plain JavaScript object treats specially, is modelled as an ordinary map key.
- File I/O in the generator script is not modelled: `existsSync`, `readFileSync`, `writeFileSync`, `process.exit` and `console`. `Render` takes the template text as a parameter.
- `TemplateName`: the directory part of the template path (`path.join(__dirname, '..', …)`) is not modelled.
- The declared uniqueness of usernames and configuration names is not an invariant of the model. The in-memory store never enforces it, which is why the lookups are "first match".
- The React and Angular user interface, the client API wrapper, the contact form and the end-to-end tests are not part of this model.
