# contentful-migrate: migration-state store, rewrite bootstrap, `up` argument check, proxy parsing

This project models the part of contentful-migrate that records which
migration scripts have been applied to each content type of a Contentful
space.

- `lib/store.js` keeps, for every content type, one entry of the content type
  `migration`. Its `state` field holds the applied part of the content
  type's migration history under the space's default locale.
- A store is built by a factory (`createStoreFactory`). The factory first
  resolves the default locale and then fills a process-wide cache with one
  bulk query. The locale and the cache are module-level variables shared by
  every store.
- A store saves a history in one of three ways:
  - it deletes the entry when nothing in the history is applied;
  - it creates the entry when its query finds none;
  - otherwise it overwrites the state of the first entry found.
- A store loads only from the cache.
- `lib/bootstrap/rewriteMigration.js` adopts existing content types: for each
  file it force-writes a history holding that one script as applied.
- `bin/commands/up.js` (lines 74-85) checks the combination of `--all`,
  `--content-type` and `[file]`.
- `bin/util/proxy.js` turns a proxy setting into the host and port of an
  HTTPS proxy agent.

Modules:

- `Wrappers`: `Option`, `Result` and `Outcome`.
- `MigrationState`: records, sets, and the projection `createStateFrom` /
  `isSetEmpty`. These are pure functions.
- `Remote`: the Contentful environment the client talks to. It is a class
  over a sequence of entries in listing order with distinct ids, plus the
  locale list, a `reachable` flag and a ghost log of calls. Every call fails
  when `reachable` is false.
- `Store`: the module variables (class `StoreGlobals`), the factory, and
  `ContentfulStore` (class `Store`).
  - Its methods change the environment and the globals in place.
  - Each is proved against a specification function: `DeleteEffect` or
    `WriteEffect` for writes, `CacheOf` for the cache reduce, `ResolveLocale`
    for the locale.
- `StoreProperties`: the branches of a write, what each leaves untouched,
  idempotence, and what a cache built afterwards loads.
- `Rewrite`: the loop of writes of `rewriteMigration`. It is proved against
  the fold `RewriteEffect`.
- `UpCommand`: the argument check of `up`.
- `Proxy`: `parseAuth`, `proxyStringToObject` and `proxyToHttpsAgent`.

JavaScript semantics the model spells out:

- `m.timestamp` counts only when it is present and not `0`. A falsy locale
  or file name counts as absent.
- `obj[undefined]` reads the property named `"undefined"` (`LocaleKey`,
  `KeyOf`).
- `split(':')` always yields at least one piece. Proxy parsing keeps the
  first two pieces.
- `startsWith('http')` decides whether `http://` is prepended.

Deleting a state that is not there is an error in this code:
`deleteState` fetches the entry by id with `getEntry` (`lib/store.js:104`),
which rejects when no entry has that id, and the rejection reaches the `save`
callback. `DeleteEffect` fails with `NotFound` in that case, and
`StoreProperties.EmptyWriteTwiceFails` proves that a second empty save after a
successful one fails.

## Model

| member | source | states |
|---|---|---|
| MigrationState.Applied | lib/store.js:88 | the filter keeps exactly the records with a truthy timestamp, never more records than it was given, and no record more often than the input holds it |
| MigrationState.AppliedAppend | lib/store.js:88 | filtering a concatenation is the concatenation of the filtered parts, so the kept records stay in their original order |
| MigrationState.AppliedKeepsApplied | lib/store.js:88 | a list of applied records passes the filter unchanged |
| MigrationState.AppliedIdempotent | lib/store.js:88 | filtering twice is filtering once |
| MigrationState.AppliedEmptyIff | lib/store.js:98 | the filter is empty exactly when no record is applied |
| MigrationState.CreateStateFrom | lib/store.js:87-95 | the stored state has exactly the store's locale as key, keeps `lastRun`, and holds a record exactly when the set holds it and it is applied |
| MigrationState.IsSetEmpty | lib/store.js:97-99 | true exactly when no record of the set is applied |
| MigrationState.IsSetEmptyMeansEmptyProjection | lib/store.js:87-99 | `isSetEmpty` holds exactly when the projection `createStateFrom` would write has no records |
| MigrationState.PendingOnlyIsEmpty | lib/store.js:97-99 | a set whose records all lack a timestamp is empty, however many records it has |
| MigrationState.ProjectionIdempotent | lib/store.js:87-95 | projecting an already projected state changes nothing |
| Remote.Matching | lib/store.js:82 | a query selects exactly the entries of its content type whose `contentTypeId` holds the filter value, keeping their listing order |
| Remote.MatchingFirst | lib/store.js:126 | an entry that matches, with no match before it, is `items[0]` of the query |
| Remote.MatchingFirstIndex | lib/store.js:126 | `items[0]` of a non-empty query sits at a position with no matching entry before it |
| Remote.MatchingAppend | lib/store.js:62 | querying two listings one after the other lists the matches of the first, then those of the second |
| Remote.Lookup | lib/store.js:7-10 | a page has at most `limit` items, in order from the start of the matches, and `total` counts every match |
| Remote.IndexOfId | lib/store.js:104 | the position found holds the id, with no earlier entry holding it; none is found exactly when no entry has the id |
| Remote.IndexOfIdDistinct | lib/store.js:104 | with distinct ids, fetching an entry's id finds that entry |
| Remote.Environment.GetLocales | lib/store.js:18 | yields the locale list when reachable, otherwise rejects; logs the call |
| Remote.Environment.GetEntries | lib/store.js:62 | yields the page the query selects when reachable, otherwise rejects; logs the call |
| Remote.Environment.GetEntry | lib/store.js:104 | yields the entry with the id whatever its content type, rejects with not-found when there is none and with unreachable when the environment is down; logs the call |
| Remote.Environment.CreateEntryWithId | lib/store.js:119-124 | appends the new entry, or rejects when the id is taken or the environment is unreachable; ids stay distinct |
| Remote.Environment.Update | lib/store.js:127-128 | replaces the stored entry with the same id in place, or rejects when it is gone; ids stay distinct |
| Remote.Environment.Delete | lib/store.js:105 | removes the stored entry with the same id, or rejects when it is gone; ids stay distinct |
| Store.StoreQuery | lib/store.js:82 | a store queries the `migration` content type, one page of 1000, filtered by its own content type |
| Store.CacheOfKeys | lib/store.js:63-67 | the cache has a key exactly for the `contentTypeId` (under the default locale) of some fetched entry |
| Store.CacheOfLast | lib/store.js:63-67 | a key holds the state of the last entry with that key, so a later entry overwrites an earlier one |
| Store.ReduceEntries | lib/store.js:63-67 | the reduce loop builds the fold `CacheOf` of the items, whose keys are exactly the items' keys |
| Store.FindDefault | lib/store.js:19-20 | the code of the first locale flagged default, or none exactly when no locale is flagged |
| Store.ResolveLocale | lib/store.js:157 | a truthy locale is kept; otherwise an unreachable environment fails, a reachable one fails exactly when no locale is the default, and otherwise yields the code of the first default locale |
| Store.GetDefaultLocale | lib/store.js:14-21 | fetches the locales once and yields what `ResolveLocale` gives for an unset locale |
| Store.StoreGlobals.constructor | lib/store.js:5-12 | a process starts with no cache and no default locale |
| Store.StoreGlobals.InitializeStoreStates | lib/store.js:54-69 | an existing cache is returned without any query; otherwise one bulk query builds `CacheOf` of its page under the default locale and stores it, and an unreachable environment leaves the cache unset |
| Store.StoreGlobals.CreateStoreFactory | lib/store.js:154-166 | resolves the locale only when it is falsy, then builds the cache only when it is unset; a locale failure aborts before the cache, and the call log is the locale fetch followed by the bulk query, each only when needed |
| Store.StoreFactory.constructor | lib/store.js:160-165 | the factory keeps the connection settings and dry-run flag it was built with |
| Store.StoreFactory.NewStore | lib/store.js:161-164 | a new store shares the factory's client, settings and globals, and takes the process-wide default locale |
| Store.Store.constructor | lib/store.js:72-85 | a store keeps its settings and its query, and uses the locale passed when it is truthy, else the default locale |
| Store.Store.DeleteState | lib/store.js:101-106 | follows `DeleteEffect`: fetch by id, then delete; a missing entry rejects |
| Store.Store.WriteState | lib/store.js:108-130 | follows `WriteEffect`: delete when the set is empty; otherwise query, then create when nothing is found or update the first item |
| Store.Store.Save | lib/store.js:132-139 | a dry run calls back with no error and touches nothing; otherwise the write is made and the callback receives its error exactly when it fails; the cache is never refreshed |
| Store.Store.Load | lib/store.js:141-147 | yields the cached state of the store's content type, `{}` when the cache has none, and fails exactly when the cache was never built |
| StoreProperties.EmptyWriteOnlyDeletes | lib/store.js:101-111 | an empty set only fetches by id and deletes; it succeeds exactly when the entry with the content type's id exists, and then removes exactly that entry |
| StoreProperties.EmptyWriteLeavesNoEntry | lib/store.js:101-111 | after a successful empty write no entry has the content type as id |
| StoreProperties.EmptyWriteTwiceFails | lib/store.js:101-111 | a second empty write after a successful one rejects with not-found |
| StoreProperties.NoMatchCreates | lib/store.js:114-125 | with no match the store creates one entry keyed by the content type, holding the projection, or fails with a conflict and changes nothing when that id is taken |
| StoreProperties.MatchUpdatesFirst | lib/store.js:114-128 | with a match, only the state of the first listed match changes; nothing is created |
| StoreProperties.WriteKeepsIdsDistinct | lib/store.js:108-130 | no write creates a duplicate id |
| StoreProperties.WriteThenFirstMatchHolds | lib/store.js:108-130 | after a successful non-empty write the store's query lists first an entry holding the projection |
| StoreProperties.NonEmptyWriteIdempotent | lib/store.js:108-130 | saving the same non-empty set again is an update that changes nothing, never a second create |
| StoreProperties.CreatedStateIsLoaded | lib/store.js:117-124 | after a create, a cache built afterwards holds the applied records and `lastRun` of the saved set for that content type |
| StoreProperties.DeletedStateIsNotLoaded | lib/store.js:101-106 | after a successful delete, a cache built afterwards has no key for the content type, so a load yields `{}` |
| Rewrite.SyntheticSet | lib/bootstrap/rewriteMigration.js:10-17 | the set written for a file holds one applied record titled with the file name, `lastRun` is the file name, and the set is never empty |
| Rewrite.NonEmptyWriteNeverDeletes | lib/bootstrap/rewriteMigration.js:18-19 | a write of a non-empty set never deletes and never removes an entry |
| Rewrite.RewriteNeverDeletes | lib/bootstrap/rewriteMigration.js:8-21 | the whole rewrite never fetches by id or deletes, and no entry disappears |
| Rewrite.RewriteKeepsIdsDistinct | lib/bootstrap/rewriteMigration.js:8-21 | the rewrite keeps entry ids distinct |
| Rewrite.RewriteFailureSticks | lib/bootstrap/rewriteMigration.js:8-21 | once one file's write has failed, the rewrite as a whole fails |
| Rewrite.SyntheticWriteReplacesHistory | lib/bootstrap/rewriteMigration.js:10-19 | after a successful write of a file's set, the entry the store finds first holds only that file's record, whatever it held before |
| Rewrite.RewriteEffectStep | lib/bootstrap/rewriteMigration.js:8-21 | one more file adds its write to the effect of the files before it |
| Rewrite.WriteFile | lib/bootstrap/rewriteMigration.js:9-19 | a new store for the file's content type writes the file's set, as `WriteEffect` specifies |
| Rewrite.WriteFiles | lib/bootstrap/rewriteMigration.js:8-21 | every file is written in turn, with entries, call log and outcome as `RewriteEffect` specifies |
| Rewrite.RewriteMigration | lib/bootstrap/rewriteMigration.js:5-22 | a locale failure aborts after the locale fetch with globals unchanged; a cache failure aborts after the bulk query with the cache still unset; otherwise the writes follow `RewriteEffect` after the calls the factory needed, the default locale is the resolved one, and the cache is the one built from the entries before any write (a later load in the process does not see the rewrite) |
| UpCommand.CheckArguments | bin/commands/up.js:74-85 | accepted exactly when either `--all` is given with no content type and no file, or no `--all` with some content type; each refusal carries the message of the first failing test |
| Proxy.Split | bin/util/proxy.js:7 | splitting yields at least one piece and no piece holds the separator |
| Proxy.JoinSplit | bin/util/proxy.js:7 | joining the pieces of a split gives back the string |
| Proxy.SplitJoin | bin/util/proxy.js:7 | splitting the join of separator-free pieces gives back the pieces |
| Proxy.SplitPrefixFree | bin/util/proxy.js:7 | a separator-free prefix only extends the first piece |
| Proxy.SplitHead | bin/util/proxy.js:7 | the first piece runs up to the first separator; the rest are the split of what follows it |
| Proxy.ParseAuth | bin/util/proxy.js:5-9 | the user name is the text before the first `:`; the password is the text between the first and second `:`, absent exactly when there is no `:` |
| Proxy.ParseAuthFalsy | bin/util/proxy.js:6-8 | a missing or empty auth string gives an empty user name and no password |
| Proxy.ParseAuthRoundTrip | bin/util/proxy.js:5-9 | `user:password` parses back into the two parts |
| Proxy.WithScheme | bin/util/proxy.js:11-14 | the parsed string starts with `http`: the input when it already does, else the input behind `http://` |
| Proxy.ProxyStringToObject | bin/util/proxy.js:11-37 | host and port come from the parsed URL, `isHttps` holds exactly for protocol `https:`, and auth is absent exactly when the user name is empty |
| Proxy.ProxyRetriedOnce | bin/util/proxy.js:11-14 | the `http://` retry happens at most once |
| Proxy.ProxyToHttpsAgent | bin/util/proxy.js:39-46 | there is no agent exactly when the setting is unset or empty; otherwise the agent gets the parsed host and port |

## Left out

- `initSpace` and `ContentfulStore.init` (`lib/store.js:23-52`, 149-151) are left out. They provision the `migration` content type by running a migration through `run`, which is not part of this model.
- The Contentful management SDK is not modelled, apart from the calls the store makes: `createClient`, `getSpace` and `getEnvironment` are folded into the `Environment` the client reaches. A rejection is `Unreachable`, `NotFound` or `Conflict`.
- The `fields.contentTypeId` filter is taken to match an entry whose field holds the value under any locale.
- `url.parse`, lodash `toInteger` and `new HttpsProxyAgent` are foreign code. `parse` is a function parameter that yields the hostname, the integer port, the auth text and the protocol. The agent is the `{ host, port }` it is given.
- Rewrite.WriteFiles: `Promise.all` starts every write at once; the model makes them one after the other, in file order. The first failure is the first by file order, not the first to settle. With two files of the same content type, the concurrent code may create twice and see a conflict; the model creates and then updates.
- Rewrite.SyntheticSet: every `Date.now()` of one rewrite is the one positive parameter `now`.
- The `log` calls after each write and the CLI wiring around `rewriteMigration` and `up` (yargs, the handler) are left out, because they only print or dispatch.
- Store.Store.Save: if the callback itself throws after a successful write, the code calls it a second time with that error. The model has no exceptions from the callback.
- Store.Store.Load: a content type named like an `Object.prototype` member (`constructor`, `toString`) would read an inherited property in JavaScript. The cache is modelled as a plain map without such keys.
- Store.StoreGlobals.InitializeStoreStates: migration entries are assumed to carry both the `contentTypeId` and the `state` field. An entry missing either makes the reduce throw a `TypeError`, which rejects `initializeStoreStates` and `createStoreFactory`; the model cannot represent a missing field (an absent locale inside a field is modelled) and builds the cache instead.
- The bulk query reads only the first page of 1000 entries, as the code does. Entries beyond it are never cached.
- Store.Store.Load: when the cache was never built, `cachedState[this.contentTypeID]` throws a `TypeError` and the callback is never called; the model returns `CacheUnset` instead of an exception.
- `lastRun` and titles are strings and a timestamp is an optional integer, because the engine's other value shapes do not affect the store.
- Remote.Environment: the order of entries in a listing is the order of the sequence. Contentful's default ordering is not modelled beyond being fixed.
