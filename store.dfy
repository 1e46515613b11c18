/** `lib/store.js`: the per-content-type migration-state store, the
    process-wide cache and default locale it shares with every other store,
    and the factory that fills both before handing out stores.

    The remote calls go to an `Environment`; what a write does to it is
    specified by the functions `DeleteEffect` and `WriteEffect`, which the
    methods of `Store` are proved against. */
module Store {
  import opened Wrappers
  import opened MigrationState
  import opened Remote
  import Proxy

  /** The content type that holds migration state. */
  const MigrationContentType := "migration"

  /** The page size of every `getEntries` query the store makes. */
  const PageLimit := 1000

  /** The bulk query that fills the cache: every migration entry (first page). */
  const AllMigrations := Query(MigrationContentType, PageLimit, None)

  /** A store's own query: the migration entries whose `contentTypeId` field
      holds its content type. */
  function StoreQuery(contentTypeId: string): (q: Query)
    ensures q.contentType == MigrationContentType && q.limit == PageLimit
    ensures q.contentTypeId == Some(contentTypeId)
  {
    Query(MigrationContentType, PageLimit, Some(contentTypeId))
  }

  /** The cache: content type to the state stored for it under the default
      locale (`None` where the entry has no value under that locale). */
  type Cache = map<string, Option<MigrationSet>>

  /** Why building a factory fails. */
  datatype StoreError = RemoteFailure(error: RemoteError) | NoDefaultLocale

  /** What `load` ends in: its callback receives a stored state or the empty
      object `{}`; when the cache was never built the lookup throws a
      `TypeError` before the callback is called (`CacheUnset`). */
  datatype LoadResult = Loaded(state: MigrationSet) | LoadedEmpty | CacheUnset

  /** What a sequence of remote calls did: how it settled, the entries
      afterwards and the calls it made. */
  datatype Effect = Effect(outcome: Outcome<RemoteError>, entries: seq<Entry>, calls: seq<Call>)

  /** JavaScript truthiness of an optional string. */
  predicate Truthy(s: Option<string>) {
    s.Some? && s.value != ""
  }

  /** The property name a locale stands for: JavaScript turns an undefined
      key into the name "undefined". */
  function LocaleKey(locale: Option<string>): string {
    if locale.Some? then locale.value else "undefined"
  }

  /** `entry.fields.contentTypeId[locale]` used as a property name. */
  function KeyOf(e: Entry, locale: string): string {
    if locale in e.contentTypeId then e.contentTypeId[locale] else "undefined"
  }

  /** `entry.fields.state[locale]`. */
  function StateOf(e: Entry, locale: string): Option<MigrationSet> {
    if locale in e.state then Some(e.state[locale]) else None
  }

  /** The reduce of `initializeStoreStates`: each item in turn sets its key. */
  function CacheOf(items: seq<Entry>, locale: string): Cache {
    if items == [] then map[]
    else
      var last := items[|items| - 1];
      CacheOf(items[..|items| - 1], locale)[KeyOf(last, locale) := StateOf(last, locale)]
  }

  /** The cache has a key exactly for the keys of the items. */
  lemma {:induction false} CacheOfKeys(items: seq<Entry>, locale: string, k: string)
    ensures k in CacheOf(items, locale) <==> exists i :: 0 <= i < |items| && KeyOf(items[i], locale) == k
  {
    if items != [] {
      var n := |items| - 1;
      var front := items[..n];
      CacheOfKeys(front, locale, k);
      if k in CacheOf(front, locale) {
        var i :| 0 <= i < n && KeyOf(front[i], locale) == k;
        assert KeyOf(items[i], locale) == k;
      }
      if exists i :: 0 <= i < |items| && KeyOf(items[i], locale) == k {
        var i :| 0 <= i < |items| && KeyOf(items[i], locale) == k;
        if i < n {
          assert KeyOf(front[i], locale) == k;
        }
      }
    }
  }

  /** Each key holds the state of the LAST item with that key: a later entry
      overwrites an earlier one. */
  lemma {:induction false} CacheOfLast(items: seq<Entry>, locale: string, i: nat)
    requires i < |items|
    requires forall j :: i < j < |items| ==> KeyOf(items[j], locale) != KeyOf(items[i], locale)
    ensures KeyOf(items[i], locale) in CacheOf(items, locale)
    ensures CacheOf(items, locale)[KeyOf(items[i], locale)] == StateOf(items[i], locale)
  {
    var n := |items| - 1;
    if i < n {
      var front := items[..n];
      assert front[i] == items[i];
      assert forall j :: i < j < n ==> front[j] == items[j];
      CacheOfLast(front, locale, i);
    }
  }

  /** The reduce itself, written as the loop it performs on its accumulator. */
  method ReduceEntries(items: seq<Entry>, locale: string) returns (acc: Cache)
    ensures acc == CacheOf(items, locale)
    ensures forall k :: k in acc <==> exists i :: 0 <= i < |items| && KeyOf(items[i], locale) == k
  {
    acc := map[];
    for i := 0 to |items|
      invariant acc == CacheOf(items[..i], locale)
    {
      assert items[..i + 1][..i] == items[..i];
      acc := acc[KeyOf(items[i], locale) := StateOf(items[i], locale)];
    }
    assert items[..|items|] == items;
    forall k
      ensures k in acc <==> exists i :: 0 <= i < |items| && KeyOf(items[i], locale) == k
    {
      CacheOfKeys(items, locale, k);
    }
  }

  /** `response.items.find(l => l.default)`, then its `code`. */
  function FindDefault(locales: seq<LocaleInfo>): (r: Option<string>)
    ensures r.None? <==> forall i :: 0 <= i < |locales| ==> !locales[i].isDefault
    ensures r.Some? ==> exists i :: (0 <= i < |locales| && locales[i].isDefault && locales[i].code == r.value
                                     && forall j :: 0 <= j < i ==> !locales[j].isDefault)
  {
    if locales == [] then None
    else if locales[0].isDefault then Some(locales[0].code)
    else
      var r := FindDefault(locales[1..]);
      assert forall i :: 1 <= i < |locales| ==> locales[i] == locales[1..][i - 1];
      r
  }

  /** `defaultSpaceLocale || await getDefaultLocale(...)`: the locale the
      factory ends up with, or why it fails. A falsy locale (unset or empty)
      is fetched again. */
  function ResolveLocale(current: Option<string>, reachable: bool, locales: seq<LocaleInfo>): (r: Result<string, StoreError>)
    ensures Truthy(current) ==> r == Success(current.value)
    ensures !Truthy(current) && !reachable ==> r == Failure(RemoteFailure(Unreachable))
    ensures !Truthy(current) && reachable ==>
      (r == Failure(NoDefaultLocale) <==> forall i :: 0 <= i < |locales| ==> !locales[i].isDefault)
    ensures !Truthy(current) && reachable && FindDefault(locales).Some? ==> r == Success(FindDefault(locales).value)
  {
    if Truthy(current) then Success(current.value)
    else if !reachable then Failure(RemoteFailure(Unreachable))
    else match FindDefault(locales)
      case None => Failure(NoDefaultLocale)
      case Some(code) => Success(code)
  }

  /** `getDefaultLocale`: fetch the locales and pick the default one. */
  method GetDefaultLocale(env: Environment) returns (r: Result<string, StoreError>)
    modifies env`calls
    ensures env.calls == old(env.calls) + [GetLocalesCall]
    ensures r == ResolveLocale(None, env.reachable, env.locales)
  {
    var response := env.GetLocales();
    if response.Failure? {
      return Failure(RemoteFailure(response.error));
    }
    match FindDefault(response.value)
    case None => r := Failure(NoDefaultLocale);
    case Some(code) => r := Success(code);
  }

  /** The entry `createEntryWithId` makes for a content type: its id is the
      content type itself. */
  function NewEntry(contentTypeId: string, locale: string, s: MigrationSet): Entry {
    Entry(contentTypeId, MigrationContentType, map[locale := contentTypeId], CreateStateFrom(locale, s))
  }

  /** `deleteState`: fetch the entry whose id is the content type, then
      delete it. A missing entry is an error like any other. */
  function DeleteEffect(entries: seq<Entry>, reachable: bool, id: string): Effect {
    if !reachable then Effect(Fail(Unreachable), entries, [GetEntryCall(id)])
    else match IndexOfId(entries, id)
      case None => Effect(Fail(NotFound(id)), entries, [GetEntryCall(id)])
      case Some(i) => Effect(Pass, entries[..i] + entries[i + 1..], [GetEntryCall(id), DeleteCall(id)])
  }

  /** `writeState(set)`: delete when nothing of the set is applied; otherwise
      query by `fields.contentTypeId`, create the entry when the query finds
      none, or overwrite the state of the first entry found. */
  function WriteEffect(entries: seq<Entry>, reachable: bool, contentTypeId: string, locale: string,
                       s: MigrationSet): Effect
  {
    if IsSetEmpty(s) then DeleteEffect(entries, reachable, contentTypeId)
    else
      var query := [GetEntriesCall(StoreQuery(contentTypeId))];
      if !reachable then Effect(Fail(Unreachable), entries, query)
      else
        var page := Lookup(entries, StoreQuery(contentTypeId));
        if page.total == 0 then
          var created := query + [CreateCall(contentTypeId)];
          if IndexOfId(entries, contentTypeId).Some? then Effect(Fail(Conflict(contentTypeId)), entries, created)
          else Effect(Pass, entries + [NewEntry(contentTypeId, locale, s)], created)
        else
          var updated := page.items[0].(state := CreateStateFrom(locale, s));
          match IndexOfId(entries, updated.id)
          case None => Effect(Fail(NotFound(updated.id)), entries, query + [UpdateCall(updated.id)])
          case Some(i) => Effect(Pass, entries[i := updated], query + [UpdateCall(updated.id)])
  }

  /** The module-level variables of `lib/store.js`: the cache and the default
      locale, each assigned once per process and shared by every store. */
  class StoreGlobals {
    var cachedState: Option<Cache>
    var defaultSpaceLocale: Option<string>

    constructor ()
      ensures cachedState.None? && defaultSpaceLocale.None?
    {
      cachedState := None;
      defaultSpaceLocale := None;
    }

    /** `initializeStoreStates`: build the cache from one bulk query, unless it
        is already built, in which case nothing is queried. */
    method InitializeStoreStates(env: Environment) returns (r: Result<Cache, RemoteError>)
      modifies this`cachedState, env`calls
      ensures old(cachedState).Some? ==>
        r == Success(old(cachedState).value) && cachedState == old(cachedState) && env.calls == old(env.calls)
      ensures old(cachedState).None? ==> env.calls == old(env.calls) + [GetEntriesCall(AllMigrations)]
      ensures old(cachedState).None? && env.reachable ==>
        r == Success(CacheOf(Lookup(env.entries, AllMigrations).items, LocaleKey(defaultSpaceLocale)))
        && cachedState == Some(r.value)
      ensures old(cachedState).None? && !env.reachable ==> r == Failure(Unreachable) && cachedState.None?
    {
      if cachedState.Some? {
        return Success(cachedState.value);
      }
      var page := env.GetEntries(AllMigrations);
      if page.Failure? {
        return Failure(page.error);
      }
      var acc := ReduceEntries(page.value.items, LocaleKey(defaultSpaceLocale));
      cachedState := Some(acc);
      r := Success(acc);
    }

    /** `createStoreFactory`: resolve the default locale when it is falsy,
        then build the cache when it is unset, then hand out a factory. */
    method CreateStoreFactory(env: Environment, accessToken: string, spaceId: string, environmentId: string,
                              httpsAgent: Option<Proxy.Agent>, dryRun: bool)
      returns (r: Result<StoreFactory, StoreError>)
      modifies this, env`calls
      ensures var locale := ResolveLocale(old(defaultSpaceLocale), env.reachable, env.locales);
        && (locale.Failure? ==>
              r == Failure(locale.error) && defaultSpaceLocale == old(defaultSpaceLocale)
              && cachedState == old(cachedState))
        && (locale.Success? ==> defaultSpaceLocale == Some(locale.value))
        && (locale.Success? && old(cachedState).Some? ==> r.Success? && cachedState == old(cachedState))
        && (locale.Success? && old(cachedState).None? && env.reachable ==>
              r.Success? && cachedState == Some(CacheOf(Lookup(env.entries, AllMigrations).items, locale.value)))
        && (locale.Success? && old(cachedState).None? && !env.reachable ==>
              r == Failure(RemoteFailure(Unreachable)) && cachedState.None?)
        && env.calls == old(env.calls)
             + (if Truthy(old(defaultSpaceLocale)) then [] else [GetLocalesCall])
             + (if locale.Success? && old(cachedState).None? then [GetEntriesCall(AllMigrations)] else [])
      ensures r.Success? ==> fresh(r.value) && r.value.globals == this && r.value.client == env
      ensures r.Success? ==> r.value.accessToken == accessToken && r.value.spaceId == spaceId
      ensures r.Success? ==> r.value.environmentId == environmentId && r.value.httpsAgent == httpsAgent
      ensures r.Success? ==> r.value.dryRun == dryRun
    {
      if !Truthy(defaultSpaceLocale) {
        var fetched := GetDefaultLocale(env);
        if fetched.Failure? {
          return Failure(fetched.error);
        }
        defaultSpaceLocale := Some(fetched.value);
      }
      var cache := InitializeStoreStates(env);
      if cache.Failure? {
        return Failure(RemoteFailure(cache.error));
      }
      var factory := new StoreFactory(this, env, accessToken, spaceId, environmentId, httpsAgent, dryRun);
      r := Success(factory);
    }
  }

  /** The object `createStoreFactory` resolves to; `newStore` mints stores
      that share the factory's connection settings, cache and locale. */
  class StoreFactory {
    const globals: StoreGlobals
    const client: Environment
    const accessToken: string
    const spaceId: string
    const environmentId: string
    const httpsAgent: Option<Proxy.Agent>
    const dryRun: bool

    constructor (globals: StoreGlobals, client: Environment, accessToken: string, spaceId: string,
                 environmentId: string, httpsAgent: Option<Proxy.Agent>, dryRun: bool)
      ensures this.globals == globals && this.client == client && this.accessToken == accessToken
      ensures this.spaceId == spaceId && this.environmentId == environmentId
      ensures this.httpsAgent == httpsAgent && this.dryRun == dryRun
    {
      this.globals := globals;
      this.client := client;
      this.accessToken := accessToken;
      this.spaceId := spaceId;
      this.environmentId := environmentId;
      this.httpsAgent := httpsAgent;
      this.dryRun := dryRun;
    }

    /** `newStore(contentType)`: no locale is passed, so the store takes the
        process-wide default locale. */
    method NewStore(contentType: string) returns (s: Store)
      ensures fresh(s)
      ensures s.contentTypeId == contentType && s.globals == globals && s.client == client
      ensures s.accessToken == accessToken && s.spaceId == spaceId && s.environmentId == environmentId
      ensures s.httpsAgent == httpsAgent && s.dryRun == dryRun
      ensures s.locale == LocaleKey(globals.defaultSpaceLocale)
    {
      s := new Store(globals, client, spaceId, environmentId, contentType, accessToken, httpsAgent, dryRun, None);
    }
  }

  /** `ContentfulStore`: the migration state of one content type. */
  class Store {
    const globals: StoreGlobals
    const client: Environment
    const spaceId: string
    const contentTypeId: string
    const environmentId: string
    const accessToken: string
    const httpsAgent: Option<Proxy.Agent>
    const dryRun: bool
    const queryParams: Query := StoreQuery(contentTypeId)
    const locale: string

    constructor (globals: StoreGlobals, client: Environment, spaceId: string, environmentId: string,
                 contentType: string, accessToken: string, httpsAgent: Option<Proxy.Agent>, dryRun: bool,
                 locale: Option<string>)
      ensures this.globals == globals && this.client == client && this.contentTypeId == contentType
      ensures this.spaceId == spaceId && this.environmentId == environmentId && this.accessToken == accessToken
      ensures this.httpsAgent == httpsAgent && this.dryRun == dryRun
      ensures this.locale == if Truthy(locale) then locale.value else LocaleKey(globals.defaultSpaceLocale)
    {
      this.globals := globals;
      this.client := client;
      this.spaceId := spaceId;
      this.contentTypeId := contentType;
      this.environmentId := environmentId;
      this.accessToken := accessToken;
      this.httpsAgent := httpsAgent;
      this.dryRun := dryRun;
      this.locale := if Truthy(locale) then locale.value else LocaleKey(globals.defaultSpaceLocale);
    }

    /** `deleteState()`: fetch by entry id, then delete. */
    method DeleteState() returns (o: Outcome<RemoteError>)
      requires client.Valid()
      modifies client
      ensures client.Valid() && client.locales == old(client.locales) && client.reachable == old(client.reachable)
      ensures var e := DeleteEffect(old(client.entries), client.reachable, contentTypeId);
        o == e.outcome && client.entries == e.entries && client.calls == old(client.calls) + e.calls
    {
      var found := client.GetEntry(contentTypeId);
      if found.Failure? {
        return Fail(found.error);
      }
      o := client.Delete(found.value);
    }

    /** `writeState(set)`. */
    method WriteState(s: MigrationSet) returns (o: Outcome<RemoteError>)
      requires client.Valid()
      modifies client
      ensures client.Valid() && client.locales == old(client.locales) && client.reachable == old(client.reachable)
      ensures var e := WriteEffect(old(client.entries), client.reachable, contentTypeId, locale, s);
        o == e.outcome && client.entries == e.entries && client.calls == old(client.calls) + e.calls
    {
      if IsSetEmpty(s) {
        o := DeleteState();
        return;
      }
      var found := client.GetEntries(queryParams);
      if found.Failure? {
        return Fail(found.error);
      }
      if found.value.total == 0 {
        o := client.CreateEntryWithId(MigrationContentType, contentTypeId, map[locale := contentTypeId],
                                      CreateStateFrom(locale, s));
        return;
      }
      var entry := found.value.items[0];
      entry := entry.(state := CreateStateFrom(locale, s));
      o := client.Update(entry);
    }

    /** `save(set, fn)`: the value is what the callback receives, `None` for
        `fn()` and `Some(error)` for `fn(error)`. A dry run touches nothing;
        no save ever refreshes the cache. */
    method Save(s: MigrationSet) returns (callbackError: Option<RemoteError>)
      requires client.Valid()
      modifies client
      ensures client.Valid() && client.locales == old(client.locales) && client.reachable == old(client.reachable)
      ensures globals.cachedState == old(globals.cachedState)
      ensures dryRun ==> callbackError.None? && client.entries == old(client.entries) && client.calls == old(client.calls)
      ensures !dryRun ==>
        var e := WriteEffect(old(client.entries), client.reachable, contentTypeId, locale, s);
        && client.entries == e.entries && client.calls == old(client.calls) + e.calls
        && (callbackError.None? <==> e.outcome.Pass?)
        && (callbackError.Some? ==> e.outcome == Fail(callbackError.value))
    {
      if dryRun {
        return None;
      }
      var o := WriteState(s);
      callbackError := if o.Pass? then None else Some(o.error);
    }

    /** `load(fn)`: a lookup in the shared cache only. */
    function Load(): (r: LoadResult)
      reads globals
      ensures r.CacheUnset? <==> globals.cachedState.None?
      ensures r.Loaded? <==> globals.cachedState.Some? && contentTypeId in globals.cachedState.value
                             && globals.cachedState.value[contentTypeId].Some?
      ensures r.Loaded? ==> r.state == globals.cachedState.value[contentTypeId].value
    {
      match globals.cachedState
      case None => CacheUnset
      case Some(cache) =>
        if contentTypeId in cache && cache[contentTypeId].Some? then Loaded(cache[contentTypeId].value)
        else LoadedEmpty
    }
  }
}
