/** `lib/bootstrap/rewriteMigration.js`: adopt content types into migration
    tracking by force-writing, for each file, a history holding that one file
    as applied. */
module Rewrite {
  import opened Wrappers
  import opened MigrationState
  import opened Remote
  import opened Store
  import opened StoreProperties
  import Proxy

  /** One item of `files`: the content type it adopts and the script name. */
  datatype MigrationFile = MigrationFile(contentTypeId: string, fileName: string)

  /** The set written for one file; `now` is the value of `Date.now()`. */
  function SyntheticSet(file: MigrationFile, now: int): (r: MigrationSet)
    requires now > 0
    ensures r.lastRun == file.fileName
    ensures |r.migrations| == 1 && r.migrations[0].title == file.fileName && IsApplied(r.migrations[0])
    ensures r.migrations[0].description == Some("Create content model for " + file.contentTypeId)
    ensures !IsSetEmpty(r)
  {
    MigrationSet(file.fileName,
                 [MigrationRecord(file.fileName, Some(now), Some("Create content model for " + file.contentTypeId))])
  }

  /** The writes of the files one after the other. Every write is made even
      after one has failed, and the whole fails with the first failure. */
  function RewriteEffect(entries: seq<Entry>, reachable: bool, locale: string, files: seq<MigrationFile>,
                         now: int): Effect
    requires now > 0
  {
    if files == [] then Effect(Pass, entries, [])
    else
      var before := RewriteEffect(entries, reachable, locale, files[..|files| - 1], now);
      var file := files[|files| - 1];
      var w := WriteEffect(before.entries, reachable, file.contentTypeId, locale, SyntheticSet(file, now));
      Effect(if before.outcome.Fail? then before.outcome else w.outcome, w.entries, before.calls + w.calls)
  }

  /** A write of a non-empty set never fetches by id or deletes, and never
      removes an entry. */
  lemma NonEmptyWriteNeverDeletes(entries: seq<Entry>, reachable: bool, contentTypeId: string,
                                  locale: string, s: MigrationSet)
    requires !IsSetEmpty(s)
    ensures var w := WriteEffect(entries, reachable, contentTypeId, locale, s);
      && |w.entries| >= |entries|
      && forall c :: c in w.calls ==> c.GetEntriesCall? || c.CreateCall? || c.UpdateCall?
  {
  }

  /** The rewrite never takes the delete path: no call fetches by id or
      deletes, and no entry disappears. */
  lemma {:induction false} RewriteNeverDeletes(entries: seq<Entry>, reachable: bool, locale: string,
                                               files: seq<MigrationFile>, now: int)
    requires now > 0
    ensures var w := RewriteEffect(entries, reachable, locale, files, now);
      && |w.entries| >= |entries|
      && forall c :: c in w.calls ==> c.GetEntriesCall? || c.CreateCall? || c.UpdateCall?
  {
    if files != [] {
      var front := files[..|files| - 1];
      var file := files[|files| - 1];
      RewriteNeverDeletes(entries, reachable, locale, front, now);
      var before := RewriteEffect(entries, reachable, locale, front, now);
      NonEmptyWriteNeverDeletes(before.entries, reachable, file.contentTypeId, locale, SyntheticSet(file, now));
    }
  }

  /** The rewrite keeps entry ids distinct. */
  lemma {:induction false} RewriteKeepsIdsDistinct(entries: seq<Entry>, reachable: bool, locale: string,
                                                   files: seq<MigrationFile>, now: int)
    requires now > 0 && DistinctIds(entries)
    ensures DistinctIds(RewriteEffect(entries, reachable, locale, files, now).entries)
  {
    if files != [] {
      var front := files[..|files| - 1];
      var file := files[|files| - 1];
      RewriteKeepsIdsDistinct(entries, reachable, locale, front, now);
      var before := RewriteEffect(entries, reachable, locale, front, now);
      WriteKeepsIdsDistinct(before.entries, reachable, file.contentTypeId, locale, SyntheticSet(file, now));
    }
  }

  /** Once one write has failed the rewrite as a whole fails, whatever the
      writes of the later files do. */
  lemma {:induction false} RewriteFailureSticks(entries: seq<Entry>, reachable: bool, locale: string,
                                                files: seq<MigrationFile>, now: int, k: nat)
    requires now > 0 && k <= |files|
    requires RewriteEffect(entries, reachable, locale, files[..k], now).outcome.Fail?
    ensures RewriteEffect(entries, reachable, locale, files, now).outcome.Fail?
  {
    if k < |files| {
      var front := files[..|files| - 1];
      assert front[..k] == files[..k];
      RewriteFailureSticks(entries, reachable, locale, front, now, k);
    } else {
      assert files[..k] == files;
    }
  }

  /** A successful write of a file's set replaces the content type's history:
      the entry its store finds first holds that single record, whatever it
      held before. */
  lemma SyntheticWriteReplacesHistory(entries: seq<Entry>, reachable: bool, locale: string,
                                      file: MigrationFile, now: int)
    requires now > 0 && DistinctIds(entries)
    requires WriteEffect(entries, reachable, file.contentTypeId, locale, SyntheticSet(file, now)).outcome.Pass?
    ensures var w := WriteEffect(entries, reachable, file.contentTypeId, locale, SyntheticSet(file, now));
      var found := Matching(w.entries, StoreQuery(file.contentTypeId));
      && found != []
      && found[0].state == map[locale := MigrationSet(file.fileName, SyntheticSet(file, now).migrations)]
  {
    var s := SyntheticSet(file, now);
    WriteThenFirstMatchHolds(entries, reachable, file.contentTypeId, locale, s);
    AppliedKeepsApplied(s.migrations);
  }

  /** One more file adds its write to the effect of the files before it. */
  lemma RewriteEffectStep(entries: seq<Entry>, reachable: bool, locale: string, files: seq<MigrationFile>,
                          i: nat, now: int)
    requires now > 0 && i < |files|
    ensures var before := RewriteEffect(entries, reachable, locale, files[..i], now);
      var w := WriteEffect(before.entries, reachable, files[i].contentTypeId, locale, SyntheticSet(files[i], now));
      RewriteEffect(entries, reachable, locale, files[..i + 1], now)
        == Effect(if before.outcome.Fail? then before.outcome else w.outcome, w.entries, before.calls + w.calls)
  {
    assert files[..i + 1][..i] == files[..i];
  }

  /** Appending calls to a log is associative. */
  lemma CallsAppend(a: seq<Call>, b: seq<Call>, c: seq<Call>)
    ensures (a + b) + c == a + (b + c)
  {
  }

  /** The body of the `files.map(...)` callback: a store for the file's
      content type writes the file's set with `writeState`. */
  method WriteFile(factory: StoreFactory, file: MigrationFile, now: int) returns (o: Outcome<RemoteError>)
    requires now > 0 && factory.client.Valid()
    modifies factory.client
    ensures factory.client.Valid()
    ensures factory.client.reachable == old(factory.client.reachable)
    ensures factory.client.locales == old(factory.client.locales)
    ensures var w := WriteEffect(old(factory.client.entries), factory.client.reachable, file.contentTypeId,
                                 LocaleKey(factory.globals.defaultSpaceLocale), SyntheticSet(file, now));
      factory.client.entries == w.entries && factory.client.calls == old(factory.client.calls) + w.calls
      && o == w.outcome
  {
    var store := factory.NewStore(file.contentTypeId);
    o := store.WriteState(SyntheticSet(file, now));
  }

  /** The `files.map(...)` of `rewriteMigration`, run in order: each file's
      set is written with `writeState` (bypassing `save`, so a dry run does
      not apply) through a store of the one shared factory. */
  method WriteFiles(factory: StoreFactory, files: seq<MigrationFile>, now: int) returns (r: Outcome<RemoteError>)
    requires now > 0 && factory.client.Valid()
    modifies factory.client
    ensures factory.client.Valid()
    ensures factory.client.reachable == old(factory.client.reachable)
    ensures factory.client.locales == old(factory.client.locales)
    ensures var w := RewriteEffect(old(factory.client.entries), factory.client.reachable,
                                   LocaleKey(factory.globals.defaultSpaceLocale), files, now);
      && factory.client.entries == w.entries
      && factory.client.calls == old(factory.client.calls) + w.calls
      && r == w.outcome
  {
    var env := factory.client;
    ghost var start := env.entries;
    ghost var startCalls := env.calls;
    ghost var locale := LocaleKey(factory.globals.defaultSpaceLocale);
    ghost var done := Effect(Pass, start, []);
    r := Pass;
    for i := 0 to |files|
      invariant env.Valid() && env.reachable == old(env.reachable) && env.locales == old(env.locales)
      invariant done == RewriteEffect(start, env.reachable, locale, files[..i], now)
      invariant env.entries == done.entries && env.calls == startCalls + done.calls && r == done.outcome
    {
      RewriteEffectStep(start, env.reachable, locale, files, i, now);
      var o := WriteFile(factory, files[i], now);
      ghost var w := WriteEffect(done.entries, env.reachable, files[i].contentTypeId, locale,
                                 SyntheticSet(files[i], now));
      CallsAppend(startCalls, done.calls, w.calls);
      done := Effect(if done.outcome.Fail? then done.outcome else w.outcome, w.entries, done.calls + w.calls);
      if r.Pass? {
        r := o;
      }
    }
    assert files[..|files|] == files;
  }

  /** `rewriteMigration(...)`: build one factory, then write every file. */
  method RewriteMigration(globals: StoreGlobals, env: Environment, spaceId: string, environmentId: string,
                          accessToken: string, httpsAgent: Option<Proxy.Agent>, files: seq<MigrationFile>, now: int)
    returns (r: Outcome<StoreError>)
    requires now > 0 && env.Valid()
    modifies globals, env
    ensures env.Valid() && env.reachable == old(env.reachable) && env.locales == old(env.locales)
    ensures var locale := ResolveLocale(old(globals.defaultSpaceLocale), env.reachable, env.locales);
      locale.Failure? ==>
        && r == Fail(locale.error) && env.entries == old(env.entries)
        && env.calls == old(env.calls) + [GetLocalesCall]
        && globals.defaultSpaceLocale == old(globals.defaultSpaceLocale)
        && globals.cachedState == old(globals.cachedState)
    ensures var locale := ResolveLocale(old(globals.defaultSpaceLocale), env.reachable, env.locales);
      locale.Success? ==> globals.defaultSpaceLocale == Some(locale.value)
    ensures var locale := ResolveLocale(old(globals.defaultSpaceLocale), env.reachable, env.locales);
      locale.Success? && old(globals.cachedState).None? && !env.reachable ==>
        && r == Fail(RemoteFailure(Unreachable)) && env.entries == old(env.entries)
        && env.calls == old(env.calls)
             + (if Truthy(old(globals.defaultSpaceLocale)) then [] else [GetLocalesCall])
             + [GetEntriesCall(AllMigrations)]
        && globals.cachedState.None?
    ensures var locale := ResolveLocale(old(globals.defaultSpaceLocale), env.reachable, env.locales);
      locale.Success? && (old(globals.cachedState).Some? || env.reachable) ==>
        var w := RewriteEffect(old(env.entries), env.reachable, locale.value, files, now);
        && env.entries == w.entries
        && env.calls == old(env.calls)
             + (if Truthy(old(globals.defaultSpaceLocale)) then [] else [GetLocalesCall])
             + (if old(globals.cachedState).None? then [GetEntriesCall(AllMigrations)] else [])
             + w.calls
        && r == (if w.outcome.Pass? then Pass else Fail(RemoteFailure(w.outcome.error)))
    /* The cache is built from the entries as they were before any write, so
       a later `load` in the same process does not see the rewrite. */
    ensures var locale := ResolveLocale(old(globals.defaultSpaceLocale), env.reachable, env.locales);
      locale.Success? && (old(globals.cachedState).Some? || env.reachable) ==>
        globals.cachedState == if old(globals.cachedState).Some? then old(globals.cachedState)
                               else Some(CacheOf(Lookup(old(env.entries), AllMigrations).items, locale.value))
  {
    var created := globals.CreateStoreFactory(env, accessToken, spaceId, environmentId, httpsAgent, false);
    if created.Failure? {
      return Fail(created.error);
    }
    var o := WriteFiles(created.value, files, now);
    r := if o.Pass? then Pass else Fail(RemoteFailure(o.error));
  }
}
