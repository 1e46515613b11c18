/** What a write does to the remote, proved about `WriteEffect`: the three
    branches, what each leaves alone, and what a store built afterwards loads
    back. */
module StoreProperties {
  import opened Wrappers
  import opened MigrationState
  import opened Remote
  import opened Store

  /** An empty projection only deletes: it fetches the entry whose id is the
      content type and deletes it, never creating or updating anything. */
  lemma EmptyWriteOnlyDeletes(entries: seq<Entry>, reachable: bool, contentTypeId: string,
                              locale: string, s: MigrationSet)
    requires IsSetEmpty(s)
    ensures var e := WriteEffect(entries, reachable, contentTypeId, locale, s);
      && (e.calls == [GetEntryCall(contentTypeId)] || e.calls == [GetEntryCall(contentTypeId), DeleteCall(contentTypeId)])
      && (e.outcome.Pass? <==> reachable && exists i :: 0 <= i < |entries| && entries[i].id == contentTypeId)
      && (e.outcome.Fail? ==> e.entries == entries)
      && (e.outcome.Pass? ==> exists i :: 0 <= i < |entries| && entries[i].id == contentTypeId
                                          && e.entries == entries[..i] + entries[i + 1..])
  {
  }

  /** After a successful empty write no entry has the content type as its id. */
  lemma EmptyWriteLeavesNoEntry(entries: seq<Entry>, reachable: bool, contentTypeId: string,
                                locale: string, s: MigrationSet)
    requires DistinctIds(entries) && IsSetEmpty(s)
    requires WriteEffect(entries, reachable, contentTypeId, locale, s).outcome.Pass?
    ensures var e := WriteEffect(entries, reachable, contentTypeId, locale, s);
      forall j :: 0 <= j < |e.entries| ==> e.entries[j].id != contentTypeId
  {
    var i := IndexOfId(entries, contentTypeId).value;
    var after := entries[..i] + entries[i + 1..];
    forall j | 0 <= j < |after|
      ensures after[j].id != contentTypeId
    {
      if j < i {
        assert after[j] == entries[j];
      } else {
        assert after[j] == entries[j + 1];
      }
    }
  }

  /** A second empty write fails: the entry is gone and the fetch by id has no
      not-found case. */
  lemma EmptyWriteTwiceFails(entries: seq<Entry>, reachable: bool, contentTypeId: string,
                             locale: string, s: MigrationSet)
    requires DistinctIds(entries) && IsSetEmpty(s)
    requires WriteEffect(entries, reachable, contentTypeId, locale, s).outcome.Pass?
    ensures var e := WriteEffect(entries, reachable, contentTypeId, locale, s);
      WriteEffect(e.entries, reachable, contentTypeId, locale, s).outcome == Fail(NotFound(contentTypeId))
  {
    EmptyWriteLeavesNoEntry(entries, reachable, contentTypeId, locale, s);
  }

  /** With nothing found by the query, exactly one entry is created: its id and
      its `contentTypeId` field are the content type, its state the projection.
      An entry that already holds that id (of any content type) makes the
      create fail and nothing changes. */
  lemma NoMatchCreates(entries: seq<Entry>, contentTypeId: string, locale: string, s: MigrationSet)
    requires !IsSetEmpty(s)
    requires Matching(entries, StoreQuery(contentTypeId)) == []
    ensures var e := WriteEffect(entries, true, contentTypeId, locale, s);
      && e.calls == [GetEntriesCall(StoreQuery(contentTypeId)), CreateCall(contentTypeId)]
      && (IndexOfId(entries, contentTypeId).None? ==>
            e.outcome == Pass
            && e.entries == entries + [Entry(contentTypeId, MigrationContentType, map[locale := contentTypeId],
                                             CreateStateFrom(locale, s))])
      && (IndexOfId(entries, contentTypeId).Some? ==>
            e.outcome == Fail(Conflict(contentTypeId)) && e.entries == entries)
  {
  }

  /** With a match, the first entry the query lists has its state overwritten
      in place; its other fields and every other entry stay as they were, and
      nothing is created. */
  lemma MatchUpdatesFirst(entries: seq<Entry>, contentTypeId: string, locale: string, s: MigrationSet)
      returns (k: nat)
    requires DistinctIds(entries) && !IsSetEmpty(s)
    requires Matching(entries, StoreQuery(contentTypeId)) != []
    ensures var e := WriteEffect(entries, true, contentTypeId, locale, s);
      && k < |entries| && entries[k] == Matching(entries, StoreQuery(contentTypeId))[0]
      && (forall j :: 0 <= j < k ==> !Matches(entries[j], StoreQuery(contentTypeId)))
      && e.outcome == Pass
      && e.calls == [GetEntriesCall(StoreQuery(contentTypeId)), UpdateCall(entries[k].id)]
      && e.entries == entries[k := entries[k].(state := CreateStateFrom(locale, s))]
  {
    k := MatchingFirstIndex(entries, StoreQuery(contentTypeId));
    IndexOfIdDistinct(entries, k);
  }

  /** Every write keeps entry ids distinct. */
  lemma WriteKeepsIdsDistinct(entries: seq<Entry>, reachable: bool, contentTypeId: string,
                              locale: string, s: MigrationSet)
    requires DistinctIds(entries)
    ensures DistinctIds(WriteEffect(entries, reachable, contentTypeId, locale, s).entries)
  {
    var e := WriteEffect(entries, reachable, contentTypeId, locale, s);
    if e.outcome.Pass? {
      if IsSetEmpty(s) {
        var i := IndexOfId(entries, contentTypeId).value;
        assert e.entries == entries[..i] + entries[i + 1..];
        forall a, b | 0 <= a < b < |e.entries|
          ensures e.entries[a].id != e.entries[b].id
        {
          var a' := if a < i then a else a + 1;
          var b' := if b < i then b else b + 1;
          assert e.entries[a] == entries[a'] && e.entries[b] == entries[b'];
        }
      } else if Matching(entries, StoreQuery(contentTypeId)) != [] {
        var k := MatchUpdatesFirst(entries, contentTypeId, locale, s);
      }
    }
  }

  /** A successful non-empty write leaves the entry the store's query lists
      first holding the projection of the set. */
  lemma WriteThenFirstMatchHolds(entries: seq<Entry>, reachable: bool, contentTypeId: string,
                                 locale: string, s: MigrationSet)
    requires DistinctIds(entries) && !IsSetEmpty(s)
    requires WriteEffect(entries, reachable, contentTypeId, locale, s).outcome.Pass?
    ensures var e := WriteEffect(entries, reachable, contentTypeId, locale, s);
      && Matching(e.entries, StoreQuery(contentTypeId)) != []
      && Matching(e.entries, StoreQuery(contentTypeId))[0].state == CreateStateFrom(locale, s)
  {
    var q := StoreQuery(contentTypeId);
    var e := WriteEffect(entries, reachable, contentTypeId, locale, s);
    if Matching(entries, q) == [] {
      var n := NewEntry(contentTypeId, locale, s);
      assert e.entries == entries + [n];
      MatchingAppend(entries, [n], q);
      assert Matches(n, q) by {
        assert n.contentTypeId[locale] == contentTypeId;
      }
      assert Matching([n], q) == [n];
    } else {
      assert reachable;
      var k := MatchUpdatesFirst(entries, contentTypeId, locale, s);
      assert entries[k] in Matching(entries, q);
      assert e.entries[k] == entries[k].(state := CreateStateFrom(locale, s));
      MatchingFirst(e.entries, q, k);
    }
  }

  /** Writing the same non-empty set again changes nothing, and does so by an
      update: a second save never creates a second entry. */
  lemma NonEmptyWriteIdempotent(entries: seq<Entry>, reachable: bool, contentTypeId: string,
                                locale: string, s: MigrationSet)
    requires DistinctIds(entries) && !IsSetEmpty(s)
    requires WriteEffect(entries, reachable, contentTypeId, locale, s).outcome.Pass?
    ensures var e := WriteEffect(entries, reachable, contentTypeId, locale, s);
      var again := WriteEffect(e.entries, reachable, contentTypeId, locale, s);
      && again.outcome == Pass && again.entries == e.entries
      && |again.calls| == 2 && again.calls[1].UpdateCall?
  {
    var e := WriteEffect(entries, reachable, contentTypeId, locale, s);
    assert reachable;
    WriteKeepsIdsDistinct(entries, reachable, contentTypeId, locale, s);
    WriteThenFirstMatchHolds(entries, reachable, contentTypeId, locale, s);
    var k := MatchUpdatesFirst(e.entries, contentTypeId, locale, s);
    assert e.entries[k := e.entries[k].(state := CreateStateFrom(locale, s))] == e.entries;
  }

  /** The create scenario: a content type with no entry yet is saved, and a
      cache built afterwards (by a factory in a fresh process) holds exactly
      the applied records of the set, in order, with its `lastRun`. */
  lemma CreatedStateIsLoaded(entries: seq<Entry>, contentTypeId: string, locale: string, s: MigrationSet)
    requires !IsSetEmpty(s)
    requires Matching(entries, StoreQuery(contentTypeId)) == [] && IndexOfId(entries, contentTypeId).None?
    requires |Matching(entries, AllMigrations)| < PageLimit
    ensures var e := WriteEffect(entries, true, contentTypeId, locale, s);
      var cache := CacheOf(Lookup(e.entries, AllMigrations).items, locale);
      contentTypeId in cache && cache[contentTypeId] == Some(MigrationSet(s.lastRun, Applied(s.migrations)))
  {
    var n := NewEntry(contentTypeId, locale, s);
    var e := WriteEffect(entries, true, contentTypeId, locale, s);
    assert e.entries == entries + [n];
    MatchingAppend(entries, [n], AllMigrations);
    assert Matching([n], AllMigrations) == [n];
    var items := Lookup(e.entries, AllMigrations).items;
    assert items == Matching(entries, AllMigrations) + [n];
    assert items[..|items| - 1] == Matching(entries, AllMigrations);
    assert KeyOf(n, locale) == contentTypeId;
  }

  /** The delete scenario: when the store's own entry is the only migration
      entry keyed by its content type, a cache built after a successful empty
      write has no key for that content type, so a load yields `{}`. */
  lemma DeletedStateIsNotLoaded(entries: seq<Entry>, reachable: bool, contentTypeId: string,
                                locale: string, s: MigrationSet)
    requires DistinctIds(entries) && IsSetEmpty(s)
    requires forall i :: (0 <= i < |entries| && entries[i].contentType == MigrationContentType
                          && KeyOf(entries[i], locale) == contentTypeId) ==> entries[i].id == contentTypeId
    requires WriteEffect(entries, reachable, contentTypeId, locale, s).outcome.Pass?
    ensures var e := WriteEffect(entries, reachable, contentTypeId, locale, s);
      contentTypeId !in CacheOf(Lookup(e.entries, AllMigrations).items, locale)
  {
    var e := WriteEffect(entries, reachable, contentTypeId, locale, s);
    EmptyWriteLeavesNoEntry(entries, reachable, contentTypeId, locale, s);
    var i := IndexOfId(entries, contentTypeId).value;
    assert e.entries == entries[..i] + entries[i + 1..];
    var all := Matching(e.entries, AllMigrations);
    var items := Lookup(e.entries, AllMigrations).items;
    CacheOfKeys(items, locale, contentTypeId);
    forall j | 0 <= j < |items|
      ensures KeyOf(items[j], locale) != contentTypeId
    {
      assert items[j] == all[j] && all[j] in all;
      var x := items[j];
      assert x in e.entries && x.contentType == MigrationContentType;
      var m :| 0 <= m < |e.entries| && e.entries[m] == x;
      assert x in entries by {
        if m < i { assert e.entries[m] == entries[m]; } else { assert e.entries[m] == entries[m + 1]; }
      }
    }
  }
}
