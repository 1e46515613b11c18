/** The remote space environment that `lib/store.js` reaches through the
    Contentful management client. Only the calls the store makes are
    modelled, each as a method whose result is fixed by the environment's
    entries, its locales and one `reachable` flag (when it is false every
    call rejects). */
module Remote {
  import opened Wrappers
  import opened MigrationState

  /** An entry of the environment. `contentTypeId` and `state` are the two
      fields of the `migration` content type, each a localised value. */
  datatype Entry = Entry(
    id: string,
    contentType: string,
    contentTypeId: Localized<string>,
    state: Localized<MigrationSet>)

  /** The parameters of `getEntries`: `content_type`, `limit` and the optional
      `fields.contentTypeId` filter. */
  datatype Query = Query(contentType: string, limit: nat, contentTypeId: Option<string>)

  /** A response of `getEntries`: one page of items and the number of all
      matches. */
  datatype Page = Page(items: seq<Entry>, total: nat)

  /** An item of the `getLocales` response. */
  datatype LocaleInfo = LocaleInfo(code: string, isDefault: bool)

  /** A call made on the environment, as recorded in its log. */
  datatype Call =
    | GetLocalesCall
    | GetEntriesCall(query: Query)
    | GetEntryCall(id: string)
    | CreateCall(id: string)
    | UpdateCall(id: string)
    | DeleteCall(id: string)

  /** Why a remote call rejects. */
  datatype RemoteError = Unreachable | NotFound(id: string) | Conflict(id: string)

  /** The entry satisfies the query's content type and, when given, its
      `fields.contentTypeId` filter (some locale holds that value). */
  predicate Matches(e: Entry, q: Query) {
    e.contentType == q.contentType
    && (q.contentTypeId.Some? ==> q.contentTypeId.value in e.contentTypeId.Values)
  }

  /** The entries a query selects, in the environment's listing order. */
  function Matching(entries: seq<Entry>, q: Query): (r: seq<Entry>)
    ensures |r| <= |entries|
    ensures forall e :: e in r <==> e in entries && Matches(e, q)
  {
    if entries == [] then []
    else if Matches(entries[0], q) then [entries[0]] + Matching(entries[1..], q)
    else Matching(entries[1..], q)
  }

  /** When no entry before `k` matches and `entries[k]` does, `entries[k]` is
      the first item of the query. */
  lemma {:induction false} MatchingFirst(entries: seq<Entry>, q: Query, k: nat)
    requires k < |entries| && Matches(entries[k], q)
    requires forall j :: 0 <= j < k ==> !Matches(entries[j], q)
    ensures Matching(entries, q) != [] && Matching(entries, q)[0] == entries[k]
  {
    if k > 0 {
      MatchingFirst(entries[1..], q, k - 1);
    }
  }

  /** The first item of a non-empty query result sits at some position with
      no match before it. */
  lemma {:induction false} MatchingFirstIndex(entries: seq<Entry>, q: Query) returns (k: nat)
    requires Matching(entries, q) != []
    ensures k < |entries| && entries[k] == Matching(entries, q)[0]
    ensures Matches(entries[k], q)
    ensures forall j :: 0 <= j < k ==> !Matches(entries[j], q)
  {
    if Matches(entries[0], q) {
      k := 0;
    } else {
      var k' := MatchingFirstIndex(entries[1..], q);
      k := k' + 1;
    }
  }

  /** `getEntries(q)` over these entries: at most `q.limit` items, and the
      count of every match. */
  function Lookup(entries: seq<Entry>, q: Query): (p: Page)
    ensures p.total == |Matching(entries, q)|
    ensures |p.items| == if p.total <= q.limit then p.total else q.limit
    ensures p.items == Matching(entries, q)[..|p.items|]
  {
    var all := Matching(entries, q);
    Page(if |all| <= q.limit then all else all[..q.limit], |all|)
  }

  /** No two entries share an id (the environment keys entries by id). */
  ghost predicate DistinctIds(entries: seq<Entry>) {
    forall i, j :: 0 <= i < j < |entries| ==> entries[i].id != entries[j].id
  }

  /** The position of the entry with the given id, if any. */
  function IndexOfId(entries: seq<Entry>, id: string): (r: Option<nat>)
    ensures r.Some? ==> r.value < |entries| && entries[r.value].id == id
    ensures r.Some? ==> forall j :: 0 <= j < r.value ==> entries[j].id != id
    ensures r.None? <==> forall j :: 0 <= j < |entries| ==> entries[j].id != id
  {
    if entries == [] then None
    else if entries[0].id == id then Some(0)
    else match IndexOfId(entries[1..], id)
      case None => None
      case Some(k) => Some(k + 1)
  }

  /** With distinct ids, looking up an entry's id finds that entry. */
  lemma {:induction false} IndexOfIdDistinct(entries: seq<Entry>, k: nat)
    requires DistinctIds(entries) && k < |entries|
    ensures IndexOfId(entries, entries[k].id) == Some(k)
  {
    if k > 0 {
      assert DistinctIds(entries[1..]) by {
        forall i, j | 0 <= i < j < |entries[1..]|
          ensures entries[1..][i].id != entries[1..][j].id
        {
          assert entries[1..][i] == entries[i + 1] && entries[1..][j] == entries[j + 1];
        }
      }
      IndexOfIdDistinct(entries[1..], k - 1);
    }
  }

  /** A query over two listings concatenated lists the matches of the first,
      then those of the second. */
  lemma {:induction false} MatchingAppend(a: seq<Entry>, b: seq<Entry>, q: Query)
    ensures Matching(a + b, q) == Matching(a, q) + Matching(b, q)
  {
    if a == [] {
      assert a + b == b;
    } else {
      assert (a + b)[1..] == a[1..] + b;
      MatchingAppend(a[1..], b, q);
    }
  }

  /** The environment of one space, as the store's client sees it. */
  class Environment {
    var entries: seq<Entry>
    var locales: seq<LocaleInfo>
    var reachable: bool
    /** Every call made so far, in order, whether it succeeded or not. */
    ghost var calls: seq<Call>

    ghost predicate Valid()
      reads this
    {
      DistinctIds(entries)
    }

    constructor (entries: seq<Entry>, locales: seq<LocaleInfo>, reachable: bool)
      requires DistinctIds(entries)
      ensures Valid()
      ensures this.entries == entries && this.locales == locales && this.reachable == reachable
      ensures calls == []
    {
      this.entries := entries;
      this.locales := locales;
      this.reachable := reachable;
      calls := [];
    }

    /** `getLocales()`: the locale list. */
    method GetLocales() returns (r: Result<seq<LocaleInfo>, RemoteError>)
      modifies this`calls
      ensures reachable ==> r == Success(locales)
      ensures !reachable ==> r == Failure(Unreachable)
      ensures calls == old(calls) + [GetLocalesCall]
    {
      calls := calls + [GetLocalesCall];
      if !reachable {
        return Failure(Unreachable);
      }
      r := Success(locales);
    }

    /** `getEntries(q)`: one page of the matching entries. */
    method GetEntries(q: Query) returns (r: Result<Page, RemoteError>)
      modifies this`calls
      ensures reachable ==> r.Success? && r.value == Lookup(entries, q)
      ensures !reachable ==> r == Failure(Unreachable)
      ensures calls == old(calls) + [GetEntriesCall(q)]
    {
      calls := calls + [GetEntriesCall(q)];
      if !reachable {
        return Failure(Unreachable);
      }
      r := Success(Lookup(entries, q));
    }

    /** `getEntry(id)`: the entry with that id, whatever its content type;
        rejects when there is none. */
    method GetEntry(id: string) returns (r: Result<Entry, RemoteError>)
      modifies this`calls
      ensures !reachable ==> r == Failure(Unreachable)
      ensures reachable && IndexOfId(entries, id).None? ==> r == Failure(NotFound(id))
      ensures reachable && IndexOfId(entries, id).Some? ==> r == Success(entries[IndexOfId(entries, id).value])
      ensures calls == old(calls) + [GetEntryCall(id)]
    {
      calls := calls + [GetEntryCall(id)];
      if !reachable {
        return Failure(Unreachable);
      }
      match IndexOfId(entries, id)
      case None => r := Failure(NotFound(id));
      case Some(i) => r := Success(entries[i]);
    }

    /** `createEntryWithId(contentType, id, fields)`: appends a new entry;
        rejects when the id is taken. */
    method CreateEntryWithId(contentType: string, id: string, contentTypeId: Localized<string>,
                             state: Localized<MigrationSet>) returns (r: Outcome<RemoteError>)
      requires Valid()
      modifies this
      ensures calls == old(calls) + [CreateCall(id)]
      ensures Valid() && locales == old(locales) && reachable == old(reachable)
      ensures !reachable ==> r == Fail(Unreachable) && entries == old(entries)
      ensures reachable && IndexOfId(old(entries), id).Some? ==> r == Fail(Conflict(id)) && entries == old(entries)
      ensures reachable && IndexOfId(old(entries), id).None? ==>
        r == Pass && entries == old(entries) + [Entry(id, contentType, contentTypeId, state)]
    {
      calls := calls + [CreateCall(id)];
      if !reachable {
        return Fail(Unreachable);
      }
      if IndexOfId(entries, id).Some? {
        return Fail(Conflict(id));
      }
      entries := entries + [Entry(id, contentType, contentTypeId, state)];
      r := Pass;
    }

    /** `entry.update()`: the stored entry with the same id takes the new
        value in place; rejects when that id is gone. */
    method Update(e: Entry) returns (r: Outcome<RemoteError>)
      requires Valid()
      modifies this
      ensures calls == old(calls) + [UpdateCall(e.id)]
      ensures Valid() && locales == old(locales) && reachable == old(reachable)
      ensures !reachable ==> r == Fail(Unreachable) && entries == old(entries)
      ensures reachable && IndexOfId(old(entries), e.id).None? ==> r == Fail(NotFound(e.id)) && entries == old(entries)
      ensures reachable && IndexOfId(old(entries), e.id).Some? ==>
        r == Pass && entries == old(entries)[IndexOfId(old(entries), e.id).value := e]
    {
      calls := calls + [UpdateCall(e.id)];
      if !reachable {
        return Fail(Unreachable);
      }
      match IndexOfId(entries, e.id)
      case None => r := Fail(NotFound(e.id));
      case Some(i) =>
        entries := entries[i := e];
        r := Pass;
    }

    /** `entry.delete()`: removes the stored entry with the same id; rejects
        when that id is gone. */
    method Delete(e: Entry) returns (r: Outcome<RemoteError>)
      requires Valid()
      modifies this
      ensures calls == old(calls) + [DeleteCall(e.id)]
      ensures Valid() && locales == old(locales) && reachable == old(reachable)
      ensures !reachable ==> r == Fail(Unreachable) && entries == old(entries)
      ensures reachable && IndexOfId(old(entries), e.id).None? ==> r == Fail(NotFound(e.id)) && entries == old(entries)
      ensures reachable && IndexOfId(old(entries), e.id).Some? ==>
        var i := IndexOfId(old(entries), e.id).value;
        r == Pass && entries == old(entries)[..i] + old(entries)[i + 1..]
    {
      calls := calls + [DeleteCall(e.id)];
      if !reachable {
        return Fail(Unreachable);
      }
      match IndexOfId(entries, e.id)
      case None => r := Fail(NotFound(e.id));
      case Some(i) =>
        entries := entries[..i] + entries[i + 1..];
        r := Pass;
    }
  }
}
