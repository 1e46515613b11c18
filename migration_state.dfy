/** The pure half of `lib/store.js`: migration records, migration sets and the
    projection of a set onto what is persisted remotely (`createStateFrom`,
    `isSetEmpty`). */
module MigrationState {
  import opened Wrappers

  /** One migration script as the migration engine reports it. The engine
      stores `Date.now()` in `timestamp` once the script has run; a record
      without one is pending. */
  datatype MigrationRecord = MigrationRecord(
    title: string,
    timestamp: Option<int>,
    description: Option<string>)

  /** The history of one content type: the last script run and every known
      script, in application order. */
  datatype MigrationSet = MigrationSet(lastRun: string, migrations: seq<MigrationRecord>)

  /** A localised field value: JavaScript's `{ [locale]: value }` object. */
  type Localized<T> = map<string, T>

  /** JavaScript truthiness of `m.timestamp`: present and not `0`. */
  predicate IsApplied(m: MigrationRecord) {
    m.timestamp.Some? && m.timestamp.value != 0
  }

  /** `migrations.filter(m => m.timestamp)`. */
  function Applied(ms: seq<MigrationRecord>): (r: seq<MigrationRecord>)
    ensures |r| <= |ms|
    ensures forall i :: 0 <= i < |r| ==> IsApplied(r[i])
    ensures forall m :: m in r <==> m in ms && IsApplied(m)
    ensures multiset(r) <= multiset(ms)
  {
    if ms == [] then []
    else
      assert ms == [ms[0]] + ms[1..];
      if IsApplied(ms[0]) then [ms[0]] + Applied(ms[1..])
      else Applied(ms[1..])
  }

  /** The filter distributes over concatenation, so records keep their
      relative order: everything kept from `a` precedes everything kept
      from `b`. */
  lemma {:induction false} AppliedAppend(a: seq<MigrationRecord>, b: seq<MigrationRecord>)
    ensures Applied(a + b) == Applied(a) + Applied(b)
  {
    if a == [] {
      assert a + b == b;
    } else {
      assert (a + b)[1..] == a[1..] + b;
      AppliedAppend(a[1..], b);
    }
  }

  /** Records that are all applied are kept unchanged, so projecting twice is
      the same as projecting once. */
  lemma {:induction false} AppliedKeepsApplied(ms: seq<MigrationRecord>)
    requires forall i :: 0 <= i < |ms| ==> IsApplied(ms[i])
    ensures Applied(ms) == ms
  {
    if ms != [] {
      AppliedKeepsApplied(ms[1..]);
    }
  }

  lemma AppliedIdempotent(ms: seq<MigrationRecord>)
    ensures Applied(Applied(ms)) == Applied(ms)
  {
    AppliedKeepsApplied(Applied(ms));
  }

  /** The projection is empty exactly when no record is applied. */
  lemma {:induction false} AppliedEmptyIff(ms: seq<MigrationRecord>)
    ensures Applied(ms) == [] <==> forall i :: 0 <= i < |ms| ==> !IsApplied(ms[i])
  {
    if ms != [] {
      AppliedEmptyIff(ms[1..]);
      assert forall i :: 1 <= i < |ms| ==> ms[i] == ms[1..][i - 1];
    }
  }

  /** `createStateFrom(set)`: the persisted projection of `set`, wrapped
      under the store's locale. */
  function CreateStateFrom(locale: string, s: MigrationSet): (r: Localized<MigrationSet>)
    ensures r.Keys == {locale}
    ensures r[locale].lastRun == s.lastRun
    ensures forall m :: m in r[locale].migrations <==> m in s.migrations && IsApplied(m)
    ensures |r[locale].migrations| <= |s.migrations|
  {
    map[locale := MigrationSet(s.lastRun, Applied(s.migrations))]
  }

  /** `isSetEmpty(set)`: no record of the set has been applied. */
  function IsSetEmpty(s: MigrationSet): (r: bool)
    ensures r <==> forall i :: 0 <= i < |s.migrations| ==> !IsApplied(s.migrations[i])
  {
    AppliedEmptyIff(s.migrations);
    |Applied(s.migrations)| == 0
  }

  /** `isSetEmpty` agrees with the projection `createStateFrom` would
      persist, whatever the locale. */
  lemma IsSetEmptyMeansEmptyProjection(locale: string, s: MigrationSet)
    ensures IsSetEmpty(s) <==> CreateStateFrom(locale, s)[locale].migrations == []
  {
  }

  /** A set of pending records only is empty, even though it has records. */
  lemma PendingOnlyIsEmpty(s: MigrationSet)
    requires forall i :: 0 <= i < |s.migrations| ==> s.migrations[i].timestamp.None?
    ensures IsSetEmpty(s)
  {
  }

  /** Projecting an already persisted state again changes nothing. */
  lemma ProjectionIdempotent(locale: string, s: MigrationSet)
    ensures CreateStateFrom(locale, CreateStateFrom(locale, s)[locale]) == CreateStateFrom(locale, s)
  {
    AppliedIdempotent(s.migrations);
  }
}
