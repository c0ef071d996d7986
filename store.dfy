/**
 * The diary store and its fallback wrapper. The hosted database is modelled as
 * an in-memory table (`DiaryTable`); every backend call carries a `fails`
 * argument standing for the backend answering with an error, which the source
 * rethrows and the wrapper turns into the fallback value.
 */
module DiaryStore {
  import opened Optional
  import opened Stamps
  import opened Seqs

  /** A row of the `diaries` table. */
  datatype Diary = Diary(
    id: int,
    title: string,
    originalContent: string,
    aiContent: string,
    createdAt: Stamp,
    updatedAt: Stamp)

  /** A diary without its id, as `saveDiary` takes it. */
  datatype NewDiary = NewDiary(
    title: string,
    originalContent: string,
    aiContent: string,
    createdAt: Stamp,
    updatedAt: Stamp)

  /** The object handed to an insert; a timestamp left out takes the column default NOW(). */
  datatype InsertPayload = InsertPayload(
    title: string,
    originalContent: string,
    aiContent: string,
    createdAt: Option<Stamp>,
    updatedAt: Option<Stamp>)

  /** `Partial<Omit<Diary, 'id'>>`: the fields an update supplies. */
  datatype Patch = Patch(
    title: Option<string>,
    originalContent: Option<string>,
    aiContent: Option<string>,
    createdAt: Option<Stamp>,
    updatedAt: Option<Stamp>)

  // ---------------------------------------------------------------------------
  // Configuration and the fallback wrapper

  const DummyUrl: string := "https://dummy.supabase.co"
  const DummyKey: string := "dummy_key"

  datatype Config = Config(url: string, anonKey: string)

  /** The URL and key read from the environment, where an unset or empty variable falls back to the dummy value. */
  function LoadConfig(envUrl: string, envKey: string): Config {
    Config(if envUrl == "" then DummyUrl else envUrl, if envKey == "" then DummyKey else envKey)
  }

  /** `isSupabaseConfigured`. */
  predicate IsConfigured(cfg: Config) {
    cfg.url != DummyUrl && cfg.anonKey != DummyKey
  }

  /** The store counts as configured exactly when both variables are set to something other than the dummy values. */
  lemma ConfiguredIffEnvSet(envUrl: string, envKey: string)
    ensures IsConfigured(LoadConfig(envUrl, envKey))
        <==> envUrl != "" && envUrl != DummyUrl && envKey != "" && envKey != DummyKey
  {
  }

  /** What a backend operation does when it runs: return a value or throw. */
  datatype Outcome<T> = Returned(value: T) | Threw

  /** The wrapper's result, and whether it ran the operation at all. */
  datatype Guarded<T> = Guarded(value: T, invoked: bool)

  /**
   * `safeSupabaseOperation`: when the store is not configured the operation is
   * never run and the fallback is returned; a throwing operation also yields
   * the fallback and nothing propagates; otherwise its result passes through.
   */
  function SafeOperation<T>(cfg: Config, operation: Outcome<T>, fallback: T): (r: Guarded<T>)
    ensures !IsConfigured(cfg) ==> !r.invoked && r.value == fallback
    ensures IsConfigured(cfg) ==> r.invoked
    ensures IsConfigured(cfg) && operation.Threw? ==> r.value == fallback
    ensures IsConfigured(cfg) && operation.Returned? ==> r.value == operation.value
  {
    if !IsConfigured(cfg) then Guarded(fallback, false)
    else match operation
      case Returned(v) => Guarded(v, true)
      case Threw => Guarded(fallback, true)
  }

  /** A backend query that answers `value` unless the backend reports an error. */
  function Query<T>(fails: bool, value: T): Outcome<T> {
    if fails then Threw else Returned(value)
  }

  // ---------------------------------------------------------------------------
  // Ordering by created_at

  /** `a` may come before `b` in an `order('created_at', { ascending })` result. */
  predicate InOrder(a: Diary, b: Diary, ascending: bool) {
    if ascending then AtOrBefore(a.createdAt, b.createdAt) else AtOrBefore(b.createdAt, a.createdAt)
  }

  function CreatedOrder(ascending: bool): (Diary, Diary) -> bool {
    (a: Diary, b: Diary) => InOrder(a, b, ascending)
  }

  /** Ordering by `created_at`, either way, is total and transitive. */
  lemma CreatedOrderIsTotalPreorder(ascending: bool)
    ensures TotalPreorder(CreatedOrder(ascending))
  {
  }

  predicate SortedByCreated(s: seq<Diary>, ascending: bool) {
    SortedBy(s, CreatedOrder(ascending))
  }

  /**
   * The rows in `created_at` order: a sorted permutation of the input. The
   * database leaves the order of equal timestamps unspecified, and so does
   * this contract.
   */
  function SortByCreated(s: seq<Diary>, ascending: bool): (r: seq<Diary>)
    ensures SortedByCreated(r, ascending)
    ensures multiset(r) == multiset(s)
  {
    CreatedOrderIsTotalPreorder(ascending);
    SortBy(s, CreatedOrder(ascending))
  }

  // ---------------------------------------------------------------------------
  // Row filters used by the queries

  function IdIs(id: int): Diary -> bool {
    (x: Diary) => x.id == id
  }

  function IdIsNot(id: int): Diary -> bool {
    (x: Diary) => x.id != id
  }

  function OnDay(d: CivilDate): Diary -> bool {
    (x: Diary) => InDayWindow(x.createdAt, d)
  }

  function InMonth(year: int, month: int): Diary -> bool {
    (x: Diary) => InMonthWindow(x.createdAt, year, month)
  }

  /** No two rows share an id (the table's primary key). */
  predicate UniqueIds(rows: seq<Diary>) {
    forall i, j :: 0 <= i < j < |rows| ==> rows[i].id != rows[j].id
  }

  /** With unique ids, at most one row matches an id. */
  lemma {:induction false} AtMostOneWithId(rows: seq<Diary>, id: int)
    requires UniqueIds(rows)
    ensures |Filter(rows, IdIs(id))| <= 1
  {
    if rows != [] {
      assert UniqueIds(rows[1..]) by {
        forall i, j | 0 <= i < j < |rows[1..]| ensures rows[1..][i].id != rows[1..][j].id {
          assert rows[1..][i] == rows[i + 1] && rows[1..][j] == rows[j + 1];
        }
      }
      AtMostOneWithId(rows[1..], id);
      if rows[0].id == id {
        forall k | 0 <= k < |rows[1..]| ensures !IdIs(id)(rows[1..][k]) {
          assert rows[1..][k] == rows[k + 1];
        }
        FilterNone(rows[1..], IdIs(id));
      }
    }
  }

  /** An update's field-wise merge: supplied fields replace, others stay. The id never changes. */
  function Merge(d: Diary, p: Patch): Diary {
    Diary(
      d.id,
      p.title.GetOr(d.title),
      p.originalContent.GetOr(d.originalContent),
      p.aiContent.GetOr(d.aiContent),
      p.createdAt.GetOr(d.createdAt),
      p.updatedAt.GetOr(d.updatedAt))
  }

  /** `update(patch).eq('id', id)` on the rows. */
  function Patched(rows: seq<Diary>, id: int, p: Patch): (r: seq<Diary>)
    ensures |r| == |rows|
  {
    seq(|rows|, i requires 0 <= i < |rows| => if rows[i].id == id then Merge(rows[i], p) else rows[i])
  }

  /**
   * An update leaves every row with another id as it was; with no row of
   * that id the table is unchanged.
   */
  lemma PatchedTouchesOnlyId(rows: seq<Diary>, id: int, p: Patch)
    ensures forall i :: 0 <= i < |rows| && rows[i].id != id ==> Patched(rows, id, p)[i] == rows[i]
    ensures (forall x :: x in rows ==> x.id != id) ==> Patched(rows, id, p) == rows
  {
    if forall x :: x in rows ==> x.id != id {
      assert forall i :: 0 <= i < |rows| ==> rows[i] in rows;
    }
  }

  /** A row built from an insert payload, given the id the sequence assigns and the database clock. */
  function Materialise(id: int, p: InsertPayload, now: Stamp): Diary {
    Diary(id, p.title, p.originalContent, p.aiContent, p.createdAt.GetOr(now), p.updatedAt.GetOr(now))
  }

  // ---------------------------------------------------------------------------
  // The table

  /** The `diaries` table: its rows, and the next value of its BIGSERIAL id sequence. */
  class DiaryTable {
    var rows: seq<Diary>
    var nextId: int

    ghost predicate Valid()
      reads this
    {
      nextId >= 1
      && UniqueIds(rows)
      && forall i :: 0 <= i < |rows| ==> 1 <= rows[i].id < nextId
    }

    constructor ()
      ensures Valid() && rows == [] && nextId == 1
    {
      rows := [];
      nextId := 1;
    }

    /** `insert(p)`: on success the new row, with a fresh id, is appended. */
    method Insert(p: InsertPayload, now: Stamp, fails: bool) returns (ok: bool)
      requires Valid()
      modifies this
      ensures Valid()
      ensures ok == !fails
      ensures ok ==> rows == old(rows) + [Materialise(old(nextId), p, now)] && nextId == old(nextId) + 1
      ensures !ok ==> rows == old(rows) && nextId == old(nextId)
    {
      if fails {
        return false;
      }
      rows := rows + [Materialise(nextId, p, now)];
      nextId := nextId + 1;
      ok := true;
    }

    /** `update(p).eq('id', id)`: merges `p` into every row with that id; matching no row is not an error. */
    method UpdateWhere(id: int, p: Patch, fails: bool) returns (ok: bool)
      requires Valid()
      modifies this
      ensures Valid() && nextId == old(nextId)
      ensures ok == !fails
      ensures rows == if ok then Patched(old(rows), id, p) else old(rows)
    {
      if fails {
        return false;
      }
      rows := Patched(rows, id, p);
      ok := true;
    }

    /** `delete().eq('id', id)`: removes the rows with that id, keeping the order of the rest. */
    method DeleteWhere(id: int, fails: bool) returns (ok: bool)
      requires Valid()
      modifies this
      ensures Valid() && nextId == old(nextId)
      ensures ok == !fails
      ensures rows == if ok then Filter(old(rows), IdIsNot(id)) else old(rows)
    {
      if fails {
        return false;
      }
      var kept := Filter(rows, IdIsNot(id));
      FilterKeepsUniqueIds(rows, IdIsNot(id));
      forall i | 0 <= i < |kept| ensures 1 <= kept[i].id < nextId {
        assert kept[i] in rows;
      }
      rows := kept;
      ok := true;
    }
  }

  /** Filtering keeps the ids unique. */
  lemma {:induction false} FilterKeepsUniqueIds(rows: seq<Diary>, keep: Diary -> bool)
    requires UniqueIds(rows)
    ensures UniqueIds(Filter(rows, keep))
  {
    if rows != [] {
      assert UniqueIds(rows[1..]) by {
        forall i, j | 0 <= i < j < |rows[1..]| ensures rows[1..][i].id != rows[1..][j].id {
          assert rows[1..][i] == rows[i + 1] && rows[1..][j] == rows[j + 1];
        }
      }
      FilterKeepsUniqueIds(rows[1..], keep);
      var tail := Filter(rows[1..], keep);
      if keep(rows[0]) {
        forall j | 0 <= j < |tail| ensures rows[0].id != tail[j].id {
          assert tail[j] in rows[1..];
          var k :| 0 <= k < |rows[1..]| && rows[1..][k] == tail[j];
          assert rows[k + 1] == tail[j];
        }
        var r := [rows[0]] + tail;
        forall i, j | 0 <= i < j < |r| ensures r[i].id != r[j].id {
          if i > 0 {
            assert r[i] == tail[i - 1] && r[j] == tail[j - 1];
          } else {
            assert r[j] == tail[j - 1];
          }
        }
      }
    }
  }

  // ---------------------------------------------------------------------------
  // safeDiaryOperations

  /** `getDiaries`: every row, newest first; `[]` when unconfigured or on a backend error. */
  function GetDiaries(cfg: Config, table: DiaryTable, fails: bool): (r: seq<Diary>)
    reads table
    ensures !IsConfigured(cfg) || fails ==> r == []
    ensures IsConfigured(cfg) && !fails
        ==> SortedByCreated(r, false) && multiset(r) == multiset(table.rows)
  {
    SafeOperation(cfg, Query(fails, SortByCreated(table.rows, false)), []).value
  }

  /** No row of that day is later than `latest`. */
  predicate NoLaterOnDay(rows: seq<Diary>, date: CivilDate, latest: Diary) {
    forall x :: x in rows && InDayWindow(x.createdAt, date) ==> AtOrBefore(x.createdAt, latest.createdAt)
  }

  /** The by-date query on row values: day window, newest first, limit 1. */
  function LatestOnDay(rows: seq<Diary>, date: CivilDate): Option<Diary> {
    var found := SortByCreated(Filter(rows, OnDay(date)), false);
    if |found| > 0 then Some(found[0]) else None
  }

  /** The by-date query returns a row of that day with no later row on that day, and finds one whenever the day has rows. */
  lemma LatestOnDayIsLatest(rows: seq<Diary>, date: CivilDate)
    ensures LatestOnDay(rows, date) == None <==> forall x :: x in rows ==> !InDayWindow(x.createdAt, date)
    ensures LatestOnDay(rows, date).Some? ==>
      var latest := LatestOnDay(rows, date).value;
      && latest in rows && InDayWindow(latest.createdAt, date)
      && NoLaterOnDay(rows, date, latest)
  {
    var onDay := Filter(rows, OnDay(date));
    var found := SortByCreated(onDay, false);
    assert forall x :: x in onDay <==> x in found by {
      assert forall x :: x in onDay <==> x in multiset(onDay);
    }
    if |found| > 0 {
      assert found[0] in found;
      forall x | x in onDay ensures AtOrBefore(x.createdAt, found[0].createdAt) {
        var j :| 0 <= j < |found| && found[j] == x;
        if j > 0 {
          assert InOrder(found[0], found[j], false);
        }
      }
    } else {
      assert forall x :: x in rows ==> !InDayWindow(x.createdAt, date) by {
        assert forall x :: x in rows && InDayWindow(x.createdAt, date) ==> x in onDay;
      }
    }
  }

  /**
   * `getDiaryByDate`: the row with the greatest `created_at` in the half-open
   * window [date 00:00:00.000Z, date 23:59:59.999Z), or null when there is
   * none, when unconfigured, or on a backend error.
   */
  function GetDiaryByDate(cfg: Config, table: DiaryTable, date: CivilDate, fails: bool): (r: Option<Diary>)
    reads table
    ensures !IsConfigured(cfg) || fails ==> r == None
    ensures IsConfigured(cfg) && !fails
        ==> (r == None <==> forall x :: x in table.rows ==> !InDayWindow(x.createdAt, date))
    ensures r.Some? ==> r.value in table.rows && InDayWindow(r.value.createdAt, date)
    ensures r.Some? ==> NoLaterOnDay(table.rows, date, r.value)
  {
    LatestOnDayIsLatest(table.rows, date);
    SafeOperation(cfg, Query(fails, LatestOnDay(table.rows, date)), None).value
  }

  /** `saveDiary`: inserts the row; true iff the store is configured and the backend reported no error. It does not look for an existing row on that day. */
  method SaveDiary(cfg: Config, table: DiaryTable, d: NewDiary, now: Stamp, fails: bool) returns (ok: bool)
    requires table.Valid()
    modifies table
    ensures table.Valid()
    ensures ok == (IsConfigured(cfg) && !fails)
    ensures table.rows == if ok
      then old(table.rows) + [Diary(old(table.nextId), d.title, d.originalContent, d.aiContent, d.createdAt, d.updatedAt)]
      else old(table.rows)
    ensures table.nextId == if ok then old(table.nextId) + 1 else old(table.nextId)
  {
    if !IsConfigured(cfg) {
      return false;
    }
    ok := table.Insert(
      InsertPayload(d.title, d.originalContent, d.aiContent, Some(d.createdAt), Some(d.updatedAt)), now, fails);
  }

  /** `updateDiary`: merges the supplied fields into the rows with that id; true iff configured and no backend error, even when no row has that id. */
  method UpdateDiary(cfg: Config, table: DiaryTable, id: int, p: Patch, fails: bool) returns (ok: bool)
    requires table.Valid()
    modifies table
    ensures table.Valid()
    ensures ok == (IsConfigured(cfg) && !fails)
    ensures table.rows == if ok then Patched(old(table.rows), id, p) else old(table.rows)
    ensures table.nextId == old(table.nextId)
  {
    if !IsConfigured(cfg) {
      return false;
    }
    ok := table.UpdateWhere(id, p, fails);
  }

  /** `deleteDiary`: removes the rows with that id; true iff configured and no backend error. */
  method DeleteDiary(cfg: Config, table: DiaryTable, id: int, fails: bool) returns (ok: bool)
    requires table.Valid()
    modifies table
    ensures table.Valid()
    ensures ok == (IsConfigured(cfg) && !fails)
    ensures table.rows == if ok then Filter(old(table.rows), IdIsNot(id)) else old(table.rows)
    ensures table.nextId == old(table.nextId)
  {
    if !IsConfigured(cfg) {
      return false;
    }
    ok := table.DeleteWhere(id, fails);
  }

  /**
   * `.eq('id', id).single()` on row values: the row when exactly one matches;
   * otherwise PostgREST answers PGRST116, which the source maps to null.
   */
  function SingleWithId(rows: seq<Diary>, id: int): Option<Diary> {
    var matches := Filter(rows, IdIs(id));
    if |matches| == 1 then Some(matches[0]) else None
  }

  /** The single-row lookup returns only a row with that id, and, ids being unique, finds it whenever it exists. */
  lemma SingleWithIdFinds(rows: seq<Diary>, id: int)
    ensures SingleWithId(rows, id).Some? ==> SingleWithId(rows, id).value in rows && SingleWithId(rows, id).value.id == id
    ensures UniqueIds(rows) ==> (SingleWithId(rows, id).Some? <==> exists x :: x in rows && x.id == id)
  {
    var matches := Filter(rows, IdIs(id));
    if UniqueIds(rows) {
      AtMostOneWithId(rows, id);
    }
    if |matches| > 0 {
      assert matches[0] in matches;
    }
  }

  /**
   * `getDiaryById`: the row with that id, or null; "no row" (PGRST116) is
   * null rather than an error, as are an unconfigured store and a backend
   * error.
   */
  function GetDiaryById(cfg: Config, table: DiaryTable, id: int, fails: bool): (r: Option<Diary>)
    reads table
    ensures !IsConfigured(cfg) || fails ==> r == None
    ensures r.Some? ==> r.value in table.rows && r.value.id == id
    ensures IsConfigured(cfg) && !fails && UniqueIds(table.rows)
        ==> (r.Some? <==> exists x :: x in table.rows && x.id == id)
  {
    SingleWithIdFinds(table.rows, id);
    SafeOperation(cfg, Query(fails, SingleWithId(table.rows, id)), None).value
  }

  /** The day numbers of the month's rows in ascending `created_at` order, before removing duplicates. */
  function MonthDayList(rows: seq<Diary>, year: int, month: int): (days: seq<int>)
  {
    var inMonth := SortByCreated(Filter(rows, InMonth(year, month)), true);
    seq(|inMonth|, i requires 0 <= i < |inMonth| => inMonth[i].createdAt.date.day)
  }

  /** Some row in the month window falls on day `k` of the month. */
  predicate HasEntryOnDay(rows: seq<Diary>, year: int, month: int, k: int) {
    exists x :: x in rows && InMonthWindow(x.createdAt, year, month) && x.createdAt.date.day == k
  }

  /** The day list holds exactly the day numbers of the rows in the month window. */
  lemma MonthDayListMembers(rows: seq<Diary>, year: int, month: int)
    ensures forall k :: k in MonthDayList(rows, year, month) <==> HasEntryOnDay(rows, year, month, k)
  {
    var inMonth := Filter(rows, InMonth(year, month));
    var sorted := SortByCreated(inMonth, true);
    var days := MonthDayList(rows, year, month);
    assert forall x :: x in inMonth <==> x in sorted by {
      assert forall x :: x in inMonth <==> x in multiset(inMonth);
    }
    forall k | k in days ensures HasEntryOnDay(rows, year, month, k) {
      var i :| 0 <= i < |days| && days[i] == k;
      assert sorted[i] in sorted;
    }
    forall k | HasEntryOnDay(rows, year, month, k) ensures k in days {
      var x :| x in rows && InMonthWindow(x.createdAt, year, month) && x.createdAt.date.day == k;
      assert x in sorted;
      var i :| 0 <= i < |sorted| && sorted[i] == x;
      assert days[i] == k;
    }
  }

  /**
   * `getDiaryDatesInMonth`: the distinct day numbers of the rows in the month
   * window, each once, in order of first appearance in the ascending list;
   * `[]` when unconfigured or on a backend error.
   */
  function GetDiaryDatesInMonth(cfg: Config, table: DiaryTable, year: int, month: int, fails: bool): (r: seq<int>)
    reads table
    ensures !IsConfigured(cfg) || fails ==> r == []
    ensures Distinct(r)
    ensures IsConfigured(cfg) && !fails ==> forall k :: k in r <==> HasEntryOnDay(table.rows, year, month, k)
    ensures IsConfigured(cfg) && !fails ==>
      forall i, j :: 0 <= i < j < |r| ==> FirstSeenBefore(MonthDayList(table.rows, year, month), r[i], r[j])
  {
    MonthDayListMembers(table.rows, year, month);
    DedupFirstSeenOrder(MonthDayList(table.rows, year, month));
    SafeOperation(cfg, Query(fails, Dedup(MonthDayList(table.rows, year, month))), []).value
  }

  /**
   * Saving an entry into an empty configured store and looking up its day
   * finds it; updating its enhanced text and looking again finds the new
   * text and the update time, the rest unchanged.
   */
  method SaveFindUpdateFind(cfg: Config, d: NewDiary, date: CivilDate, now: Stamp, aiContent: string, later: Stamp)
    returns (first: Option<Diary>, second: Option<Diary>)
    requires IsConfigured(cfg)
    requires InDayWindow(d.createdAt, date)
    ensures first == Some(Diary(1, d.title, d.originalContent, d.aiContent, d.createdAt, d.updatedAt))
    ensures second == Some(Diary(1, d.title, d.originalContent, aiContent, d.createdAt, later))
  {
    var table := new DiaryTable();
    var saved := SaveDiary(cfg, table, d, now, false);
    var x := Diary(1, d.title, d.originalContent, d.aiContent, d.createdAt, d.updatedAt);
    assert table.rows == [x];
    first := GetDiaryByDate(cfg, table, date, false);
    var updated := UpdateDiary(cfg, table, 1, Patch(None, None, Some(aiContent), None, Some(later)), false);
    assert table.rows == [Diary(1, d.title, d.originalContent, aiContent, d.createdAt, later)];
    second := GetDiaryByDate(cfg, table, date, false);
  }
}
