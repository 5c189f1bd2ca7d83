/**
 * The Telegram video cache index (`TelegramCacheManager`) and its two-pass eviction.
 *
 * The SQLite table `cache_entries` is a sequence of rows in rowid order, one row per
 * `file_id`; the disk is the set of paths that exist, plus the set of paths whose
 * `unlink` raises (a file held open or without permission). `time.time()` is the
 * parameter `now`, and the free space of the disk is a parameter as well.
 */
module CacheManager {
  import opened Options

  const GiB: int := 1024 * 1024 * 1024
  /** The space `available_for_cache` keeps free on the disk. */
  const Reserve: int := 5 * GiB

  // CacheSizeLimit
  const GB_2: int := 2 * GiB
  const GB_4: int := 4 * GiB
  const GB_6: int := 6 * GiB
  const GB_8: int := 8 * GiB
  const GB_10: int := 10 * GiB
  const GB_30: int := 30 * GiB
  const GB_50: int := 50 * GiB

  // CacheRetention, in seconds
  const DAYS_3: int := 3 * 24 * 60 * 60
  const WEEK_1: int := 7 * 24 * 60 * 60
  const MONTH_1: int := 30 * 24 * 60 * 60
  const UNLIMITED: int := -1

  datatype DiskInfo = DiskInfo(total: int, used: int, free: int, cacheUsed: int)

  /** `DiskInfo.available_for_cache`: the free space minus the reserve, never negative. */
  function AvailableForCache(d: DiskInfo): (r: int)
    ensures r >= 0 && r >= d.free - Reserve
    ensures r == 0 || r == d.free - Reserve
  {
    if d.free - Reserve > 0 then d.free - Reserve else 0
  }

  datatype CacheSettings = CacheSettings(sizeLimit: int, retentionPeriod: int, autoCleanupEnabled: bool)

  const DefaultSettings := CacheSettings(GB_10, WEEK_1, true)

  datatype CacheEntry = CacheEntry(
    fileId: string, messageId: int, chatId: int, filePath: string,
    fileSize: int, lastAccess: real, downloadTime: real)

  /** One offered cache size: its label, its value in bytes, and whether it fits the disk. */
  datatype SizeChoice = SizeChoice(text: string, value: int, enabled: bool)

  const AllLimits: seq<(string, int)> := [
    ("2 GB", GB_2), ("4 GB", GB_4), ("6 GB", GB_6), ("8 GB", GB_8),
    ("10 GB", GB_10), ("30 GB", GB_30), ("50 GB", GB_50)]

  // ---------------------------------------------------------------------------
  // The index as rows

  /** The `file_id`s present in the index. */
  function Ids(rows: seq<CacheEntry>): (r: set<string>)
    ensures forall e :: e in rows ==> e.fileId in r
    decreases |rows|
  {
    if rows == [] then {} else {rows[0].fileId} + Ids(rows[1..])
  }

  /** The primary-key constraint of the table: one row per `file_id`. */
  predicate UniqueIds(rows: seq<CacheEntry>)
    decreases |rows|
  {
    rows == [] || (rows[0].fileId !in Ids(rows[1..]) && UniqueIds(rows[1..]))
  }

  /** `SELECT SUM(file_size)`, reading an empty table's NULL as 0. */
  function TotalSize(rows: seq<CacheEntry>): int
    decreases |rows|
  {
    if rows == [] then 0 else rows[0].fileSize + TotalSize(rows[1..])
  }

  /** The rows whose `file_id` is not in `gone` (`DELETE ... WHERE file_id = ?`, repeated). */
  function Without(rows: seq<CacheEntry>, gone: set<string>): (r: seq<CacheEntry>)
    ensures |r| <= |rows|
    decreases |rows|
  {
    if rows == [] then []
    else if rows[0].fileId in gone then Without(rows[1..], gone)
    else [rows[0]] + Without(rows[1..], gone)
  }

  /** The rows kept are exactly the rows whose `file_id` is not in `gone`. */
  lemma {:induction false} WithoutMembers(rows: seq<CacheEntry>, gone: set<string>)
    ensures forall e :: e in Without(rows, gone) <==> e in rows && e.fileId !in gone
    decreases |rows|
  {
    if rows != [] {
      WithoutMembers(rows[1..], gone);
      assert rows == [rows[0]] + rows[1..];
    }
  }

  /** Deleting the id of a row the table holds removes at least one row. */
  lemma {:induction false} WithoutRowShrinks(rows: seq<CacheEntry>, e: CacheEntry)
    requires e in rows
    ensures |Without(rows, {e.fileId})| < |rows|
    decreases |rows|
  {
    if rows[0].fileId != e.fileId {
      assert e in rows[1..];
      WithoutRowShrinks(rows[1..], e);
    }
  }

  /** The rows whose `file_id` is in `ids`. */
  function Keep(rows: seq<CacheEntry>, ids: set<string>): (r: seq<CacheEntry>)
    ensures forall e :: e in r ==> e in rows && e.fileId in ids
    decreases |rows|
  {
    if rows == [] then []
    else if rows[0].fileId in ids then [rows[0]] + Keep(rows[1..], ids)
    else Keep(rows[1..], ids)
  }

  /** `SELECT ... WHERE file_id = ?`: the first row with that id. */
  function Find(rows: seq<CacheEntry>, id: string): (r: Option<CacheEntry>)
    ensures r.None? <==> id !in Ids(rows)
    ensures r.Some? ==> r.value in rows && r.value.fileId == id
    decreases |rows|
  {
    if rows == [] then None
    else if rows[0].fileId == id then Some(rows[0])
    else Find(rows[1..], id)
  }

  /** `UPDATE cache_entries SET last_access = now WHERE file_id = id`. */
  function Touch(rows: seq<CacheEntry>, id: string, now: real): (r: seq<CacheEntry>)
    ensures |r| == |rows|
    ensures forall i :: 0 <= i < |rows| ==>
      r[i] == if rows[i].fileId == id then rows[i].(lastAccess := now) else rows[i]
    decreases |rows|
  {
    if rows == [] then []
    else [if rows[0].fileId == id then rows[0].(lastAccess := now) else rows[0]] + Touch(rows[1..], id, now)
  }

  /** `INSERT OR REPLACE`: the row with the same `file_id` is deleted and the new row appended. */
  function AddRow(rows: seq<CacheEntry>, e: CacheEntry): (r: seq<CacheEntry>)
    ensures 1 <= |r| <= |rows| + 1 && r[|r| - 1] == e
  {
    Without(rows, {e.fileId}) + [e]
  }

  /** `ORDER BY last_access ASC LIMIT 1`: the first row with the least `last_access`. */
  function Oldest(rows: seq<CacheEntry>): (e: CacheEntry)
    requires rows != []
    ensures e in rows
    ensures forall w :: w in rows ==> e.lastAccess <= w.lastAccess
    decreases |rows|
  {
    if |rows| == 1 then rows[0]
    else
      var o := Oldest(rows[1..]);
      if rows[0].lastAccess <= o.lastAccess then rows[0] else o
  }

  /** `SELECT ... WHERE last_access < cutoff`. */
  function Expired(rows: seq<CacheEntry>, cutoff: real): (r: seq<CacheEntry>)
    ensures forall e :: e in r <==> e in rows && e.lastAccess < cutoff
    decreases |rows|
  {
    if rows == [] then []
    else (if rows[0].lastAccess < cutoff then [rows[0]] else []) + Expired(rows[1..], cutoff)
  }

  // ---------------------------------------------------------------------------
  // Index and disk together

  datatype Store = Store(rows: seq<CacheEntry>, files: set<string>)

  /** Bytes freed by a deletion step and the state it leaves. */
  datatype Pass = Pass(freed: int, store: Store)

  /** The file exists and `unlink` raises on it. */
  predicate Stuck(s: Store, e: CacheEntry, locked: set<string>) {
    e.filePath in s.files && e.filePath in locked
  }

  /** `_delete_cached_file`: unlink the file if it exists and drop the row. When unlink
      raises, nothing changes and 0 is returned. A file that is already gone counts in full. */
  function DeleteFile(s: Store, e: CacheEntry, locked: set<string>): (p: Pass)
    ensures p.freed == 0 || p.freed == e.fileSize
    ensures |p.store.rows| <= |s.rows| && p.store.files <= s.files
  {
    if Stuck(s, e, locked) then Pass(0, s)
    else Pass(e.fileSize, Store(Without(s.rows, {e.fileId}), s.files - {e.filePath}))
  }

  /** `_delete_cached_file` for each row of a fetched result set, in turn. */
  function DeleteAll(s: Store, victims: seq<CacheEntry>, locked: set<string>): (p: Pass)
    ensures |p.store.rows| <= |s.rows| && p.store.files <= s.files
    decreases |victims|
  {
    if victims == [] then Pass(0, s)
    else
      var p := DeleteFile(s, victims[0], locked);
      var q := DeleteAll(p.store, victims[1..], locked);
      Pass(p.freed + q.freed, q.store)
  }

  /** The first pass of `cleanup`: expire rows not accessed for `retention` seconds. */
  function AgePass(s: Store, retention: int, now: real, locked: set<string>): (p: Pass)
    ensures |p.store.rows| <= |s.rows| && p.store.files <= s.files
    ensures retention <= 0 ==> p.freed == 0
  {
    if retention > 0 then DeleteAll(s, Expired(s.rows, now - retention as real), locked)
    else Pass(0, s)
  }

  /** The second pass of `cleanup`: delete the least recently used row while the total
      exceeds `limit`. None when the chosen row cannot be deleted: the source then picks the
      same row again forever. */
  function SizePass(s: Store, limit: int, locked: set<string>): (r: Option<Pass>)
    ensures r.Some? ==> TotalSize(r.value.store.rows) <= limit || r.value.store.rows == []
    decreases |s.rows|
  {
    if TotalSize(s.rows) <= limit || s.rows == [] then Some(Pass(0, s))
    else
      var e := Oldest(s.rows);
      if Stuck(s, e, locked) then None
      else
        var p := DeleteFile(s, e, locked);
        WithoutRowShrinks(s.rows, e);
        match SizePass(p.store, limit, locked)
        case None => None
        case Some(q) => Some(Pass(p.freed + q.freed, q.store))
  }

  /** `cleanup`: the age pass, then the size pass; None when it never returns. */
  function AfterCleanup(s: Store, settings: CacheSettings, now: real, locked: set<string>): Option<Pass> {
    var a := AgePass(s, settings.retentionPeriod, now, locked);
    match SizePass(a.store, settings.sizeLimit, locked)
    case None => None
    case Some(b) => Some(Pass(a.freed + b.freed, b.store))
  }

  /** `get_cached_path`: the path when the row and its file exist (refreshing the row's
      access time), otherwise None, dropping a row whose file has vanished. */
  function Lookup(s: Store, id: string, now: real): (r: (Option<string>, Store))
    ensures r.1.files == s.files
    ensures r.0.Some? <==> Find(s.rows, id).Some? && Find(s.rows, id).value.filePath in s.files
    ensures r.0.Some? ==> r.0.value == Find(s.rows, id).value.filePath && r.1.rows == Touch(s.rows, id, now)
    ensures r.0.None? && id in Ids(s.rows) ==> r.1.rows == Without(s.rows, {id})
    ensures id !in Ids(s.rows) ==> r == (None, s)
  {
    match Find(s.rows, id)
    case None => (None, s)
    case Some(e) =>
      if e.filePath in s.files then (Some(e.filePath), Store(Touch(s.rows, id, now), s.files))
      else (None, Store(Without(s.rows, {id}), s.files))
  }

  /** `add_entry`: insert or replace, then clean up when automatic cleanup is on.
      None when that cleanup never returns. */
  function AfterAddEntry(s: Store, e: CacheEntry, settings: CacheSettings, now: real, locked: set<string>): Option<Store> {
    var s1 := Store(AddRow(s.rows, e), s.files);
    if !settings.autoCleanupEnabled then Some(s1)
    else match AfterCleanup(s1, settings, now, locked)
      case None => None
      case Some(p) => Some(p.store)
  }

  /** `clear_all`: `_delete_cached_file` for every row. */
  function AfterClearAll(s: Store, locked: set<string>): Pass {
    DeleteAll(s, s.rows, locked)
  }

  // ---------------------------------------------------------------------------
  // Laws of the row functions

  /** `b` is `a` with the rows of some ids removed and every other row kept as it was. */
  ghost predicate Shrinks(a: seq<CacheEntry>, b: seq<CacheEntry>) {
    b == Without(a, Ids(a) - Ids(b))
  }

  /** A row of a table that only shrank was a row before. */
  lemma ShrinksMembers(a: seq<CacheEntry>, b: seq<CacheEntry>)
    requires Shrinks(a, b)
    ensures forall e :: e in b ==> e in a
  {
    WithoutMembers(a, Ids(a) - Ids(b));
  }

  lemma {:induction false} TotalSizeAppend(a: seq<CacheEntry>, b: seq<CacheEntry>)
    ensures TotalSize(a + b) == TotalSize(a) + TotalSize(b)
    decreases |a|
  {
    if a == [] {
      assert a + b == b;
    } else {
      assert (a + b)[1..] == a[1..] + b;
      TotalSizeAppend(a[1..], b);
    }
  }

  /** The total is the size of the rows kept plus the size of the rows removed. */
  lemma {:induction false} TotalSizeSplit(rows: seq<CacheEntry>, ids: set<string>)
    ensures TotalSize(rows) == TotalSize(Without(rows, ids)) + TotalSize(Keep(rows, ids))
    decreases |rows|
  {
    if rows != [] {
      TotalSizeSplit(rows[1..], ids);
    }
  }

  lemma {:induction false} IdsWithout(rows: seq<CacheEntry>, gone: set<string>)
    ensures Ids(Without(rows, gone)) == Ids(rows) - gone
    decreases |rows|
  {
    if rows != [] {
      IdsWithout(rows[1..], gone);
    }
  }

  lemma {:induction false} UniqueWithout(rows: seq<CacheEntry>, gone: set<string>)
    requires UniqueIds(rows)
    ensures UniqueIds(Without(rows, gone))
    decreases |rows|
  {
    if rows != [] {
      UniqueWithout(rows[1..], gone);
      IdsWithout(rows[1..], gone);
    }
  }

  lemma {:induction false} WithoutWithout(rows: seq<CacheEntry>, a: set<string>, b: set<string>)
    ensures Without(Without(rows, a), b) == Without(rows, a + b)
    decreases |rows|
  {
    if rows != [] {
      WithoutWithout(rows[1..], a, b);
    }
  }

  /** Only the ids that occur matter to a removal. */
  lemma {:induction false} WithoutOccurring(rows: seq<CacheEntry>, gone: set<string>)
    ensures Without(rows, gone) == Without(rows, gone * Ids(rows))
    decreases |rows|
  {
    if rows != [] {
      WithoutOccurring(rows[1..], gone);
      WithoutSame(rows[1..], gone * Ids(rows[1..]), gone * Ids(rows));
    }
  }

  lemma {:induction false} WithoutSame(rows: seq<CacheEntry>, a: set<string>, b: set<string>)
    requires a * Ids(rows) == b * Ids(rows)
    ensures Without(rows, a) == Without(rows, b)
    decreases |rows|
  {
    if rows != [] {
      var x := rows[0].fileId;
      assert x in Ids(rows);
      assert x in a <==> x in b by {
        assert x in a ==> x in a * Ids(rows);
        assert x in b ==> x in b * Ids(rows);
      }
      assert a * Ids(rows[1..]) == b * Ids(rows[1..]) by {
        assert Ids(rows[1..]) <= Ids(rows);
        forall y | y in Ids(rows[1..]) ensures y in a <==> y in b {
          assert y in a ==> y in a * Ids(rows);
          assert y in b ==> y in b * Ids(rows);
        }
      }
      WithoutSame(rows[1..], a, b);
    }
  }

  lemma {:induction false} WithoutNothing(rows: seq<CacheEntry>)
    ensures Without(rows, {}) == rows
    decreases |rows|
  {
    if rows != [] {
      WithoutNothing(rows[1..]);
    }
  }

  lemma ShrinksRefl(a: seq<CacheEntry>)
    ensures Shrinks(a, a)
  {
    WithoutNothing(a);
    assert Ids(a) - Ids(a) == {};
  }

  lemma ShrinksRemove(a: seq<CacheEntry>, gone: set<string>)
    ensures Shrinks(a, Without(a, gone))
  {
    IdsWithout(a, gone);
    WithoutOccurring(a, gone);
    assert Ids(a) - Ids(Without(a, gone)) == gone * Ids(a);
  }

  lemma ShrinksTrans(a: seq<CacheEntry>, b: seq<CacheEntry>, c: seq<CacheEntry>)
    requires Shrinks(a, b) && Shrinks(b, c)
    ensures Shrinks(a, c)
  {
    IdsWithout(a, Ids(a) - Ids(b));
    IdsWithout(b, Ids(b) - Ids(c));
    WithoutWithout(a, Ids(a) - Ids(b), Ids(b) - Ids(c));
    assert (Ids(a) - Ids(b)) + (Ids(b) - Ids(c)) == Ids(a) - Ids(c);
  }

  /** Two rows with the same id in a valid index are the same row. */
  lemma {:induction false} SameIdSameRow(rows: seq<CacheEntry>, v: CacheEntry, w: CacheEntry)
    requires UniqueIds(rows) && v in rows && w in rows && v.fileId == w.fileId
    ensures v == w
    decreases |rows|
  {
    if v != rows[0] && w != rows[0] {
      assert v in rows[1..] && w in rows[1..];
      SameIdSameRow(rows[1..], v, w);
    }
  }

  /** Deleting a present row of a valid index frees exactly its size. */
  lemma {:induction false} TotalSizeWithoutRow(rows: seq<CacheEntry>, e: CacheEntry)
    requires UniqueIds(rows) && e in rows
    ensures TotalSize(Without(rows, {e.fileId})) == TotalSize(rows) - e.fileSize
    decreases |rows|
  {
    if rows[0] == e {
      WithoutSame(rows[1..], {e.fileId}, {});
      WithoutNothing(rows[1..]);
    } else {
      assert e in rows[1..];
      TotalSizeWithoutRow(rows[1..], e);
    }
  }

  // ---------------------------------------------------------------------------
  // Laws of the passes

  /** A deletion step only removes rows and files; a path that exists and is locked stays. */
  lemma DeleteFileLaw(s: Store, e: CacheEntry, locked: set<string>)
    requires UniqueIds(s.rows)
    ensures var p := DeleteFile(s, e, locked);
      && Shrinks(s.rows, p.store.rows) && UniqueIds(p.store.rows)
      && p.store.files <= s.files && s.files * locked <= p.store.files
      && (e in s.rows ==> p.freed == TotalSize(s.rows) - TotalSize(p.store.rows))
      && (e in p.store.rows ==> Stuck(s, e, locked) && Stuck(p.store, e, locked))
  {
    var p := DeleteFile(s, e, locked);
    if Stuck(s, e, locked) {
      ShrinksRefl(s.rows);
    } else {
      ShrinksRemove(s.rows, {e.fileId});
      UniqueWithout(s.rows, {e.fileId});
      WithoutMembers(s.rows, {e.fileId});
      if e in s.rows {
        TotalSizeWithoutRow(s.rows, e);
      }
    }
  }

  /** Deleting the rows of a result set: the index only shrinks, the freed bytes are the
      sizes of the rows that went, and a victim that stayed is one whose file is locked. */
  lemma {:induction false} DeleteAllLaw(s: Store, victims: seq<CacheEntry>, locked: set<string>)
    requires UniqueIds(s.rows) && UniqueIds(victims)
    requires forall v :: v in victims ==> v in s.rows
    ensures var p := DeleteAll(s, victims, locked);
      && Shrinks(s.rows, p.store.rows) && UniqueIds(p.store.rows)
      && p.store.files <= s.files && s.files * locked <= p.store.files
      && p.freed == TotalSize(s.rows) - TotalSize(p.store.rows)
      && (forall v :: v in victims && v in p.store.rows ==> Stuck(p.store, v, locked))
    decreases |victims|
  {
    var p := DeleteAll(s, victims, locked);
    if victims == [] {
      ShrinksRefl(s.rows);
    } else {
      var v0 := victims[0];
      var d := DeleteFile(s, v0, locked);
      DeleteFileLaw(s, v0, locked);
      WithoutMembers(s.rows, {v0.fileId});
      forall v | v in victims[1..] ensures v in d.store.rows {
        assert v in s.rows;
        assert v.fileId != v0.fileId by {
          assert v0.fileId !in Ids(victims[1..]);
        }
      }
      DeleteAllLaw(d.store, victims[1..], locked);
      ShrinksTrans(s.rows, d.store.rows, p.store.rows);
      forall v | v in victims && v in p.store.rows ensures Stuck(p.store, v, locked) {
        if v != v0 {
          assert v in victims[1..];
        } else {
          ShrinksMembers(d.store.rows, p.store.rows);
        }
      }
    }
  }

  /** The age pass: with a positive retention every surviving row was
      accessed at or after `now - retention`, unless its file is locked; with a retention of
      0 or UNLIMITED nothing changes. */
  lemma AgePassLaw(s: Store, retention: int, now: real, locked: set<string>)
    requires UniqueIds(s.rows)
    ensures var p := AgePass(s, retention, now, locked);
      && Shrinks(s.rows, p.store.rows) && UniqueIds(p.store.rows)
      && p.freed == TotalSize(s.rows) - TotalSize(p.store.rows)
      && p.store.files <= s.files && s.files * locked <= p.store.files
      && (retention > 0 ==> forall w :: w in p.store.rows ==>
            w.lastAccess >= now - retention as real || Stuck(p.store, w, locked))
      && (retention <= 0 ==> p == Pass(0, s))
  {
    if retention > 0 {
      DeleteExpiredLaw(s, now - retention as real, locked);
    } else {
      ShrinksRefl(s.rows);
    }
  }

  /** Deleting the rows accessed before `cutoff`: what survives is recent or locked. */
  lemma DeleteExpiredLaw(s: Store, cutoff: real, locked: set<string>)
    requires UniqueIds(s.rows)
    ensures var p := DeleteAll(s, Expired(s.rows, cutoff), locked);
      && Shrinks(s.rows, p.store.rows) && UniqueIds(p.store.rows)
      && p.freed == TotalSize(s.rows) - TotalSize(p.store.rows)
      && p.store.files <= s.files && s.files * locked <= p.store.files
      && (forall w :: w in p.store.rows ==> w.lastAccess >= cutoff || Stuck(p.store, w, locked))
  {
    var vs := Expired(s.rows, cutoff);
    ExpiredUnique(s.rows, cutoff);
    DeleteAllLaw(s, vs, locked);
    var p := DeleteAll(s, vs, locked);
    ShrinksMembers(s.rows, p.store.rows);
    forall w | w in p.store.rows
      ensures w.lastAccess >= cutoff || Stuck(p.store, w, locked)
    {
      if w.lastAccess < cutoff {
        assert w in vs;
      }
    }
  }

  lemma {:induction false} ExpiredUnique(rows: seq<CacheEntry>, cutoff: real)
    requires UniqueIds(rows)
    ensures UniqueIds(Expired(rows, cutoff))
    decreases |rows|
  {
    if rows != [] {
      ExpiredUnique(rows[1..], cutoff);
      ExpiredIds(rows[1..], cutoff);
      var t := Expired(rows[1..], cutoff);
      if rows[0].lastAccess < cutoff {
        assert Expired(rows, cutoff) == [rows[0]] + t;
        assert ([rows[0]] + t)[1..] == t;
      } else {
        assert Expired(rows, cutoff) == t;
      }
    }
  }

  lemma {:induction false} ExpiredIds(rows: seq<CacheEntry>, cutoff: real)
    ensures Ids(Expired(rows, cutoff)) <= Ids(rows)
    decreases |rows|
  {
    if rows != [] {
      ExpiredIds(rows[1..], cutoff);
      var t := Expired(rows[1..], cutoff);
      if rows[0].lastAccess < cutoff {
        assert ([rows[0]] + t)[1..] == t;
      } else {
        assert [] + t == t;
      }
    }
  }

  /** The size pass: when it returns, the total is within the limit or
      the index is empty, the freed bytes are the sizes of the rows that went, and every
      evicted row was accessed no later than any surviving row (strict LRU). */
  lemma {:induction false} SizePassLaw(s: Store, limit: int, locked: set<string>)
    requires UniqueIds(s.rows) && SizePass(s, limit, locked).Some?
    ensures var p := SizePass(s, limit, locked).value;
      && Shrinks(s.rows, p.store.rows) && UniqueIds(p.store.rows)
      && (TotalSize(p.store.rows) <= limit || p.store.rows == [])
      && p.freed == TotalSize(s.rows) - TotalSize(p.store.rows)
      && p.store.files <= s.files && s.files * locked <= p.store.files
      && (forall v, w :: v in s.rows && w in p.store.rows && v.fileId !in Ids(p.store.rows) ==>
            v.lastAccess <= w.lastAccess)
    decreases |s.rows|
  {
    var p := SizePass(s, limit, locked).value;
    if TotalSize(s.rows) <= limit || s.rows == [] {
      ShrinksRefl(s.rows);
    } else {
      var e := Oldest(s.rows);
      var d := DeleteFile(s, e, locked);
      DeleteFileLaw(s, e, locked);
      WithoutRowShrinks(s.rows, e);
      SizePassLaw(d.store, limit, locked);
      ShrinksTrans(s.rows, d.store.rows, p.store.rows);
      ShrinksMembers(s.rows, p.store.rows);
      WithoutMembers(s.rows, {e.fileId});
      forall v, w | v in s.rows && w in p.store.rows && v.fileId !in Ids(p.store.rows)
        ensures v.lastAccess <= w.lastAccess
      {
        if v.fileId == e.fileId {
          SameIdSameRow(s.rows, v, e);
        } else {
          assert v in d.store.rows;
        }
      }
    }
  }

  /** When no existing file is locked, the size pass always returns. */
  lemma {:induction false} SizePassReturns(s: Store, limit: int, locked: set<string>)
    requires s.files * locked == {}
    ensures SizePass(s, limit, locked).Some?
    decreases |s.rows|
  {
    if !(TotalSize(s.rows) <= limit || s.rows == []) {
      var e := Oldest(s.rows);
      assert !Stuck(s, e, locked) by {
        assert e.filePath in s.files && e.filePath in locked ==> e.filePath in s.files * locked;
      }
      var d := DeleteFile(s, e, locked);
      WithoutRowShrinks(s.rows, e);
      assert d.store.files * locked == {} by {
        assert d.store.files <= s.files;
      }
      SizePassReturns(d.store, limit, locked);
    }
  }

  /** `cleanup` as a whole: it only removes rows, returns the sizes of what it removed, and
      leaves the total within the limit (or the index empty). */
  lemma CleanupLaw(s: Store, settings: CacheSettings, now: real, locked: set<string>)
    requires UniqueIds(s.rows)
    ensures s.files * locked == {} ==> AfterCleanup(s, settings, now, locked).Some?
    ensures AfterCleanup(s, settings, now, locked).Some? ==>
      var p := AfterCleanup(s, settings, now, locked).value;
      && Shrinks(s.rows, p.store.rows) && UniqueIds(p.store.rows)
      && (TotalSize(p.store.rows) <= settings.sizeLimit || p.store.rows == [])
      && p.freed == TotalSize(s.rows) - TotalSize(p.store.rows)
  {
    var a := AgePass(s, settings.retentionPeriod, now, locked);
    AgePassLaw(s, settings.retentionPeriod, now, locked);
    if s.files * locked == {} {
      assert a.store.files * locked == {} by { assert a.store.files <= s.files; }
      SizePassReturns(a.store, settings.sizeLimit, locked);
    }
    if SizePass(a.store, settings.sizeLimit, locked).Some? {
      SizePassLaw(a.store, settings.sizeLimit, locked);
      ShrinksTrans(s.rows, a.store.rows, AfterCleanup(s, settings, now, locked).value.store.rows);
    }
  }

  /** `clear_all`: with no locked file it empties the index and returns
      the total it held; in any case it returns the sizes of the rows it removed. */
  lemma ClearAllLaw(s: Store, locked: set<string>)
    requires UniqueIds(s.rows)
    ensures var p := AfterClearAll(s, locked);
      && p.freed == TotalSize(s.rows) - TotalSize(p.store.rows)
      && (forall w :: w in p.store.rows ==> Stuck(p.store, w, locked))
      && (s.files * locked == {} ==> p.store.rows == [] && p.freed == TotalSize(s.rows))
  {
    var p := AfterClearAll(s, locked);
    DeleteAllLaw(s, s.rows, locked);
    ShrinksMembers(s.rows, p.store.rows);
    if s.files * locked == {} {
      DeleteAllUnlocked(s, s.rows, locked);
      WithoutAll(s.rows, Ids(s.rows));
    }
  }

  /** With no locked file, deleting a result set removes exactly the rows with its ids. */
  lemma {:induction false} DeleteAllUnlocked(s: Store, victims: seq<CacheEntry>, locked: set<string>)
    requires s.files * locked == {}
    ensures DeleteAll(s, victims, locked).store.rows == Without(s.rows, Ids(victims))
    decreases |victims|
  {
    if victims == [] {
      WithoutNothing(s.rows);
    } else {
      var v := victims[0];
      assert !Stuck(s, v, locked) by {
        assert v.filePath in s.files && v.filePath in locked ==> v.filePath in s.files * locked;
      }
      var d := DeleteFile(s, v, locked);
      assert d.store.files * locked == {} by {
        assert d.store.files <= s.files;
      }
      DeleteAllUnlocked(d.store, victims[1..], locked);
      WithoutWithout(s.rows, {v.fileId}, Ids(victims[1..]));
    }
  }

  lemma {:induction false} WithoutAll(rows: seq<CacheEntry>, gone: set<string>)
    requires Ids(rows) <= gone
    ensures Without(rows, gone) == []
    decreases |rows|
  {
    if rows != [] {
      WithoutAll(rows[1..], gone);
    }
  }

  /** `add_entry`: afterwards there is exactly one row for the id; the
      others are as before; without automatic cleanup nothing else happens. */
  lemma AddRowLaw(rows: seq<CacheEntry>, e: CacheEntry)
    requires UniqueIds(rows)
    ensures UniqueIds(AddRow(rows, e))
    ensures Find(AddRow(rows, e), e.fileId) == Some(e)
    ensures Ids(AddRow(rows, e)) == Ids(rows) + {e.fileId}
    ensures forall id :: id != e.fileId ==> Find(AddRow(rows, e), id) == Find(rows, id)
  {
    var w := Without(rows, {e.fileId});
    IdsWithout(rows, {e.fileId});
    UniqueWithout(rows, {e.fileId});
    AppendOne(w, e);
    forall id | id != e.fileId ensures Find(AddRow(rows, e), id) == Find(rows, id) {
      FindAppend(w, [e], id);
      FindWithout(rows, {e.fileId}, id);
    }
    FindAppend(w, [e], e.fileId);
  }

  lemma {:induction false} AppendOne(rows: seq<CacheEntry>, e: CacheEntry)
    requires UniqueIds(rows) && e.fileId !in Ids(rows)
    ensures UniqueIds(rows + [e]) && Ids(rows + [e]) == Ids(rows) + {e.fileId}
    decreases |rows|
  {
    if rows == [] {
      assert [] + [e] == [e];
      assert [e][1..] == [];
    } else {
      assert (rows + [e])[1..] == rows[1..] + [e];
      AppendOne(rows[1..], e);
    }
  }

  lemma {:induction false} FindAppend(a: seq<CacheEntry>, b: seq<CacheEntry>, id: string)
    ensures Find(a + b, id) == if id in Ids(a) then Find(a, id) else Find(b, id)
    decreases |a|
  {
    if a == [] {
      assert a + b == b;
    } else {
      assert (a + b)[1..] == a[1..] + b;
      FindAppend(a[1..], b, id);
    }
  }

  lemma {:induction false} FindWithout(rows: seq<CacheEntry>, gone: set<string>, id: string)
    requires id !in gone
    ensures Find(Without(rows, gone), id) == Find(rows, id)
    decreases |rows|
  {
    if rows != [] {
      FindWithout(rows[1..], gone, id);
    }
  }

  lemma {:induction false} IdsTouch(rows: seq<CacheEntry>, id: string, now: real)
    ensures Ids(Touch(rows, id, now)) == Ids(rows)
    ensures UniqueIds(rows) ==> UniqueIds(Touch(rows, id, now))
    decreases |rows|
  {
    if rows != [] {
      IdsTouch(rows[1..], id, now);
      assert Touch(rows, id, now)[1..] == Touch(rows[1..], id, now);
    }
  }

  /** `get_cached_path`: a miss leaves a state on which the lookup
      misses again and changes nothing more; a hit keeps the id and refreshes only its row. */
  lemma LookupLaw(s: Store, id: string, now: real)
    requires UniqueIds(s.rows)
    ensures var (r, s1) := Lookup(s, id, now);
      && UniqueIds(s1.rows)
      && (r.None? ==> id !in Ids(s1.rows) && Lookup(s1, id, now) == (None, s1))
      && (r.Some? ==>
            Ids(s1.rows) == Ids(s.rows) && Find(s1.rows, id) == Some(Find(s.rows, id).value.(lastAccess := now)))
  {
    var (r, s1) := Lookup(s, id, now);
    if id in Ids(s.rows) {
      if r.None? {
        IdsWithout(s.rows, {id});
        UniqueWithout(s.rows, {id});
      } else {
        IdsTouch(s.rows, id, now);
        FindTouch(s.rows, id, now);
      }
    }
  }

  lemma {:induction false} FindTouch(rows: seq<CacheEntry>, id: string, now: real)
    requires id in Ids(rows)
    ensures Find(Touch(rows, id, now), id) == Some(Find(rows, id).value.(lastAccess := now))
    decreases |rows|
  {
    if rows[0].fileId != id {
      assert Touch(rows, id, now)[1..] == Touch(rows[1..], id, now);
      FindTouch(rows[1..], id, now);
    }
  }

  /** The example of an LRU cache of 100 units: A, B, C and D of 40 units each, added with
      increasing access times and automatic cleanup, leave exactly C and D. */
  lemma FourEntriesScenario(a: CacheEntry, b: CacheEntry, c: CacheEntry, d: CacheEntry, files: set<string>, now: real)
    requires a.fileId == "A" && b.fileId == "B" && c.fileId == "C" && d.fileId == "D"
    requires a.fileSize == 40 && b.fileSize == 40 && c.fileSize == 40 && d.fileSize == 40
    requires a.lastAccess < b.lastAccess < c.lastAccess < d.lastAccess
    ensures var settings := CacheSettings(100, UNLIMITED, true);
      && AfterAddEntry(Store([], files), a, settings, now, {}) == Some(Store([a], files))
      && AfterAddEntry(Store([a], files), b, settings, now, {}) == Some(Store([a, b], files))
      && AfterAddEntry(Store([a, b], files), c, settings, now, {}) == Some(Store([b, c], files - {a.filePath}))
      && AfterAddEntry(Store([b, c], files - {a.filePath}), d, settings, now, {})
         == Some(Store([c, d], files - {a.filePath} - {b.filePath}))
  {
    var settings := CacheSettings(100, UNLIMITED, true);
    TwoOfForty(a, b, settings, files, now);
    ThreeOfForty(a, b, c, settings, files, now);
    ThreeOfForty(b, c, d, settings, files - {a.filePath}, now);
  }

  /** The first two rows of 40 fit under a limit of 100. */
  lemma TwoOfForty(a: CacheEntry, b: CacheEntry, settings: CacheSettings, files: set<string>, now: real)
    requires a.fileId == "A" && b.fileId == "B" && a.fileSize == 40 && b.fileSize == 40
    requires settings == CacheSettings(100, UNLIMITED, true)
    ensures AfterAddEntry(Store([], files), a, settings, now, {}) == Some(Store([a], files))
    ensures AfterAddEntry(Store([a], files), b, settings, now, {}) == Some(Store([a, b], files))
  {
    assert [a][1..] == [] && [b][1..] == [];
    assert AddRow([], a) == [a];
    AddFits(Store([], files), a, settings, now);
    assert [a, b][1..] == [b];
    assert Without([a], {"B"}) == [a];
    assert AddRow([a], b) == [a, b];
    assert TotalSize([b]) == 40;
    assert TotalSize([a, b]) == 80;
    AddFits(Store([a], files), b, settings, now);
  }

  /** Adding a third row of 40 to two rows of 40 under a limit of 100 evicts the oldest. */
  lemma ThreeOfForty(x: CacheEntry, y: CacheEntry, z: CacheEntry, settings: CacheSettings, files: set<string>, now: real)
    requires x.fileId != y.fileId && y.fileId != z.fileId && x.fileId != z.fileId
    requires x.fileSize == 40 && y.fileSize == 40 && z.fileSize == 40
    requires x.lastAccess < y.lastAccess < z.lastAccess
    requires settings == CacheSettings(100, UNLIMITED, true)
    ensures AfterAddEntry(Store([x, y], files), z, settings, now, {}) == Some(Store([y, z], files - {x.filePath}))
  {
    assert [x, y][1..] == [y] && [y][1..] == [] && [z][1..] == [];
    assert Without([x, y], {z.fileId}) == [x, y];
    var r := AddRow([x, y], z);
    assert r == [x, y, z];
    assert r[1..] == [y, z] && [y, z][1..] == [z];
    assert TotalSize([z]) == 40;
    assert TotalSize([y, z]) == 80;
    assert TotalSize(r) == 120;
    assert Oldest([y, z]) == y;
    assert Oldest(r) == x;
    assert Without([z], {x.fileId}) == [z];
    assert Without([y, z], {x.fileId}) == [y, z];
    assert Without(r, {x.fileId}) == [y, z];
    AddEvictsOne(Store([x, y], files), z, x, settings, now);
  }

  /** An addition within the limit, with no age pass, only inserts. */
  lemma AddFits(s: Store, e: CacheEntry, settings: CacheSettings, now: real)
    requires settings.retentionPeriod <= 0 && settings.autoCleanupEnabled
    requires TotalSize(AddRow(s.rows, e)) <= settings.sizeLimit
    ensures AfterAddEntry(s, e, settings, now, {}) == Some(Store(AddRow(s.rows, e), s.files))
  {
  }

  /** An addition that exceeds the limit by no more than its oldest row evicts just that row. */
  lemma AddEvictsOne(s: Store, e: CacheEntry, victim: CacheEntry, settings: CacheSettings, now: real)
    requires settings.retentionPeriod <= 0 && settings.autoCleanupEnabled
    requires AddRow(s.rows, e) != [] && Oldest(AddRow(s.rows, e)) == victim
    requires TotalSize(AddRow(s.rows, e)) > settings.sizeLimit
    requires TotalSize(Without(AddRow(s.rows, e), {victim.fileId})) <= settings.sizeLimit
    ensures AfterAddEntry(s, e, settings, now, {})
         == Some(Store(Without(AddRow(s.rows, e), {victim.fileId}), s.files - {victim.filePath}))
  {
    var s1 := Store(AddRow(s.rows, e), s.files);
    assert AgePass(s1, settings.retentionPeriod, now, {}) == Pass(0, s1);
    var p := DeleteFile(s1, victim, {});
    assert p.store == Store(Without(s1.rows, {victim.fileId}), s.files - {victim.filePath});
    assert SizePass(p.store, settings.sizeLimit, {}) == Some(Pass(0, p.store));
    assert SizePass(s1, settings.sizeLimit, {}) == Some(Pass(victim.fileSize, p.store));
  }

  // ---------------------------------------------------------------------------
  // The manager object

  /** What `cleanup` does: return the bytes freed, or never return. */
  datatype CleanupOutcome = Freed(bytes: int) | Hangs

  class TelegramCacheManager {
    var settings: CacheSettings
    /** The rows of `cache_entries`, in rowid order. */
    var rows: seq<CacheEntry>
    /** The paths that exist on disk. */
    var files: set<string>
    /** The paths whose `unlink` raises. */
    const locked: set<string>

    ghost predicate Valid()
      reads this
    {
      UniqueIds(rows)
    }

    function State(): Store
      reads this
    {
      Store(rows, files)
    }

    /** Opens the index that `cache_entries` already holds; without settings, the defaults
        (10 GB, one week, automatic cleanup). */
    constructor (settings: Option<CacheSettings>, index: seq<CacheEntry>, files: set<string>, locked: set<string>)
      requires UniqueIds(index)
      ensures Valid()
      ensures this.settings == settings.GetOr(DefaultSettings)
      ensures rows == index && this.files == files && this.locked == locked
    {
      this.settings := settings.GetOr(DefaultSettings);
      rows := index;
      this.files := files;
      this.locked := locked;
    }

    /** `get_current_size`: the sum of the sizes of all rows. */
    method GetCurrentSize() returns (size: int)
      ensures size == TotalSize(rows)
      ensures rows == [] ==> size == 0
    {
      size := TotalSize(rows);
    }

    /** `get_available_size_limits` for a disk with `free` bytes free: the seven sizes in
        ascending order, each enabled exactly when it fits in the space left for the cache. */
    method GetAvailableSizeLimits(total: int, used: int, free: int) returns (result: seq<SizeChoice>)
      ensures |result| == |AllLimits|
      ensures forall i :: 0 <= i < |result| ==>
        result[i].text == AllLimits[i].0 && result[i].value == AllLimits[i].1
      ensures forall i :: 0 <= i < |result| ==>
        (result[i].enabled <==> result[i].value <= AvailableForCache(DiskInfo(total, used, free, TotalSize(rows))))
      ensures forall i, j :: 0 <= i < j < |result| ==> result[i].value < result[j].value
    {
      var info := DiskInfo(total, used, free, TotalSize(rows));
      var available := AvailableForCache(info);
      result := [];
      for k := 0 to |AllLimits|
        invariant |result| == k
        invariant forall i :: 0 <= i < k ==>
          result[i] == SizeChoice(AllLimits[i].0, AllLimits[i].1, AllLimits[i].1 <= available)
      {
        var (text, value) := AllLimits[k];
        result := result + [SizeChoice(text, value, value <= available)];
      }
    }

    /** `update_access_time`. */
    method UpdateAccessTime(id: string, now: real)
      requires Valid()
      modifies this
      ensures Valid()
      ensures rows == Touch(old(rows), id, now)
      ensures files == old(files) && settings == old(settings)
    {
      IdsTouch(rows, id, now);
      rows := Touch(rows, id, now);
    }

    /** `_remove_entry`. */
    method RemoveEntry(id: string)
      requires Valid()
      modifies this
      ensures Valid()
      ensures rows == Without(old(rows), {id})
      ensures files == old(files) && settings == old(settings)
    {
      UniqueWithout(rows, {id});
      rows := Without(rows, {id});
    }

    /** `_delete_cached_file`. */
    method DeleteCachedFile(e: CacheEntry) returns (freed: int)
      requires Valid()
      modifies this
      ensures Valid()
      ensures Pass(freed, State()) == DeleteFile(old(State()), e, locked)
      ensures settings == old(settings)
    {
      if e.filePath in files {
        if e.filePath in locked {
          // unlink raises: the exception is swallowed and 0 returned
          return 0;
        }
        files := files - {e.filePath};
      }
      RemoveEntry(e.fileId);
      freed := e.fileSize;
    }

    /** `get_cached_path`. */
    method GetCachedPath(id: string, now: real) returns (path: Option<string>)
      requires Valid()
      modifies this
      ensures Valid()
      ensures (path, State()) == Lookup(old(State()), id, now)
      ensures settings == old(settings)
    {
      var row := Find(rows, id);
      path := None;
      if row.Some? {
        if row.value.filePath in files {
          UpdateAccessTime(id, now);
          path := Some(row.value.filePath);
        } else {
          RemoveEntry(id);
        }
      }
    }

    /** `_delete_cached_file` for every row of a fetched result set, adding up the bytes freed. */
    method DeleteRows(victims: seq<CacheEntry>) returns (freed: int)
      requires Valid()
      modifies this
      ensures Valid() && settings == old(settings)
      ensures Pass(freed, State()) == DeleteAll(old(State()), victims, locked)
    {
      ghost var start := State();
      freed := 0;
      for i := 0 to |victims|
        invariant Valid() && settings == old(settings)
        invariant var rest := DeleteAll(State(), victims[i..], locked);
          DeleteAll(start, victims, locked) == Pass(freed + rest.freed, rest.store)
      {
        assert victims[i..][1..] == victims[i + 1..];
        var f := DeleteCachedFile(victims[i]);
        freed := freed + f;
      }
    }

    /** The age pass of `cleanup`. */
    method ExpireByAge(now: real) returns (freed: int)
      requires Valid()
      modifies this
      ensures Valid() && settings == old(settings)
      ensures Pass(freed, State()) == AgePass(old(State()), settings.retentionPeriod, now, locked)
    {
      freed := 0;
      if settings.retentionPeriod > 0 {
        var cutoff := now - settings.retentionPeriod as real;
        freed := DeleteRows(Expired(rows, cutoff));
      }
    }

    /** The size pass of `cleanup`: None where the source would pick the same undeletable
        row forever. */
    method EvictBySize() returns (freed: Option<int>)
      requires Valid()
      modifies this
      ensures Valid() && settings == old(settings)
      ensures match SizePass(old(State()), settings.sizeLimit, locked)
        case None => freed.None?
        case Some(p) => freed == Some(p.freed) && State() == p.store
    {
      ghost var target := SizePass(State(), settings.sizeLimit, locked);
      var total := 0;
      while TotalSize(rows) > settings.sizeLimit
        invariant Valid() && settings == old(settings)
        invariant match SizePass(State(), settings.sizeLimit, locked)
          case None => target.None?
          case Some(q) => target == Some(Pass(total + q.freed, q.store))
        decreases |rows|
      {
        if rows == [] {
          break;
        }
        ghost var s := State();
        var e := Oldest(rows);
        var before := |rows|;
        WithoutRowShrinks(rows, e);
        var f := DeleteCachedFile(e);
        if |rows| == before {
          // unlink raised: the next round would choose this same row again
          assert Stuck(s, e, locked);
          return None;
        }
        total := total + f;
      }
      return Some(total);
    }

    /** `cleanup`: Hangs where the source's size loop never ends. */
    method Cleanup(now: real) returns (outcome: CleanupOutcome)
      requires Valid()
      modifies this
      ensures Valid() && settings == old(settings)
      ensures outcome.Hangs? <==> AfterCleanup(old(State()), settings, now, locked).None?
      ensures outcome.Freed? ==>
        Pass(outcome.bytes, State()) == AfterCleanup(old(State()), settings, now, locked).value
    {
      var aged := ExpireByAge(now);
      var sized := EvictBySize();
      if sized.None? {
        return Hangs;
      }
      return Freed(aged + sized.value);
    }

    /** `add_entry`: false where the cleanup it runs never returns. */
    method AddEntry(e: CacheEntry, now: real) returns (completed: bool)
      requires Valid()
      modifies this
      ensures Valid() && settings == old(settings)
      ensures completed <==> AfterAddEntry(old(State()), e, settings, now, locked).Some?
      ensures completed ==> State() == AfterAddEntry(old(State()), e, settings, now, locked).value
    {
      AddRowLaw(rows, e);
      rows := AddRow(rows, e);
      completed := true;
      if settings.autoCleanupEnabled {
        var outcome := Cleanup(now);
        completed := outcome.Freed?;
      }
    }

    /** `clear_all`. */
    method ClearAll() returns (freed: int)
      requires Valid()
      modifies this
      ensures Valid() && settings == old(settings)
      ensures Pass(freed, State()) == AfterClearAll(old(State()), locked)
    {
      freed := DeleteRows(rows);
    }
  }
}
