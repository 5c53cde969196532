/**
 * The caches in front of the data files.
 *
 * The results table is re-read whenever its modification time changes; a
 * failed lookup of that time serves an empty table and leaves the cache as
 * it was. The match and roster tables are read on first use and never again.
 */
module Cache {
  import opened Wrappers
  import opened Rows
  import Seqs

  /** The two module globals `_cached_rows` and `_cached_mtime`. */
  datatype CacheState = CacheState(rows: Option<seq<Row>>, mtime: Option<int>)

  /** The table must be re-read when nothing is cached or it was cached under another mtime. */
  predicate Stale(st: CacheState, m: int) {
    st.rows.None? || st.mtime != Some(m)
  }

  /**
   * One call of the cached loader: `mtime` is the result of the mtime lookup
   * (None when it raised) and `fileRows` what the file holds at that moment.
   * Gives the new cache state and the rows served.
   */
  function Serve(st: CacheState, mtime: Option<int>, fileRows: seq<RawRow>): (r: (CacheState, seq<Row>))
    ensures mtime.None? ==> r.1 == [] && r.0 == st
    ensures mtime.Some? ==> r.0.rows == Some(r.1) && r.0.mtime == mtime
  {
    match mtime
    case None => (st, [])
    case Some(m) =>
      if Stale(st, m) then
        var rows := Seqs.Map(fileRows, CoerceRow);
        (CacheState(Some(rows), Some(m)), rows)
      else (st, st.rows.value)
  }

  /** A reload happens exactly when the cache is stale, and then serves the file's rows coerced. */
  lemma ServeReloads(st: CacheState, m: int, fileRows: seq<RawRow>)
    ensures Serve(st, Some(m), fileRows).0 != st ==> Stale(st, m)
    ensures Stale(st, m) ==> Serve(st, Some(m), fileRows).1 == Seqs.Map(fileRows, CoerceRow)
    ensures !Stale(st, m) ==> Serve(st, Some(m), fileRows) == (st, st.rows.value)
  {
  }

  /**
   * Asking again under the same mtime serves the very rows of the previous
   * call and changes nothing, whatever the file holds by then.
   */
  lemma ServeAgain(st: CacheState, m: int, fileRows: seq<RawRow>, laterRows: seq<RawRow>)
    ensures var (st1, rows1) := Serve(st, Some(m), fileRows);
      Serve(st1, Some(m), laterRows) == (st1, rows1)
  {
  }

  /** After any call the served rows are exactly one coerced row per row of some file version. */
  lemma {:induction false} ServedRowsCoerced(st: CacheState, mtime: Option<int>, fileRows: seq<RawRow>)
    requires st.rows.Some? ==> exists raws :: st.rows.value == Seqs.Map(raws, CoerceRow)
    ensures var (st1, rows1) := Serve(st, mtime, fileRows);
      exists raws :: rows1 == Seqs.Map(raws, CoerceRow)
  {
    match mtime
    case None =>
      assert Serve(st, mtime, fileRows).1 == Seqs.Map([], CoerceRow);
    case Some(m) =>
      if Stale(st, m) {
        assert Serve(st, mtime, fileRows).1 == Seqs.Map(fileRows, CoerceRow);
      } else {
        var raws :| st.rows.value == Seqs.Map(raws, CoerceRow);
        assert Serve(st, mtime, fileRows).1 == Seqs.Map(raws, CoerceRow);
      }
  }

  /** `load_csv_cached` over the two globals. */
  class RowCache {
    var cachedRows: Option<seq<Row>>
    var cachedMtime: Option<int>

    function State(): CacheState
      reads this
    {
      CacheState(cachedRows, cachedMtime)
    }

    /** Both globals start out as None. */
    constructor ()
      ensures State() == CacheState(None, None)
    {
      cachedRows := None;
      cachedMtime := None;
    }

    method Get(mtime: Option<int>, fileRows: seq<RawRow>) returns (result: seq<Row>)
      modifies this
      ensures (State(), result) == Serve(old(State()), mtime, fileRows)
    {
      if mtime.None? {
        return [];
      }
      var m := mtime.value;
      if cachedRows.None? || cachedMtime != Some(m) {
        var rows := CoerceRows(fileRows);
        assert rows == Seqs.Map(fileRows, CoerceRow);
        cachedRows := Some(rows);
        cachedMtime := Some(m);
      }
      result := cachedRows.value;
    }
  }

  /**
   * The match and roster loaders' `_cached_x` global: `load` is what
   * reading the file gives (None when the read raises). A failed read leaves
   * the cache empty, so the next call tries again; a successful one is kept
   * for good.
   */
  class LoadOnce<T> {
    var cached: Option<T>

    constructor ()
      ensures cached == None
    {
      cached := None;
    }

    method Get(load: Option<T>) returns (result: Option<T>)
      modifies this
      ensures old(cached).Some? ==> result == old(cached) && cached == old(cached)
      ensures old(cached).None? ==> result == load && cached == load
    {
      if cached.None? {
        cached := load;
      }
      result := cached;
    }
  }
}
