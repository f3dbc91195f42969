/**
 * The persistent star cache (src/cache/sqlite.ts): one row per repository
 * key holding the last known stars, last commit time and the unix second
 * the row was written.
 *
 * The pipeline reads whole entries (`getEntry`) and writes
 * `set(key, stars, lastCommitAt)`; the SQL file shows the older
 * `get(key): stars` and `set(key, stars)`. Both shapes are modelled over the
 * richer row. The clock is a parameter of the write.
 */
module StatStore {
  import opened Wrappers

  /** One row of the `stars_cache` table. */
  datatype CacheEntry = CacheEntry(stars: int, lastCommitAt: Option<string>, updatedAt: int)

  /**
   * The table after an upsert of `key`: the row for `key` is replaced whole
   * (stars, commit time and timestamp together), every other row is kept.
   */
  function Upsert(rows: map<string, CacheEntry>, key: string, stars: int, lastCommitAt: Option<string>, now: int)
    : (r: map<string, CacheEntry>)
    ensures r.Keys == rows.Keys + {key}
    ensures key in r && r[key].stars == stars && r[key].lastCommitAt == lastCommitAt && r[key].updatedAt == now
    ensures forall k :: k in rows && k != key ==> r[k] == rows[k]
  {
    rows[key := CacheEntry(stars, lastCommitAt, now)]
  }

  /** Writing the same values twice at the same time leaves the same table as writing once. */
  lemma UpsertIdempotent(rows: map<string, CacheEntry>, key: string, stars: int, lastCommitAt: Option<string>, now: int)
    ensures Upsert(Upsert(rows, key, stars, lastCommitAt, now), key, stars, lastCommitAt, now)
         == Upsert(rows, key, stars, lastCommitAt, now)
  {
  }

  class Store {
    /** The table: at most one row per key, since the key is the primary key. */
    var rows: map<string, CacheEntry>

    /** A new, empty table (`CREATE TABLE IF NOT EXISTS` on a fresh database). */
    constructor ()
      ensures rows == map[]
    {
      rows := map[];
    }

    /** `getEntry(key)`: the whole row, or nothing when the key was never written. */
    method GetEntry(key: string) returns (e: Option<CacheEntry>)
      ensures e.Some? <==> key in rows
      ensures e.Some? ==> e.value == rows[key]
    {
      if key in rows {
        e := Some(rows[key]);
      } else {
        e := None;
      }
    }

    /** `get(key)`: the stored star count, or null for a key never written. */
    method Get(key: string) returns (stars: Option<int>)
      ensures stars.Some? <==> key in rows
      ensures stars.Some? ==> stars.value == rows[key].stars
    {
      var e := GetEntry(key);
      stars := if e.Some? then Some(e.value.stars) else None;
    }

    /** `set(key, stars, lastCommitAt)`: upsert the row, stamped with the current unix second `now`. */
    method Set(key: string, stars: int, lastCommitAt: Option<string>, now: int)
      modifies this
      ensures rows == Upsert(old(rows), key, stars, lastCommitAt, now)
    {
      rows := rows[key := CacheEntry(stars, lastCommitAt, now)];
    }
  }
}
