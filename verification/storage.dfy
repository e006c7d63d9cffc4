/**
 * The gorm handle over the embedded SQLite file, seen as one table keyed by
 * its primary key: `First` looks a record up, `Find` lists every record,
 * `Create` inserts, `Save` overwrites by key and `Delete` removes. An I/O
 * failure of the database is an input `fault` (`Some(text of the error)`),
 * and a failed call changes nothing.
 */
module Storage {
  import opened Wrappers

  /** SQLite's error when an insert repeats a primary key. */
  const UniqueViolation := "UNIQUE constraint failed: tasks.id"
  /** gorm's `ErrInvalidValue`, returned when it is asked to delete a nil record. */
  const InvalidValue := "invalid value, should be pointer to struct or slice"

  /** Some key of a non-empty table. */
  ghost function Pick<K, T>(m: map<K, T>): (k: K)
    requires m != map[]
    ensures k in m
  {
    var k :| k in m; k
  }

  /** The records of a table, each counted once per key that holds it. */
  ghost function Bag<K, T>(m: map<K, T>): multiset<T>
    decreases m.Keys
  {
    if m == map[] then multiset{}
    else
      var k := Pick(m);
      assert (m - {k}).Keys < m.Keys;
      Bag(m - {k}) + multiset{m[k]}
  }

  /** Taking any one record out of a table takes it out of its bag. */
  lemma {:induction false} BagRemove<K, T>(m: map<K, T>, k: K)
    requires k in m
    ensures Bag(m) == Bag(m - {k}) + multiset{m[k]}
    decreases m.Keys
  {
    var j := Pick(m);
    if j != k {
      var mj, mk, mjk := m - {j}, m - {k}, m - {j, k};
      assert mj.Keys < m.Keys && mk.Keys < m.Keys;
      assert mj - {k} == mjk && mk - {j} == mjk;
      calc {
        Bag(m);
        Bag(mj) + multiset{m[j]};
        { BagRemove(mj, k); }
        Bag(mjk) + multiset{m[k]} + multiset{m[j]};
        { BagRemove(mk, j); }
        Bag(mk) + multiset{m[k]};
      }
    }
  }

  /** A table's bag has one element per key. */
  lemma {:induction false} BagSize<K, T>(m: map<K, T>)
    ensures |Bag(m)| == |m|
    decreases m.Keys
  {
    if m != map[] {
      var k :| k in m;
      BagRemove(m, k);
      assert (m - {k}).Keys == m.Keys - {k};
      BagSize(m - {k});
    }
  }

  /** A record is in a table's bag exactly when some key holds it. */
  lemma {:induction false} BagHas<K, T>(m: map<K, T>, t: T)
    ensures t in Bag(m) <==> t in m.Values
    decreases m.Keys
  {
    if m != map[] {
      var k :| k in m;
      BagRemove(m, k);
      assert (m - {k}).Keys == m.Keys - {k};
      BagHas(m - {k}, t);
      if t in m.Values && t != m[k] {
        var j :| j in m && m[j] == t;
        assert j in m - {k};
      }
    }
  }

  /** Inserting a record under a new key adds it to the bag once. */
  lemma BagInsert<K, T>(m: map<K, T>, k: K, t: T)
    requires k !in m
    ensures Bag(m[k := t]) == Bag(m) + multiset{t}
  {
    BagRemove(m[k := t], k);
    assert m[k := t] - {k} == m;
  }

  class Table<K(==), T> {
    var rows: map<K, T>

    /** A freshly migrated, empty table. */
    constructor()
      ensures rows == map[]
    {
      rows := map[];
    }

    /** `db.First(&record, key)`: the record under `key`, or not found. */
    function First(key: K): (r: Option<T>)
      reads this
      ensures r.Some? <==> key in rows
      ensures r.Some? ==> r.value == rows[key]
    {
      if key in rows then Some(rows[key]) else None
    }

    /**
     * `db.Find(&records)`: every record exactly once, in an order the
     * table does not promise. On failure the slice stays empty.
     */
    method Find(fault: Option<string>) returns (records: seq<T>, err: Option<string>)
      ensures err == fault
      ensures fault.Some? ==> records == []
      ensures fault.None? ==> multiset(records) == Bag(rows) && |records| == |rows|
    {
      records, err := [], fault;
      if fault.Some? {
        return;
      }
      var rest := rows;
      while rest != map[]
        invariant multiset(records) + Bag(rest) == Bag(rows)
        decreases |rest|
      {
        var k :| k in rest;
        BagRemove(rest, k);
        records := records + [rest[k]];
        assert (rest - {k}).Keys == rest.Keys - {k};
        rest := rest - {k};
      }
      BagSize(rows);
    }

    /** `db.Create(&record)`: insert under a key not yet in use. */
    method Create(key: K, record: T, fault: Option<string>) returns (err: Option<string>)
      modifies this
      ensures key in old(rows) ==> err == Some(UniqueViolation)
      ensures key !in old(rows) ==> err == fault
      ensures rows == if err.None? then old(rows)[key := record] else old(rows)
    {
      if key in rows {
        err := Some(UniqueViolation);
      } else if fault.Some? {
        err := fault;
      } else {
        rows, err := rows[key := record], None;
      }
    }

    /** `db.Save(&record)`: write the record under its key, replacing what was there. */
    method Save(key: K, record: T, fault: Option<string>) returns (err: Option<string>)
      modifies this
      ensures err == fault
      ensures rows == if err.None? then old(rows)[key := record] else old(rows)
    {
      err := fault;
      if fault.None? {
        rows := rows[key := record];
      }
    }

    /**
     * `db.Delete(record)` where `key` is the key of the record, or `None`
     * for a nil record, which gorm refuses before touching the database.
     */
    method Delete(key: Option<K>, fault: Option<string>) returns (err: Option<string>)
      modifies this
      ensures key.None? ==> err == Some(InvalidValue)
      ensures key.Some? ==> err == fault
      ensures rows == if err.None? then old(rows) - {key.value} else old(rows)
    {
      if key.None? {
        err := Some(InvalidValue);
      } else {
        err := fault;
        if fault.None? {
          rows := rows - {key.value};
        }
      }
    }
  }
}
