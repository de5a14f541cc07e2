/** Bounded tables: a deque of rows with an occurrence count and the latest row per hash. */
module Tables {
  import opened Prelude

  datatype Row<+T> = Row(hash: TxHash, value: T)

  datatype Table<+T> = Table(rows: seq<Row<T>>, counts: map<TxHash, nat>, lookup: map<TxHash, Row<T>>)

  /** How many rows belong to a hash. */
  function Occurrences<T>(rows: seq<Row<T>>, h: TxHash): nat {
    if rows == [] then 0 else (if rows[0].hash == h then 1 else 0) + Occurrences(rows[1..], h)
  }

  /** The newest row of a hash. */
  function Newest<T>(rows: seq<Row<T>>, h: TxHash): Option<Row<T>> {
    if rows == [] then None
    else
      var newer := Newest(rows[1..], h);
      if newer.Some? then newer else if rows[0].hash == h then Some(rows[0]) else None
  }

  /** Counts and lookup say of a hash exactly what the rows say. */
  ghost predicate ExactFor<T>(t: Table<T>, h: TxHash) {
    && (h in t.counts <==> Occurrences(t.rows, h) > 0)
    && (h in t.counts ==> t.counts[h] == Occurrences(t.rows, h))
    && (h in t.lookup <==> Newest(t.rows, h).Some?)
    && (h in t.lookup ==> Newest(t.rows, h) == Some(t.lookup[h]))
  }

  ghost predicate Exact<T(!new)>(t: Table<T>) {
    forall h :: ExactFor(t, h)
  }

  lemma {:induction false} AppendedRow<T>(rows: seq<Row<T>>, row: Row<T>, h: TxHash)
    ensures Occurrences(rows + [row], h) == Occurrences(rows, h) + if row.hash == h then 1 else 0
    ensures Newest(rows + [row], h) == if row.hash == h then Some(row) else Newest(rows, h)
  {
    if rows == [] {
      assert [] + [row] == [row] && [row][1..] == [];
    } else {
      assert (rows + [row])[1..] == rows[1..] + [row];
      AppendedRow(rows[1..], row, h);
    }
  }

  lemma {:induction false} NewestIffOccurs<T>(rows: seq<Row<T>>, h: TxHash)
    ensures Newest(rows, h).Some? <==> Occurrences(rows, h) > 0
  {
    if rows != [] {
      NewestIffOccurs(rows[1..], h);
    }
  }

  // ---------------------------------------------------------------- the two steps

  function Append<T>(t: Table<T>, row: Row<T>): Table<T> {
    var count := if row.hash in t.counts then t.counts[row.hash] else 0;
    Table(t.rows + [row], t.counts[row.hash := count + 1], t.lookup[row.hash := row])
  }

  /** Evicts the oldest row; with its last row a hash leaves the counts and the lookup. */
  function DropOldest<T>(t: Table<T>): Table<T>
    requires t.rows != []
  {
    var h := t.rows[0].hash;
    if h !in t.counts then t.(rows := t.rows[1..])
    else
      var count := if t.counts[h] > 0 then t.counts[h] - 1 else 0;
      if count == 0 then Table(t.rows[1..], t.counts - {h}, t.lookup - {h})
      else Table(t.rows[1..], t.counts[h := count], t.lookup)
  }

  lemma AppendKeepsExact<T(!new)>(t: Table<T>, row: Row<T>)
    requires Exact(t)
    ensures Exact(Append(t, row))
  {
    hide Occurrences, Newest;
    forall h ensures ExactFor(Append(t, row), h) {
      assert ExactFor(t, h);
      AppendedRow(t.rows, row, h);
    }
  }

  lemma DropOldestKeepsExact<T(!new)>(t: Table<T>)
    requires Exact(t) && t.rows != []
    ensures Exact(DropOldest(t))
  {
    forall h ensures ExactFor(DropOldest(t), h) {
      assert ExactFor(t, h);
      assert ExactFor(t, t.rows[0].hash);
      NewestIffOccurs(t.rows[1..], h);
    }
  }

  /** The rows a table of the given capacity retains. */
  function Retained<T>(rows: seq<Row<T>>, capacity: nat): seq<Row<T>> {
    if |rows| <= capacity then rows else rows[|rows| - capacity..]
  }

  /** Retaining after each row is retaining once at the end. */
  lemma RetainedStep<T>(rows: seq<Row<T>>, row: Row<T>, capacity: nat)
    ensures Retained(Retained(rows, capacity) + [row], capacity) == Retained(rows + [row], capacity)
  {
  }

  class BoundedTable<T(!new)> {
    const capacity: nat
    var rows: seq<Row<T>>
    var counts: map<TxHash, nat>
    var lookup: map<TxHash, Row<T>>
    /** Every row ever pushed, evicted ones included. */
    ghost var pushed: seq<Row<T>>

    ghost function Model(): Table<T>
      reads this
    {
      Table(rows, counts, lookup)
    }

    ghost predicate Valid()
      reads this
    {
      Exact(Model()) && rows == Retained(pushed, capacity)
    }

    constructor (capacity: nat)
      ensures Valid() && pushed == [] && this.capacity == capacity
    {
      this.capacity, pushed := capacity, [];
      rows, counts, lookup := [], map[], map[];
    }

    /** Appends a row and evicts the oldest ones past the capacity: the latest of all rows ever pushed remain. */
    method Push(row: Row<T>)
      requires Valid()
      modifies this
      ensures Valid() && pushed == old(pushed) + [row]
      ensures rows == if |pushed| <= capacity then pushed else pushed[|pushed| - capacity..]
    {
      hide Exact;
      AppendKeepsExact(Model(), row);
      ghost var all := rows + [row];
      rows := rows + [row];
      counts := counts[row.hash := (if row.hash in counts then counts[row.hash] else 0) + 1];
      lookup := lookup[row.hash := row];
      while |rows| > capacity
        invariant Exact(Model()) && pushed == old(pushed)
        invariant |rows| <= |all| && rows == all[|all| - |rows|..]
        invariant |rows| < |all| ==> |rows| >= capacity
      {
        DropOldestKeepsExact(Model());
        EvictOldest();
      }
      assert rows == Retained(all, capacity);
      RetainedStep(pushed, row, capacity);
      pushed := pushed + [row];
    }

    method EvictOldest()
      requires rows != []
      modifies this`rows, this`counts, this`lookup
      ensures Model() == DropOldest(old(Model()))
    {
      var evicted := rows[0].hash;
      rows := rows[1..];
      if evicted in counts {
        ghost var before := counts;
        var count := if counts[evicted] > 0 then counts[evicted] - 1 else 0;
        counts := counts[evicted := count];
        if count == 0 {
          counts := counts - {evicted};
          assert counts == before - {evicted};
          lookup := lookup - {evicted};
        }
      }
    }
  }
}
