/** The feature table: a bounded table whose latest rows are also counted by label. */
module Features {
  import opened Prelude
  import opened Tables

  datatype Label = Label(protocol: string, category: string)

  type Summary = map<Label, nat>
  type Lookup = map<TxHash, Row<Label>>

  /** The hashes whose latest row has a label. */
  function Labelled(lookup: Lookup, l: Label): set<TxHash> {
    set h | h in lookup && lookup[h].value == l
  }

  ghost predicate CountsLabel(summary: Summary, lookup: Lookup, l: Label) {
    && (l in summary <==> Labelled(lookup, l) != {})
    && (l in summary ==> summary[l] == |Labelled(lookup, l)|)
  }

  /** Every label's count is the number of hashes whose latest row has it; no count is zero. */
  ghost predicate SummaryExact(summary: Summary, lookup: Lookup) {
    forall l :: CountsLabel(summary, lookup, l)
  }

  function Increment(summary: Summary, l: Label): Summary {
    summary[l := (if l in summary then summary[l] else 0) + 1]
  }

  function Decrement(summary: Summary, l: Label): Summary {
    if l !in summary then summary
    else
      var count := if summary[l] > 0 then summary[l] - 1 else 0;
      if count == 0 then summary - {l} else summary[l := count]
  }

  lemma DropKeepsLabel(summary: Summary, lookup: Lookup, h: TxHash, l: Label)
    requires CountsLabel(summary, lookup, l) && h in lookup
    ensures CountsLabel(Decrement(summary, lookup[h].value), lookup - {h}, l)
  {
    var before, after := Labelled(lookup, l), Labelled(lookup - {h}, l);
    if lookup[h].value == l {
      assert after == before - {h} && h in before;
      assert |after| == |before| - 1;
    } else {
      assert after == before;
    }
  }

  /** The summary after the latest row of a hash leaves. */
  lemma DropKeepsSummary(summary: Summary, lookup: Lookup, h: TxHash)
    requires SummaryExact(summary, lookup) && h in lookup
    ensures SummaryExact(Decrement(summary, lookup[h].value), lookup - {h})
  {
    hide CountsLabel, Decrement;
    var summary', lookup' := Decrement(summary, lookup[h].value), lookup - {h};
    forall l ensures CountsLabel(summary', lookup', l) {
      DropKeepsLabel(summary, lookup, h, l);
    }
  }

  lemma AddKeepsLabel(summary: Summary, lookup: Lookup, row: Row<Label>, l: Label)
    requires CountsLabel(summary, lookup, l) && row.hash !in lookup
    ensures CountsLabel(Increment(summary, row.value), lookup[row.hash := row], l)
  {
    var before, after := Labelled(lookup, l), Labelled(lookup[row.hash := row], l);
    if row.value == l {
      assert after == before + {row.hash} && row.hash !in before;
    } else {
      assert after == before;
    }
  }

  /** The summary after a hash without a row gets one. */
  lemma AddKeepsSummary(summary: Summary, lookup: Lookup, row: Row<Label>)
    requires SummaryExact(summary, lookup) && row.hash !in lookup
    ensures SummaryExact(Increment(summary, row.value), lookup[row.hash := row])
  {
    hide CountsLabel, Increment;
    var summary', lookup' := Increment(summary, row.value), lookup[row.hash := row];
    forall l ensures CountsLabel(summary', lookup', l) {
      AddKeepsLabel(summary, lookup, row, l);
    }
  }

  /** The summary adjustment of an upsert. */
  function Recount(summary: Summary, lookup: Lookup, row: Row<Label>): Summary {
    Increment(if row.hash in lookup then Decrement(summary, lookup[row.hash].value) else summary, row.value)
  }

  lemma RecountKeepsSummary(summary: Summary, lookup: Lookup, row: Row<Label>)
    requires SummaryExact(summary, lookup)
    ensures SummaryExact(Recount(summary, lookup, row), lookup[row.hash := row])
  {
    hide SummaryExact, Increment, Decrement;
    var without := lookup - {row.hash};
    if row.hash in lookup {
      DropKeepsSummary(summary, lookup, row.hash);
      AddKeepsSummary(Decrement(summary, lookup[row.hash].value), without, row);
    } else {
      AddKeepsSummary(summary, lookup, row);
    }
    assert without[row.hash := row] == lookup[row.hash := row];
  }

  /** The summary adjustment of an eviction. */
  function SummaryAfterEvict(summary: Summary, t: Table<Label>): Summary
    requires t.rows != []
  {
    var h := t.rows[0].hash;
    if h in t.lookup && h !in DropOldest(t).lookup then Decrement(summary, t.lookup[h].value) else summary
  }

  lemma EvictKeepsSummary(summary: Summary, t: Table<Label>)
    requires SummaryExact(summary, t.lookup) && t.rows != []
    ensures SummaryExact(SummaryAfterEvict(summary, t), DropOldest(t).lookup)
  {
    hide SummaryExact;
    var h := t.rows[0].hash;
    if h in t.lookup {
      DropKeepsSummary(summary, t.lookup, h);
    } else {
      assert t.lookup - {h} == t.lookup;
    }
  }

  class FeatureTable {
    const capacity: nat
    var rows: seq<Row<Label>>
    var counts: map<TxHash, nat>
    var lookup: map<TxHash, Row<Label>>
    var summary: Summary
    /** Every row ever inserted, evicted ones included. */
    ghost var pushed: seq<Row<Label>>

    ghost function Model(): Table<Label>
      reads this
    {
      Table(rows, counts, lookup)
    }

    ghost predicate Valid()
      reads this
    {
      Exact(Model()) && SummaryExact(summary, lookup) && rows == Retained(pushed, capacity)
    }

    constructor (capacity: nat)
      ensures Valid() && pushed == [] && this.capacity == capacity
    {
      this.capacity, pushed := capacity, [];
      rows, counts, lookup, summary := [], map[], map[], map[];
    }

    /** Inserts a row, moving its hash's label count; the latest of all rows ever inserted remain. */
    method Upsert(row: Row<Label>)
      requires Valid()
      modifies this
      ensures Valid() && pushed == old(pushed) + [row]
      ensures rows == if |pushed| <= capacity then pushed else pushed[|pushed| - capacity..]
    {
      hide Exact, SummaryExact;
      AppendKeepsExact(Model(), row);
      RecountKeepsSummary(summary, lookup, row);
      ghost var all := rows + [row];
      AppendRow(row);
      while |rows| > capacity
        invariant Exact(Model()) && SummaryExact(summary, lookup) && pushed == old(pushed)
        invariant |rows| <= |all| && rows == all[|all| - |rows|..]
        invariant |rows| < |all| ==> |rows| >= capacity
      {
        DropOldestKeepsExact(Model());
        EvictKeepsSummary(summary, Model());
        EvictOldest();
      }
      assert rows == Retained(all, capacity);
      RetainedStep(pushed, row, capacity);
      pushed := pushed + [row];
    }

    method AppendRow(row: Row<Label>)
      modifies this`rows, this`counts, this`lookup, this`summary
      ensures Model() == Append(old(Model()), row)
      ensures summary == Recount(old(summary), old(lookup), row)
    {
      if row.hash in lookup {
        DecrementSummary(lookup[row.hash].value);
      }
      summary := summary[row.value := (if row.value in summary then summary[row.value] else 0) + 1];
      rows := rows + [row];
      counts := counts[row.hash := (if row.hash in counts then counts[row.hash] else 0) + 1];
      lookup := lookup[row.hash := row];
    }

    method EvictOldest()
      requires rows != []
      modifies this`rows, this`counts, this`lookup, this`summary
      ensures Model() == DropOldest(old(Model()))
      ensures summary == SummaryAfterEvict(old(summary), old(Model()))
    {
      var evicted := rows[0].hash;
      rows := rows[1..];
      if evicted in counts {
        ghost var before := counts;
        var count := if counts[evicted] > 0 then counts[evicted] - 1 else 0;
        counts := counts[evicted := count];
        if count == 0 {
          counts := counts - {evicted};
          assert counts == before - {evicted};
          if evicted in lookup {
            DecrementSummary(lookup[evicted].value);
          }
          lookup := lookup - {evicted};
        }
      }
    }

    method DecrementSummary(l: Label)
      modifies this`summary
      ensures summary == Decrement(old(summary), l)
    {
      if l in summary {
        ghost var before := summary;
        var count := if summary[l] > 0 then summary[l] - 1 else 0;
        summary := summary[l := count];
        if count == 0 {
          summary := summary - {l};
          assert summary == before - {l};
        }
      }
    }
  }
}
