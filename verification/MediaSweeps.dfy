/**
 The row sweep over successive runs: what `Purger.ReconcileRows` promises for
 one run, chained by its cursor while the catalogue changes between runs.
 */
module MediaSweeps {
  import opened Keyset
  import opened Prelude
  import opened MediaPurge
  import opened MediaPurger

  /** One run: it lists `page` in the catalogue `table` after the cursor `from`,
      and leaves the cursor at `to`. */
  datatype Run = Run(table: map<nat, Row>, from: nat, to: nat, page: seq<nat>)

  ghost predicate IsRun(r: Run) {
    && 0 !in r.table && IsPage(r.table, IsStored, r.from, MAX_FILES_PER_RUN, r.page) && r.to == NextCursor(r.page)
  }

  /** One complete sweep: from the beginning until the cursor starts over. */
  ghost predicate IsSweep(runs: seq<Run>) {
    && runs != [] && runs[0].from == 0 && runs[|runs| - 1].to == 0
    && (forall i :: 0 <= i < |runs| ==> IsRun(runs[i]))
    && (forall i, j :: 0 <= i < |runs| && j == i + 1 && j < |runs| ==> runs[i].to != 0 && runs[j].from == runs[i].to)
  }

  /** A run that leaves its cursor somewhere listed a full thousand rows, all those
      between its cursors; one that starts over listed all that was left. */
  lemma RunLists(r: Run)
    requires IsRun(r)
    ensures r.to != 0 ==> |r.page| == MAX_FILES_PER_RUN && r.from < r.to
    ensures forall id :: id in r.page <==>
      id in r.table && IsStored(r.table[id]) && r.from < id && (r.to == 0 || id <= r.to)
  {
    var n := |r.page|;
    if n == MAX_FILES_PER_RUN {
      var last := r.page[n - 1];
      assert last in r.page && last != 0;
      forall id | id in r.page ensures id <= last {
        var a :| 0 <= a < n && r.page[a] == id;
      }
    }
  }

  lemma {:induction false} CursorsIncrease(runs: seq<Run>, i: nat, j: nat)
    requires IsSweep(runs) && i < j < |runs|
    ensures runs[i].to <= runs[j].from
    decreases j
  {
    var before := j - 1;
    assert runs[j].from == runs[before].to;
    if i < before {
      CursorsIncrease(runs, i, before);
      RunLists(runs[before]);
    }
  }

  /** The run that lists the row, at or before run k. */
  lemma {:induction false} FindRun(runs: seq<Run>, id: nat, k: nat) returns (i: nat)
    requires IsSweep(runs) && k < |runs| && (runs[k].to == 0 || id <= runs[k].to)
    requires forall j :: 0 <= j < |runs| ==> id in runs[j].table && IsStored(runs[j].table[id])
    ensures i <= k && id in runs[i].page
  {
    RunLists(runs[k]);
    assert IsRun(runs[0]) && id != 0;
    if runs[k].from < id {
      i := k;
    } else {
      var before := k - 1;
      assert runs[k].from == runs[before].to;
      i := FindRun(runs, id, before);
    }
  }

  /** The sweep is total: however the rest of the catalogue changes between its
      runs, a row stored throughout is inspected exactly once. */
  lemma StableRowsAreInspectedOnce(runs: seq<Run>, id: nat)
    requires IsSweep(runs) && forall j :: 0 <= j < |runs| ==> id in runs[j].table && IsStored(runs[j].table[id])
    ensures exists i :: 0 <= i < |runs| && id in runs[i].page
    ensures forall i, j :: 0 <= i < j < |runs| ==> id !in runs[i].page || id !in runs[j].page
  {
    var i := FindRun(runs, id, |runs| - 1);
    forall i, j | 0 <= i < j < |runs| ensures id !in runs[i].page || id !in runs[j].page {
      var next := i + 1;
      assert runs[i].to == runs[next].from;
      CursorsIncrease(runs, i, j);
      RunLists(runs[i]);
      RunLists(runs[j]);
    }
  }

  /** All the rows the first k runs listed. */
  function Listed(runs: seq<Run>, k: nat): set<nat>
    requires k <= |runs|
  {
    if k == 0 then {} else Listed(runs, k - 1) + Ids(runs[k - 1].page)
  }

  lemma {:induction false} FullRunsListThousands(rows: map<nat, Row>, runs: seq<Run>, k: nat)
    requires IsSweep(runs) && k < |runs| && forall i :: 0 <= i < |runs| ==> runs[i].table == rows
    ensures |Listed(runs, k)| == MAX_FILES_PER_RUN * k
    ensures forall id :: id in Listed(runs, k) ==> id in rows && IsStored(rows[id]) && id <= runs[k].from
  {
    if k > 0 {
      var r := runs[k - 1];
      FullRunsListThousands(rows, runs, k - 1);
      assert runs[k].from == r.to;
      RunLists(r);
      IncreasingSize(r.page);
      assert Listed(runs, k - 1) * Ids(r.page) == {};
    }
  }

  function StoredIds(rows: map<nat, Row>): set<nat> {
    set id | id in rows && IsStored(rows[id])
  }

  /** The sweep is bounded: over a catalogue of n stored rows that stays as it is,
      it is complete within n / 1000 + 1 runs. */
  lemma SweepsAreBounded(rows: map<nat, Row>, runs: seq<Run>)
    requires IsSweep(runs) && forall i :: 0 <= i < |runs| ==> runs[i].table == rows
    ensures |runs| <= |StoredIds(rows)| / 1000 + 1
  {
    var stored := StoredIds(rows);
    FullRunsListThousands(rows, runs, |runs| - 1);
    SubsetSize(Listed(runs, |runs| - 1), stored);
  }
}
