/**
 The purge of one tenant: bounded batches, keyset cursors, and the loops of the
 four phases. Each phase is proved against its effect in `MediaPurge`.
 */
module MediaPurger {
  import opened Keyset
  import opened Prelude
  import opened MediaPurge

  const BATCH_SIZE: nat := 200
  const MAX_BATCHES: nat := 25
  const MAX_FILES_PER_RUN: nat := 1000
  const MAX_WALK_ENTRIES: nat := 200000
  const PATH_BATCH: nat := 200

  /** One entry the directory walk visits, in lexical order. */
  datatype Visit = Folder | File(path: nat)

  /** The files among the first n entries of a walk. */
  function FilesOf(walk: seq<Visit>, n: nat): set<nat>
    requires n <= |walk|
  {
    if n == 0 then {} else FilesOf(walk, n - 1) + if walk[n - 1].File? then {walk[n - 1].path} else {}
  }

  predicate InOrder(walk: seq<Visit>) {
    forall i, j :: 0 <= i < j < |walk| && walk[i].File? && walk[j].File? ==> walk[i].path < walk[j].path
  }

  /** A walk of the tenant's subtree: each file once, in order. */
  ghost predicate IsWalk(walk: seq<Visit>, disk: map<nat, Entry>) {
    InOrder(walk) && FilesOf(walk, |walk|) == disk.Keys
  }

  lemma {:induction false} FilesBefore(walk: seq<Visit>, n: nat, m: nat)
    requires InOrder(walk) && n <= m <= |walk|
    ensures FilesOf(walk, n) <= FilesOf(walk, m)
    ensures forall p :: p in FilesOf(walk, n) && m < |walk| && walk[m].File? ==> p < walk[m].path
    decreases m, n
  {
    if n > 0 {
      FilesBefore(walk, n - 1, m);
    }
    if n < m {
      FilesBefore(walk, n, m - 1);
    }
  }

  /** Walks of what is left of this disk stay within the bound on entries. */
  ghost predicate ShortWalks(walkOf: map<nat, Entry> -> seq<Visit>, disk: map<nat, Entry>) {
    forall d: map<nat, Entry> :: d.Keys <= disk.Keys ==> |walkOf(d)| <= MAX_WALK_ENTRIES
  }

  /** Not examined by an earlier run. */
  predicate Past(cursor: Option<nat>, p: nat) {
    cursor.Some? ==> cursor.value < p
  }

  predicate IsStored(r: Row) {
    r.status.Stored?
  }

  /** What a run came to, phase by phase: the rows retention visited, the dead rows
      deleted, the rows and the files the sweeps examined. */
  datatype Trace = Trace(visited: seq<nat>, gone: set<nat>, checked: seq<nat>, examined: seq<nat>)

  /** The first two phases of a trace, retention before the row-only cleanups. */
  ghost predicate Retained(c: Clock, s: State, tr: Trace, s2: State) {
    var s1 := ExpiredPurged(c, s, Ids(tr.visited));
    && Increasing(tr.visited) && Ids(tr.visited) <= ExpiredIds(c, s)
    && tr.gone <= DeadIds(c, s1) && s2 == WithoutRows(s1, tr.gone)
  }

  /** The two sweeps of a trace, rows before files, each from where it stopped. */
  ghost predicate SweptThrough(c: Clock, s2: State, rowCursor: nat, pathCursor: Option<nat>, tr: Trace, s': State) {
    var s3 := RowsReconciled(c, s2, Ids(tr.checked));
    && IsPage(s2.rows, IsStored, rowCursor, MAX_FILES_PER_RUN, tr.checked)
    && Increasing(tr.examined) && |tr.examined| <= MAX_FILES_PER_RUN
    && (forall p :: p in tr.examined ==> p in s3.disk && Past(pathCursor, p))
    && s' == Swept(c, s3, Ids(tr.examined))
  }

  class Purger {
    var rows: map<nat, Row>
    var disk: map<nat, Entry>
    var rowCursor: nat
    var pathCursor: Option<nat>

    /** Ids are serial: zero stands for the start of a sweep. */
    ghost predicate Valid()
      reads this
    {
      0 !in rows
    }

    ghost function Stores(): State
      reads this
    {
      State(rows, disk)
    }

    constructor (rows: map<nat, Row>, disk: map<nat, Entry>)
      requires 0 !in rows
      ensures Valid() && Stores() == State(rows, disk) && rowCursor == 0 && pathCursor.None?
    {
      this.rows := rows;
      this.disk := disk;
      rowCursor := 0;
      pathCursor := None;
    }

    /** Unlinks one path: absent is done, anything but a regular file is refused. */
    method RemoveRel(p: nat) returns (ok: bool)
      modifies this`disk
      ensures ok == !IrregularAt(old(disk), Some(p))
      ensures disk == if ok then old(disk) - {p} else old(disk)
    {
      if p !in disk {
        assert disk - {p} == disk;
        return true;
      }
      if !disk[p].Regular? {
        return false;
      }
      disk := disk - {p};
      return true;
    }

    /** The file of a row, then its thumbnail. */
    method RemoveFiles(r: Row) returns (ok: bool)
      modifies this`disk
      ensures ok == !(IrregularAt(old(disk), r.path) || IrregularAt(old(disk), r.thumb))
      ensures disk == map p | p in old(disk) && !UnlinkedFor(r, old(disk), p) :: old(disk)[p]
    {
      if r.path.Some? {
        ok := RemoveRel(r.path.value);
        if !ok {
          return;
        }
      }
      ok := true;
      if r.thumb.Some? {
        ok := RemoveRel(r.thumb.value);
      }
    }

    /** Unlink, then mark, unless refused. */
    method PurgeRow(c: Clock, id: nat)
      requires Valid() && id in rows
      modifies this`rows, this`disk
      ensures Valid() && rows == old(rows)[id := AfterExpired(c, old(rows)[id], old(disk))]
      ensures disk == map p | p in old(disk) && !UnlinkedFor(old(rows)[id], old(disk), p) :: old(disk)[p]
    {
      var ok := RemoveFiles(rows[id]);
      if ok {
        rows := rows[id := c.PurgedRow(rows[id])];
      }
    }

    method PurgeNext(c: Clock, id: nat, ghost s: State, ghost done: seq<nat>)
      requires Valid() && Stores() == ExpiredPurged(c, s, Ids(done)) && id in s.rows && id !in done
      modifies this`rows, this`disk
      ensures Valid() && Stores() == ExpiredPurged(c, s, Ids(done + [id]))
    {
      VisitOne(c, s, Ids(done), id);
      PurgeRow(c, id);
      assert Ids(done + [id]) == Ids(done) + {id};
    }

    method PurgePage(c: Clock, files: seq<nat>, ghost s: State, ghost visited: seq<nat>)
      requires Valid() && Stores() == ExpiredPurged(c, s, Ids(visited)) && Increasing(files)
      requires forall j :: 0 <= j < |files| ==> files[j] in s.rows && files[j] !in visited
      modifies this`rows, this`disk
      ensures Valid() && Stores() == ExpiredPurged(c, s, Ids(visited + files))
    {
      var j := 0;
      assert visited + files[..0] == visited;
      while j < |files|
        invariant j <= |files| && Valid()
        invariant Stores() == ExpiredPurged(c, s, Ids(visited + files[..j]))
      {
        ghost var done := visited + files[..j];
        assert files[j] !in done;
        PurgeNext(c, files[j], s, done);
        assert visited + files[..j + 1] == done + [files[j]];
        j := j + 1;
      }
      assert files[..j] == files;
    }

    /** One batch of the retention, from the cursor on. */
    method PurgeBatch(c: Clock, cursor: nat, ghost s: State, ghost visited: seq<nat>) returns (files: seq<nat>)
      requires Valid() && Stores() == ExpiredPurged(c, s, Ids(visited))
      requires VisitedSoFar(s.rows, c.ExpiredStored, 0, visited) && cursor == LastOf(0, visited)
      modifies this`rows, this`disk
      ensures Valid() && Stores() == ExpiredPurged(c, s, Ids(visited + files))
      ensures VisitedSoFar(s.rows, c.ExpiredStored, 0, visited + files) && |files| <= BATCH_SIZE
      ensures LastOf(cursor, files) == LastOf(0, visited + files)
      ensures |files| < BATCH_SIZE ==> Ids(visited + files) == ExpiredIds(c, s)
    {
      files := ListPage(rows, c.ExpiredStored, cursor, BATCH_SIZE);
      BatchGoesOn(c, s, visited, files);
      PurgePage(c, files, s, visited);
      if |files| < BATCH_SIZE {
        AllVisited(c, s, visited + files);
      }
    }

    /** Retention: unlink, then mark, batch by batch on a cursor that skips the
        refused rows. */
    method PurgeExpired(c: Clock) returns (ghost visited: seq<nat>, capped: bool)
      requires Valid()
      modifies this`rows, this`disk
      ensures Valid()
      ensures Increasing(visited) && Ids(visited) <= ExpiredIds(c, old(Stores()))
      ensures Stores() == ExpiredPurged(c, old(Stores()), Ids(visited))
      ensures !capped ==> Ids(visited) == ExpiredIds(c, old(Stores()))
      ensures capped ==> |visited| == 5000
    {
      ghost var s := Stores();
      var cursor, batch := 0, 0;
      visited, capped := [], true;
      assert Stores() == ExpiredPurged(c, s, Ids(visited));
      while batch < MAX_BATCHES && capped
        invariant batch <= MAX_BATCHES && Valid()
        invariant VisitedSoFar(s.rows, c.ExpiredStored, 0, visited) && cursor == LastOf(0, visited)
        invariant Stores() == ExpiredPurged(c, s, Ids(visited))
        invariant capped ==> |visited| == batch * BATCH_SIZE
        invariant !capped ==> Ids(visited) == ExpiredIds(c, s)
        decreases MAX_BATCHES - batch, capped
      {
        var files := PurgeBatch(c, cursor, s, visited);
        cursor := LastOf(cursor, files);
        visited := visited + files;
        if |files| < BATCH_SIZE {
          capped := false;
        }
        batch := batch + 1;
      }
    }

    /** DELETE ... WHERE id IN (SELECT ... LIMIT 200). */
    method DeleteBatch(want: Row -> bool) returns (deleted: nat, ghost gone: set<nat>)
      requires Valid()
      modifies this`rows
      ensures Valid() && rows == old(rows) - gone && |gone| == deleted <= BATCH_SIZE
      ensures forall id :: id in gone ==> id in old(rows) && want(old(rows)[id])
      ensures deleted < BATCH_SIZE ==> forall id :: id in rows ==> !want(rows[id])
    {
      var page := ListPage(rows, want, 0, BATCH_SIZE);
      IncreasingSize(page);
      rows := rows - Ids(page);
      deleted, gone := |page|, Ids(page);
    }

    /** Batches, until a short one. */
    method DeleteWhere(want: Row -> bool) returns (ghost gone: set<nat>, capped: bool)
      requires Valid()
      modifies this`rows
      ensures Valid() && Stores() == WithoutRows(old(Stores()), gone)
      ensures forall id :: id in gone ==> id in old(rows) && want(old(rows)[id])
      ensures !capped ==> forall id :: id in rows ==> !want(rows[id])
      ensures capped ==> |gone| == 5000
    {
      var batch := 0;
      gone, capped := {}, true;
      while batch < MAX_BATCHES && capped
        invariant batch <= MAX_BATCHES && Valid() && rows == old(rows) - gone
        invariant forall id :: id in gone ==> id in old(rows) && want(old(rows)[id])
        invariant !capped ==> forall id :: id in rows ==> !want(rows[id])
        invariant capped ==> |gone| == batch * BATCH_SIZE
        decreases MAX_BATCHES - batch, capped
      {
        var deleted;
        ghost var more;
        deleted, more := DeleteBatch(want);
        assert gone * more == {};
        gone, capped := gone + more, deleted >= BATCH_SIZE;
        batch := batch + 1;
      }
      assert Stores().rows == WithoutRows(old(Stores()), gone).rows;
    }

    /** The rows that describe no file. */
    method PurgeRows(c: Clock) returns (ghost gone: set<nat>, capped: bool)
      requires Valid()
      modifies this`rows
      ensures Valid() && Stores() == WithoutRows(old(Stores()), gone) && gone <= DeadIds(c, old(Stores()))
      ensures !capped ==> gone == DeadIds(c, old(Stores()))
      ensures capped ==> |gone| >= 5000
    {
      ghost var stale, done;
      var capped1, capped2;
      stale, capped1 := DeleteWhere(c.StalePending);
      done, capped2 := DeleteWhere(c.DonePurged);
      gone, capped := stale + done, capped1 || capped2;
      TwoDeletions(c, old(Stores()), stale, done);
      SubsetSize(stale, gone);
      SubsetSize(done, gone);
      if !capped {
        DeadAreGone(c, old(Stores()), stale, done);
      }
    }

    /** One row against the disk. A row whose path is refused is left alone. */
    method ReconcileRow(c: Clock, id: nat)
      requires Valid() && id in rows
      modifies this`rows
      ensures Valid() && rows == old(rows)[id := Repaired(c, old(rows)[id], disk)]
    {
      var r := rows[id];
      if r.status.Stored? && r.path.Some? && r.path.value !in disk {
        if c.Expired(r) {
          rows := rows[id := c.PurgedRow(r)];
        } else {
          rows := rows[id := c.RequeuedRow(r)];
        }
      }
    }

    method ReconcilePage(c: Clock, files: seq<nat>, ghost s: State, ghost visited: seq<nat>)
      requires Valid() && Stores() == RowsReconciled(c, s, Ids(visited)) && Increasing(files)
      requires forall j :: 0 <= j < |files| ==> files[j] in s.rows && files[j] !in visited
      modifies this`rows
      ensures Valid() && Stores() == RowsReconciled(c, s, Ids(visited + files))
    {
      var j := 0;
      assert visited + files[..0] == visited;
      while j < |files|
        invariant j <= |files| && Valid()
        invariant Stores() == RowsReconciled(c, s, Ids(visited + files[..j]))
      {
        ghost var seen := visited + files[..j];
        assert files[j] !in seen;
        ReconcileRow(c, files[j]);
        assert Ids(visited + files[..j + 1]) == Ids(seen) + {files[j]};
        j := j + 1;
      }
      assert files[..j] == files;
    }

    /** One run of the row sweep: the pages of a run make one page of at most a
        thousand rows, taken where the previous run stopped. */
    method ReconcileRows(c: Clock) returns (ghost visited: seq<nat>)
      requires Valid()
      modifies this`rows, this`rowCursor
      ensures Valid() && IsPage(old(rows), IsStored, old(rowCursor), 1000, visited)
      ensures Stores() == RowsReconciled(c, old(Stores()), Ids(visited))
      ensures rowCursor == NextCursor(visited)
    {
      ghost var s := Stores();
      var cursor, scanned, more := rowCursor, 0, true;
      visited := [];
      assert Stores() == RowsReconciled(c, s, Ids(visited));
      while scanned < MAX_FILES_PER_RUN && more
        invariant scanned == |visited| <= MAX_FILES_PER_RUN && Valid()
        invariant Stores() == RowsReconciled(c, s, Ids(visited))
        invariant VisitedSoFar(s.rows, IsStored, old(rowCursor), visited)
        invariant more ==> cursor == LastOf(old(rowCursor), visited)
        invariant !more ==> cursor == 0 && |visited| < MAX_FILES_PER_RUN
        invariant !more ==> forall id :: id in s.rows && IsStored(s.rows[id]) && old(rowCursor) < id ==> id in visited
        decreases MAX_FILES_PER_RUN - scanned, more
      {
        var limit := if MAX_FILES_PER_RUN - scanned < BATCH_SIZE then MAX_FILES_PER_RUN - scanned else BATCH_SIZE;
        var files := ListPage(rows, IsStored, cursor, limit);
        ReconciledSameAfter(c, s, old(rowCursor), visited);
        PageGoesOn(s.rows, rows, IsStored, old(rowCursor), visited, limit, files);
        ReconcilePage(c, files, s, visited);
        visited, scanned := visited + files, scanned + |files|;
        if |files| < limit {
          cursor, more := 0, false;
        } else {
          cursor := files[|files| - 1];
        }
      }
      rowCursor := cursor;
    }

    /** Resolves one batch of disk paths against the catalogue. */
    method SweepBatch(c: Clock, batch: seq<nat>)
      modifies this`disk
      ensures Stores() == Swept(c, old(Stores()), Ids(batch))
    {
      ghost var s := Stores();
      var j := 0;
      assert Stores() == Swept(c, s, Ids(batch[..0]));
      while j < |batch|
        invariant j <= |batch| && Stores() == Swept(c, s, Ids(batch[..j]))
      {
        var p := batch[j];
        assert Ids(batch[..j + 1]) == Ids(batch[..j]) + {p};
        SweptAdds(c, s, Ids(batch[..j]), {p});
        if p in disk && disk[p].Regular? && !Referenced(rows, p) && c.OldEnough(disk[p]) {
          var ok := RemoveRel(p);
        }
        j := j + 1;
      }
      assert batch[..j] == batch;
    }

    /** The end of a disk sweep: the last batch, and where the next run resumes. */
    method FinishWalk(c: Clock, batch: seq<nat>, completed: bool, last: Option<nat>)
      requires Valid()
      modifies this`disk, this`pathCursor
      ensures Valid() && Stores() == Swept(c, old(Stores()), Ids(batch))
      ensures pathCursor == if completed then None else if last.Some? then last else old(pathCursor)
    {
      SweepBatch(c, batch);
      if completed {
        pathCursor := None;
      } else if last.Some? {
        pathCursor := last;
      }
    }

    /** Adds a file to the batch, and resolves the batch once it is full. */
    method Collect(c: Clock, batch: seq<nat>, p: nat, ghost s: State, ghost before: set<nat>)
      returns (rest: seq<nat>, ghost swept: set<nat>)
      requires Valid() && Stores() == Swept(c, s, before)
      modifies this`disk
      ensures Valid() && Stores() == Swept(c, s, swept) && swept + Ids(rest) == before + Ids(batch) + {p}
    {
      rest, swept := batch + [p], before;
      if |rest| >= PATH_BATCH {
        SweptAdds(c, s, before, Ids(rest));
        SweepBatch(c, rest);
        rest, swept := [], before + Ids(rest);
      }
    }

    /** One run of the disk sweep, over the directory walk of the subtree. */
    method ReconcileDisk(c: Clock, walk: seq<Visit>) returns (ghost examined: seq<nat>, completed: bool)
      requires Valid() && IsWalk(walk, disk)
      modifies this`disk, this`pathCursor
      ensures Valid() && Increasing(examined) && |examined| <= 1000
      ensures Stores() == Swept(c, old(Stores()), Ids(examined))
      ensures forall p :: p in examined ==>
        p in old(disk) && (old(pathCursor).Some? ==> old(pathCursor).value < p)
      ensures completed ==> pathCursor.None?
      ensures !completed ==> |examined| == 1000 || |walk| > 200000
      ensures completed ==>
        forall p :: p in old(disk) && old(disk)[p].Regular? && (old(pathCursor).Some? ==> old(pathCursor).value < p) ==>
          p in examined
      ensures !completed ==> pathCursor == if examined == [] then old(pathCursor) else Some(examined[|examined| - 1])
    {
      ghost var s := Stores();
      var i, count, batch: seq<nat>, last: Option<nat> := 0, 0, [], None;
      examined, completed := [], true;
      ghost var swept: set<nat> := {};
      assert Stores() == Swept(c, s, swept);
      while i < |walk|
        invariant i <= |walk| && Valid() && completed && count == |examined| <= MAX_FILES_PER_RUN
        invariant swept + Ids(batch) == Ids(examined) && Stores() == Swept(c, s, swept)
        invariant last == if examined == [] then None else Some(examined[|examined| - 1])
        invariant WalkedSoFar(s.disk, pathCursor, walk, i, examined)
        invariant pathCursor == old(pathCursor)
      {
        if i + 1 > MAX_WALK_ENTRIES {
          completed := false;
          break;
        }
        WalkedOn(s.disk, pathCursor, walk, i, examined);
        NotSweptYet(c, s, pathCursor, walk[i], swept);
        if IsDue(disk, pathCursor, walk[i]) {
          if count >= MAX_FILES_PER_RUN {
            completed := false;
            break;
          }
          var p: nat := walk[i].path;
          batch, swept := Collect(c, batch, p, s, swept);
          count, last := count + 1, Some(p);
          examined := examined + [p];
        }
        i := i + 1;
      }
      SweptAdds(c, s, swept, Ids(batch));
      FinishWalk(c, batch, completed, last);
    }

    /** Retention and the row-only cleanups. */
    method RetentionPhases(c: Clock) returns (capped: bool, ghost tr: Trace)
      requires Valid()
      modifies this`rows, this`disk
      ensures Valid() && Retained(c, old(Stores()), tr, Stores())
      ensures !capped ==> Stores() == FirstTwoPhases(c, old(Stores()))
      ensures capped ==> |old(rows)| >= 1000
      ensures rows.Keys <= old(rows).Keys && disk.Keys <= old(disk).Keys
    {
      ghost var visited, gone;
      var capped1, capped2;
      visited, capped1 := PurgeExpired(c);
      gone, capped2 := PurgeRows(c);
      capped, tr := capped1 || capped2, Trace(visited, gone, [], []);
      IncreasingSize(visited);
      SubsetSize(Ids(visited), old(rows).Keys);
      SubsetSize(gone, old(rows).Keys);
    }

    /** The two sweeps. */
    method ReconciliationPhases(c: Clock, walk: seq<Visit>) returns (stopped: bool, ghost tr: Trace)
      requires Valid() && IsWalk(walk, disk)
      modifies this
      ensures Valid() && SweptThrough(c, old(Stores()), old(rowCursor), old(pathCursor), tr, Stores())
      ensures !stopped && old(rowCursor) == 0 && old(pathCursor).None? ==>
        Stores() == Reconciled(c, old(Stores())) && rowCursor == 0 && pathCursor.None?
      ensures |old(rows)| < 1000 && |old(disk)| < 1000 && |walk| <= 200000 ==>
        !stopped
    {
      ghost var t := Stores();
      ghost var checked := ReconcileRows(c);
      ghost var examined;
      var completed;
      examined, completed := ReconcileDisk(c, walk);
      stopped, tr := rowCursor != 0 || !completed, Trace([], {}, checked, examined);
      FitsIn(checked, t.rows.Keys);
      FitsIn(examined, t.disk.Keys);
      if !stopped && old(rowCursor) == 0 && old(pathCursor).None? {
        assert forall id :: id in t.rows && IsStored(t.rows[id]) ==> 0 < id;
        SweepsAreWhole(c, t, Ids(checked), Ids(examined));
      }
    }

    /** The four phases of one run, in their order, whatever bound each stops at.
        `walkOf` is the directory walk, which visits the folders of the subtree
        as well; `between` is what the first two phases leave. */
    method RunTenant(c: Clock, walkOf: map<nat, Entry> -> seq<Visit>)
      returns (bounded: bool, ghost retained: Trace, ghost swept: Trace, ghost between: State)
      requires Valid() && Clean(Stores())
      requires forall d: map<nat, Entry> :: IsWalk(walkOf(d), d)
      modifies this
      ensures Valid()
      ensures Retained(c, old(Stores()), retained, between)
      ensures SweptThrough(c, between, old(rowCursor), old(pathCursor), swept, Stores())
      ensures !bounded && old(rowCursor) == 0 && old(pathCursor).None? ==>
        Stores() == Pass(c, old(Stores())) && rowCursor == 0 && pathCursor.None?
      ensures |old(rows)| < 1000 && |old(disk)| < 1000 && ShortWalks(walkOf, old(disk)) ==>
        !bounded
    {
      var capped, stopped;
      capped, retained := RetentionPhases(c);
      between := Stores();
      SubsetSize(rows.Keys, old(rows).Keys);
      SubsetSize(disk.Keys, old(disk).Keys);
      stopped, swept := ReconciliationPhases(c, walkOf(disk));
      bounded := capped || stopped;
    }
  }

  /** One more batch of expired rows, listed after the ones before were purged. */
  lemma BatchGoesOn(c: Clock, s: State, visited: seq<nat>, files: seq<nat>)
    requires VisitedSoFar(s.rows, c.ExpiredStored, 0, visited)
    requires IsPage(ExpiredPurged(c, s, Ids(visited)).rows, c.ExpiredStored, LastOf(0, visited), BATCH_SIZE, files)
    ensures VisitedSoFar(s.rows, c.ExpiredStored, 0, visited + files)
    ensures forall j :: 0 <= j < |files| ==> files[j] in s.rows && files[j] !in visited
    ensures |files| < BATCH_SIZE ==>
      forall id :: id in s.rows && c.ExpiredStored(s.rows[id]) && 0 < id ==> id in visited + files
  {
    var now := ExpiredPurged(c, s, Ids(visited)).rows;
    ExpiredPurgedSameAfter(c, s, visited);
    PageGoesOn(s.rows, now, c.ExpiredStored, 0, visited, BATCH_SIZE, files);
  }

  lemma AllVisited(c: Clock, s: State, visited: seq<nat>)
    requires forall id :: id in visited ==> id in s.rows && c.ExpiredStored(s.rows[id])
    requires 0 !in s.rows && forall id :: id in s.rows && c.ExpiredStored(s.rows[id]) && 0 < id ==> id in visited
    ensures Ids(visited) == ExpiredIds(c, s)
  {
  }

  lemma FitsIn(ids: seq<nat>, all: set<nat>)
    requires Increasing(ids) && forall id :: id in ids ==> id in all
    ensures |ids| <= |all|
  {
    IncreasingSize(ids);
    SubsetSize(Ids(ids), all);
  }

  /** Sweeps that visited every stored row and every regular file. */
  lemma SweepsAreWhole(c: Clock, t: State, checked: set<nat>, examined: set<nat>)
    requires forall id :: id in t.rows && IsStored(t.rows[id]) ==> id in checked
    requires forall p :: p in t.disk && t.disk[p].Regular? ==> p in examined
    ensures Swept(c, RowsReconciled(c, t, checked), examined) == Reconciled(c, t)
  {
    assert RowsReconciled(c, t, checked).rows == RowsReconciled(c, t, t.rows.Keys).rows;
  }

  lemma TwoDeletions(c: Clock, s: State, stale: set<nat>, done: set<nat>)
    requires forall id :: id in stale ==> id in s.rows && c.StalePending(s.rows[id])
    requires var t := WithoutRows(s, stale); forall id :: id in done ==> id in t.rows && c.DonePurged(t.rows[id])
    ensures WithoutRows(WithoutRows(s, stale), done) == WithoutRows(s, stale + done)
    ensures stale + done <= DeadIds(c, s)
  {
  }

  lemma DeadAreGone(c: Clock, s: State, stale: set<nat>, done: set<nat>)
    requires var t := WithoutRows(s, stale); forall id :: id in t.rows ==> !c.StalePending(t.rows[id])
    requires var u := WithoutRows(WithoutRows(s, stale), done); forall id :: id in u.rows ==> !c.DonePurged(u.rows[id])
    ensures DeadIds(c, s) <= stale + done
  {
    forall id | id in DeadIds(c, s) ensures id in stale + done {
      var t := WithoutRows(s, stale);
      assert id !in stale ==> id in t.rows;
      assert id !in stale + done ==> id in WithoutRows(t, done).rows;
    }
  }

  /** Where the next run starts: over, once a run found less than its bound. */
  function NextCursor(visited: seq<nat>): nat {
    if |visited| < MAX_FILES_PER_RUN then 0 else visited[|visited| - 1]
  }

  lemma NotSweptYet(c: Clock, s: State, cursor: Option<nat>, v: Visit, swept: set<nat>)
    requires v.File? ==> v.path !in swept
    ensures IsDue(Swept(c, s, swept).disk, cursor, v) == IsDue(s.disk, cursor, v)
  {
  }

  lemma SweptAdds(c: Clock, s: State, a: set<nat>, b: set<nat>)
    ensures Swept(c, Swept(c, s, a), b) == Swept(c, s, a + b)
  {
  }

  predicate IsDue(disk: map<nat, Entry>, cursor: Option<nat>, v: Visit) {
    v.File? && v.path in disk && disk[v.path].Regular? && Past(cursor, v.path)
  }

  /** Examined so far: the regular files of the walk past the cursor, in order. */
  ghost predicate WalkedSoFar(disk: map<nat, Entry>, cursor: Option<nat>, walk: seq<Visit>, i: nat, examined: seq<nat>)
    requires i <= |walk|
  {
    && Increasing(examined)
    && forall p :: p in examined <==> p in FilesOf(walk, i) && IsDue(disk, cursor, File(p))
  }

  lemma WalkedOn(disk: map<nat, Entry>, cursor: Option<nat>, walk: seq<Visit>, i: nat, examined: seq<nat>)
    requires i < |walk| && IsWalk(walk, disk) && WalkedSoFar(disk, cursor, walk, i, examined)
    ensures walk[i].File? ==> walk[i].path in disk && forall p :: p in examined ==> p < walk[i].path
    ensures IsDue(disk, cursor, walk[i]) ==> WalkedSoFar(disk, cursor, walk, i + 1, examined + [walk[i].path])
    ensures !IsDue(disk, cursor, walk[i]) ==> WalkedSoFar(disk, cursor, walk, i + 1, examined)
  {
    FilesBefore(walk, i, i);
    FilesBefore(walk, i + 1, |walk|);
    if IsDue(disk, cursor, walk[i]) {
      assert examined != [] ==> examined[|examined| - 1] in examined;
      IncreasingPush(examined, walk[i].path);
    }
  }

  lemma ExpiredPurgedSameAfter(c: Clock, s: State, visited: seq<nat>)
    requires Increasing(visited) && forall id :: id in visited ==> 0 < id
    ensures SameAfter(s.rows, ExpiredPurged(c, s, Ids(visited)).rows, LastOf(0, visited))
  {
    AtMostLast(0, visited);
  }

  lemma ReconciledSameAfter(c: Clock, s: State, start: nat, visited: seq<nat>)
    requires Increasing(visited) && forall id :: id in visited ==> start < id
    ensures SameAfter(s.rows, RowsReconciled(c, s, Ids(visited)).rows, LastOf(start, visited))
  {
    AtMostLast(start, visited);
  }

  /** What visiting one more row does. */
  lemma VisitOne(c: Clock, s: State, ids: set<nat>, id: nat)
    requires id in s.rows && id !in ids
    ensures var t, r := ExpiredPurged(c, s, ids), s.rows[id];
      && id in t.rows && t.rows[id] == r
      && ExpiredPurged(c, s, ids + {id}).rows == t.rows[id := AfterExpired(c, r, t.disk)]
      && ExpiredPurged(c, s, ids + {id}).disk == (map p | p in t.disk && !UnlinkedFor(r, t.disk, p) :: t.disk[p])
  {
    var t, u, r := ExpiredPurged(c, s, ids), ExpiredPurged(c, s, ids + {id}), s.rows[id];
    forall o: Option<nat> ensures IrregularAt(t.disk, o) == IrregularAt(s.disk, o) {
    }
    forall p | p in s.disk
      ensures UnlinkedForAny(s, ids + {id}, p) <==> UnlinkedForAny(s, ids, p) || UnlinkedFor(r, s.disk, p)
    {
    }
    forall p | p in t.disk ensures UnlinkedFor(r, t.disk, p) == UnlinkedFor(r, s.disk, p) {
    }
  }
}
