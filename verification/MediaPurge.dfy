/**
 Media retention over two stores that cannot commit together: the catalogue and
 the disk of one tenant. Paths are tokens, instants are in seconds, and every
 phase runs at one instant `now`. `Irregular` stands for whatever the purge
 refuses to touch at a path: a symlink on the way, or anything but a file.
 */
module MediaPurge {
  import opened Prelude

  datatype Status = Pending | Stored | Purged

  datatype Row = Row(status: Status, path: Option<nat>, thumb: Option<nat>, createdAt: Time, updatedAt: Time)

  datatype Entry = Regular(modTime: Time, temp: bool) | Irregular

  datatype State = State(rows: map<nat, Row>, disk: map<nat, Entry>)

  const HOUR: Time := 3600
  const DAY: Time := 24 * HOUR
  const PENDING_MAX_AGE: Time := 48 * HOUR
  const PURGED_ROW_GRACE: Time := 7 * DAY
  const ORPHAN_GRACE: Time := 24 * HOUR
  const STALE_TEMP_AGE: Time := 24 * HOUR

  /** The instant of a pass and the retention of the tenant. */
  datatype Clock = Clock(now: Time, retentionDays: nat)
  {
    predicate Expired(r: Row) {
      r.createdAt < now - retentionDays * DAY
    }

    predicate ExpiredStored(r: Row) {
      r.status.Stored? && Expired(r)
    }

    predicate StalePending(r: Row) {
      && r.status.Pending?
      && (Expired(r) || (r.createdAt < now - PENDING_MAX_AGE && r.updatedAt < now - PENDING_MAX_AGE))
    }

    predicate DonePurged(r: Row) {
      r.status.Purged? && Expired(r) && r.updatedAt < now - PURGED_ROW_GRACE
    }

    predicate OldEnough(e: Entry)
      requires e.Regular?
    {
      now - e.modTime >= if e.temp then STALE_TEMP_AGE else ORPHAN_GRACE
    }

    function PurgedRow(r: Row): Row {
      r.(status := Purged, path := None, thumb := None, updatedAt := now)
    }

    function RequeuedRow(r: Row): Row {
      r.(status := Pending, path := None, thumb := None, updatedAt := now)
    }
  }

  // ---------------------------------------------------------------------
  // Two stores
  // ---------------------------------------------------------------------

  predicate References(r: Row, p: nat) {
    r.path == Some(p) || r.thumb == Some(p)
  }

  predicate Referenced(rows: map<nat, Row>, p: nat) {
    exists id :: id in rows && References(rows[id], p)
  }

  predicate RegularAt(disk: map<nat, Entry>, o: Option<nat>) {
    o.Some? && o.value in disk && disk[o.value].Regular?
  }

  predicate IrregularAt(disk: map<nat, Entry>, o: Option<nat>) {
    o.Some? && o.value in disk && disk[o.value].Irregular?
  }

  predicate Missing(disk: map<nat, Entry>, o: Option<nat>) {
    o.Some? ==> o.value !in disk
  }

  /** A stored row has a path, the others have none. */
  predicate CleanRow(r: Row) {
    if r.status.Stored? then r.path.Some? else r.path.None? && r.thumb.None?
  }

  predicate Clean(s: State) {
    forall id :: id in s.rows ==> CleanRow(s.rows[id])
  }

  // ---------------------------------------------------------------------
  // The four phases, each over the rows or paths it visits
  // ---------------------------------------------------------------------

  /** A refusal on either file leaves the row alone. */
  function AfterExpired(c: Clock, r: Row, disk: map<nat, Entry>): Row {
    if IrregularAt(disk, r.path) || IrregularAt(disk, r.thumb) then r else c.PurgedRow(r)
  }

  /** The thumbnail is tried only if the file itself was not refused. */
  predicate UnlinkedFor(r: Row, disk: map<nat, Entry>, p: nat) {
    && RegularAt(disk, Some(p))
    && (r.path == Some(p) || (r.thumb == Some(p) && !IrregularAt(disk, r.path)))
  }

  predicate UnlinkedForAny(s: State, ids: set<nat>, p: nat) {
    exists id :: id in ids && id in s.rows && UnlinkedFor(s.rows[id], s.disk, p)
  }

  ghost function ExpiredPurged(c: Clock, s: State, ids: set<nat>): State {
    State(map id | id in s.rows :: if id in ids then AfterExpired(c, s.rows[id], s.disk) else s.rows[id],
          map p | p in s.disk && !UnlinkedForAny(s, ids, p) :: s.disk[p])
  }

  function WithoutRows(s: State, ids: set<nat>): State {
    s.(rows := map id | id in s.rows && id !in ids :: s.rows[id])
  }

  function Repaired(c: Clock, r: Row, disk: map<nat, Entry>): Row {
    if r.status.Stored? && r.path.Some? && Missing(disk, r.path)
    then (if c.Expired(r) then c.PurgedRow(r) else c.RequeuedRow(r))
    else r
  }

  function RowsReconciled(c: Clock, s: State, ids: set<nat>): State {
    s.(rows := map id | id in s.rows :: if id in ids then Repaired(c, s.rows[id], s.disk) else s.rows[id])
  }

  predicate Sweepable(c: Clock, s: State, p: nat) {
    p in s.disk && s.disk[p].Regular? && !Referenced(s.rows, p) && c.OldEnough(s.disk[p])
  }

  function Swept(c: Clock, s: State, paths: set<nat>): State {
    s.(disk := map p | p in s.disk && !(p in paths && Sweepable(c, s, p)) :: s.disk[p])
  }

  function ExpiredIds(c: Clock, s: State): set<nat> {
    set id | id in s.rows && c.ExpiredStored(s.rows[id])
  }

  function DeadIds(c: Clock, s: State): set<nat> {
    set id | id in s.rows && (c.StalePending(s.rows[id]) || c.DonePurged(s.rows[id]))
  }

  ghost function FirstTwoPhases(c: Clock, s: State): State {
    var purged := ExpiredPurged(c, s, ExpiredIds(c, s));
    WithoutRows(purged, DeadIds(c, purged))
  }

  function Reconciled(c: Clock, s: State): State {
    var repaired := RowsReconciled(c, s, s.rows.Keys);
    Swept(c, repaired, repaired.disk.Keys)
  }

  /** A pass that starts with both cursors at the beginning and reaches no bound. */
  ghost function Pass(c: Clock, s: State): State {
    Reconciled(c, FirstTwoPhases(c, s))
  }

  // ---------------------------------------------------------------------
  // What a pass does to one row, to one path
  // ---------------------------------------------------------------------

  /** Gone from the disk once the retention phase has run. */
  predicate GoneForRetention(c: Clock, s: State, p: nat) {
    p !in s.disk || UnlinkedForAny(s, ExpiredIds(c, s), p)
  }

  /** What becomes of a row: None when it is deleted. */
  function Fate(c: Clock, s: State, r: Row): Option<Row> {
    var r1 := if c.ExpiredStored(r) then AfterExpired(c, r, s.disk) else r;
    if c.StalePending(r1) || c.DonePurged(r1) then None
    else if r1.status.Stored? && r1.path.Some? && GoneForRetention(c, s, r1.path.value) then
      Some(if c.Expired(r1) then c.PurgedRow(r1) else c.RequeuedRow(r1))
    else Some(r1)
  }

  lemma PassRows(c: Clock, s: State, id: nat)
    ensures id in Pass(c, s).rows <==> id in s.rows && Fate(c, s, s.rows[id]).Some?
    ensures id in Pass(c, s).rows ==> Some(Pass(c, s).rows[id]) == Fate(c, s, s.rows[id])
  {
    var purged := ExpiredPurged(c, s, ExpiredIds(c, s));
    if id in s.rows {
      var r1 := purged.rows[id];
      assert id in ExpiredIds(c, s) <==> c.ExpiredStored(s.rows[id]);
      assert r1.path.Some? ==> (r1.path.value in purged.disk <==> !GoneForRetention(c, s, r1.path.value));
    }
  }

  lemma PassDisk(c: Clock, s: State, p: nat)
    ensures p in Pass(c, s).disk <==>
      && p in s.disk && !GoneForRetention(c, s, p)
      && !(s.disk[p].Regular? && !Referenced(Pass(c, s).rows, p) && c.OldEnough(s.disk[p]))
    ensures p in Pass(c, s).disk ==> Pass(c, s).disk[p] == s.disk[p]
  {
  }

  // ---------------------------------------------------------------------
  // A pass, row by row and file by file, in days and seconds
  // ---------------------------------------------------------------------

  /** An expired row the file belongs to, as its file or as the thumbnail of one
      that is not refused. */
  ghost predicate RetentionTakes(c: Clock, s: State, x: nat, p: nat) {
    && x in s.rows && s.rows[x].status == Stored && s.rows[x].createdAt < c.now - c.retentionDays * 86400
    && p in s.disk && s.disk[p].Regular?
    && (s.rows[x].path == Some(p)
        || (s.rows[x].thumb == Some(p)
            && !(s.rows[x].path.Some? && s.rows[x].path.value in s.disk && s.disk[s.rows[x].path.value].Irregular?)))
  }

  lemma RetentionIsWhatTakes(c: Clock, s: State, p: nat)
    ensures GoneForRetention(c, s, p) <==> p !in s.disk || exists x :: RetentionTakes(c, s, x, p)
  {
    forall x ensures RetentionTakes(c, s, x, p) <==>
        x in ExpiredIds(c, s) && x in s.rows && UnlinkedFor(s.rows[x], s.disk, p)
    {
    }
    if p in s.disk && UnlinkedForAny(s, ExpiredIds(c, s), p) {
      var x :| x in ExpiredIds(c, s) && x in s.rows && UnlinkedFor(s.rows[x], s.disk, p);
      assert RetentionTakes(c, s, x, p);
    }
  }

  /** A stored file is kept as long as its retention says. Within it, a row whose
      file is on disk after the retention of the others is left as it is, and one
      whose file is gone is downloaded again: pending, with neither file nor
      thumbnail, captured when it was. */
  lemma WithinRetention(c: Clock, s: State, id: nat)
    requires Clean(s) && id in s.rows && s.rows[id].status == Stored
    requires c.now - s.rows[id].createdAt <= c.retentionDays * 86400
    ensures id in Pass(c, s).rows
    ensures var r, p := s.rows[id], s.rows[id].path.value;
      Pass(c, s).rows[id] ==
        if p in s.disk && !exists x :: RetentionTakes(c, s, x, p) then r
        else Row(Pending, None, None, r.createdAt, c.now)
  {
    PassRows(c, s, id);
    RetentionIsWhatTakes(c, s, s.rows[id].path.value);
  }

  /** Past its retention a stored row is written off, unless what is at its path
      is not the purge's to touch. */
  lemma PastRetention(c: Clock, s: State, id: nat)
    requires Clean(s) && id in s.rows && s.rows[id].status == Stored
    requires c.now - s.rows[id].createdAt > c.retentionDays * 86400
    ensures id in Pass(c, s).rows
    ensures var r, p := s.rows[id], s.rows[id].path.value;
      Pass(c, s).rows[id] ==
        if p in s.disk && s.disk[p].Irregular? then r else Row(Purged, None, None, r.createdAt, c.now)
  {
    PassRows(c, s, id);
    var p := s.rows[id].path.value;
    assert id in ExpiredIds(c, s);
    if p in s.disk && s.disk[p].Regular? {
      assert UnlinkedFor(s.rows[id], s.disk, p);
    }
  }

  /** A row with no file goes exactly when nothing can come of it: a pending one
      past its retention or untouched and uncaptured for 48 hours, a purged one
      past its retention and a week after its purge. Otherwise it is left alone. */
  lemma RowsWithoutFile(c: Clock, s: State, id: nat)
    requires Clean(s) && id in s.rows && s.rows[id].status != Stored
    ensures var r := s.rows[id];
      var past := c.now - r.createdAt > c.retentionDays * 86400;
      id !in Pass(c, s).rows <==>
        if r.status == Pending then past || (c.now - r.createdAt > 172800 && c.now - r.updatedAt > 172800)
        else past && c.now - r.updatedAt > 604800
    ensures id in Pass(c, s).rows ==> Pass(c, s).rows[id] == s.rows[id]
  {
    PassRows(c, s, id);
  }

  /** No pass makes up a row or a file, and a regular file is left exactly if no
      expired row takes it along and it is named by a row that is left or less
      than a day old. What is not a regular file is left alone. */
  lemma FilesOfAPass(c: Clock, s: State, p: nat)
    ensures Pass(c, s).rows.Keys <= s.rows.Keys
    ensures p in Pass(c, s).disk ==> p in s.disk && Pass(c, s).disk[p] == s.disk[p]
    ensures p in s.disk && s.disk[p].Irregular? ==> p in Pass(c, s).disk
    ensures p in s.disk && s.disk[p].Regular? ==>
      (p in Pass(c, s).disk <==>
        && !(exists x :: RetentionTakes(c, s, x, p))
        && (c.now - s.disk[p].modTime < 86400
            || exists x :: x in Pass(c, s).rows
                 && (Pass(c, s).rows[x].path == Some(p) || Pass(c, s).rows[x].thumb == Some(p))))
  {
    PassDisk(c, s, p);
    RetentionIsWhatTakes(c, s, p);
    forall id | id in Pass(c, s).rows ensures id in s.rows {
      PassRows(c, s, id);
    }
    forall x | x in Pass(c, s).rows
      ensures References(Pass(c, s).rows[x], p) <==>
        (Pass(c, s).rows[x].path == Some(p) || Pass(c, s).rows[x].thumb == Some(p))
    {
    }
  }

  // ---------------------------------------------------------------------
  // Idempotence and repair
  // ---------------------------------------------------------------------

  /** Both stores agree again: every stored row finds something at its path, and
      every file left is referenced, young, or not the purge's to touch. */
  ghost predicate Settled(c: Clock, s: State) {
    && Clean(s)
    && (forall id :: id in s.rows ==>
      && !c.StalePending(s.rows[id]) && !c.DonePurged(s.rows[id])
      && (s.rows[id].status.Stored? ==> s.rows[id].path.value in s.disk)
      && (c.ExpiredStored(s.rows[id]) ==> IrregularAt(s.disk, s.rows[id].path)))
    && forall p :: p in s.disk && s.disk[p].Regular? ==> Referenced(s.rows, p) || !c.OldEnough(s.disk[p])
  }

  /** A surviving row, stored and expired, was refused at its very path. */
  lemma SurvivorIsSettled(c: Clock, s: State, id: nat)
    requires Clean(s) && id in Pass(c, s).rows
    ensures var t := Pass(c, s); var r := t.rows[id];
      && CleanRow(r) && !c.StalePending(r) && !c.DonePurged(r)
      && (r.status.Stored? ==> r == s.rows[id] && r.path.value in t.disk)
      && (c.ExpiredStored(r) ==> IrregularAt(t.disk, r.path))
  {
    PassRows(c, s, id);
    var t, r := Pass(c, s), Pass(c, s).rows[id];
    assert id in s.rows && CleanRow(s.rows[id]);
    if r.status.Stored? {
      var p := r.path.value;
      assert r == s.rows[id] && !GoneForRetention(c, s, p);
      PassDisk(c, s, p);
      assert References(r, p);
      if c.ExpiredStored(r) {
        assert id in ExpiredIds(c, s);
        assert !UnlinkedFor(r, s.disk, p);
      }
    }
  }

  /** After a pass the two stores are repaired, whatever state it started from. */
  lemma APassRepairs(c: Clock, s: State)
    requires Clean(s)
    ensures Settled(c, Pass(c, s))
  {
    var t := Pass(c, s);
    forall id | id in t.rows
      ensures CleanRow(t.rows[id]) && !c.StalePending(t.rows[id]) && !c.DonePurged(t.rows[id])
      ensures t.rows[id].status.Stored? ==> t.rows[id].path.value in t.disk
      ensures c.ExpiredStored(t.rows[id]) ==> IrregularAt(t.disk, t.rows[id].path)
    {
      SurvivorIsSettled(c, s, id);
    }
    forall p | p in t.disk && t.disk[p].Regular? ensures Referenced(t.rows, p) || !c.OldEnough(t.disk[p]) {
      PassDisk(c, s, p);
    }
  }

  lemma SettledRowsStay(c: Clock, t: State, id: nat)
    requires Settled(c, t) && id in t.rows
    ensures Fate(c, t, t.rows[id]) == Some(t.rows[id])
    ensures forall p :: id in ExpiredIds(c, t) ==> !UnlinkedFor(t.rows[id], t.disk, p)
  {
    var r := t.rows[id];
    if r.status.Stored? {
      var p := r.path.value;
      SettledFilesStay(c, t, p);
    }
  }

  lemma SettledFilesStay(c: Clock, t: State, p: nat)
    requires Settled(c, t) && p in t.disk
    ensures !GoneForRetention(c, t, p)
  {
    forall id | id in ExpiredIds(c, t) ensures !UnlinkedFor(t.rows[id], t.disk, p) {
      assert IrregularAt(t.disk, t.rows[id].path);
    }
  }

  /** A pass over settled stores changes nothing. */
  lemma SettledIsAFixpoint(c: Clock, t: State)
    requires Settled(c, t)
    ensures Pass(c, t) == t
  {
    forall id ensures id in Pass(c, t).rows <==> id in t.rows
      ensures id in t.rows ==> id in Pass(c, t).rows && Pass(c, t).rows[id] == t.rows[id]
    {
      PassRows(c, t, id);
      if id in t.rows {
        SettledRowsStay(c, t, id);
      }
    }
    assert Pass(c, t).rows == t.rows;
    forall p ensures p in Pass(c, t).disk <==> p in t.disk
      ensures p in t.disk ==> p in Pass(c, t).disk && Pass(c, t).disk[p] == t.disk[p]
    {
      PassDisk(c, t, p);
      if p in t.disk {
        SettledFilesStay(c, t, p);
      }
    }
    assert Pass(c, t).disk == t.disk;
  }

  /** A second pass at the same instant does nothing at all. */
  lemma PassIsIdempotent(c: Clock, s: State)
    requires Clean(s)
    ensures Pass(c, Pass(c, s)) == Pass(c, s)
  {
    APassRepairs(c, s);
    SettledIsAFixpoint(c, Pass(c, s));
  }

  // ---------------------------------------------------------------------
  // Single effects: a crash may fall between any two
  // ---------------------------------------------------------------------

  datatype Step =
    | Unlink(id: nat, p: nat)
    | MarkPurged(id: nat)
    | DeleteRow(id: nat)
    | Repair(id: nat)
    | RemoveOrphan(p: nat)

  ghost predicate Next(c: Clock, s: State, step: Step, m: State) {
    match step
    case Unlink(id, p) =>
      && id in s.rows && c.ExpiredStored(s.rows[id]) && UnlinkedFor(s.rows[id], s.disk, p)
      && m == s.(disk := s.disk - {p})
    case MarkPurged(id) =>
      && id in s.rows && c.ExpiredStored(s.rows[id])
      && Missing(s.disk, s.rows[id].path) && Missing(s.disk, s.rows[id].thumb)
      && m == s.(rows := s.rows[id := c.PurgedRow(s.rows[id])])
    case DeleteRow(id) =>
      && id in s.rows && (c.StalePending(s.rows[id]) || c.DonePurged(s.rows[id]))
      && m == s.(rows := s.rows - {id})
    case Repair(id) =>
      && id in s.rows && s.rows[id].status.Stored? && s.rows[id].path.Some? && Missing(s.disk, s.rows[id].path)
      && m == s.(rows := s.rows[id := Repaired(c, s.rows[id], s.disk)])
    case RemoveOrphan(p) =>
      && Sweepable(c, s, p) && m == s.(disk := s.disk - {p})
  }

  ghost predicate Orphan(s: State, p: nat) {
    p in s.disk && s.disk[p].Regular? && !Referenced(s.rows, p)
  }

  /** The repair of a row whose file is missing but whose thumbnail, named by no
      other row, is still on disk. */
  ghost predicate DropsAThumbnail(s: State, step: Step) {
    && step.Repair? && step.id in s.rows && RegularAt(s.disk, s.rows[step.id].thumb)
    && forall id :: id in s.rows && id != step.id ==> !References(s.rows[id], s.rows[step.id].thumb.value)
  }

  lemma StepsStayClean(c: Clock, s: State, step: Step, m: State)
    requires Clean(s) && Next(c, s, step, m)
    ensures Clean(m)
  {
  }

  /** No step turns a referenced file into a file no row references, but for
      exactly one: the repair that clears the path of a thumbnail still there. */
  lemma StepsOrphanOnlyThumbnails(c: Clock, s: State, step: Step, m: State)
    requires Clean(s) && Next(c, s, step, m)
    ensures (exists p :: Orphan(m, p) && !Orphan(s, p)) <==> DropsAThumbnail(s, step)
  {
    if DropsAThumbnail(s, step) {
      var p := s.rows[step.id].thumb.value;
      assert References(s.rows[step.id], p);
      assert Orphan(m, p) && !Orphan(s, p);
    } else {
      forall p | Orphan(m, p) ensures Orphan(s, p) {
        forall id | id in s.rows ensures !References(s.rows[id], p) {
          UnreferencedBefore(c, s, step, m, id, p);
        }
      }
    }
  }

  lemma OthersKeepTheirFiles(rows: map<nat, Row>, id: nat, r: Row, other: nat, p: nat)
    requires other in rows && other != id && References(rows[other], p)
    ensures Referenced(rows[id := r], p)
  {
    assert References(rows[id := r][other], p);
  }

  lemma UnreferencedBefore(c: Clock, s: State, step: Step, m: State, id: nat, p: nat)
    requires Clean(s) && Next(c, s, step, m) && !DropsAThumbnail(s, step) && Orphan(m, p) && id in s.rows
    ensures !References(s.rows[id], p)
  {
    assert CleanRow(s.rows[id]);
    if id in m.rows && m.rows[id] == s.rows[id] {
      assert !References(m.rows[id], p);
    } else if step.Repair? && s.rows[id].thumb == Some(p) {
      var other :| other in s.rows && other != id && References(s.rows[other], p);
      OthersKeepTheirFiles(s.rows, id, m.rows[id], other, p);
    }
  }

  /** The failing case, concretely: retention has not elapsed, the file is gone
      and its thumbnail is not. */
  lemma ARepairCanOrphanAThumbnail(c: Clock) returns (s: State, m: State)
    ensures Clean(s) && Next(c, s, Repair(1), m)
    ensures !Orphan(s, 7) && Orphan(m, 7)
  {
    s := State(map[1 := Row(Stored, Some(6), Some(7), c.now, c.now)], map[7 := Regular(c.now, false)]);
    m := s.(rows := s.rows[1 := Repaired(c, s.rows[1], s.disk)]);
    assert References(s.rows[1], 7);
  }

  ghost predicate IsRun(c: Clock, ss: seq<State>, steps: seq<Step>) {
    && |ss| == |steps| + 1 && Clean(ss[0])
    && forall i :: 0 <= i < |steps| ==> Next(c, ss[i], steps[i], ss[i + 1])
  }

  lemma {:induction false} RunStaysClean(c: Clock, ss: seq<State>, steps: seq<Step>, k: nat)
    requires IsRun(c, ss, steps) && k < |ss|
    ensures Clean(ss[k])
  {
    if k > 0 {
      RunStaysClean(c, ss, steps, k - 1);
      StepsStayClean(c, ss[k - 1], steps[k - 1], ss[k]);
    }
  }

  /** Over any run cut anywhere that drops no thumbnail, the unreferenced files at
      the end were unreferenced at the start. */
  lemma {:induction false} RunsWithoutDropsOrphanNothing(c: Clock, ss: seq<State>, steps: seq<Step>, k: nat, p: nat)
    requires IsRun(c, ss, steps) && k < |ss| && Orphan(ss[k], p)
    requires forall i :: 0 <= i < |steps| ==> !DropsAThumbnail(ss[i], steps[i])
    ensures Orphan(ss[0], p)
  {
    if k > 0 {
      RunStaysClean(c, ss, steps, k - 1);
      StepsOrphanOnlyThumbnails(c, ss[k - 1], steps[k - 1], ss[k]);
      RunsWithoutDropsOrphanNothing(c, ss, steps, k - 1, p);
    }
  }

  // ---------------------------------------------------------------------
  // Convergence
  // ---------------------------------------------------------------------

  /** What the order of the phases grants a repair: the retention phase has
      already dealt with the thumbnails of the expired rows. */
  ghost predicate InPhase(c: Clock, s: State, step: Step) {
    step.Repair? && step.id in s.rows && c.Expired(s.rows[step.id]) ==> !RegularAt(s.disk, s.rows[step.id].thumb)
  }

  /** Only regular files ever leave the disk, and only ones the pass removes. */
  lemma StepKeepsGone(c: Clock, s: State, step: Step, m: State, p: nat)
    requires Clean(s) && Next(c, s, step, m) && InPhase(c, s, step)
    ensures p in m.disk ==>
      p in s.disk && m.disk[p] == s.disk[p] && (GoneForRetention(c, m, p) <==> GoneForRetention(c, s, p))
    ensures p in s.disk && p !in m.disk ==> s.disk[p].Regular? && (GoneForRetention(c, s, p) || Sweepable(c, s, p))
  {
    if p in m.disk {
      forall id | id in s.rows
        ensures id in ExpiredIds(c, s) && UnlinkedFor(s.rows[id], s.disk, p)
          <==> id in m.rows && id in ExpiredIds(c, m) && UnlinkedFor(m.rows[id], m.disk, p)
      {
        SameUnlink(c, s, step, m, id, p);
      }
    }
  }

  lemma SameUnlink(c: Clock, s: State, step: Step, m: State, id: nat, p: nat)
    requires Clean(s) && Next(c, s, step, m) && InPhase(c, s, step) && p in m.disk && id in s.rows
    ensures id in ExpiredIds(c, s) && UnlinkedFor(s.rows[id], s.disk, p)
      <==> id in m.rows && id in ExpiredIds(c, m) && UnlinkedFor(m.rows[id], m.disk, p)
  {
  }

  lemma StepKeepsFate(c: Clock, s: State, step: Step, m: State, id: nat)
    requires Clean(s) && Next(c, s, step, m) && InPhase(c, s, step) && id in s.rows
    ensures Fate(c, s, s.rows[id]) == if id in m.rows then Fate(c, m, m.rows[id]) else None
  {
    var r := s.rows[id];
    if r.path.Some? {
      StepKeepsGone(c, s, step, m, r.path.value);
      assert References(r, r.path.value);
    }
    if r.thumb.Some? {
      StepKeepsGone(c, s, step, m, r.thumb.value);
    }
  }

  /** One effect of an interrupted pass does not change where a pass arrives. */
  lemma StepKeepsThePass(c: Clock, s: State, step: Step, m: State)
    requires Clean(s) && Next(c, s, step, m) && InPhase(c, s, step)
    ensures Pass(c, m) == Pass(c, s)
  {
    forall id
      ensures id in Pass(c, s).rows <==> id in Pass(c, m).rows
      ensures id in Pass(c, s).rows ==> Pass(c, s).rows[id] == Pass(c, m).rows[id]
    {
      PassRows(c, s, id);
      PassRows(c, m, id);
      if id in s.rows {
        StepKeepsFate(c, s, step, m, id);
      }
    }
    assert Pass(c, s).rows == Pass(c, m).rows;
    forall p
      ensures p in Pass(c, s).disk <==> p in Pass(c, m).disk
      ensures p in Pass(c, s).disk ==> Pass(c, s).disk[p] == Pass(c, m).disk[p]
    {
      PassDisk(c, s, p);
      PassDisk(c, m, p);
      StepKeepsGone(c, s, step, m, p);
      if !Referenced(s.rows, p) {
        PassKeepsUnreferenced(c, s, p);
      }
    }
    assert Pass(c, s).disk == Pass(c, m).disk;
  }

  lemma PassKeepsUnreferenced(c: Clock, s: State, p: nat)
    requires !Referenced(s.rows, p)
    ensures !Referenced(Pass(c, s).rows, p)
  {
    forall id | id in Pass(c, s).rows ensures !References(Pass(c, s).rows[id], p) {
      PassRows(c, s, id);
      assert !References(s.rows[id], p);
    }
  }

  /** Interrupted runs whose repairs come in phase converge to what one
      uninterrupted pass would have done. */
  lemma RunsInPhaseConverge(c: Clock, ss: seq<State>, steps: seq<Step>, k: nat)
    requires IsRun(c, ss, steps) && k < |ss|
    requires forall i :: 0 <= i < |steps| ==> InPhase(c, ss[i], steps[i])
    ensures Pass(c, ss[k]) == Pass(c, ss[0])
  {
    var passes := seq(|ss|, i requires 0 <= i < |ss| => Pass(c, ss[i]));
    forall i | 0 <= i < |steps| ensures passes[i + 1] == passes[i] {
      RunStaysClean(c, ss, steps, i);
      StepKeepsThePass(c, ss[i], steps[i], ss[i + 1]);
    }
    AllEqual(passes, k);
  }

  lemma {:induction false} AllEqual(states: seq<State>, k: nat)
    requires k < |states| && forall i :: 0 <= i && i + 1 < |states| ==> states[i + 1] == states[i]
    ensures states[k] == states[0]
  {
    if k > 0 {
      AllEqual(states, k - 1);
      var before := states[k - 1];
      assert states[k - 1 + 1] == before;
    }
  }

  /** After two uncapped phases the repairs come in phase, whichever rows the
      reconciliation has already repaired. */
  lemma RetentionFirstPutsRepairsInPhase(c: Clock, s: State, ids: set<nat>, id: nat)
    requires Clean(s) && id in FirstTwoPhases(c, s).rows
    ensures var t := RowsReconciled(c, FirstTwoPhases(c, s), ids);
      InPhase(c, t, Repair(id)) || !Missing(t.disk, t.rows[id].path)
  {
    var t := RowsReconciled(c, FirstTwoPhases(c, s), ids);
    var r := FirstTwoPhases(c, s).rows[id];
    if t.rows[id] == r && c.ExpiredStored(r) {
      assert id in ExpiredIds(c, s) && r == s.rows[id];
      if RegularAt(t.disk, r.thumb) {
        assert !UnlinkedFor(r, s.disk, r.thumb.value);
        assert IrregularAt(s.disk, r.path);
      }
    }
  }

  // ---------------------------------------------------------------------
  // The catalogues there are: no row has a thumbnail
  // ---------------------------------------------------------------------

  predicate NoThumbnails(s: State) {
    forall id :: id in s.rows ==> s.rows[id].thumb.None?
  }

  lemma StepsAddNoThumbnail(c: Clock, s: State, step: Step, m: State)
    requires NoThumbnails(s) && Next(c, s, step, m)
    ensures NoThumbnails(m) && InPhase(c, s, step) && !DropsAThumbnail(s, step)
  {
  }

  lemma {:induction false} RunsAddNoThumbnail(c: Clock, ss: seq<State>, steps: seq<Step>, k: nat)
    requires IsRun(c, ss, steps) && NoThumbnails(ss[0]) && k < |ss|
    ensures NoThumbnails(ss[k])
  {
    if k > 0 {
      RunsAddNoThumbnail(c, ss, steps, k - 1);
      StepsAddNoThumbnail(c, ss[k - 1], steps[k - 1], ss[k]);
    }
  }

  /** Whatever the interruptions, a catalogue without thumbnails never leaves a
      file behind that some row referenced. */
  lemma InterruptedRunsOrphanNothing(c: Clock, ss: seq<State>, steps: seq<Step>, k: nat, p: nat)
    requires IsRun(c, ss, steps) && NoThumbnails(ss[0]) && k < |ss| && Orphan(ss[k], p)
    ensures Orphan(ss[0], p)
  {
    forall i | 0 <= i < |steps| ensures !DropsAThumbnail(ss[i], steps[i]) {
      RunsAddNoThumbnail(c, ss, steps, i);
      StepsAddNoThumbnail(c, ss[i], steps[i], ss[i + 1]);
    }
    RunsWithoutDropsOrphanNothing(c, ss, steps, k, p);
  }

  /** Interrupting runs at any point, any number of times, in any order of their
      effects, and rerunning converges to what one uninterrupted pass would have
      done -- all at one instant, over a catalogue without thumbnails. */
  lemma InterruptedRunsConverge(c: Clock, ss: seq<State>, steps: seq<Step>, k: nat)
    requires IsRun(c, ss, steps) && NoThumbnails(ss[0]) && k < |ss|
    ensures Pass(c, ss[k]) == Pass(c, ss[0])
  {
    forall i | 0 <= i < |steps| ensures InPhase(c, ss[i], steps[i]) {
      RunsAddNoThumbnail(c, ss, steps, i);
      StepsAddNoThumbnail(c, ss[i], steps[i], ss[i + 1]);
    }
    RunsInPhaseConverge(c, ss, steps, k);
  }

  // ---------------------------------------------------------------------
  // The others: when a repair out of phase diverges
  // ---------------------------------------------------------------------

  /** The repair writes an expired row off while its thumbnail is on disk. */
  ghost predicate OutOfPhase(c: Clock, s: State, id: nat, m: State) {
    Clean(s) && Next(c, s, Repair(id), m) && !InPhase(c, s, Repair(id))
  }

  /** A pass would have unlinked the thumbnail; that repair leaves every other file
      to what the pass does with it. */
  lemma GoneAfterRepair(c: Clock, s: State, id: nat, m: State, p: nat)
    requires OutOfPhase(c, s, id, m)
    ensures s.rows[id].thumb == Some(p) ==> GoneForRetention(c, s, p)
    ensures s.rows[id].thumb != Some(p) ==> (GoneForRetention(c, m, p) <==> GoneForRetention(c, s, p))
    ensures GoneForRetention(c, m, p) ==> GoneForRetention(c, s, p)
  {
    var r := s.rows[id];
    assert id in ExpiredIds(c, s) && m.rows[id] == c.PurgedRow(r);
    if r.thumb == Some(p) {
      assert UnlinkedFor(r, s.disk, p);
    }
    forall x | x in s.rows && x != id
      ensures m.rows[x] == s.rows[x] && (x in ExpiredIds(c, m) <==> x in ExpiredIds(c, s))
    {
    }
    if r.thumb != Some(p) && p in s.disk && UnlinkedForAny(s, ExpiredIds(c, s), p) {
      var x :| x in ExpiredIds(c, s) && UnlinkedFor(s.rows[x], s.disk, p);
      assert UnlinkedFor(m.rows[x], m.disk, p);
    }
    if p in s.disk && UnlinkedForAny(m, ExpiredIds(c, m), p) {
      var x :| x in ExpiredIds(c, m) && UnlinkedFor(m.rows[x], m.disk, p);
      assert UnlinkedFor(s.rows[x], s.disk, p);
    }
  }

  lemma FateAfterRepair(c: Clock, s: State, id: nat, m: State, x: nat)
    requires OutOfPhase(c, s, id, m) && s.rows[id].thumb.value !in Pass(c, m).disk && x in s.rows
    ensures Fate(c, s, s.rows[x]) == Fate(c, m, m.rows[x])
  {
    if x != id {
      var q, r := s.rows[id].thumb.value, s.rows[x];
      if r.path.Some? {
        GoneAfterRepair(c, s, id, m, r.path.value);
        if r.path == Some(q) && !GoneForRetention(c, m, q) {
          StillReferenced(c, m, x, q);
        }
      }
    }
  }

  /** A row whose file no retention unlinks keeps it through the pass. */
  lemma StillReferenced(c: Clock, m: State, x: nat, q: nat)
    requires Clean(m) && x in m.rows && m.rows[x].path == Some(q) && q in m.disk && !GoneForRetention(c, m, q)
    requires m.disk[q].Regular?
    ensures q in Pass(c, m).disk
  {
    PassRows(c, m, x);
    PassDisk(c, m, q);
    if c.ExpiredStored(m.rows[x]) {
      assert x in ExpiredIds(c, m) && UnlinkedFor(m.rows[x], m.disk, q);
    } else {
      assert Fate(c, m, m.rows[x]) == Some(m.rows[x]);
      assert References(Pass(c, m).rows[x], q);
    }
  }

  /** A repair out of phase changes where a pass arrives exactly if the pass then
      keeps the thumbnail it wrote off. */
  lemma OutOfPhaseDiverges(c: Clock, s: State, id: nat, m: State)
    requires OutOfPhase(c, s, id, m)
    ensures Pass(c, m) == Pass(c, s) <==> s.rows[id].thumb.value !in Pass(c, m).disk
  {
    var q := s.rows[id].thumb.value;
    GoneAfterRepair(c, s, id, m, q);
    PassDisk(c, s, q);
    if q !in Pass(c, m).disk {
      forall x
        ensures x in Pass(c, s).rows <==> x in Pass(c, m).rows
        ensures x in Pass(c, s).rows ==> Pass(c, s).rows[x] == Pass(c, m).rows[x]
      {
        PassRows(c, s, x);
        PassRows(c, m, x);
        if x in s.rows {
          FateAfterRepair(c, s, id, m, x);
        }
      }
      assert Pass(c, s).rows == Pass(c, m).rows;
      forall p
        ensures p in Pass(c, s).disk <==> p in Pass(c, m).disk
        ensures p in Pass(c, s).disk ==> Pass(c, s).disk[p] == Pass(c, m).disk[p]
      {
        PassDisk(c, s, p);
        PassDisk(c, m, p);
        GoneAfterRepair(c, s, id, m, p);
      }
      assert Pass(c, s).disk == Pass(c, m).disk;
    }
  }

  /** Another row names the file and keeps its own file through the retention. */
  predicate KeptNaming(c: Clock, m: State, x: nat, q: nat) {
    x in m.rows && References(m.rows[x], q) && m.rows[x].path.Some? && !GoneForRetention(c, m, m.rows[x].path.value)
  }

  lemma NamedAfterThePass(c: Clock, m: State, x: nat, q: nat)
    requires Clean(m) && q in m.disk && m.disk[q].Regular? && !GoneForRetention(c, m, q)
    ensures KeptNaming(c, m, x, q) <==> x in Pass(c, m).rows && References(Pass(c, m).rows[x], q)
  {
    PassRows(c, m, x);
    if x in m.rows && c.ExpiredStored(m.rows[x]) {
      assert x in ExpiredIds(c, m) && !UnlinkedFor(m.rows[x], m.disk, q);
    }
  }

  /** What can be read off the state before the pass: the repair diverges exactly
      if no expired row unlinks the thumbnail, and it is young or some row that
      keeps its own file names it. */
  lemma WhenOutOfPhaseDiverges(c: Clock, s: State, id: nat, m: State)
    requires OutOfPhase(c, s, id, m)
    ensures var q := s.rows[id].thumb.value;
      Pass(c, m) != Pass(c, s) <==>
        !GoneForRetention(c, m, q) && (!c.OldEnough(s.disk[q]) || exists x :: KeptNaming(c, m, x, q))
  {
    var q := s.rows[id].thumb.value;
    OutOfPhaseDiverges(c, s, id, m);
    StepsStayClean(c, s, Repair(id), m);
    PassDisk(c, m, q);
    if !GoneForRetention(c, m, q) {
      forall x ensures KeptNaming(c, m, x, q) <==> x in Pass(c, m).rows && References(Pass(c, m).rows[x], q) {
        NamedAfterThePass(c, m, x, q);
      }
    }
  }

  /** So with a thumbnail no other row names, exactly while it is young. */
  lemma AloneItDivergesWhileYoung(c: Clock, s: State, id: nat, m: State)
    requires OutOfPhase(c, s, id, m) && DropsAThumbnail(s, Repair(id))
    ensures Pass(c, m) == Pass(c, s) <==> c.OldEnough(s.disk[s.rows[id].thumb.value])
  {
    var q := s.rows[id].thumb.value;
    forall x | x in m.rows ensures !References(m.rows[x], q) {
      assert x != id ==> m.rows[x] == s.rows[x];
    }
    assert forall x :: x in m.rows ==> !UnlinkedFor(m.rows[x], m.disk, q);
    PassKeepsUnreferenced(c, m, q);
    PassDisk(c, m, q);
    OutOfPhaseDiverges(c, s, id, m);
  }

  /** Concretely: an expired row whose file is gone and whose thumbnail is an hour
      old. Written off before the retention phase, the thumbnail stays. */
  lemma ARepairOutOfPhaseDiverges(c: Clock) returns (s: State, m: State)
    ensures Clean(s) && Next(c, s, Repair(1), m) && Pass(c, m) != Pass(c, s)
  {
    var captured := c.now - c.retentionDays * DAY - 1;
    s := State(map[1 := Row(Stored, Some(6), Some(7), captured, captured)], map[7 := Regular(c.now - HOUR, false)]);
    m := s.(rows := s.rows[1 := Repaired(c, s.rows[1], s.disk)]);
    AloneItDivergesWhileYoung(c, s, 1, m);
  }
}
