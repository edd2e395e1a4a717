/**
 Concurrent admissions on one tracker. Every critical section under its mutex
 is one step, and the resyncs between them run unlocked: a run is any
 interleaving of these steps, by any number of callers.
 */
module QuotaRuns {
  import opened Prelude
  import opened Quotas

  datatype Event =
    | Look(id: nat, now: Time, victim: nat)
    | RateCheck(id: nat, now: Time, victim: nat)
    | Decide(id: nat, now: Time, victim: nat, kind: Kind)
    | Reverify(id: nat, now: Time, victim: nat, kind: Kind)
    | AddBytes(id: nat, now: Time, victim: nat, n: int)
    | ApplyResync(id: nat, reading: Reading)

  /** History beside the map: each ledger as its last effective resync left it,
      the captures its rate check let through, and the last instant it ran. */
  datatype State = State(
    tenants: Tenants,
    synced: map<nat, Ledger>,
    captured: map<nat, seq<Time>>,
    checked: map<nat, Time>)

  /** Bytes are gated, never counted, at admission. */
  predicate Counts(kind: Kind) {
    !kind.MediaBytes?
  }

  predicate Enabled(s: State, ev: Event) {
    ev.ApplyResync? || TouchAllowed(s.tenants, ev.id, ev.victim)
  }

  function LedgerStep(limits: Limits, l: Ledger, ev: Event): (Ledger, Option<Verdict>)
    requires !ev.ApplyResync?
  {
    match ev
    case Look(_, _, _) => (l, None)
    case RateCheck(_, now, _) => (RateStep(limits, l, now).0, None)
    case Decide(_, now, _, kind) => var (l', v) := DecideStep(limits, l, now, kind, Counts(kind)); (l', Some(v))
    case Reverify(_, now, _, kind) => var (l', v) := ReverifiedStep(limits, l, now, kind, Counts(kind)); (l', Some(v))
    case AddBytes(_, _, _, n) => var (l', v) := AddBytesStep(limits, l, n); (l', Some(v))
  }

  /** The ledger a step works on. */
  function Base(s: State, ev: Event): Ledger
    requires !ev.ApplyResync?
  {
    Touched(s.tenants, ev.id, ev.now, ev.victim)[ev.id]
  }

  function VerdictOf(limits: Limits, s: State, ev: Event): Option<Verdict> {
    if ev.ApplyResync? then None else LedgerStep(limits, Base(s, ev), ev).1
  }

  function Captured(s: State, id: nat): seq<Time> {
    if id in s.tenants && id in s.captured then s.captured[id] else []
  }

  function Step(limits: Limits, s: State, ev: Event): State {
    if ev.ApplyResync? then
      var tenants := Resynced(limits, s.tenants, ev.id, ev.reading);
      s.(tenants := tenants,
         synced := if ev.id in tenants && !ev.reading.Failed? then s.synced[ev.id := tenants[ev.id]] else s.synced)
    else
      var base := Touched(s.tenants, ev.id, ev.now, ev.victim);
      var after := base[ev.id := LedgerStep(limits, base[ev.id], ev).0];
      var room := ev.RateCheck? && RateStep(limits, base[ev.id], ev.now).1;
      s.(tenants := after,
         captured := s.captured[ev.id := Captured(s, ev.id) + if room then [ev.now] else []],
         checked := if ev.RateCheck? then s.checked[ev.id := ev.now] else s.checked)
  }

  predicate Init(s: State) {
    s.tenants == map[] && s.synced == map[] && s.captured == map[] && s.checked == map[]
  }

  ghost predicate IsRun(limits: Limits, ss: seq<State>, evs: seq<Event>) {
    && limits.Valid() && |ss| == |evs| + 1 && Init(ss[0])
    && forall i :: 0 <= i < |evs| ==> Enabled(ss[i], evs[i]) && ss[i + 1] == Step(limits, ss[i], evs[i])
  }

  // ---------------------------------------------------------------------
  // Counts and bounds
  // ---------------------------------------------------------------------

  function Max(a: int, b: int): int {
    if a < b then b else a
  }

  ghost predicate CountsOk(limits: Limits, s: State) {
    forall id :: id in s.tenants && s.tenants[id].seeded ==>
      id in s.synced && LedgerCountsOk(limits, s.tenants[id], s.synced[id])
  }

  /** A step changes one ledger at most, and never the rate window but in a rate
      check; an eviction takes one other away. */
  lemma StepChangesOneLedger(limits: Limits, s: State, ev: Event, id: nat)
    requires Enabled(s, ev) && id in Step(limits, s, ev).tenants
    ensures id != ev.id ==> id in s.tenants && Step(limits, s, ev).tenants[id] == s.tenants[id]
    ensures id == ev.id && ev.ApplyResync? ==>
      id in s.tenants && Step(limits, s, ev).tenants[id] == Applied(limits, s.tenants[id], ev.reading)
    ensures id == ev.id && !ev.ApplyResync? ==>
      Step(limits, s, ev).tenants[id] == LedgerStep(limits, Base(s, ev), ev).0
  {
  }

  lemma BaseIsTheLedger(s: State, ev: Event)
    requires Enabled(s, ev) && !ev.ApplyResync?
    ensures Base(s, ev) == if ev.id in s.tenants then s.tenants[ev.id].(lastSeen := ev.now) else FreshLedger(ev.now)
  {
  }

  ghost predicate LedgerCountsOk(limits: Limits, l: Ledger, synced: Ledger) {
    && l.messages <= Max(limits.maxMessages, synced.messages)
    && l.mediaFiles <= Max(limits.maxMediaFiles, synced.mediaFiles)
  }

  lemma LedgerStepKeepsCounts(limits: Limits, l: Ledger, ev: Event, synced: Ledger)
    requires !ev.ApplyResync?
    ensures LedgerStep(limits, l, ev).0.seeded == l.seeded
    ensures l.seeded && LedgerCountsOk(limits, l, synced) ==>
      LedgerCountsOk(limits, LedgerStep(limits, l, ev).0, synced)
    ensures !ev.RateCheck? ==> LedgerStep(limits, l, ev).0.rate == l.rate
  {
  }

  lemma StepKeepsCounts(limits: Limits, s: State, ev: Event)
    requires CountsOk(limits, s) && Enabled(s, ev)
    ensures CountsOk(limits, Step(limits, s, ev))
  {
    var s' := Step(limits, s, ev);
    forall id | id in s'.tenants && s'.tenants[id].seeded
      ensures id in s'.synced && LedgerCountsOk(limits, s'.tenants[id], s'.synced[id])
    {
      StepChangesOneLedger(limits, s, ev, id);
      if id == ev.id && !ev.ApplyResync? {
        BaseIsTheLedger(s, ev);
        LedgerStepKeepsCounts(limits, Base(s, ev), ev, FreshLedger(0));
        LedgerStepKeepsCounts(limits, Base(s, ev), ev, s.synced[id]);
      }
    }
  }

  lemma {:induction false} RunKeepsCounts(limits: Limits, ss: seq<State>, evs: seq<Event>, k: nat)
    requires IsRun(limits, ss, evs) && k < |ss|
    ensures CountsOk(limits, ss[k]) && |ss[k].tenants| <= MAX_TENANTS
  {
    if k > 0 {
      RunKeepsCounts(limits, ss, evs, k - 1);
      var s, ev := ss[k - 1], evs[k - 1];
      StepKeepsCounts(limits, s, ev);
      if ev.ApplyResync? {
        assert ss[k].tenants.Keys == s.tenants.Keys;
      } else {
        TouchedIsBounded(s.tenants, ev.id, ev.now, ev.victim);
        assert ss[k].tenants.Keys == Touched(s.tenants, ev.id, ev.now, ev.victim).Keys;
      }
    }
  }

  /** However admissions and resyncs interleave, a seeded ledger never counts more
      messages or media files than the limit, unless the source itself said so,
      and the tracker holds at most 4096 ledgers. */
  lemma SeededCountsStayBounded(limits: Limits, ss: seq<State>, evs: seq<Event>, k: nat, id: nat)
    requires IsRun(limits, ss, evs) && k < |ss| && id in ss[k].tenants && ss[k].tenants[id].seeded
    ensures id in ss[k].synced
    ensures ss[k].tenants[id].messages <= Max(limits.maxMessages, ss[k].synced[id].messages)
    ensures ss[k].tenants[id].mediaFiles <= Max(limits.maxMediaFiles, ss[k].synced[id].mediaFiles)
    ensures |ss[k].tenants| <= MAX_TENANTS
  {
    RunKeepsCounts(limits, ss, evs, k);
  }

  /** Refused only at or above the limit, allowed only unseeded or under it, and
      counted exactly once when allowed. */
  ghost predicate VerdictIsRight(limits: Limits, before: Ledger, after: Ledger, kind: Kind, verdict: Verdict) {
    var full := before.seeded && before.Of(kind) >= limits.Of(kind);
    match verdict
    case Refuse(_, usage) => full && usage == before.Of(kind) == after.Of(kind)
    case Recheck => full && after == before
    case Allow(_, usage) => !full && usage == after.Of(kind) == before.Of(kind) + if Counts(kind) then 1 else 0
  }

  lemma DecideIsRight(limits: Limits, l: Ledger, now: Time, kind: Kind)
    ensures var (after, verdict) := DecideStep(limits, l, now, kind, Counts(kind));
      VerdictIsRight(limits, l, after, kind, verdict)
  {
  }

  lemma ReverifiedIsRight(limits: Limits, l: Ledger, now: Time, kind: Kind)
    ensures var (after, verdict) := ReverifiedStep(limits, l, now, kind, Counts(kind));
      VerdictIsRight(limits, l, after, kind, verdict) && !verdict.Recheck?
  {
  }

  /** In every state, whatever other callers do: a volume is refused only by a
      seeded ledger at or above its limit, and is counted once when allowed. */
  lemma EveryRefusalIsAtTheLimit(limits: Limits, s: State, ev: Event)
    requires Enabled(s, ev) && (ev.Decide? || ev.Reverify?)
    ensures var before, verdict := Base(s, ev), VerdictOf(limits, s, ev);
      verdict.Some? && VerdictIsRight(limits, before, Step(limits, s, ev).tenants[ev.id], ev.kind, verdict.value)
  {
    StepChangesOneLedger(limits, s, ev, ev.id);
    if ev.Decide? {
      DecideIsRight(limits, Base(s, ev), ev.now, ev.kind);
    } else {
      ReverifiedIsRight(limits, Base(s, ev), ev.now, ev.kind);
    }
  }

  /** What each step counts, whatever else runs: an allowed message or file once, in
      its own count; stored bytes as they are, a negative size as none; and a look
      or a rate check nothing at all. */
  lemma WhatAStepCounts(limits: Limits, s: State, ev: Event)
    requires Enabled(s, ev) && !ev.ApplyResync?
    ensures var before, after := Base(s, ev), Step(limits, s, ev).tenants[ev.id];
      var verdict := VerdictOf(limits, s, ev);
      var admits := (ev.Decide? || ev.Reverify?) && verdict.Some? && verdict.value.Allow?;
      && (verdict.Some? <==> ev.Decide? || ev.Reverify? || ev.AddBytes?)
      && after.messages == before.messages + (if admits && ev.kind == Messages then 1 else 0)
      && after.mediaFiles == before.mediaFiles + (if admits && ev.kind == MediaFiles then 1 else 0)
      && after.mediaBytes == before.mediaBytes + (if ev.AddBytes? && ev.n > 0 then ev.n else 0)
  {
    StepChangesOneLedger(limits, s, ev, ev.id);
  }

  // ---------------------------------------------------------------------
  // The sliding window
  // ---------------------------------------------------------------------

  lemma {:induction false} AfterAfter(stamps: seq<Time>, c1: Time, c2: Time)
    requires c1 <= c2
    ensures After(After(stamps, c1), c2) == After(stamps, c2)
  {
    if stamps != [] {
      var n := |stamps| - 1;
      AfterAfter(stamps[..n], c1, c2);
      if stamps[n] > c1 {
        assert (After(stamps[..n], c1) + [stamps[n]])[..|After(stamps[..n], c1)|] == After(stamps[..n], c1);
      } else {
        assert After(stamps[..n], c1) + [] == After(stamps[..n], c1);
        assert After(stamps[..n], c2) + [] == After(stamps[..n], c2);
      }
    }
  }

  lemma AfterAppend(stamps: seq<Time>, x: Time, cutoff: Time)
    ensures After(stamps + [x], cutoff) == After(stamps, cutoff) + if x > cutoff then [x] else []
  {
    assert (stamps + [x])[..|stamps|] == stamps;
  }

  predicate NonDecreasing(stamps: seq<Time>) {
    forall a, b :: 0 <= a <= b < |stamps| ==> stamps[a] <= stamps[b]
  }

  lemma {:induction false} RecentAreKept(stamps: seq<Time>, cutoff: Time, k: nat)
    requires NonDecreasing(stamps) && k < |stamps| && stamps[k] > cutoff
    ensures |After(stamps, cutoff)| >= |stamps| - k
  {
    var n := |stamps| - 1;
    if k < n {
      RecentAreKept(stamps[..n], cutoff, k);
    }
  }

  /** Any `cap + 1` consecutive captures take at least a whole window. */
  ghost predicate Spaced(stamps: seq<Time>, cap: nat) {
    forall a, b :: 0 <= a && a + cap <= b < |stamps| ==> stamps[a] + RATE_WINDOW <= stamps[b]
  }

  /** The list pruned in place is the in-window part of the captures, and these
      are spaced. `last` is when the list was last pruned. */
  ghost predicate WindowOk(cap: nat, captured: seq<Time>, rate: seq<Time>, last: Option<Time>) {
    && NonDecreasing(captured) && Spaced(captured, cap) && |rate| <= cap
    && match last
       case Some(t) =>
         (forall a :: 0 <= a < |captured| ==> captured[a] <= t) && rate == After(captured, t - RATE_WINDOW)
       case None => captured == [] && rate == []
  }

  function LastCheck(s: State, id: nat): Option<Time> {
    if id in s.checked then Some(s.checked[id]) else None
  }

  ghost predicate RateOk(limits: Limits, s: State, id: nat)
    requires id in s.tenants
  {
    WindowOk(limits.capturesPerMinute, Captured(s, id), s.tenants[id].rate, LastCheck(s, id))
  }

  /** The rate checks of this tenant run in the order of their instants. */
  predicate InOrder(s: State, ev: Event, id: nat) {
    ev.RateCheck? && ev.id == id && id in s.checked ==> s.checked[id] <= ev.now
  }

  lemma CaptureStaysSpaced(captured: seq<Time>, now: Time, cap: nat)
    requires NonDecreasing(captured) && Spaced(captured, cap) && |After(captured, now - RATE_WINDOW)| < cap
    requires forall a :: 0 <= a < |captured| ==> captured[a] <= now
    ensures NonDecreasing(captured + [now]) && Spaced(captured + [now], cap)
  {
    forall a | 0 <= a && a + cap <= |captured| ensures captured[a] + RATE_WINDOW <= now {
      if captured[a] > now - RATE_WINDOW {
        RecentAreKept(captured, now - RATE_WINDOW, a);
      }
    }
  }

  lemma CheckKeepsWindow(limits: Limits, captured: seq<Time>, l: Ledger, last: Option<Time>, now: Time)
    requires WindowOk(limits.capturesPerMinute, captured, l.rate, last) && (last.Some? ==> last.value <= now)
    ensures var (after, room) := RateStep(limits, l, now);
      WindowOk(limits.capturesPerMinute, captured + if room then [now] else [], after.rate, Some(now))
  {
    var cap, cutoff := limits.capturesPerMinute, now - RATE_WINDOW;
    if last.Some? {
      AfterAfter(captured, last.value - RATE_WINDOW, cutoff);
    }
    assert After(l.rate, cutoff) == After(captured, cutoff);
    AfterAppend(captured, now, cutoff);
    AfterIsShorter(l.rate, cutoff);
    if |After(captured, cutoff)| < cap {
      CaptureStaysSpaced(captured, now, cap);
    } else {
      assert captured + [] == captured;
    }
  }

  lemma OwnStepKeepsRate(limits: Limits, s: State, ev: Event)
    requires Enabled(s, ev) && !ev.ApplyResync? && InOrder(s, ev, ev.id)
    requires WindowOk(limits.capturesPerMinute, Captured(s, ev.id), Base(s, ev).rate, LastCheck(s, ev.id))
    ensures RateOk(limits, Step(limits, s, ev), ev.id)
  {
    var l := Base(s, ev);
    LedgerStepKeepsCounts(limits, l, ev, l);
    if ev.RateCheck? {
      CheckKeepsWindow(limits, Captured(s, ev.id), l, LastCheck(s, ev.id), ev.now);
    } else {
      assert Captured(s, ev.id) + [] == Captured(s, ev.id);
    }
  }

  lemma StepKeepsRate(limits: Limits, s: State, ev: Event, id: nat)
    requires Enabled(s, ev) && InOrder(s, ev, id) && id in Step(limits, s, ev).tenants
    requires id in s.tenants ==> RateOk(limits, s, id)
    ensures RateOk(limits, Step(limits, s, ev), id)
  {
    StepChangesOneLedger(limits, s, ev, id);
    if id == ev.id && !ev.ApplyResync? {
      BaseIsTheLedger(s, ev);
      OwnStepKeepsRate(limits, s, ev);
    }
  }

  lemma {:induction false} RunKeepsRate(limits: Limits, ss: seq<State>, evs: seq<Event>, k: nat, id: nat)
    requires IsRun(limits, ss, evs) && k < |ss| && forall i :: 0 <= i < |evs| ==> InOrder(ss[i], evs[i], id)
    ensures id in ss[k].tenants ==> RateOk(limits, ss[k], id)
  {
    if k > 0 {
      RunKeepsRate(limits, ss, evs, k - 1, id);
      if id in ss[k].tenants {
        StepKeepsRate(limits, ss[k - 1], evs[k - 1], id);
      }
    }
  }

  /** Whatever runs in between, the captures let through since the ledger was
      created are spaced by the cap, as long as the rate checks of this tenant
      run in the order of their instants. And the list pruned in place is
      exactly its captures of the last minute, in order. */
  lemma CapturesNeverExceedTheRate(limits: Limits, ss: seq<State>, evs: seq<Event>, k: nat, id: nat)
    requires IsRun(limits, ss, evs) && k < |ss| && id in ss[k].tenants
    requires forall i :: 0 <= i < |evs| ==> InOrder(ss[i], evs[i], id)
    ensures Spaced(Captured(ss[k], id), limits.capturesPerMinute)
    ensures id in ss[k].checked ==>
      ss[k].tenants[id].rate == After(Captured(ss[k], id), ss[k].checked[id] - RATE_WINDOW)
  {
    RunKeepsRate(limits, ss, evs, k, id);
  }

  predicate InWindow(stamp: Time, end: Time) {
    end - 60 < stamp <= end
  }

  lemma {:induction false} CountedFrom(stamps: seq<Time>, end: Time, first: int)
    requires first <= |stamps| && forall a :: 0 <= a < |stamps| && InWindow(stamps[a], end) ==> first <= a
    ensures CountInMinute(stamps, end) <= |stamps| - first
  {
    if stamps != [] {
      var n := |stamps| - 1;
      if InWindow(stamps[n], end) || first <= n {
        CountedFrom(stamps[..n], end, first);
      } else {
        CountedFrom(stamps[..n], end, n);
      }
    }
  }

  lemma {:induction false} SpacedAreFew(stamps: seq<Time>, cap: nat, end: Time)
    requires Spaced(stamps, cap)
    ensures CountInMinute(stamps, end) <= cap
  {
    if stamps != [] {
      var n := |stamps| - 1;
      if InWindow(stamps[n], end) {
        forall a | 0 <= a < |stamps| && InWindow(stamps[a], end) ensures |stamps| - cap <= a {
        }
        CountedFrom(stamps, end, |stamps| - cap);
      } else {
        SpacedAreFew(stamps[..n], cap, end);
      }
    }
  }

  /** The promise of the rate limit, over every interleaving: in no minute whatever,
      wherever it starts, are more captures of a tenant let through than its cap. */
  lemma AWindowHoldsAtMostTheCap(limits: Limits, ss: seq<State>, evs: seq<Event>, k: nat, id: nat, end: Time)
    requires IsRun(limits, ss, evs) && k < |ss|
    requires forall i :: 0 <= i < |evs| ==> InOrder(ss[i], evs[i], id)
    ensures CountInMinute(Captured(ss[k], id), end) <= limits.capturesPerMinute
  {
    if id in ss[k].tenants {
      CapturesNeverExceedTheRate(limits, ss, evs, k, id);
      SpacedAreFew(Captured(ss[k], id), limits.capturesPerMinute, end);
    }
  }

  /** And nothing less is let through: over every interleaving, with the checks of
      this tenant in the order of their instants, a capture is let through exactly
      if fewer than the cap were in the 60 seconds up to it. */
  lemma TheRateCheckIsExact(limits: Limits, ss: seq<State>, evs: seq<Event>, k: nat, id: nat)
    requires IsRun(limits, ss, evs) && k < |evs| && evs[k].RateCheck? && evs[k].id == id
    requires forall i :: 0 <= i < |evs| ==> InOrder(ss[i], evs[i], id)
    ensures var captured, now := Captured(ss[k], id), evs[k].now;
      Captured(ss[k + 1], id) ==
        captured + if CountInMinute(captured, now) < limits.capturesPerMinute then [now] else []
  {
    RunKeepsRate(limits, ss, evs, k, id);
    var s, ev := ss[k], evs[k];
    BaseIsTheLedger(s, ev);
    assert InOrder(s, ev, id);
    CheckIsExact(limits, Captured(s, id), Base(s, ev), LastCheck(s, id), ev.now);
  }

  lemma CheckIsExact(limits: Limits, captured: seq<Time>, l: Ledger, last: Option<Time>, now: Time)
    requires WindowOk(limits.capturesPerMinute, captured, l.rate, last) && (last.Some? ==> last.value <= now)
    ensures RateStep(limits, l, now).1 <==> CountInMinute(captured, now) < limits.capturesPerMinute
  {
    if last.Some? {
      AfterAfter(captured, last.value - RATE_WINDOW, now - RATE_WINDOW);
    }
    AfterCounts(captured, now);
  }

  // ---------------------------------------------------------------------
  // Warnings
  // ---------------------------------------------------------------------

  /** A warning of the threshold, as opposed to that of a fresh refusal. */
  predicate CrossingWarned(limits: Limits, s: State, ev: Event, id: nat, kind: Kind) {
    && ev.id == id
    && (ev.Decide? || ev.Reverify? || ev.AddBytes?)
    && kind == (if ev.AddBytes? then MediaBytes else ev.kind)
    && VerdictOf(limits, s, ev).Some? && VerdictOf(limits, s, ev).value.Allow? && VerdictOf(limits, s, ev).value.warn
  }

  /** A resync that read usage back under the threshold, or the eviction of the ledger. */
  predicate Rearms(limits: Limits, s: State, ev: Event, id: nat, kind: Kind) {
    if ev.ApplyResync? then
      ev.id == id && id in s.tenants && ev.reading.Counts?
      && Applied(limits, s.tenants[id], ev.reading).Of(kind) < limits.Threshold(kind)
    else MustEvict(s.tenants, ev.id) && ev.victim == id
  }

  predicate IsWarned(s: State, id: nat, kind: Kind) {
    id in s.tenants && kind in s.tenants[id].warned
  }

  lemma LedgerStepKeepsWarned(limits: Limits, l: Ledger, ev: Event, kind: Kind)
    requires !ev.ApplyResync? && kind in l.warned
    ensures kind in LedgerStep(limits, l, ev).0.warned
  {
  }

  lemma WarnedUntilRearmed(limits: Limits, s: State, ev: Event, id: nat, kind: Kind)
    requires Enabled(s, ev) && IsWarned(s, id, kind) && !Rearms(limits, s, ev, id, kind)
    ensures IsWarned(Step(limits, s, ev), id, kind) && !CrossingWarned(limits, s, ev, id, kind)
  {
    if ev.id == id {
      if !ev.ApplyResync? {
        BaseIsTheLedger(s, ev);
        LedgerStepKeepsWarned(limits, Base(s, ev), ev, kind);
      }
    } else {
      assert id in Step(limits, s, ev).tenants;
      StepChangesOneLedger(limits, s, ev, id);
    }
  }

  lemma CrossingMarks(limits: Limits, s: State, ev: Event, id: nat, kind: Kind)
    requires Enabled(s, ev) && CrossingWarned(limits, s, ev, id, kind)
    ensures IsWarned(Step(limits, s, ev), id, kind)
  {
  }

  lemma {:induction false} WarnedOverRuns(
    limits: Limits, ss: seq<State>, evs: seq<Event>, i: nat, j: nat, id: nat, kind: Kind)
    requires IsRun(limits, ss, evs) && i < j <= |evs| && CrossingWarned(limits, ss[i], evs[i], id, kind)
    requires forall k :: i < k < j ==> !Rearms(limits, ss[k], evs[k], id, kind)
    ensures IsWarned(ss[j], id, kind)
    decreases j
  {
    if j == i + 1 {
      CrossingMarks(limits, ss[i], evs[i], id, kind);
    } else {
      WarnedOverRuns(limits, ss, evs, i, j - 1, id, kind);
      WarnedUntilRearmed(limits, ss[j - 1], evs[j - 1], id, kind);
    }
  }

  /** Between two threshold warnings of one tenant and quota there is always a
      resync that read usage under the threshold, or an eviction: however many
      admissions run, one climb warns once. */
  lemma OneWarningPerCrossing(limits: Limits, ss: seq<State>, evs: seq<Event>, i: nat, j: nat, id: nat, kind: Kind)
    requires IsRun(limits, ss, evs) && i < j < |evs|
    requires CrossingWarned(limits, ss[i], evs[i], id, kind) && CrossingWarned(limits, ss[j], evs[j], id, kind)
    ensures exists k :: i < k <= j && Rearms(limits, ss[k], evs[k], id, kind)
  {
    if forall k :: i < k <= j ==> !Rearms(limits, ss[k], evs[k], id, kind) {
      WarnedOverRuns(limits, ss, evs, i, j, id, kind);
      WarnedUntilRearmed(limits, ss[j], evs[j], id, kind);
    }
  }
}
