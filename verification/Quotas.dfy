/**
 The per-tenant quota tracker: an in-memory ledger seeded from the database,
 a sliding rate window, and memoised refusals.

 Durations are in seconds. A `Reading` is what the usage source answers to one
 resync, which runs outside the lock.
 */
module Quotas {
  import opened Prelude

  datatype Kind = Messages | MediaFiles | MediaBytes

  datatype Limits = Limits(
    maxMessages: nat,
    maxMediaFiles: nat,
    maxMediaBytes: nat,
    capturesPerMinute: nat,
    warnPercent: nat)
  {
    predicate Valid() {
      && 0 < maxMessages < INT64 && 0 < maxMediaFiles < INT64 && 0 < maxMediaBytes < INT64
      && 0 < capturesPerMinute < INT64 && 0 < warnPercent < 100
    }

    function Of(kind: Kind): nat {
      match kind
      case Messages => maxMessages
      case MediaFiles => maxMediaFiles
      case MediaBytes => maxMediaBytes
    }

    function Threshold(kind: Kind): nat {
      WarnThreshold(Of(kind), warnPercent)
    }
  }

  datatype Reading =
    | Counts(messages: int, mediaFiles: int, mediaBytes: int)
    | Failed
    | NoSource

  datatype Ledger = Ledger(
    messages: nat,
    mediaFiles: nat,
    mediaBytes: nat,
    seeded: bool,
    rate: seq<Time>,
    warned: set<Kind>,
    blocked: map<Kind, Time>,
    lastSeen: Time)
  {
    function Of(kind: Kind): nat {
      match kind
      case Messages => messages
      case MediaFiles => mediaFiles
      case MediaBytes => mediaBytes
    }
  }

  type Tenants = map<nat, Ledger>

  datatype Verdict =
    | Allow(warn: bool, usage: nat)
    | Refuse(warn: bool, usage: nat)
    | Recheck

  const INT64: int := 0x8000_0000_0000_0000
  const RATE_WINDOW: Time := 60
  const RECHECK_INTERVAL: Time := 60
  const MAX_TENANTS: nat := 4096

  // ---------------------------------------------------------------------
  // The warning threshold
  // ---------------------------------------------------------------------

  function WarnThreshold(limit: nat, percent: nat): nat {
    limit / 100 * percent + limit % 100 * percent / 100
  }

  lemma DivSplit(q: nat, r: nat, percent: nat)
    ensures (q * 100 + r) * percent / 100 == q * percent + r * percent / 100
  {
    assert (q * 100 + r) * percent == 100 * (q * percent) + r * percent;
  }

  lemma MulAtMost(a: nat, b: nat, bound: nat)
    requires b <= bound
    ensures a * b <= a * bound
  {
  }

  /** The threshold is exactly the given percentage of the limit, rounded down,
      and no intermediate product overflows 64 bits. */
  lemma ThresholdIsThePercentage(limit: nat, percent: nat)
    requires limit < INT64 && 0 < percent < 100
    ensures WarnThreshold(limit, percent) == limit * percent / 100 <= limit
    ensures limit / 100 * percent < INT64 && limit % 100 * percent < INT64
  {
    DivSplit(limit / 100, limit % 100, percent);
    MulAtMost(limit / 100, percent, 100);
    MulAtMost(limit % 100, percent, 100);
  }

  // ---------------------------------------------------------------------
  // The rate window
  // ---------------------------------------------------------------------

  /** The stamps after the cutoff, in order. */
  function After(stamps: seq<Time>, cutoff: Time): seq<Time> {
    if stamps == [] then []
    else
      var n := |stamps| - 1;
      After(stamps[..n], cutoff) + if stamps[n] > cutoff then [stamps[n]] else []
  }

  lemma {:induction false} AfterIsShorter(stamps: seq<Time>, cutoff: Time)
    ensures |After(stamps, cutoff)| <= |stamps|
  {
    if stamps != [] {
      AfterIsShorter(stamps[..|stamps| - 1], cutoff);
    }
  }

  lemma AfterTakes(stamps: seq<Time>, i: nat, cutoff: Time)
    requires i < |stamps|
    ensures After(stamps[..i + 1], cutoff) ==
      After(stamps[..i], cutoff) + if stamps[i] > cutoff then [stamps[i]] else []
  {
    assert stamps[..i + 1][..i] == stamps[..i];
  }

  /** Prunes the first `len` stamps in place and zeroes the freed tail. */
  method PruneBefore(stamps: array<Time>, len: nat, cutoff: Time) returns (kept: nat)
    requires len <= stamps.Length
    modifies stamps
    ensures kept <= len && stamps[..kept] == After(old(stamps[..len]), cutoff)
    ensures forall i :: kept <= i < len ==> stamps[i] == 0
    ensures forall i :: len <= i < stamps.Length ==> stamps[i] == old(stamps[i])
  {
    ghost var all := stamps[..len];
    kept := 0;
    var i := 0;
    while i < len
      invariant 0 <= kept <= i <= len && stamps[..kept] == After(all[..i], cutoff)
      invariant forall j :: i <= j < len ==> stamps[j] == all[j]
      invariant forall j :: len <= j < stamps.Length ==> stamps[j] == old(stamps[j])
    {
      AfterTakes(all, i, cutoff);
      if stamps[i] > cutoff {
        ghost var before := stamps[..kept];
        stamps[kept] := stamps[i];
        kept := kept + 1;
        assert stamps[..kept] == before + [all[i]];
      }
      i := i + 1;
    }
    assert all[..len] == all;
    ghost var result := stamps[..kept];
    i := kept;
    while i < len
      invariant kept <= i <= len && stamps[..kept] == result
      invariant forall j :: kept <= j < i ==> stamps[j] == 0
      invariant forall j :: len <= j < stamps.Length ==> stamps[j] == old(stamps[j])
    {
      stamps[i] := 0;
      i := i + 1;
    }
  }

  /** Rate first: room in the window, and then the capture takes its place. */
  function RateStep(limits: Limits, l: Ledger, now: Time): (Ledger, bool) {
    var rate := After(l.rate, now - RATE_WINDOW);
    if |rate| >= limits.capturesPerMinute then (l.(rate := rate), false)
    else (l.(rate := rate + [now]), true)
  }

  /** How many stamps lie in the minute that ends at `now`. */
  function CountInMinute(stamps: seq<Time>, now: Time): nat {
    if stamps == [] then 0
    else
      var last := stamps[|stamps| - 1];
      CountInMinute(stamps[..|stamps| - 1], now) + if now - 60 < last <= now then 1 else 0
  }

  lemma {:induction false} AfterCounts(stamps: seq<Time>, now: Time)
    requires forall i :: 0 <= i < |stamps| ==> stamps[i] <= now
    ensures |After(stamps, now - 60)| == CountInMinute(stamps, now)
  {
    if stamps != [] {
      AfterCounts(stamps[..|stamps| - 1], now);
    }
  }

  /** Room exactly while fewer captures than the cap lie in the last minute. The
      list then holds these and the new one, or these alone. */
  lemma RoomWhileUnderTheCap(limits: Limits, l: Ledger, now: Time)
    requires forall i :: 0 <= i < |l.rate| ==> l.rate[i] <= now
    ensures var (after, room) := RateStep(limits, l, now);
      && (room <==> CountInMinute(l.rate, now) < limits.capturesPerMinute)
      && after == l.(rate := After(l.rate, now - 60) + if room then [now] else [])
  {
    AfterCounts(l.rate, now);
    assert After(l.rate, now - 60) + [] == After(l.rate, now - 60);
  }

  // ---------------------------------------------------------------------
  // Ledger steps, each one critical section
  // ---------------------------------------------------------------------

  function FreshLedger(now: Time): Ledger {
    Ledger(0, 0, 0, false, [], {}, map[], now)
  }

  predicate IsLeastRecentlySeen(tenants: Tenants, victim: nat) {
    victim in tenants && forall id :: id in tenants ==> tenants[victim].lastSeen <= tenants[id].lastSeen
  }

  predicate MustEvict(tenants: Tenants, id: nat) {
    id !in tenants && |tenants| >= MAX_TENANTS
  }

  /** The map after tenantLocked, `victim` being the tenant it evicts if it must. */
  function Touched(tenants: Tenants, id: nat, now: Time, victim: nat): Tenants {
    if id in tenants then tenants[id := tenants[id].(lastSeen := now)]
    else (if MustEvict(tenants, id) then tenants - {victim} else tenants)[id := FreshLedger(now)]
  }

  predicate TouchAllowed(tenants: Tenants, id: nat, victim: nat) {
    MustEvict(tenants, id) ==> IsLeastRecentlySeen(tenants, victim)
  }

  function Counted(l: Ledger, kind: Kind, inc: bool): Ledger {
    if !inc then l
    else if kind.MediaFiles? then l.(mediaFiles := l.mediaFiles + 1)
    else l.(messages := l.messages + 1)
  }

  /** allowLocked: counts one unit, and warns on the crossing call only. */
  function Allowed(limits: Limits, l: Ledger, kind: Kind, inc: bool): (Ledger, Verdict) {
    var counted := Counted(l, kind, inc);
    var crossing := counted.Of(kind) >= limits.Threshold(kind) && kind !in l.warned;
    (if crossing then counted.(warned := counted.warned + {kind}) else counted, Allow(crossing, counted.Of(kind)))
  }

  function DecideStep(limits: Limits, l: Ledger, now: Time, kind: Kind, inc: bool): (Ledger, Verdict) {
    if !l.seeded || l.Of(kind) < limits.Of(kind) then Allowed(limits, l, kind, inc)
    else if kind in l.blocked && now < l.blocked[kind] then (l, Refuse(false, l.Of(kind)))
    else (l, Recheck)
  }

  function ReverifiedStep(limits: Limits, l: Ledger, now: Time, kind: Kind, inc: bool): (Ledger, Verdict) {
    if !l.seeded || l.Of(kind) < limits.Of(kind) then Allowed(limits, l.(blocked := l.blocked - {kind}), kind, inc)
    else (l.(blocked := l.blocked[kind := now + RECHECK_INTERVAL], warned := l.warned + {kind}),
          Refuse(true, l.Of(kind)))
  }

  function AddBytesStep(limits: Limits, l: Ledger, n: int): (Ledger, Verdict) {
    var added := l.(mediaBytes := l.mediaBytes + if n < 0 then 0 else n);
    var crossing := added.mediaBytes >= limits.Threshold(MediaBytes) && MediaBytes !in l.warned;
    (if crossing then added.(warned := added.warned + {MediaBytes}) else added, Allow(crossing, added.mediaBytes))
  }

  function NonNegative(n: int): nat {
    if n < 0 then 0 else n
  }

  /** The second half of a resync, on a ledger still there. */
  function Applied(limits: Limits, l: Ledger, r: Reading): Ledger {
    match r
    case Failed => l
    case NoSource => l.(seeded := true)
    case Counts(m, f, b) =>
      var synced := l.(messages := NonNegative(m), mediaFiles := NonNegative(f), mediaBytes := NonNegative(b),
                       seeded := true);
      synced.(blocked := map k | k in l.blocked && synced.Of(k) >= limits.Of(k) :: l.blocked[k],
              warned := set k | k in l.warned && synced.Of(k) >= limits.Threshold(k))
  }

  function Resynced(limits: Limits, tenants: Tenants, id: nat, r: Reading): Tenants {
    if id in tenants then tenants[id := Applied(limits, tenants[id], r)] else tenants
  }

  /** The decision, and the re-verification it may ask for. */
  function SettleAlone(limits: Limits, l: Ledger, now: Time, kind: Kind, inc: bool, second: Reading)
    : (Ledger, Verdict)
  {
    var (decided, verdict) := DecideStep(limits, l, now, kind, inc);
    if verdict.Recheck? then ReverifiedStep(limits, Applied(limits, l, second), now, kind, inc) else (decided, verdict)
  }

  function SeededAlone(limits: Limits, l: Ledger, first: Reading): Ledger {
    if l.seeded then l else Applied(limits, l, first)
  }

  /** A whole admission of one tenant, alone: seeding, decision, re-verification.
      `first` and `second` are what the source would answer. */
  function AdmitAlone(limits: Limits, l: Ledger, now: Time, kind: Kind, inc: bool, first: Reading, second: Reading)
    : (Ledger, Verdict)
  {
    SettleAlone(limits, SeededAlone(limits, l, first), now, kind, inc, second)
  }

  // ---------------------------------------------------------------------
  // The tracker
  // ---------------------------------------------------------------------

  class Tracker {
    const limits: Limits
    var tenants: Tenants

    ghost predicate Valid()
      reads this
    {
      limits.Valid() && |tenants| <= MAX_TENANTS
    }

    constructor (limits: Limits)
      requires limits.Valid()
      ensures Valid() && this.limits == limits && tenants == map[]
    {
      this.limits := limits;
      tenants := map[];
    }

    /** Drops the least recently seen tenant. */
    method EvictOldest() returns (victim: nat)
      requires tenants != map[]
      modifies this`tenants
      ensures IsLeastRecentlySeen(old(tenants), victim) && tenants == old(tenants) - {victim}
    {
      victim :| victim in tenants;
      var todo := tenants.Keys - {victim};
      while todo != {}
        invariant todo <= tenants.Keys && victim in tenants
        invariant forall id :: id in tenants && id !in todo ==> tenants[victim].lastSeen <= tenants[id].lastSeen
        decreases todo
      {
        var id :| id in todo;
        if tenants[id].lastSeen < tenants[victim].lastSeen {
          victim := id;
        }
        todo := todo - {id};
      }
      tenants := tenants - {victim};
    }

    /** The ledger of a tenant, inserted when new. */
    method Touch(id: nat, now: Time) returns (ghost victim: nat)
      requires Valid()
      modifies this`tenants
      ensures Valid() && id in tenants
      ensures TouchAllowed(old(tenants), id, victim) && tenants == Touched(old(tenants), id, now, victim)
    {
      victim := 0;
      if id in tenants {
        tenants := tenants[id := tenants[id].(lastSeen := now)];
        TouchedIsBounded(old(tenants), id, now, victim);
        return;
      }
      if |tenants| >= MAX_TENANTS {
        victim := EvictOldest();
      }
      tenants := tenants[id := FreshLedger(now)];
      TouchedIsBounded(old(tenants), id, now, victim);
    }

    method Resync(id: nat, r: Reading)
      requires Valid()
      modifies this`tenants
      ensures Valid() && tenants == Resynced(limits, old(tenants), id, r)
    {
      if id in tenants {
        tenants := tenants[id := Applied(limits, tenants[id], r)];
        assert tenants.Keys == old(tenants).Keys;
      }
    }

    /** A resync and the look at the ledger that follows it, nobody else running. */
    method ResyncAndTouch(id: nat, now: Time, r: Reading)
      requires Valid() && id in tenants && tenants[id].lastSeen == now
      modifies this`tenants
      ensures Valid() && tenants == old(tenants)[id := Applied(limits, old(tenants)[id], r)]
    {
      AppliedKeepsLastSeen(limits, tenants[id], r);
      Resync(id, r);
      ghost var victim := Touch(id, now);
    }

    /** Replaces one ledger. */
    method Put(id: nat, l: Ledger)
      requires Valid() && id in tenants
      modifies this`tenants
      ensures Valid() && tenants == old(tenants)[id := l]
    {
      tenants := tenants[id := l];
      assert tenants.Keys == old(tenants).Keys;
    }

    /** The decision on a ledger just looked at. */
    method Settle(id: nat, now: Time, kind: Kind, inc: bool, second: Reading) returns (verdict: Verdict)
      requires Valid() && id in tenants && tenants[id].lastSeen == now
      modifies this`tenants
      ensures Valid()
      ensures tenants == old(tenants)[id := SettleAlone(limits, old(tenants)[id], now, kind, inc, second).0]
      ensures verdict == SettleAlone(limits, old(tenants)[id], now, kind, inc, second).1
    {
      var decided := DecideStep(limits, tenants[id], now, kind, inc);
      if decided.1.Recheck? {
        ResyncAndTouch(id, now, second);
        decided := ReverifiedStep(limits, tenants[id], now, kind, inc);
      }
      Put(id, decided.0);
      verdict := decided.1;
    }

    /** One volume admission running alone. */
    method AdmitVolume(id: nat, now: Time, kind: Kind, inc: bool, first: Reading, second: Reading)
      returns (verdict: Verdict, ghost victim: nat)
      requires Valid()
      modifies this`tenants
      ensures Valid() && TouchAllowed(old(tenants), id, victim)
      ensures var base := Touched(old(tenants), id, now, victim);
        && tenants == base[id := AdmitAlone(limits, base[id], now, kind, inc, first, second).0]
        && verdict == AdmitAlone(limits, base[id], now, kind, inc, first, second).1
    {
      victim := Touch(id, now);
      Seed(id, now, first);
      verdict := Settle(id, now, kind, inc, second);
    }

    /** Seeds a ledger just looked at, if nothing has yet. */
    method Seed(id: nat, now: Time, first: Reading)
      requires Valid() && id in tenants && tenants[id].lastSeen == now
      modifies this`tenants
      ensures Valid() && tenants == old(tenants)[id := SeededAlone(limits, old(tenants)[id], first)]
      ensures tenants[id].lastSeen == now
    {
      AppliedKeepsLastSeen(limits, tenants[id], first);
      if !tenants[id].seeded {
        ResyncAndTouch(id, now, first);
      }
    }

    /** One capture admission running alone: the rate budget is spent even when
        the volume is refused afterwards. */
    method AdmitCapture(id: nat, now: Time, first: Reading, second: Reading)
      returns (verdict: Option<Verdict>, ghost victim: nat)
      requires Valid()
      modifies this`tenants
      ensures Valid() && TouchAllowed(old(tenants), id, victim)
      ensures var base := Touched(old(tenants), id, now, victim);
        var (rated, room) := RateStep(limits, base[id], now);
        if !room then verdict.None? && tenants == base[id := rated]
        else
          && tenants == base[id := AdmitAlone(limits, rated, now, Messages, true, first, second).0]
          && verdict == Some(AdmitAlone(limits, rated, now, Messages, true, first, second).1)
      ensures var rate := if id in old(tenants) then old(tenants)[id].rate else [];
        (forall i :: 0 <= i < |rate| ==> rate[i] <= now) ==>
          (verdict.None? <==> CountInMinute(rate, now) >= limits.capturesPerMinute)
    {
      victim := Touch(id, now);
      ALookFindsTheRate(limits, old(tenants), id, now, victim);
      var step := RateStep(limits, tenants[id], now);
      Put(id, step.0);
      if !step.1 {
        return None, victim;
      }
      ghost var rated := tenants;
      ghost var again;
      var v;
      v, again := AdmitVolume(id, now, Messages, true, first, second);
      assert Touched(rated, id, now, again) == rated;
      return Some(v), victim;
    }
  }

  lemma ALookFindsTheRate(limits: Limits, tenants: Tenants, id: nat, now: Time, victim: nat)
    ensures var rate := if id in tenants then tenants[id].rate else [];
      (forall i :: 0 <= i < |rate| ==> rate[i] <= now) ==>
        (!RateStep(limits, Touched(tenants, id, now, victim)[id], now).1 <==>
          CountInMinute(rate, now) >= limits.capturesPerMinute)
  {
    var l := Touched(tenants, id, now, victim)[id];
    if forall i :: 0 <= i < |l.rate| ==> l.rate[i] <= now {
      RoomWhileUnderTheCap(limits, l, now);
    }
  }

  lemma AppliedKeepsLastSeen(limits: Limits, l: Ledger, r: Reading)
    ensures Applied(limits, l, r).lastSeen == l.lastSeen
  {
  }

  lemma TouchedIsBounded(tenants: Tenants, id: nat, now: Time, victim: nat)
    requires |tenants| <= MAX_TENANTS && TouchAllowed(tenants, id, victim)
    ensures |Touched(tenants, id, now, victim)| <= MAX_TENANTS && id in Touched(tenants, id, now, victim)
  {
    var t := Touched(tenants, id, now, victim);
    if id in tenants {
      assert t.Keys == tenants.Keys;
    } else if MustEvict(tenants, id) {
      assert t.Keys == (tenants.Keys - {victim}) + {id};
    } else {
      assert t.Keys == tenants.Keys + {id};
    }
  }

  // ---------------------------------------------------------------------
  // Resyncs
  // ---------------------------------------------------------------------

  /** After a successful resync the source's numbers alone decide what comes next: a
      unit is allowed exactly if they are under the limit, and a memoised refusal
      survives exactly if they are not. Usage back under the threshold re-arms the
      warning; the rate window is not touched. */
  lemma AfterAResyncTheSourceDecides(limits: Limits, l: Ledger, r: Reading, now: Time, kind: Kind, inc: bool)
    requires r.Counts?
    ensures var read := NonNegative(
        match kind case Messages => r.messages case MediaFiles => r.mediaFiles case MediaBytes => r.mediaBytes);
      var after := Applied(limits, l, r);
      var verdict := DecideStep(limits, after, now, kind, inc).1;
      && (verdict.Allow? <==> read < limits.Of(kind))
      && (verdict.Refuse? <==> read >= limits.Of(kind) && kind in l.blocked && now < l.blocked[kind])
      && (kind in after.blocked <==> kind in l.blocked && read >= limits.Of(kind))
      && (kind in after.warned <==> kind in l.warned && read >= limits.Threshold(kind))
      && after.rate == l.rate && after.lastSeen == l.lastSeen
  {
  }

  /** Of two resyncs the later reading stands, whatever the first had read; a block
      or a warning must have survived both. A failed one changes nothing. */
  lemma TheLastResyncStands(limits: Limits, l: Ledger, first: Reading, second: Reading)
    requires second.Counts?
    ensures var both, alone := Applied(limits, Applied(limits, l, first), second), Applied(limits, l, second);
      && both.seeded && both.messages == alone.messages && both.mediaFiles == alone.mediaFiles
      && both.mediaBytes == alone.mediaBytes
      && both.blocked.Keys == alone.blocked.Keys * Applied(limits, l, first).blocked.Keys
      && both.warned == alone.warned * Applied(limits, l, first).warned
    ensures Applied(limits, Applied(limits, l, second), Failed) == Applied(limits, l, second)
  {
  }

  // ---------------------------------------------------------------------
  // Refusal and re-admission
  // ---------------------------------------------------------------------

  /** With the source down, exactly the tenants whose ledger is unseeded or under
      its limit are let through: an already seeded tenant at its limit is
      refused, so the outage fails open for unseeded ledgers only. */
  lemma AnOutageFailsOpenOnlyUnseeded(limits: Limits, l: Ledger, now: Time, kind: Kind, inc: bool)
    ensures AdmitAlone(limits, l, now, kind, inc, Failed, Failed).1.Allow?
      <==> !l.seeded || l.Of(kind) < limits.Of(kind)
  {
  }

  /** A memoised refusal costs no query; from its deadline on, the first admission
      the source finds under the limit is let through, and one it finds at the
      limit is refused, with a warning, for another interval. */
  lemma TheDeadlineReadmits(
    limits: Limits, l: Ledger, now: Time, kind: Kind, inc: bool, first: Reading, second: Reading)
    requires l.seeded && l.Of(kind) >= limits.Of(kind) && kind in l.blocked
    ensures now < l.blocked[kind] ==>
      AdmitAlone(limits, l, now, kind, inc, first, second) == (l, Refuse(false, l.Of(kind)))
    ensures now >= l.blocked[kind] ==>
      var (after, verdict) := AdmitAlone(limits, l, now, kind, inc, first, second);
      if second.Counts? && Applied(limits, l, second).Of(kind) < limits.Of(kind)
      then verdict.Allow? && kind !in after.blocked
      else verdict.Refuse? && verdict.warn && after.blocked[kind] == now + RECHECK_INTERVAL
  {
  }

  // ---------------------------------------------------------------------
  // The quotas, each in its own numbers
  // ---------------------------------------------------------------------

  /** A seeded tenant is admitted under its own limit of each kind, messages,
      files and bytes apart. At the limit and past any memoised refusal, what the
      source reads then decides, a negative reading counting as none. */
  lemma EachQuotaHasItsLimit(limits: Limits, l: Ledger, now: Time, inc: bool, first: Reading, m: int, f: int, b: int)
    requires l.seeded && (forall kind :: kind in l.blocked ==> l.blocked[kind] <= now)
    ensures AdmitAlone(limits, l, now, Messages, inc, first, Counts(m, f, b)).1.Allow? <==>
      l.messages < limits.maxMessages || (if m < 0 then 0 else m) < limits.maxMessages
    ensures AdmitAlone(limits, l, now, MediaFiles, inc, first, Counts(m, f, b)).1.Allow? <==>
      l.mediaFiles < limits.maxMediaFiles || (if f < 0 then 0 else f) < limits.maxMediaFiles
    ensures AdmitAlone(limits, l, now, MediaBytes, inc, first, Counts(m, f, b)).1.Allow? <==>
      l.mediaBytes < limits.maxMediaBytes || (if b < 0 then 0 else b) < limits.maxMediaBytes
  {
  }

  /** An unseeded tenant is decided by what the source reads first. */
  lemma TheFirstReadingSeeds(
    limits: Limits, l: Ledger, now: Time, kind: Kind, inc: bool, m: int, f: int, b: int, second: Reading)
    requires !l.seeded
    ensures AdmitAlone(limits, l, now, kind, inc, Counts(m, f, b), second)
      == AdmitAlone(limits, Applied(limits, l, Counts(m, f, b)), now, kind, inc, Counts(m, f, b), second)
    ensures AdmitAlone(limits, l, now, kind, inc, Failed, second).1.Allow?
    ensures !AdmitAlone(limits, l, now, kind, inc, Failed, second).0.seeded
  {
  }

  /** Without a source the ledger is on its own: seeded as it is, and decided by its
      own counts alone. */
  lemma WithoutASourceTheLedgerDecides(limits: Limits, l: Ledger, now: Time, kind: Kind, inc: bool)
    requires forall k :: k in l.blocked ==> l.blocked[k] <= now
    ensures var (after, verdict) := AdmitAlone(limits, l, now, kind, inc, NoSource, NoSource);
      after.seeded && (verdict.Allow? <==> l.Of(kind) < limits.Of(kind))
  {
  }

  /** A re-verification that lets the unit through forgets the memoised refusal. */
  lemma ARecoveredQuotaForgetsItsRefusal(limits: Limits, l: Ledger, now: Time, kind: Kind, inc: bool)
    ensures var (after, verdict) := ReverifiedStep(limits, l, now, kind, inc);
      && (verdict.Allow? <==> !l.seeded || l.Of(kind) < limits.Of(kind))
      && (kind in after.blocked <==> !verdict.Allow?)
      && (forall k :: k != kind ==>
        (k in after.blocked <==> k in l.blocked) && (k in l.blocked ==> after.blocked[k] == l.blocked[k]))
  {
  }

  /** An admission under the limit counts its unit, of its own kind, and nothing
      else; it warns exactly on the unit that reaches the percentage of the
      limit, once until the warning is re-armed. */
  lemma AnAdmittedUnitIsCounted(limits: Limits, l: Ledger, now: Time, kind: Kind, inc: bool, r: Reading)
    requires limits.Valid() && l.seeded && l.Of(kind) < limits.Of(kind) && !(kind.MediaBytes? && inc)
    ensures var (after, verdict) := AdmitAlone(limits, l, now, kind, inc, r, r);
      var unit := if inc then 1 else 0;
      && verdict.Allow?
      && after.messages == l.messages + (if kind.Messages? then unit else 0)
      && after.mediaFiles == l.mediaFiles + (if kind.MediaFiles? then unit else 0)
      && after.mediaBytes == l.mediaBytes
      && after.rate == l.rate && after.blocked == l.blocked && after.seeded && after.lastSeen == l.lastSeen
      && verdict.usage == after.Of(kind)
      && (verdict.warn <==> kind !in l.warned && after.Of(kind) >= limits.Of(kind) * limits.warnPercent / 100)
      && after.warned == if verdict.warn then l.warned + {kind} else l.warned
  {
    ThresholdIsThePercentage(limits.Of(kind), limits.warnPercent);
  }

  /** A fresh refusal is memoised for a minute and always warns; it counts nothing. */
  lemma AFreshRefusalIsMemoised(
    limits: Limits, l: Ledger, now: Time, kind: Kind, inc: bool, first: Reading, second: Reading)
    requires l.seeded && l.Of(kind) >= limits.Of(kind) && !(kind in l.blocked && now < l.blocked[kind])
    requires second.Counts? ==> Applied(limits, l, second).Of(kind) >= limits.Of(kind)
    ensures var (after, verdict) := AdmitAlone(limits, l, now, kind, inc, first, second);
      var read := Applied(limits, l, second);
      && verdict == Refuse(true, read.Of(kind))
      && kind in after.blocked && after.blocked[kind] == now + 60 && kind in after.warned
      && after.messages == read.messages && after.mediaFiles == read.mediaFiles && after.mediaBytes == read.mediaBytes
      && after.rate == l.rate
  {
  }

  /** Stored bytes are added as they are, a negative size as none, and warn as
      admissions do. */
  lemma BytesAreAdded(limits: Limits, l: Ledger, n: int)
    requires limits.Valid()
    ensures var (after, verdict) := AddBytesStep(limits, l, n);
      && after.mediaBytes == l.mediaBytes + (if n > 0 then n else 0)
      && after.messages == l.messages && after.mediaFiles == l.mediaFiles
      && after.rate == l.rate && after.blocked == l.blocked && after.seeded == l.seeded
      && (verdict.Allow? && (verdict.warn <==>
        MediaBytes !in l.warned && after.mediaBytes >= limits.maxMediaBytes * limits.warnPercent / 100))
      && after.warned == if verdict.warn then l.warned + {MediaBytes} else l.warned
  {
    ThresholdIsThePercentage(limits.maxMediaBytes, limits.warnPercent);
  }

  /** A look at the ledger of a tenant: known, only the time of the look changes;
      new, it starts empty and unseeded, and only among 4096 others does it take
      the place of one of them, the one seen longest ago. */
  lemma ALookChangesOneLedger(tenants: Tenants, id: nat, now: Time, victim: nat)
    requires TouchAllowed(tenants, id, victim)
    ensures var after := Touched(tenants, id, now, victim);
      && id in after
      && (id in tenants ==> after.Keys == tenants.Keys && after[id] == tenants[id].(lastSeen := now))
      && (id !in tenants ==> after[id] == Ledger(0, 0, 0, false, [], {}, map[], now))
      && (forall o :: o in tenants && o != id && o !in after ==>
        id !in tenants && |tenants| >= 4096 && o == victim
        && forall p :: p in tenants ==> tenants[o].lastSeen <= tenants[p].lastSeen)
      && (id !in tenants && |tenants| >= 4096 ==> victim in tenants && victim !in after)
      && (forall o :: o in after && o != id ==> o in tenants && after[o] == tenants[o])
  {
  }
}
