/**
 Delivery of one job: the media attempt and its text fallback, and what the
 worker does with the result. Durations are in seconds.
 */
module OutboxWorker {
  import opened Prelude
  import opened Outbox

  datatype SendResult =
    | Delivered
    | Shutdown
    | ApiError(code: int, retryAfter: int)
    | Transport
    | MediaUnsupported
    | MediaMissing
    | MediaTooLarge
    | MediaUnsafePath

  /** What the sender would answer to each attempt on a job. */
  datatype Answers = Answers(isMedia: bool, media: SendResult, text: SendResult)

  datatype Action = AckSent | AckFailed | AckRetry(wait: Time, throttled: bool) | LetLeaseExpire

  const MAX_ATTEMPTS: nat := 10
  const MAX_BACKOFF: Time := 900
  const MAX_THROTTLE: Time := 86400

  predicate Definitive(r: SendResult) {
    r.ApiError? && 400 <= r.code < 500 && r.code != 429
  }

  predicate RateLimited(r: SendResult) {
    r.ApiError? && r.code == 429 && r.retryAfter > 0
  }

  /** An error that retrying the upload could never clear. */
  predicate MediaIsHopeless(r: SendResult) {
    r.MediaUnsupported? || r.MediaMissing? || r.MediaTooLarge? || r.MediaUnsafePath? || Definitive(r)
  }

  /** Files first; the text, noted, once they can never go out. */
  function Deliver(a: Answers): SendResult {
    if !a.isMedia then a.text
    else if a.media.Delivered? || !MediaIsHopeless(a.media) then a.media
    else a.text
  }

  function Pow2(n: nat): (p: nat)
    ensures p >= 1
  {
    if n == 0 then 1 else 2 * Pow2(n - 1)
  }

  function RetryDelay(attempts: nat): Time {
    if attempts >= 10 then MAX_BACKOFF
    else if Pow2(attempts) > MAX_BACKOFF then MAX_BACKOFF
    else Pow2(attempts)
  }

  function Decide(attempts: nat, r: SendResult): Action {
    if r.Delivered? then AckSent
    else if r.Shutdown? then LetLeaseExpire
    else if Definitive(r) then AckFailed
    else if attempts + 1 >= MAX_ATTEMPTS then AckFailed
    else if RateLimited(r) then AckRetry(if r.retryAfter > MAX_THROTTLE then MAX_THROTTLE else r.retryAfter, true)
    else AckRetry(RetryDelay(attempts), false)
  }

  function Acted(rows: Table, job: Job, action: Action, now: Time): Table {
    match action
    case AckSent => Acknowledge(rows, job.id, job.token, SentRow)
    case AckFailed => Acknowledge(rows, job.id, job.token, r => FailedRow(r, now))
    case AckRetry(wait, _) => Acknowledge(rows, job.id, job.token, r => RetriedRow(r, now, wait))
    case LetLeaseExpire => rows
  }

  /** An acknowledgement rewrites at most the row of its own job, under the lease
      it was claimed with; it keeps the row's key and ends the lease. */
  lemma ActedRewritesItsRow(rows: Table, job: Job, action: Action, now: Time)
    ensures var rows' := Acted(rows, job, action, now);
      && rows'.Keys == rows.Keys
      && (forall id :: id in rows && id != job.id ==> rows'[id] == rows[id])
      && (rows' != rows ==> LeaseHeld(rows, job.id, job.token) && rows'[job.id].leaseToken.None?)
      && (job.id in rows ==> rows'[job.id].message == rows[job.id].message && rows'[job.id].chunk == rows[job.id].chunk)
  {
  }

  /** An alert is never dropped. A media alert whose text goes out is acknowledged
      as sent, whatever the attempt, exactly if its files went out too or its
      upload ended in an error no retry can clear: no uploader or payload, a file
      gone or too large, an unsafe path, or any 4xx but 429. After any other
      error the files are kept for a retry. A text alert is sent exactly if its
      text is. */
  lemma DeliveryIsNeverLost(a: Answers, attempts: nat)
    ensures !a.isMedia ==> (Decide(attempts, Deliver(a)).AckSent? <==> a.text.Delivered?)
    ensures a.isMedia && !a.text.Delivered? ==> (Decide(attempts, Deliver(a)).AckSent? <==> a.media.Delivered?)
    ensures a.isMedia && a.text.Delivered? ==>
      (Decide(attempts, Deliver(a)).AckSent? <==>
        match a.media {
          case Delivered => true
          case MediaUnsupported => true
          case MediaMissing => true
          case MediaTooLarge => true
          case MediaUnsafePath => true
          case ApiError(code, _) => 400 <= code <= 499 && code != 429
          case Transport => false
          case Shutdown => false
        })
    ensures a.isMedia && (a.media.Transport? || a.media.Shutdown?
      || (a.media.ApiError? && (a.media.code < 400 || a.media.code > 499 || a.media.code == 429)))
      ==> Deliver(a) == a.media
  {
  }

  /** What becomes of a job whose delivery ended in `r`, after `attempts` attempts
      of its fast lane: a 4xx but 429 fails it, and so does any other error at the
      tenth; before that it is retried, after the server's own delay on a 429
      that names one, a day at most, or else after 1, 2, 4, ... 256 seconds; a
      shutdown leaves it to the end of its lease. */
  lemma ErrorsAreSortedOut(attempts: nat, r: SendResult)
    ensures r.Delivered? <==> Decide(attempts, r).AckSent?
    ensures r.Shutdown? <==> Decide(attempts, r).LetLeaseExpire?
    ensures Decide(attempts, r).AckFailed? <==>
      !r.Delivered? && !r.Shutdown?
      && (attempts >= 9 || (r.ApiError? && 400 <= r.code <= 499 && r.code != 429))
    ensures Decide(attempts, r).AckRetry? ==>
      attempts <= 8
      && (Decide(attempts, r).throttled <==> r.ApiError? && r.code == 429 && r.retryAfter > 0)
      && Decide(attempts, r).wait ==
        if !Decide(attempts, r).throttled then [1, 2, 4, 8, 16, 32, 64, 128, 256][attempts]
        else if r.retryAfter <= 86400 then r.retryAfter
        else 86400
  {
    FirstPowers();
  }

  lemma FirstPowers()
    ensures Pow2(0) == 1 && Pow2(1) == 2 && Pow2(2) == 4 && Pow2(3) == 8 && Pow2(4) == 16
    ensures Pow2(5) == 32 && Pow2(6) == 64 && Pow2(7) == 128 && Pow2(8) == 256 && Pow2(9) == 512
  {
  }

  /** The delay itself goes on doubling to 512 seconds and stays at 900 after. */
  lemma DelaysAreCapped(attempts: nat)
    requires attempts >= 9
    ensures RetryDelay(attempts) == if attempts == 9 then 512 else 900
  {
    FirstPowers();
  }

  lemma {:induction false} Pow2IsMonotone(a: nat, b: nat)
    requires a <= b
    ensures Pow2(a) <= Pow2(b)
  {
    if a < b {
      Pow2IsMonotone(a, b - 1);
    }
  }

  /** The fast lane retries at most nine times, waiting 2^attempts seconds
      unless the server asked for its own delay. */
  lemma RetriesStayInTheFastLane(attempts: nat, r: SendResult)
    requires Decide(attempts, r).AckRetry?
    ensures attempts <= 8
    ensures !Decide(attempts, r).throttled ==> Decide(attempts, r).wait == Pow2(attempts)
    ensures 0 < Decide(attempts, r).wait <= MAX_THROTTLE
  {
    Pow2IsMonotone(attempts, 8);
    assert Pow2(8) == 256;
  }

  class Worker {
    const store: Repository
    const lease: Time

    constructor (store: Repository, lease: Time)
      ensures this.store == store && this.lease == lease
    {
      this.store := store;
      this.lease := lease;
    }

    /** One cycle: claim at `now`, deliver, acknowledge at `later`. */
    method ProcessOne(now: Time, later: Time, token: nat, skipped: set<nat>, answers: Answers)
      returns (job: Option<Job>, worked: bool)
      requires store.Valid()
      modifies store`rows
      ensures store.Valid()
      ensures job.None? ==>
        !worked && store.rows == old(store.rows) && forall id :: Claimable(store.rows, id, now) ==> id in skipped
      ensures job.Some? ==> IsCandidate(old(store.rows), skipped, now, job.value.id)
      ensures job.Some? ==>
        var leased := Leased(old(store.rows)[job.value.id], now, lease, token);
        var action := Decide(leased.attempts, Deliver(answers));
        && job.value == Job(job.value.id, leased.attempts, token)
        && worked == !action.LetLeaseExpire?
        && store.rows == old(store.rows)[job.value.id :=
          match action {
            case AckSent => SentRow(leased)
            case AckFailed => FailedRow(leased, later)
            case AckRetry(wait, _) => RetriedRow(leased, later, wait)
            case LetLeaseExpire => leased
          }]
    {
      job := store.Claim(now, lease, token, skipped);
      if job.None? {
        return job, false;
      }
      var result := Deliver(answers);
      var id := job.value.id;
      var acked: bool;
      match Decide(job.value.attempts, result) {
        case AckSent => acked := store.MarkSent(id, token);
        case LetLeaseExpire => return job, false;
        case AckFailed => acked := store.MarkFailed(id, token, later);
        case AckRetry(wait, _) => acked := store.MarkRetry(id, token, later, wait);
      }
      assert acked;
      return job, true;
    }
  }
}
