/**
 * The transactional outbox: rows claimed, published to the broker with
 * confirms, marked published or failed, retried with a growing delay and
 * dead-lettered, by any number of workers that may stop anywhere. Each SQL
 * transaction and each publication is one step; time only advances.
 */
module OutboxWorkers {
  import opened Wrappers

  type EventId = nat
  type WorkerId = nat

  datatype Kind =
    | PaymentRequested | CancellationRequested | OrderCompleted | TicketCancelled
    | Other(name: string)

  datatype Route = PaymentQueue | BookingExchange

  /** `route_for` */
  function RouteFor(kind: Kind): Option<Route> {
    match kind
    case PaymentRequested => Some(PaymentQueue)
    case CancellationRequested => Some(PaymentQueue)
    case OrderCompleted => Some(BookingExchange)
    case TicketCancelled => Some(BookingExchange)
    case Other(_) => None
  }

  const MAX_ATTEMPTS := 10
  const CLAIM_TIMEOUT := 5 * 60

  /** A row, with the times of its last claim and its last failure for the record. */
  datatype Row = Row(
    kind: Kind,
    aggregate: nat,
    createdAt: int,
    published: bool,
    dead: bool,
    processingAt: Option<int>,
    nextAttemptAt: int,
    attempts: nat,
    lastClaim: Option<int>,
    lastFailure: Option<int>)

  datatype WorkerPc =
    | Claimed(id: EventId, attempts: nat)
    | Confirmed(id: EventId)
    | Rejected(id: EventId, attempts: nat)

  datatype State = State(
    now: int,
    rows: map<EventId, Row>,
    accepted: set<EventId>,           // events the broker has taken
    workers: map<WorkerId, WorkerPc>)

  /** The publisher's view of an attempt; an error may hide an acceptance. */
  datatype Reply = Ack | Error(taken: bool)

  datatype Event =
    | Insert(id: EventId, kind: Kind, aggregate: nat)
    | Tick(seconds: nat)
    | Claim(w: WorkerId, id: EventId)
    | Publish(w: WorkerId, reply: Reply)
    | MarkPublished(w: WorkerId)
    | MarkFailed(w: WorkerId)
    | Crash(w: WorkerId)

  function Init(now: int): State {
    State(now, map[], {}, map[])
  }

  function NewRow(kind: Kind, aggregate: nat, now: int): Row {
    Row(kind, aggregate, now, false, false, None, now, 0, None, None)
  }

  predicate Eligible(row: Row, now: int) {
    && !row.published && !row.dead
    && row.nextAttemptAt <= now
    && (row.processingAt.None? || row.processingAt.value < now - CLAIM_TIMEOUT)
  }

  /** ORDER BY created_at LIMIT 1 */
  predicate OldestEligible(rows: map<EventId, Row>, id: EventId, now: int) {
    && id in rows && Eligible(rows[id], now)
    && forall other :: other in rows && Eligible(rows[other], now) ==> rows[id].createdAt <= rows[other].createdAt
  }

  function Pow2(n: nat): nat {
    if n == 0 then 1 else 2 * Pow2(n - 1)
  }

  function Clamp(n: int, lo: int, hi: int): int {
    if n < lo then lo else if n > hi then hi else n
  }

  function RetryDelaySeconds(attempts: nat): int {
    var delay := Pow2(Clamp(attempts, 1, 8));
    if delay < 300 then delay else 300
  }

  predicate ShouldDeadLetter(attempts: nat, permanent: bool) {
    permanent && attempts >= MAX_ATTEMPTS
  }

  function ClaimRow(row: Row, now: int): Row {
    row.(processingAt := Some(now), attempts := row.attempts + 1, lastClaim := Some(now))
  }

  function PublishedRow(row: Row): Row {
    row.(published := true, processingAt := None)
  }

  function FailedRow(row: Row, attempts: nat, now: int): Row {
    if ShouldDeadLetter(attempts, RouteFor(row.kind).None?)
    then row.(dead := true, processingAt := None, lastFailure := Some(now))
    else row.(processingAt := None, nextAttemptAt := now + RetryDelaySeconds(attempts), lastFailure := Some(now))
  }

  function Step(s: State, ev: Event): State {
    match ev
    case Insert(id, kind, aggregate) =>
      if id in s.rows then s else s.(rows := s.rows[id := NewRow(kind, aggregate, s.now)])
    case Tick(seconds) => s.(now := s.now + seconds)
    case Claim(w, id) =>
      if w !in s.workers && OldestEligibleHere(s, id) then
        s.(rows := s.rows[id := ClaimRow(s.rows[id], s.now)],
           workers := s.workers[w := Claimed(id, s.rows[id].attempts + 1)])
      else s
    case Publish(w, reply) =>
      if w in s.workers && s.workers[w].Claimed? && s.workers[w].id in s.rows then
        var id, attempts := s.workers[w].id, s.workers[w].attempts;
        if RouteFor(s.rows[id].kind).None? then s.(workers := s.workers[w := Rejected(id, attempts)])
        else if reply.Ack? then s.(accepted := s.accepted + {id}, workers := s.workers[w := Confirmed(id)])
        else s.(accepted := if reply.taken then s.accepted + {id} else s.accepted,
                workers := s.workers[w := Rejected(id, attempts)])
      else s
    case MarkPublished(w) =>
      if w in s.workers && s.workers[w].Confirmed? then
        var id := s.workers[w].id;
        s.(rows := if id in s.rows then s.rows[id := PublishedRow(s.rows[id])] else s.rows, workers := s.workers - {w})
      else s
    case MarkFailed(w) =>
      if w in s.workers && s.workers[w].Rejected? then
        var id := s.workers[w].id;
        s.(rows := if id in s.rows then s.rows[id := FailedRow(s.rows[id], s.workers[w].attempts, s.now)] else s.rows,
           workers := s.workers - {w})
      else s
    case Crash(w) => s.(workers := s.workers - {w})
  }

  predicate OldestEligibleHere(s: State, id: EventId) {
    OldestEligible(s.rows, id, s.now)
  }

  function Exec(s: State, run: seq<Event>): State {
    if run == [] then s else Step(Exec(s, run[..|run| - 1]), run[|run| - 1])
  }

  // --------------------------------------------------------------- invariant

  /** The delay doubles from 2 to 256 seconds and stays there; the cap of 300 is never met. */
  lemma RetryDelayShape(attempts: nat)
    ensures 2 <= RetryDelaySeconds(attempts) <= 256
    ensures 1 <= attempts < 8 ==> RetryDelaySeconds(attempts + 1) == 2 * RetryDelaySeconds(attempts)
    ensures attempts >= 8 ==> RetryDelaySeconds(attempts) == 256
  {
    assert Pow2(1) == 2 && Pow2(2) == 4 && Pow2(3) == 8 && Pow2(4) == 16;
    assert Pow2(5) == 32 && Pow2(6) == 64 && Pow2(7) == 128 && Pow2(8) == 256;
    var a := Clamp(attempts, 1, 8);
    assert a == 1 || a == 2 || a == 3 || a == 4 || a == 5 || a == 6 || a == 7 || a == 8;
  }

  ghost predicate RowOk(row: Row, taken: bool, now: int) {
    && (row.dead ==> RouteFor(row.kind).None? && row.attempts >= MAX_ATTEMPTS)
    && (row.published ==> RouteFor(row.kind).Some? && taken)
    && (row.processingAt.Some? ==> row.lastClaim == row.processingAt)
    && (row.lastClaim.Some? ==> row.lastClaim.value <= now)
    && (row.lastFailure.Some? ==> row.lastFailure.value <= now)
    && row.createdAt <= now
    && (row.nextAttemptAt == row.createdAt
        || (row.lastFailure.Some? && row.nextAttemptAt <= row.lastFailure.value + 256))
  }

  ghost predicate PcOk(s: State, pc: WorkerPc) {
    && pc.id in s.rows
    && (!pc.Confirmed? ==> pc.attempts <= s.rows[pc.id].attempts)
    && (pc.Confirmed? ==> pc.id in s.accepted && RouteFor(s.rows[pc.id].kind).Some?)
  }

  ghost predicate Inv(s: State) {
    && (forall id :: id in s.rows ==> RowOk(s.rows[id], id in s.accepted, s.now))
    && (forall w :: w in s.workers ==> PcOk(s, s.workers[w]))
  }

  lemma RowStep(s: State, ev: Event, id: EventId)
    requires Inv(s) && id in Step(s, ev).rows
    ensures RowOk(Step(s, ev).rows[id], id in Step(s, ev).accepted, Step(s, ev).now)
  {
    if id in s.rows {
      assert RowOk(s.rows[id], id in s.accepted, s.now);
    }
    if ev.MarkPublished? && ev.w in s.workers {
      assert PcOk(s, s.workers[ev.w]);
    }
    if ev.MarkFailed? && ev.w in s.workers && s.workers[ev.w].Rejected? {
      assert PcOk(s, s.workers[ev.w]);
      RetryDelayShape(s.workers[ev.w].attempts);
    }
  }

  lemma PcStep(s: State, ev: Event, w: WorkerId)
    requires Inv(s) && w in Step(s, ev).workers
    ensures PcOk(Step(s, ev), Step(s, ev).workers[w])
  {
    if w in s.workers {
      assert PcOk(s, s.workers[w]);
    }
  }

  lemma InvStep(s: State, ev: Event)
    requires Inv(s)
    ensures Inv(Step(s, ev))
  {
    forall id | id in Step(s, ev).rows
      ensures RowOk(Step(s, ev).rows[id], id in Step(s, ev).accepted, Step(s, ev).now)
    {
      RowStep(s, ev, id);
    }
    forall w | w in Step(s, ev).workers
      ensures PcOk(Step(s, ev), Step(s, ev).workers[w])
    {
      PcStep(s, ev, w);
    }
  }

  lemma {:induction false} InvRun(now: int, run: seq<Event>)
    ensures Inv(Exec(Init(now), run))
  {
    if run != [] {
      InvRun(now, run[..|run| - 1]);
      InvStep(Exec(Init(now), run[..|run| - 1]), run[|run| - 1]);
    }
  }

  // ---------------------------------------------------------------- theorems

  /** In every run: no event is both published and dead-lettered, one that has a route is
      never dead-lettered however often it fails, and a published one the broker has taken. */
  lemma OutcomesExclusive(now: int, run: seq<Event>, id: EventId)
    requires id in Exec(Init(now), run).rows
    ensures var s := Exec(Init(now), run);
            var row := s.rows[id];
            && !(row.published && row.dead)
            && (RouteFor(row.kind).Some? ==> !row.dead)
            && (row.dead ==> row.attempts >= MAX_ATTEMPTS)
            && (row.published ==> id in s.accepted)
  {
    InvRun(now, run);
  }

  /** Any other event can be claimed again as soon as five minutes have passed since its last
      claim and 256 seconds since its last failure. */
  lemma {:induction false} ClaimableAgain(now: int, run: seq<Event>, id: EventId, later: int)
    requires var s := Exec(Init(now), run);
             && id in s.rows && !s.rows[id].published && !s.rows[id].dead && s.now <= later
             && (s.rows[id].lastClaim.Some? ==> later > s.rows[id].lastClaim.value + CLAIM_TIMEOUT)
             && (s.rows[id].lastFailure.Some? ==> later >= s.rows[id].lastFailure.value + 256)
    ensures Eligible(Exec(Init(now), run).rows[id], later)
  {
    InvRun(now, run);
  }

  /** A failed attempt alone never delays the next by more than 256 seconds. */
  lemma {:induction false} ClaimableAfterFailure(now: int, run: seq<Event>, id: EventId, later: int)
    requires var s := Exec(Init(now), run);
             && id in s.rows && !s.rows[id].published && !s.rows[id].dead && s.now <= later
             && s.rows[id].processingAt.None?
             && (s.rows[id].lastFailure.Some? ==> later >= s.rows[id].lastFailure.value + 256)
    ensures Eligible(Exec(Init(now), run).rows[id], later)
  {
    InvRun(now, run);
  }

  /** Publication and dead-lettering are final. */
  lemma {:induction false} OutcomesFinal(s: State, more: seq<Event>, id: EventId)
    requires id in s.rows
    ensures id in Exec(s, more).rows
    ensures Exec(s, more).rows[id].kind == s.rows[id].kind && Exec(s, more).rows[id].aggregate == s.rows[id].aggregate
    ensures s.rows[id].published ==> Exec(s, more).rows[id].published
    ensures s.rows[id].dead ==> Exec(s, more).rows[id].dead
  {
    if more != [] {
      OutcomesFinal(s, more[..|more| - 1], id);
    }
  }

  // ---------------------------------------------------- what a claim has to wait for

  /** The step gives the row to a worker. */
  predicate ClaimsRow(s: State, ev: Event, id: EventId) {
    ev.Claim? && ev.id == id && ev.w !in s.workers && ev.w in Step(s, ev).workers
  }

  /** The step records a failed attempt at the row. */
  predicate FailsRow(s: State, ev: Event, id: EventId) {
    ev.MarkFailed? && ev.w in s.workers && s.workers[ev.w].Rejected? && s.workers[ev.w].id == id && id in s.rows
  }

  /** A free worker gets a row exactly if it is neither published nor dead-lettered, due, not in
      processing since five minutes or less, and no older row is as free. */
  lemma ClaimsRowIff(s: State, w: WorkerId, id: EventId)
    requires w !in s.workers
    ensures ClaimsRow(s, Claim(w, id), id) <==>
            && id in s.rows && !s.rows[id].published && !s.rows[id].dead && s.rows[id].nextAttemptAt <= s.now
            && (s.rows[id].processingAt.Some? ==> s.now - s.rows[id].processingAt.value > 300)
            && forall other :: other in s.rows && s.rows[other].createdAt < s.rows[id].createdAt ==> !Eligible(s.rows[other], s.now)
    ensures ClaimsRow(s, Claim(w, id), id) ==>
            var t := Step(s, Claim(w, id));
            && t.rows[id].processingAt == Some(s.now) && t.rows[id].attempts == s.rows[id].attempts + 1
            && t.workers[w] == Claimed(id, s.rows[id].attempts + 1)
    ensures !ClaimsRow(s, Claim(w, id), id) ==> Step(s, Claim(w, id)) == s
  {
  }

  predicate ClaimsAt(now: int, run: seq<Event>, k: nat, id: EventId)
    requires k < |run|
  {
    ClaimsRow(Exec(Init(now), run[..k]), run[k], id)
  }

  predicate FailsAt(now: int, run: seq<Event>, k: nat, id: EventId)
    requires k < |run|
  {
    FailsRow(Exec(Init(now), run[..k]), run[k], id)
  }

  function NowAt(now: int, run: seq<Event>, k: nat): int
    requires k <= |run|
  {
    Exec(Init(now), run[..k]).now
  }

  /** The row is out of reach, or in processing since t or later. */
  predicate Shielded(s: State, id: EventId, t: int) {
    && id in s.rows && t <= s.now
    && (s.rows[id].published || s.rows[id].dead || (s.rows[id].processingAt.Some? && s.rows[id].processingAt.value >= t))
  }

  lemma ShieldedStep(s: State, ev: Event, id: EventId, t: int)
    requires Shielded(s, id, t) && !FailsRow(s, ev, id)
    ensures Shielded(Step(s, ev), id, t)
  {
  }

  lemma {:induction false} ShieldedOn(now: int, run: seq<Event>, i: nat, m: nat, id: EventId)
    requires i < m <= |run| && ClaimsAt(now, run, i, id) && forall k: nat :: i < k < m ==> !FailsAt(now, run, k, id)
    ensures Shielded(Exec(Init(now), run[..m]), id, NowAt(now, run, i))
    decreases m
  {
    var s := Exec(Init(now), run[..m - 1]);
    assert run[..m][..m - 1] == run[..m - 1];
    if m == i + 1 {
      ClaimsRowIff(s, run[i].w, id);
    } else {
      ShieldedOn(now, run, i, m - 1, id);
      assert !FailsAt(now, run, m - 1, id);
      ShieldedStep(s, run[m - 1], id, NowAt(now, run, i));
    }
  }

  /** Over every run: between two claims of one event that are at most five minutes apart lies a
      failed attempt, so that no two workers publish it within that time without a failure. */
  lemma NoDoubleClaim(now: int, run: seq<Event>, i: nat, j: nat, id: EventId)
    requires i < j < |run| && ClaimsAt(now, run, i, id) && ClaimsAt(now, run, j, id)
    requires NowAt(now, run, j) - NowAt(now, run, i) <= 300
    ensures exists k: nat :: i < k < j && FailsAt(now, run, k, id)
  {
    if forall k: nat :: i < k < j ==> !FailsAt(now, run, k, id) {
      ShieldedOn(now, run, i, j, id);
      ClaimsRowIff(Exec(Init(now), run[..j]), run[j].w, id);
    }
  }

  /** The row is dead-lettered, or not due before t. */
  predicate NotDueBefore(s: State, id: EventId, t: int) {
    id in s.rows && (s.rows[id].dead || s.rows[id].nextAttemptAt == t)
  }

  lemma NotDueStep(s: State, ev: Event, id: EventId, t: int)
    requires NotDueBefore(s, id, t) && !FailsRow(s, ev, id)
    ensures NotDueBefore(Step(s, ev), id, t)
  {
  }

  lemma {:induction false} NotDueOn(now: int, run: seq<Event>, i: nat, m: nat, id: EventId)
    requires i < m <= |run| && FailsAt(now, run, i, id) && forall k: nat :: i < k < m ==> !FailsAt(now, run, k, id)
    ensures NotDueBefore(Exec(Init(now), run[..m]), id,
                         NowAt(now, run, i) + RetryDelaySeconds(Exec(Init(now), run[..i]).workers[run[i].w].attempts))
    decreases m
  {
    assert run[..m][..m - 1] == run[..m - 1];
    if m > i + 1 {
      NotDueOn(now, run, i, m - 1, id);
      assert !FailsAt(now, run, m - 1, id);
      NotDueStep(Exec(Init(now), run[..m - 1]), run[m - 1], id,
                 NowAt(now, run, i) + RetryDelaySeconds(Exec(Init(now), run[..i]).workers[run[i].w].attempts));
    }
  }

  /** Over every run: no claim comes before the last failure of the event plus that attempt's delay. */
  lemma NoEarlyRetry(now: int, run: seq<Event>, i: nat, j: nat, id: EventId)
    requires i < j < |run| && FailsAt(now, run, i, id) && ClaimsAt(now, run, j, id)
    requires forall k: nat :: i < k < j ==> !FailsAt(now, run, k, id)
    ensures NowAt(now, run, j) >= NowAt(now, run, i) + RetryDelaySeconds(Exec(Init(now), run[..i]).workers[run[i].w].attempts)
  {
    NotDueOn(now, run, i, j, id);
    ClaimsRowIff(Exec(Init(now), run[..j]), run[j].w, id);
  }

  function ClaimCount(now: int, run: seq<Event>, id: EventId): nat {
    if run == [] then 0
    else ClaimCount(now, run[..|run| - 1], id) + if ClaimsAt(now, run, |run| - 1, id) then 1 else 0
  }

  lemma AttemptsAfter(s: State, ev: Event, id: EventId)
    ensures id in Step(s, ev).rows ==>
              Step(s, ev).rows[id].attempts
              == (if id in s.rows then s.rows[id].attempts else 0) + if ClaimsRow(s, ev, id) then 1 else 0
    ensures id in s.rows ==> id in Step(s, ev).rows
    ensures id !in Step(s, ev).rows ==> !ClaimsRow(s, ev, id)
  {
  }

  /** Over every run a row's attempts are the claims of it so far. */
  lemma {:induction false} AttemptsAreClaims(now: int, run: seq<Event>, id: EventId)
    ensures var s := Exec(Init(now), run);
            (id in s.rows ==> s.rows[id].attempts == ClaimCount(now, run, id)) && (id !in s.rows ==> ClaimCount(now, run, id) == 0)
  {
    if run != [] {
      var n := |run| - 1;
      AttemptsAreClaims(now, run[..n], id);
      AttemptsAfter(Exec(Init(now), run[..n]), run[n], id);
    }
  }

  /** A worker that stops is forgotten, time passes, and the table stays. */
  lemma EnvironmentIs(s: State, w: WorkerId, seconds: nat)
    ensures Step(s, Crash(w)) == s.(workers := s.workers - {w})
    ensures Step(s, Tick(seconds)) == s.(now := s.now + seconds)
  {
  }

  // ------------------------------------------------------------ undisturbed attempts

  /** Payments and cancellations go to the payment queue, completed orders and cancelled tickets to
      the booking exchange, and nothing else goes anywhere. */
  lemma RoutesAre(kind: Kind)
    ensures RouteFor(kind) == Some(PaymentQueue) <==> kind == PaymentRequested || kind == CancellationRequested
    ensures RouteFor(kind) == Some(BookingExchange) <==> kind == OrderCompleted || kind == TicketCancelled
  {
  }

  function Attempt(s: State, w: WorkerId, id: EventId, reply: Reply): State {
    Step(Step(s, Claim(w, id)), Publish(w, reply))
  }

  /** An attempt that the broker acknowledges: the event is accepted, published and done with. */
  lemma AttemptPublished(s: State, w: WorkerId, id: EventId)
    requires w !in s.workers && ClaimsRow(s, Claim(w, id), id) && !s.rows[id].kind.Other?
    ensures var t := Step(Attempt(s, w, id, Ack), MarkPublished(w));
            && id in t.accepted && id in t.rows && t.rows[id].published && t.rows[id].processingAt.None?
            && t.workers == s.workers && !Eligible(t.rows[id], t.now)
  {
    ClaimsRowIff(s, w, id);
    RoutesAre(s.rows[id].kind);
    assert s.workers[w := Claimed(id, s.rows[id].attempts + 1)][w := Confirmed(id)] - {w} == s.workers;
  }

  /** An attempt that fails: out of processing and due again after the attempt's delay, unless the
      event goes nowhere and this was its tenth attempt or a later one, when it is dead-lettered. */
  lemma AttemptFailed(s: State, w: WorkerId, id: EventId, reply: Reply)
    requires w !in s.workers && ClaimsRow(s, Claim(w, id), id) && (s.rows[id].kind.Other? || !reply.Ack?)
    ensures var t := Step(Attempt(s, w, id, reply), MarkFailed(w));
            var attempt := s.rows[id].attempts + 1;
            && id in t.rows && t.rows[id].processingAt.None? && t.workers == s.workers
            && (t.rows[id].dead <==> s.rows[id].kind.Other? && attempt >= 10)
            && (!t.rows[id].dead ==> t.rows[id].nextAttemptAt == s.now + RetryDelaySeconds(attempt))
            && (id in t.accepted <==> id in s.accepted || (!s.rows[id].kind.Other? && reply == Error(true)))
  {
    ClaimsRowIff(s, w, id);
    RoutesAre(s.rows[id].kind);
    assert s.workers[w := Claimed(id, s.rows[id].attempts + 1)][w := Rejected(id, s.rows[id].attempts + 1)] - {w} == s.workers;
  }

  // ----------------------------------------------------------------- the code

  class OutboxTable {
    var rows: map<EventId, Row>

    constructor ()
      ensures rows == map[]
    {
      rows := map[];
    }

    /** The table beside the clock, the broker and the workers that use it. */
    ghost function View(now: int, accepted: set<EventId>, workers: map<WorkerId, WorkerPc>): State
      reads this
    {
      State(now, rows, accepted, workers)
    }

    /** `claim_next`: the oldest eligible row with its new attempt count, if there is one. */
    method ClaimNext(now: int, ghost w: WorkerId, ghost accepted: set<EventId>, ghost workers: map<WorkerId, WorkerPc>)
      returns (claimed: Option<(EventId, nat)>)
      requires w !in workers
      modifies this
      ensures claimed.None? <==> forall id :: id in old(rows) ==> !Eligible(old(rows)[id], now)
      ensures claimed.None? ==> rows == old(rows)
      ensures claimed.Some? ==>
                && OldestEligible(old(rows), claimed.value.0, now)
                && View(now, accepted, workers[w := Claimed(claimed.value.0, claimed.value.1)])
                   == Step(old(View(now, accepted, workers)), Claim(w, claimed.value.0))
    {
      var oldest: Option<EventId> := None;
      var todo := rows.Keys;
      while todo != {}
        invariant todo <= rows.Keys
        invariant oldest.None? ==> forall id :: id in rows.Keys - todo ==> !Eligible(rows[id], now)
        invariant oldest.Some? ==> oldest.value in rows && Eligible(rows[oldest.value], now)
        invariant oldest.Some? ==> forall id :: id in rows.Keys - todo && Eligible(rows[id], now)
                                     ==> rows[oldest.value].createdAt <= rows[id].createdAt
        decreases todo
      {
        var id :| id in todo;
        if Eligible(rows[id], now) && (oldest.None? || rows[id].createdAt < rows[oldest.value].createdAt) {
          oldest := Some(id);
        }
        todo := todo - {id};
      }
      if oldest.None? {
        return None;
      }
      var row := rows[oldest.value];
      assert OldestEligibleHere(View(now, accepted, workers), oldest.value);
      rows := rows[oldest.value := row.(processingAt := Some(now), attempts := row.attempts + 1, lastClaim := Some(now))];
      return Some((oldest.value, rows[oldest.value].attempts));
    }

    /** `mark_published`, by a worker whose publication the broker has confirmed. */
    method MarkRowPublished(id: EventId, ghost now: int, ghost w: WorkerId, ghost accepted: set<EventId>,
                            ghost workers: map<WorkerId, WorkerPc>)
      requires w in workers && workers[w] == Confirmed(id)
      modifies this
      ensures View(now, accepted, workers - {w}) == Step(old(View(now, accepted, workers)), MarkPublished(w))
    {
      if id in rows {
        rows := rows[id := rows[id].(published := true, processingAt := None)];
      }
    }

    /** `mark_failed`, by a worker whose publication failed at this attempt. */
    method MarkRowFailed(id: EventId, attempts: nat, now: int, ghost w: WorkerId, ghost accepted: set<EventId>,
                         ghost workers: map<WorkerId, WorkerPc>)
      requires w in workers && workers[w] == Rejected(id, attempts)
      modifies this
      ensures View(now, accepted, workers - {w}) == Step(old(View(now, accepted, workers)), MarkFailed(w))
    {
      if id in rows {
        var row := rows[id];
        if RouteFor(row.kind).None? && attempts >= MAX_ATTEMPTS {
          rows := rows[id := row.(dead := true, processingAt := None, lastFailure := Some(now))];
        } else {
          rows := rows[id := row.(processingAt := None, nextAttemptAt := now + RetryDelaySeconds(attempts),
                                  lastFailure := Some(now))];
        }
      }
    }
  }
}
