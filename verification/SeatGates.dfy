/**
 * The admission gates of one show actor under interleaved `lock` requests: each
 * compare-exchange and each store on a gate is one step, any number of requests
 * run, and gates are also cleared from outside, by unlock and booking messages
 * and by the expiry worker.
 */
module SeatGates {

  type ThreadId = nat
  type Seat = int

  datatype Pc =
    | Admitting(i: nat)                    // about to try the i-th gate
    | Waiting                              // its task is queued or being served
    | Clearing(failed: seq<Seat>, j: nat)  // about to clear the j-th failed seat
    | Finished

  datatype Request = Request(seats: seq<Seat>, admitted: seq<Seat>, pc: Pc)

  datatype State = State(taken: set<Seat>, requests: map<ThreadId, Request>)

  datatype Event =
    | Begin(t: ThreadId, seats: seq<Seat>)
    | TryGate(t: ThreadId)
    | Answer(t: ThreadId, failed: seq<Seat>)
    | ClearOne(t: ThreadId)
    | ClearOutside(seat: Seat)

  const INIT := State({}, map[])

  ghost predicate Distinct(s: seq<Seat>) {
    forall i, j :: 0 <= i < j < |s| ==> s[i] != s[j]
  }

  /** What a full queue, a lost reply or the lock store may report as failed. */
  ghost predicate PartOf(failed: seq<Seat>, admitted: seq<Seat>) {
    Distinct(failed) && forall seat :: seat in failed ==> seat in admitted
  }

  function AfterTry(seats: seq<Seat>, admitted: seq<Seat>, i: nat): Pc {
    if i < |seats| then Admitting(i) else if admitted == [] then Finished else Waiting
  }

  function AfterClear(failed: seq<Seat>, j: nat): Pc {
    if j < |failed| then Clearing(failed, j) else Finished
  }

  ghost function Step(s: State, ev: Event): State {
    match ev
    case Begin(t, seats) =>
      if t in s.requests then s else s.(requests := s.requests[t := Request(seats, [], AfterTry(seats, [], 0))])
    case TryGate(t) =>
      if t in s.requests && s.requests[t].pc.Admitting? && s.requests[t].pc.i < |s.requests[t].seats| then
        var r := s.requests[t];
        var seat := r.seats[r.pc.i];
        var admitted := if seat in s.taken then r.admitted else r.admitted + [seat];
        State(s.taken + {seat}, s.requests[t := r.(admitted := admitted, pc := AfterTry(r.seats, admitted, r.pc.i + 1))])
      else s
    case Answer(t, failed) =>
      if t in s.requests && s.requests[t].pc.Waiting? && PartOf(failed, s.requests[t].admitted) then
        s.(requests := s.requests[t := s.requests[t].(pc := AfterClear(failed, 0))])
      else s
    case ClearOne(t) =>
      if t in s.requests && s.requests[t].pc.Clearing? && s.requests[t].pc.j < |s.requests[t].pc.failed| then
        var r := s.requests[t];
        State(s.taken - {r.pc.failed[r.pc.j]}, s.requests[t := r.(pc := AfterClear(r.pc.failed, r.pc.j + 1))])
      else s
    case ClearOutside(seat) => s.(taken := s.taken - {seat})
  }

  ghost function Exec(s: State, run: seq<Event>): State {
    if run == [] then s else Step(Exec(s, run[..|run| - 1]), run[|run| - 1])
  }

  // --------------------------------------------------------------- invariants

  /** The request is in flight, won the seat's gate and has not cleared it. */
  predicate Holds(s: State, t: ThreadId, seat: Seat) {
    && t in s.requests && seat in s.requests[t].admitted && !s.requests[t].pc.Finished?
    && !(s.requests[t].pc.Clearing? && s.requests[t].pc.j <= |s.requests[t].pc.failed|
         && seat in s.requests[t].pc.failed[..s.requests[t].pc.j])
  }

  ghost predicate FormOk(s: State) {
    forall t :: t in s.requests && s.requests[t].pc.Clearing? ==>
      PartOf(s.requests[t].pc.failed, s.requests[t].admitted) && s.requests[t].pc.j < |s.requests[t].pc.failed|
  }

  /** A gate held by a request in flight is taken, and belongs to no other request in flight. */
  ghost predicate Exclusive(s: State) {
    && (forall t, seat :: Holds(s, t, seat) ==> seat in s.taken)
    && (forall t, u, seat :: Holds(s, t, seat) && Holds(s, u, seat) ==> t == u)
  }

  /** A gate is cleared from outside while a request in flight holds it. */
  ghost predicate ClearsHeld(s: State, ev: Event) {
    ev.ClearOutside? && exists t :: Holds(s, t, ev.seat)
  }

  lemma FormStep(s: State, ev: Event)
    requires FormOk(s)
    ensures FormOk(Step(s, ev))
  {
  }

  /** Whatever a request holds after a step it held before, or has just won at an open gate. */
  lemma HoldsAfter(s: State, ev: Event, t: ThreadId, seat: Seat)
    requires FormOk(s) && Holds(Step(s, ev), t, seat)
    ensures Holds(s, t, seat) || (ev == TryGate(t) && seat !in s.taken && seat in Step(s, ev).taken)
  {
    if ev == ClearOne(t) && t in s.requests && s.requests[t].pc.Clearing? {
      var failed, j := s.requests[t].pc.failed, s.requests[t].pc.j;
      assert failed[..j + 1] == failed[..j] + [failed[j]];
    }
  }

  /** The gate a request clears is its own, and it holds it no more. */
  lemma ClearedWasHeld(s: State, t: ThreadId)
    requires FormOk(s) && t in s.requests && s.requests[t].pc.Clearing?
    ensures var seat := s.requests[t].pc.failed[s.requests[t].pc.j];
            Holds(s, t, seat) && !Holds(Step(s, ClearOne(t)), t, seat)
  {
    var failed, j := s.requests[t].pc.failed, s.requests[t].pc.j;
    assert failed[..j + 1] == failed[..j] + [failed[j]];
    assert failed[j] in failed;
  }

  lemma OutsideKeepsHolds(s: State, seat: Seat, t: ThreadId, x: Seat)
    ensures Holds(Step(s, ClearOutside(seat)), t, x) <==> Holds(s, t, x)
  {
  }

  lemma TakenAfter(s: State, ev: Event, seat: Seat)
    requires FormOk(s) && seat in s.taken && seat !in Step(s, ev).taken
    ensures ev == ClearOutside(seat)
            || (ev.ClearOne? && ev.t in s.requests && s.requests[ev.t].pc.Clearing?
                && s.requests[ev.t].pc.failed[s.requests[ev.t].pc.j] == seat)
  {
  }

  // ---------------------------------------------------------------- theorems

  /** A step keeps gates exclusive if and only if it does not clear one from outside that a
      request in flight holds; a request's own clearing never hurts another. */
  lemma ExclusiveStepIff(s: State, ev: Event)
    requires FormOk(s) && Exclusive(s)
    ensures Exclusive(Step(s, ev)) <==> !ClearsHeld(s, ev)
  {
    var s' := Step(s, ev);
    if ClearsHeld(s, ev) {
      var t :| Holds(s, t, ev.seat);
      OutsideKeepsHolds(s, ev.seat, t, ev.seat);
      assert Holds(s', t, ev.seat) && ev.seat !in s'.taken;
    } else {
      forall t, seat | Holds(s', t, seat)
        ensures seat in s'.taken
      {
        HeldStaysTaken(s, ev, t, seat);
      }
      forall t, u, seat | Holds(s', t, seat) && Holds(s', u, seat)
        ensures t == u
      {
        HoldsAfter(s, ev, t, seat);
        HoldsAfter(s, ev, u, seat);
      }
    }
  }

  lemma HeldStaysTaken(s: State, ev: Event, t: ThreadId, seat: Seat)
    requires FormOk(s) && Exclusive(s) && !ClearsHeld(s, ev) && Holds(Step(s, ev), t, seat)
    ensures seat in Step(s, ev).taken
  {
    HoldsAfter(s, ev, t, seat);
    if Holds(s, t, seat) && seat !in Step(s, ev).taken {
      TakenAfter(s, ev, seat);
      if ev.ClearOne? {
        ClearedWasHeld(s, ev.t);
      }
      assert false;
    }
  }

  ghost predicate ExclusiveAfter(run: seq<Event>, n: nat)
    requires n <= |run|
  {
    Exclusive(Exec(INIT, run[..n]))
  }

  ghost predicate ClearsHeldAt(run: seq<Event>, k: nat)
    requires k < |run|
  {
    ClearsHeld(Exec(INIT, run[..k]), run[k])
  }

  lemma {:induction false} FormInRuns(run: seq<Event>)
    ensures FormOk(Exec(INIT, run))
  {
    if run != [] {
      FormInRuns(run[..|run| - 1]);
      FormStep(Exec(INIT, run[..|run| - 1]), run[|run| - 1]);
    }
  }

  lemma ExclusiveAfterStep(run: seq<Event>, k: nat)
    requires k < |run| && ExclusiveAfter(run, k)
    ensures ExclusiveAfter(run, k + 1) <==> !ClearsHeldAt(run, k)
  {
    assert run[..k + 1][..k] == run[..k];
    FormInRuns(run[..k]);
    ExclusiveStepIff(Exec(INIT, run[..k]), run[k]);
  }

  lemma {:induction false} ExclusiveUpTo(run: seq<Event>, n: nat)
    requires n <= |run| && forall k: nat :: k < n ==> !ClearsHeldAt(run, k)
    ensures ExclusiveAfter(run, n)
  {
    if n > 0 {
      ExclusiveUpTo(run, n - 1);
      ExclusiveAfterStep(run, n - 1);
    }
  }

  /** Over every interleaving: every gate belongs to at most one request in flight and stays taken
      while it does, at all times, if and only if none is cleared from outside meanwhile. */
  lemma ExclusiveInRunsIff(run: seq<Event>)
    ensures (forall n: nat :: n <= |run| ==> ExclusiveAfter(run, n)) <==> (forall k: nat :: k < |run| ==> !ClearsHeldAt(run, k))
  {
    if forall n: nat :: n <= |run| ==> ExclusiveAfter(run, n) {
      forall k: nat | k < |run|
        ensures !ClearsHeldAt(run, k)
      {
        assert ExclusiveAfter(run, k) && ExclusiveAfter(run, k + 1);
        ExclusiveAfterStep(run, k);
      }
    }
    if forall k: nat :: k < |run| ==> !ClearsHeldAt(run, k) {
      forall n: nat | n <= |run|
        ensures ExclusiveAfter(run, n)
      {
        ExclusiveUpTo(run, n);
      }
    }
  }

  /** A try wins exactly if the gate stands open, and leaves it taken. */
  lemma TryWinsIff(s: State, t: ThreadId)
    requires t in s.requests && s.requests[t].pc.Admitting? && s.requests[t].pc.i < |s.requests[t].seats|
    ensures var seat := s.requests[t].seats[s.requests[t].pc.i];
            var s' := Step(s, TryGate(t));
            && s'.taken == s.taken + {seat}
            && s'.requests[t].admitted == (if seat in s.taken then s.requests[t].admitted else s.requests[t].admitted + [seat])
            && s'.requests[t].pc == (if s.requests[t].pc.i + 1 < |s.requests[t].seats| then Admitting(s.requests[t].pc.i + 1)
                                     else if s'.requests[t].admitted == [] then Finished else Waiting)
  {
  }

  ghost function ClearAll(s: State, t: ThreadId, n: nat): State {
    if n == 0 then s else Step(ClearAll(s, t, n - 1), ClearOne(t))
  }

  lemma {:induction false} ClearingGoesOn(s: State, t: ThreadId, failed: seq<Seat>, n: nat)
    requires t in s.requests && s.requests[t].pc == AfterClear(failed, 0) && n <= |failed|
    ensures ClearAll(s, t, n) == State(s.taken - (set seat | seat in failed[..n]), s.requests[t := s.requests[t].(pc := AfterClear(failed, n))])
  {
    if n > 0 {
      ClearingGoesOn(s, t, failed, n - 1);
      assert failed[..n] == failed[..n - 1] + [failed[n - 1]];
    }
  }

  /** A reply, handled without interruption: exactly the failed seats' gates open, and the request
      is finished. */
  lemma ReplyAlone(s: State, t: ThreadId, failed: seq<Seat>)
    requires t in s.requests && s.requests[t].pc.Waiting? && PartOf(failed, s.requests[t].admitted)
    ensures var s' := ClearAll(Step(s, Answer(t, failed)), t, |failed|);
            s' == State(s.taken - (set seat | seat in failed), s.requests[t := s.requests[t].(pc := Finished)])
  {
    ClearingGoesOn(Step(s, Answer(t, failed)), t, failed, |failed|);
    assert failed[..|failed|] == failed;
  }

  /** And from any state in which a held gate is cleared, the next request to try it shares it. */
  lemma ClearedGateIsShared(s: State, t: ThreadId, u: ThreadId, seat: Seat)
    requires Holds(s, t, seat) && u !in s.requests
    ensures var shared := Step(Step(Step(s, ClearOutside(seat)), Begin(u, [seat])), TryGate(u));
            t != u && Holds(shared, t, seat) && Holds(shared, u, seat)
  {
    var none: seq<Seat> := [];
    assert none + [seat] == [seat];
  }
}
