/**
 * The lock-free lease and eviction protocol of a show actor: `in_flight` and
 * `closing` against any number of request threads, idle evictors and schedule
 * closings. Every atomic operation is one step; a run is any sequence of
 * steps, and a step that the thread named in it is not ready for does nothing.
 */
module ActorLease {

  type ThreadId = nat

  const ACTOR_IDLE_TTL := 2 * 60 * 60

  /** Where a request stands in `begin_request` and in the life of its lease. */
  datatype RequestPc =
    | Checked    // first load of `closing` read false
    | Counted    // `in_flight` incremented
    | Refusing   // second load read true; still to decrement
    | Stamping   // second load read false; still to store `last_access`
    | Leased     // holds the lease
    | Leaving    // lease dropped, `last_access` stored; still to decrement

  /** Where an evictor stands in `try_begin_idle_eviction`. */
  datatype EvictPc =
    | PastIdle   // the actor looked idle
    | Won        // swapped `closing` from false to true
    | Busy       // then read a non-zero `in_flight`
    | Evicted    // then read zero and returned true

  datatype State = State(
    closing: bool,
    inFlight: int,
    lastAccess: int,
    requests: map<ThreadId, RequestPc>,
    evictors: map<ThreadId, EvictPc>)

  datatype Event =
    | Begin(t: ThreadId)
    | Count(t: ThreadId)
    | Recheck(t: ThreadId)
    | Uncount(t: ThreadId)
    | Stamp(t: ThreadId, now: int)
    | Drop(t: ThreadId, now: int)
    | Leave(t: ThreadId)
    | Inspect(e: ThreadId, now: int)
    | Swap(e: ThreadId)
    | ReadCount(e: ThreadId)
    | Reopen(e: ThreadId)
    | MarkClosed

  function Init(now: int): State {
    State(false, 0, now, map[], map[])
  }

  predicate At(s: State, t: ThreadId, pc: RequestPc) {
    t in s.requests && s.requests[t] == pc
  }

  predicate EvictAt(s: State, e: ThreadId, pc: EvictPc) {
    e in s.evictors && s.evictors[e] == pc
  }

  function SaturatingSub(a: int, b: int): int {
    if a < b then 0 else a - b
  }

  function Step(s: State, ev: Event): State {
    match ev
    case Begin(t) =>
      if t !in s.requests && !s.closing then s.(requests := s.requests[t := Checked]) else s
    case Count(t) =>
      if At(s, t, Checked) then s.(inFlight := s.inFlight + 1, requests := s.requests[t := Counted]) else s
    case Recheck(t) =>
      if At(s, t, Counted) then s.(requests := s.requests[t := if s.closing then Refusing else Stamping]) else s
    case Uncount(t) =>
      if At(s, t, Refusing) then s.(inFlight := s.inFlight - 1, requests := s.requests - {t}) else s
    case Stamp(t, now) =>
      if At(s, t, Stamping) then s.(lastAccess := now, requests := s.requests[t := Leased]) else s
    case Drop(t, now) =>
      if At(s, t, Leased) then s.(lastAccess := now, requests := s.requests[t := Leaving]) else s
    case Leave(t) =>
      if At(s, t, Leaving) then s.(inFlight := s.inFlight - 1, requests := s.requests - {t}) else s
    case Inspect(e, now) =>
      if e !in s.evictors && SaturatingSub(now, s.lastAccess) >= ACTOR_IDLE_TTL
      then s.(evictors := s.evictors[e := PastIdle]) else s
    case Swap(e) =>
      if EvictAt(s, e, PastIdle) then
        if s.closing then s.(evictors := s.evictors - {e})
        else s.(closing := true, evictors := s.evictors[e := Won])
      else s
    case ReadCount(e) =>
      if EvictAt(s, e, Won) then s.(evictors := s.evictors[e := if s.inFlight == 0 then Evicted else Busy]) else s
    case Reopen(e) =>
      if EvictAt(s, e, Busy) then s.(closing := false, evictors := s.evictors - {e}) else s
    case MarkClosed => s.(closing := true)
  }

  function Exec(s: State, run: seq<Event>): State {
    if run == [] then s else Step(Exec(s, run[..|run| - 1]), run[|run| - 1])
  }

  lemma {:induction false} ExecConcat(s: State, a: seq<Event>, b: seq<Event>)
    ensures Exec(s, a + b) == Exec(Exec(s, a), b)
  {
    if b == [] {
      assert a + b == a;
    } else {
      assert (a + b)[..|a + b| - 1] == a + b[..|b| - 1];
      ExecConcat(s, a, b[..|b| - 1]);
    }
  }

  // -------------------------------------------------------------- invariants

  /** Threads between their increment and their decrement. */
  function Holders(s: State): set<ThreadId> {
    HoldersOf(s.requests)
  }

  function HoldersOf(requests: map<ThreadId, RequestPc>): set<ThreadId> {
    set t | t in requests && requests[t] != Checked
  }

  predicate HoldsLease(s: State, t: ThreadId) {
    t in s.requests && s.requests[t] in {Stamping, Leased, Leaving}
  }

  /** The evictor took `closing` and has not given it back. */
  predicate Owns(s: State, e: ThreadId) {
    e in s.evictors && s.evictors[e] != PastIdle
  }

  ghost predicate Inv(s: State) {
    && s.inFlight == |Holders(s)|
    && (forall e :: Owns(s, e) ==> s.closing)
    && (forall e, f :: Owns(s, e) && Owns(s, f) ==> e == f)
    && (forall e, t :: EvictAt(s, e, Evicted) ==> !HoldsLease(s, t))
  }

  lemma HoldersSet(m: map<ThreadId, RequestPc>, t: ThreadId, pc: RequestPc)
    ensures HoldersOf(m[t := pc]) == if pc == Checked then HoldersOf(m) - {t} else HoldersOf(m) + {t}
  {
  }

  lemma HoldersRemoved(m: map<ThreadId, RequestPc>, t: ThreadId)
    ensures HoldersOf(m - {t}) == HoldersOf(m) - {t}
  {
  }

  /** The number of holders moves with the counter. */
  lemma HoldersMove(m: map<ThreadId, RequestPc>, t: ThreadId, pc: RequestPc)
    requires t in m || pc == Checked
    ensures var was, now := t in m && m[t] != Checked, pc != Checked;
            |HoldersOf(m[t := pc])| == |HoldersOf(m)| + (if now && !was then 1 else if was && !now then -1 else 0)
    ensures t in m ==> |HoldersOf(m - {t})| == |HoldersOf(m)| - (if m[t] != Checked then 1 else 0)
  {
    HoldersSet(m, t, pc);
    HoldersRemoved(m, t);
  }

  lemma HoldersAfter(s: State, ev: Event)
    requires s.inFlight == |Holders(s)|
    ensures Step(s, ev).inFlight == |Holders(Step(s, ev))|
  {
    match ev
    case Begin(t) => HoldersMove(s.requests, t, Checked);
    case Count(t) => if At(s, t, Checked) { HoldersMove(s.requests, t, Counted); }
    case Recheck(t) => if At(s, t, Counted) { HoldersMove(s.requests, t, if s.closing then Refusing else Stamping); }
    case Uncount(t) => if At(s, t, Refusing) { HoldersMove(s.requests, t, Checked); }
    case Stamp(t, _) => if At(s, t, Stamping) { HoldersMove(s.requests, t, Leased); }
    case Drop(t, _) => if At(s, t, Leased) { HoldersMove(s.requests, t, Leaving); }
    case Leave(t) => if At(s, t, Leaving) { HoldersMove(s.requests, t, Checked); }
    case _ =>
  }

  lemma NoHolderNoLease(s: State, t: ThreadId)
    requires s.inFlight == |Holders(s)| && s.inFlight == 0
    ensures !HoldsLease(s, t)
  {
    assert HoldsLease(s, t) ==> t in Holders(s);
  }

  lemma OwnersAfter(s: State, ev: Event, e: ThreadId)
    requires Owns(Step(s, ev), e)
    ensures Owns(s, e) || (ev == Swap(e) && !s.closing)
  {
  }

  lemma FlagAfter(s: State, ev: Event)
    requires Inv(s)
    ensures forall e :: Owns(Step(s, ev), e) ==> Step(s, ev).closing
    ensures forall e, f :: Owns(Step(s, ev), e) && Owns(Step(s, ev), f) ==> e == f
  {
    var s' := Step(s, ev);
    forall e, f | Owns(s', e) && Owns(s', f)
      ensures s'.closing && e == f
    {
      OwnersAfter(s, ev, e);
      OwnersAfter(s, ev, f);
      if ev.Reopen? && EvictAt(s, ev.e, Busy) {
        assert Owns(s, ev.e);
      }
    }
  }

  lemma LeasesAfter(s: State, ev: Event, e: ThreadId, t: ThreadId)
    requires Inv(s) && EvictAt(Step(s, ev), e, Evicted)
    ensures !HoldsLease(Step(s, ev), t)
  {
    if EvictAt(s, e, Evicted) {
      assert Owns(s, e);
      assert !HoldsLease(s, t);
    } else {
      NoHolderNoLease(s, t);
    }
  }

  lemma InvStep(s: State, ev: Event)
    requires Inv(s)
    ensures Inv(Step(s, ev))
  {
    HoldersAfter(s, ev);
    FlagAfter(s, ev);
    forall e, t | EvictAt(Step(s, ev), e, Evicted)
      ensures !HoldsLease(Step(s, ev), t)
    {
      LeasesAfter(s, ev, e, t);
    }
  }

  lemma {:induction false} InvRun(s: State, run: seq<Event>)
    requires Inv(s)
    ensures Inv(Exec(s, run))
  {
    if run != [] {
      InvRun(s, run[..|run| - 1]);
      InvStep(Exec(s, run[..|run| - 1]), run[|run| - 1]);
    }
  }

  lemma InvInit(now: int)
    ensures Inv(Init(now))
  {
    assert Holders(Init(now)) == {};
  }

  // ---------------------------------------------------------------- eviction

  /** In every run, `in_flight` counts exactly the threads between increment and decrement. */
  lemma InFlightCountsHolders(now: int, run: seq<Event>)
    ensures Exec(Init(now), run).inFlight == |Holders(Exec(Init(now), run))|
  {
    InvInit(now);
    InvRun(Init(now), run);
  }

  lemma {:induction false} EvictedForever(s: State, e: ThreadId, more: seq<Event>)
    requires EvictAt(s, e, Evicted)
    ensures EvictAt(Exec(s, more), e, Evicted)
  {
    if more != [] {
      EvictedForever(s, e, more[..|more| - 1]);
    }
  }

  /** Once an eviction has returned true, no thread holds a lease, now or in any continuation. */
  lemma EvictionIsSafe(now: int, run: seq<Event>, e: ThreadId, more: seq<Event>, t: ThreadId)
    requires EvictAt(Exec(Init(now), run), e, Evicted)
    ensures !HoldsLease(Exec(Init(now), run + more), t)
  {
    InvInit(now);
    InvRun(Init(now), run + more);
    ExecConcat(Init(now), run, more);
    EvictedForever(Exec(Init(now), run), e, more);
  }

  /** At most one evictor of an actor ever returns true. */
  lemma OneEvictionOnly(now: int, run: seq<Event>, e: ThreadId, f: ThreadId)
    requires EvictAt(Exec(Init(now), run), e, Evicted) && EvictAt(Exec(Init(now), run), f, Evicted)
    ensures e == f
  {
    InvInit(now);
    InvRun(Init(now), run);
    assert Owns(Exec(Init(now), run), e) && Owns(Exec(Init(now), run), f);
  }

  // --------------------------------------------------------- closing a schedule

  /** The next step of `t` hands out a lease. */
  predicate AboutToGrant(s: State, t: ThreadId) {
    At(s, t, Counted) && !s.closing
  }

  ghost predicate NeverGrants(s: State) {
    forall more: seq<Event>, t: ThreadId :: !AboutToGrant(Exec(s, more), t)
  }

  /** No evictor can still take the closing mark back. */
  ghost predicate MarkSticks(s: State) {
    && s.closing
    && (forall e :: !EvictAt(s, e, Busy))
    && (forall e :: EvictAt(s, e, Won) ==> s.inFlight == 0 && forall t :: !At(s, t, Checked))
  }

  lemma NothingCounted(s: State, ev: Event)
    requires Inv(s) && s.inFlight == 0 && forall t :: !At(s, t, Checked)
    ensures Step(s, ev).inFlight == 0
  {
    var t := if ev.Count? || ev.Uncount? || ev.Leave? then ev.t else 0;
    assert !At(s, t, Checked);
    assert t !in Holders(s);
  }

  lemma MarkSticksStep(s: State, ev: Event)
    requires Inv(s) && MarkSticks(s)
    ensures MarkSticks(Step(s, ev))
  {
    var s' := Step(s, ev);
    forall e ensures !EvictAt(s', e, Busy) { assert !EvictAt(s, e, Busy); }
    forall e | EvictAt(s', e, Won)
      ensures s'.inFlight == 0
      ensures forall t :: !At(s', t, Checked)
    {
      assert EvictAt(s, e, Won);
      NothingCounted(s, ev);
      forall t ensures !At(s', t, Checked) { assert !At(s, t, Checked); }
    }
  }

  lemma {:induction false} MarkSticksForever(s: State, more: seq<Event>)
    requires Inv(s) && MarkSticks(s)
    ensures Inv(Exec(s, more)) && MarkSticks(Exec(s, more))
  {
    if more != [] {
      MarkSticksForever(s, more[..|more| - 1]);
      InvStep(Exec(s, more[..|more| - 1]), more[|more| - 1]);
      MarkSticksStep(Exec(s, more[..|more| - 1]), more[|more| - 1]);
    }
  }

  lemma FreshThread(ids: set<nat>) returns (b: nat)
    ensures forall i :: i in ids ==> i < b
  {
    if ids == {} {
      b := 0;
    } else {
      var x :| x in ids;
      b := FreshThread(ids - {x});
      assert forall i :: i in ids ==> i == x || i in ids - {x};
      b := if b <= x then x + 1 else b;
    }
  }

  /** A request that begins on an open actor and runs on undisturbed is granted a lease. */
  lemma OpenActorGrants(s: State, t: ThreadId)
    requires !s.closing && t !in s.requests
    ensures AboutToGrant(Exec(s, [Begin(t), Count(t)]), t)
  {
    assert [Begin(t), Count(t)][..1] == [Begin(t)];
    assert [Begin(t)][..0] == [];
    assert Exec(s, [Begin(t)]) == Step(s, Begin(t));
  }

  /** A step hands out a lease exactly when it is a counted request's second look at an open flag. */
  lemma GrantedIff(s: State, ev: Event, t: ThreadId)
    requires !HoldsLease(s, t)
    ensures HoldsLease(Step(s, ev), t) <==> ev == Recheck(t) && AboutToGrant(s, t)
  {
  }

  lemma ExecFour(s: State, a: Event, b: Event, c: Event, d: Event)
    ensures Exec(s, [a, b]) == Step(Step(s, a), b)
    ensures Exec(s, [a, b, c, d]) == Step(Step(Step(Step(s, a), b), c), d)
  {
    assert [a, b, c, d][..3] == [a, b, c] && [a, b, c][..2] == [a, b] && [a, b][..1] == [a] && [a][..0] == [];
    assert Exec(s, []) == s;
    assert Exec(s, [a]) == Step(s, a);
    assert Exec(s, [a, b, c]) == Step(Exec(s, [a, b]), c);
  }

  /** `begin_request`, undisturbed: a lease, a count and a time stamp if the actor is open, nothing
      at all if it is closing. */
  lemma BeginRequestAlone(s: State, t: ThreadId, now: int)
    requires t !in s.requests
    ensures var s' := Exec(s, [Begin(t), Count(t), Recheck(t), Stamp(t, now)]);
            if s.closing then s' == s
            else At(s', t, Leased) && s' == s.(inFlight := s.inFlight + 1, lastAccess := now, requests := s.requests[t := Leased])
  {
    ExecFour(s, Begin(t), Count(t), Recheck(t), Stamp(t, now));
  }

  /** A request that meets the flag between its two looks takes its count back. */
  lemma RefusedRequestUncounts(s: State, t: ThreadId, now: int)
    requires At(s, t, Counted) && s.closing
    ensures Exec(s, [Recheck(t), Uncount(t)]) == s.(inFlight := s.inFlight - 1, requests := s.requests - {t})
  {
    ExecFour(s, Recheck(t), Uncount(t), Recheck(t), Uncount(t));
  }

  /** A dropped lease stamps the actor and gives its count back. */
  lemma DroppedLeaseReturns(s: State, t: ThreadId, now: int)
    requires At(s, t, Leased)
    ensures Exec(s, [Drop(t, now), Leave(t)]) == s.(inFlight := s.inFlight - 1, lastAccess := now, requests := s.requests - {t})
  {
    ExecFour(s, Drop(t, now), Leave(t), Drop(t, now), Leave(t));
  }

  /** `try_begin_idle_eviction`, undisturbed: true exactly for an open actor that has been idle for
      two hours and has no request in flight; otherwise the flag is as it was. */
  lemma EvictionAlone(s: State, e: ThreadId, now: int)
    requires e !in s.evictors && s.lastAccess <= now
    ensures var s' := Exec(s, [Inspect(e, now), Swap(e), ReadCount(e), Reopen(e)]);
            && (EvictAt(s', e, Evicted) <==> !s.closing && now - s.lastAccess >= 7200 && s.inFlight == 0)
            && s'.closing == (s.closing || EvictAt(s', e, Evicted))
            && (!EvictAt(s', e, Evicted) ==> s' == s)
  {
    ExecFour(s, Inspect(e, now), Swap(e), ReadCount(e), Reopen(e));
  }

  /** Marking a schedule closed turns every later request away that runs before the mark is lost. */
  lemma MarkedActorRefuses(s: State, t: ThreadId, now: int)
    requires t !in s.requests
    ensures var marked := Step(s, MarkClosed);
            Exec(marked, [Begin(t), Count(t), Recheck(t), Stamp(t, now)]) == marked && !HoldsLease(marked, t)
            && marked == s.(closing := true)
  {
    BeginRequestAlone(Step(s, MarkClosed), t, now);
  }

  lemma BusyEvictorReopens(s: State, e: ThreadId)
    requires EvictAt(s, e, Busy)
    ensures !NeverGrants(s)
  {
    var t := FreshThread(s.requests.Keys);
    assert [Reopen(e)][..0] == [];
    assert Exec(s, []) == s;
    var s1 := Exec(s, [Reopen(e)]);
    assert s1 == Step(s, Reopen(e));
    OpenActorGrants(s1, t);
    ExecConcat(s, [Reopen(e)], [Begin(t), Count(t)]);
    assert AboutToGrant(Exec(s, [Reopen(e)] + [Begin(t), Count(t)]), t);
  }

  lemma NeverGrantsContinues(s: State, ev: Event)
    requires NeverGrants(s)
    ensures NeverGrants(Step(s, ev))
  {
    forall more: seq<Event>, t: ThreadId
      ensures !AboutToGrant(Exec(Step(s, ev), more), t)
    {
      assert [ev][..0] == [];
      assert Exec(s, [ev]) == Step(s, ev);
      ExecConcat(s, [ev], more);
      assert !AboutToGrant(Exec(s, [ev] + more), t);
    }
  }

  /**
   * Exactly when marking a schedule closed ends its actor's leases for good.
   * A failing eviction stores false over the mark, so the mark sticks if and
   * only if no evictor has read a non-zero count, and none that has swapped
   * the flag can still read one.
   */
  lemma CloseIsFinalIff(now: int, run: seq<Event>)
    ensures var closed := Step(Exec(Init(now), run), MarkClosed);
            NeverGrants(closed) <==> MarkSticks(closed)
  {
    var s := Exec(Init(now), run);
    var s' := Step(s, MarkClosed);
    InvInit(now);
    InvRun(Init(now), run);
    InvStep(s, MarkClosed);
    if MarkSticks(s') {
      forall more: seq<Event>, t: ThreadId
        ensures !AboutToGrant(Exec(s', more), t)
      {
        MarkSticksForever(s', more);
      }
    }
    if NeverGrants(s') && !MarkSticks(s') {
      if e :| EvictAt(s', e, Busy) {
        BusyEvictorReopens(s', e);
      } else {
        var e :| EvictAt(s', e, Won) && (s'.inFlight != 0 || exists t :: At(s', t, Checked));
        var s1 := s';
        if s'.inFlight == 0 {
          var t :| At(s', t, Checked);
          s1 := Step(s', Count(t));
          NeverGrantsContinues(s', Count(t));
        }
        NeverGrantsContinues(s1, ReadCount(e));
        BusyEvictorReopens(Step(s1, ReadCount(e)), e);
      }
    }
  }
}
