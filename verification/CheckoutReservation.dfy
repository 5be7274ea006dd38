/**
 * The reservation of `seat_checkout` keys by payment requests: SET NX seat by
 * seat, a look at the holder when that fails, and deletion of the keys the
 * request created when the holder is someone else. Every Redis command is one
 * step; any number of requests interleave. Keys do not lapse and the payment
 * processor deletes none meanwhile.
 */
module CheckoutReservation {

  type ThreadId = nat
  type Owner = string
  type Seat = int

  datatype Pc =
    | Reserving(i: nat)     // about to SET NX the i-th seat
    | Looking(i: nat)       // that failed; about to GET the holder
    | RollingBack(i: nat)   // about to DEL the i-th created key
    | Passed
    | Failed

  datatype Request = Request(owner: Owner, seats: seq<Seat>, created: seq<Seat>, pc: Pc)

  datatype State = State(store: map<Seat, Owner>, requests: map<ThreadId, Request>)

  datatype Event =
    | Begin(t: ThreadId, owner: Owner, seats: seq<Seat>)
    | SetNx(t: ThreadId)
    | Get(t: ThreadId)
    | Del(t: ThreadId)

  const INIT := State(map[], map[])

  function From(r: Request, i: nat): Pc {
    if i >= |r.seats| then Passed else Reserving(i)
  }

  function Undo(r: Request, i: nat): Pc {
    if i >= |r.created| then Failed else RollingBack(i)
  }

  function Step(s: State, ev: Event): State {
    match ev
    case Begin(t, owner, seats) =>
      if t in s.requests then s
      else
        var r := Request(owner, seats, [], Failed);
        s.(requests := s.requests[t := r.(pc := From(r, 0))])
    case SetNx(t) =>
      if t in s.requests && s.requests[t].pc.Reserving? && s.requests[t].pc.i < |s.requests[t].seats| then
        var r := s.requests[t];
        var seat := r.seats[r.pc.i];
        if seat in s.store then s.(requests := s.requests[t := r.(pc := Looking(r.pc.i))])
        else State(s.store[seat := r.owner],
                   s.requests[t := r.(created := r.created + [seat], pc := From(r, r.pc.i + 1))])
      else s
    case Get(t) =>
      if t in s.requests && s.requests[t].pc.Looking? && s.requests[t].pc.i < |s.requests[t].seats| then
        var r := s.requests[t];
        var seat := r.seats[r.pc.i];
        var mine := seat in s.store && s.store[seat] == r.owner;
        s.(requests := s.requests[t := r.(pc := if mine then From(r, r.pc.i + 1) else Undo(r, 0))])
      else s
    case Del(t) =>
      if t in s.requests && s.requests[t].pc.RollingBack? && s.requests[t].pc.i < |s.requests[t].created| then
        var r := s.requests[t];
        State(s.store - {r.created[r.pc.i]}, s.requests[t := r.(pc := Undo(r, r.pc.i + 1))])
      else s
  }

  function Exec(s: State, run: seq<Event>): State {
    if run == [] then s else Step(Exec(s, run[..|run| - 1]), run[|run| - 1])
  }

  /** Different requests write different owner texts. */
  ghost predicate DistinctOwners(run: seq<Event>) {
    forall i, j :: 0 <= i < |run| && 0 <= j < |run| && run[i].Begin? && run[j].Begin? && run[i].t != run[j].t
      ==> run[i].owner != run[j].owner
  }

  // --------------------------------------------------------------- invariant

  /** How many created keys have been deleted again. */
  function Undone(r: Request): nat {
    if r.pc.RollingBack? then r.pc.i else if r.pc.Failed? then |r.created| else 0
  }

  /** Seats the request has got past. */
  function Done(r: Request): nat {
    match r.pc
    case Reserving(i) => i
    case Looking(i) => i
    case Passed => |r.seats|
    case _ => 0
  }

  /** The key is one of those the request created and has not deleted. */
  predicate Holds(r: Request, seat: Seat) {
    exists i :: Undone(r) <= i < |r.created| && r.created[i] == seat
  }

  ghost predicate RequestOk(s: State, r: Request) {
    && Undone(r) <= |r.created| && Done(r) <= |r.seats|
    && (forall i, j :: 0 <= i < j < |r.created| ==> r.created[i] != r.created[j])
    && (forall seat :: Holds(r, seat) <==> seat in s.store && s.store[seat] == r.owner)
    && (forall i :: 0 <= i < Done(r) ==> Holds(r, r.seats[i]))
  }

  ghost predicate Inv(s: State) {
    && (forall t :: t in s.requests ==> RequestOk(s, s.requests[t]))
    && (forall t, u :: t in s.requests && u in s.requests && t != u ==> s.requests[t].owner != s.requests[u].owner)
  }

  ghost predicate FreshOwner(s: State, ev: Event) {
    ev.Begin? ==> (forall t :: t in s.requests && t != ev.t ==> s.requests[t].owner != ev.owner)
                  && (forall seat :: seat in s.store ==> s.store[seat] != ev.owner || ev.t in s.requests)
  }

  lemma OwnStep(s: State, ev: Event)
    requires Inv(s) && FreshOwner(s, ev) && ev.t in Step(s, ev).requests
    ensures RequestOk(Step(s, ev), Step(s, ev).requests[ev.t])
  {
    var s' := Step(s, ev);
    if s' != s {
      var r' := s'.requests[ev.t];
      match ev
      case Begin(t, owner, seats) =>
        assert forall seat :: !Holds(r', seat);
      case SetNx(t) =>
        var r := s.requests[t];
        var seat := r.seats[r.pc.i];
        if seat !in s.store {
          assert forall x :: Holds(r', x) <==> Holds(r, x) || x == seat by { AppendHolds(r, r', seat); }
          assert seat !in r.created by { assert forall i :: 0 <= i < |r.created| ==> Holds(r, r.created[i]); }
        } else {
          assert forall x :: Holds(r', x) <==> Holds(r, x);
        }
      case Get(t) =>
        var r := s.requests[t];
        assert forall x :: Holds(r', x) <==> Holds(r, x);
      case Del(t) =>
        var r := s.requests[t];
        DeleteHolds(r, r');
    }
  }

  lemma AppendHolds(r: Request, r': Request, seat: Seat)
    requires r.pc.Reserving? && r' == r.(created := r.created + [seat], pc := r'.pc) && Undone(r') == 0
    ensures forall x :: Holds(r', x) <==> Holds(r, x) || x == seat
  {
    forall x
      ensures Holds(r', x) <==> Holds(r, x) || x == seat
    {
      if Holds(r, x) {
        var i :| 0 <= i < |r.created| && r.created[i] == x;
        assert r'.created[i] == x;
      }
      assert r'.created[|r.created|] == seat;
    }
  }

  lemma DeleteHolds(r: Request, r': Request)
    requires r.pc.RollingBack? && r.pc.i < |r.created| && r' == r.(pc := Undo(r, r.pc.i + 1))
    requires forall i, j :: 0 <= i < j < |r.created| ==> r.created[i] != r.created[j]
    ensures forall x :: Holds(r', x) <==> Holds(r, x) && x != r.created[r.pc.i]
  {
  }

  lemma OtherStep(s: State, ev: Event, u: ThreadId)
    requires Inv(s) && FreshOwner(s, ev) && u in s.requests && u != ev.t
    ensures Step(s, ev).requests[u] == s.requests[u] && RequestOk(Step(s, ev), s.requests[u])
  {
    if ev.t in s.requests {
      var r, q := s.requests[ev.t], s.requests[u];
      assert RequestOk(s, r) && r.owner != q.owner;
      if ev.Del? && r.pc.RollingBack? && r.pc.i < |r.created| {
        assert Holds(r, r.created[r.pc.i]);
      }
    }
  }

  lemma InvStep(s: State, ev: Event)
    requires Inv(s) && FreshOwner(s, ev)
    ensures Inv(Step(s, ev))
  {
    var s' := Step(s, ev);
    forall t | t in s'.requests
      ensures RequestOk(s', s'.requests[t])
    {
      if t == ev.t { OwnStep(s, ev); } else { OtherStep(s, ev, t); }
    }
  }

  /** Owners in the state come from the requests begun so far. */
  ghost predicate Known(run: seq<Event>, s: State) {
    && (forall t :: t in s.requests ==> exists i :: 0 <= i < |run| && run[i].Begin? && run[i].t == t && run[i].owner == s.requests[t].owner)
    && (forall seat :: seat in s.store ==> exists t :: t in s.requests && s.requests[t].owner == s.store[seat])
  }

  lemma {:induction false} InvRun(run: seq<Event>)
    requires DistinctOwners(run)
    ensures Inv(Exec(INIT, run)) && Known(run, Exec(INIT, run))
  {
    if run != [] {
      var n := |run| - 1;
      InvRun(run[..n]);
      var s := Exec(INIT, run[..n]);
      KnownFresh(run, s);
      InvStep(s, run[n]);
      KnownStep(run, s);
    }
  }

  lemma KnownFresh(run: seq<Event>, s: State)
    requires run != [] && DistinctOwners(run) && Known(run[..|run| - 1], s)
    ensures FreshOwner(s, run[|run| - 1])
  {
    var n := |run| - 1;
    if run[n].Begin? {
      forall t | t in s.requests && t != run[n].t
        ensures s.requests[t].owner != run[n].owner
      {
        var i :| 0 <= i < n && run[..n][i].Begin? && run[..n][i].t == t && run[..n][i].owner == s.requests[t].owner;
        assert run[i].t != run[n].t;
      }
    }
  }

  lemma KnownStep(run: seq<Event>, s: State)
    requires run != [] && Known(run[..|run| - 1], s)
    ensures Known(run, Step(s, run[|run| - 1]))
  {
    var n := |run| - 1;
    var s' := Step(s, run[n]);
    forall t | t in s'.requests
      ensures exists i :: 0 <= i < |run| && run[i].Begin? && run[i].t == t && run[i].owner == s'.requests[t].owner
    {
      if t in s.requests {
        var i :| 0 <= i < n && run[..n][i].Begin? && run[..n][i].t == t && run[..n][i].owner == s.requests[t].owner;
        assert run[i].t == t;
      } else {
        assert run[n].t == t;
      }
    }
    forall seat | seat in s'.store
      ensures exists t :: t in s'.requests && s'.requests[t].owner == s'.store[seat]
    {
      if seat in s.store && s'.store[seat] == s.store[seat] {
        var t :| t in s.requests && s.requests[t].owner == s.store[seat];
        assert t in s'.requests && s'.requests[t].owner == s'.store[seat];
      } else {
        assert s'.requests[run[n].t].owner == s'.store[seat];
      }
    }
  }

  // ---------------------------------------------------------------- theorems

  /** Two requests that passed share no seat. */
  lemma PassedAreDisjoint(run: seq<Event>, t: ThreadId, u: ThreadId, i: nat, j: nat)
    requires DistinctOwners(run)
    requires var s := Exec(INIT, run);
             && t in s.requests && u in s.requests && t != u
             && s.requests[t].pc == Passed && s.requests[u].pc == Passed
             && i < |s.requests[t].seats| && j < |s.requests[u].seats|
    ensures var s := Exec(INIT, run); s.requests[t].seats[i] != s.requests[u].seats[j]
  {
    InvRun(run);
    var s := Exec(INIT, run);
    assert RequestOk(s, s.requests[t]) && RequestOk(s, s.requests[u]);
    assert Holds(s.requests[t], s.requests[t].seats[i]) && Holds(s.requests[u], s.requests[u].seats[j]);
  }

  /** A passed request owns every seat it asked for; a failed one owns no key at all. */
  lemma OutcomeOwnership(run: seq<Event>, t: ThreadId)
    requires DistinctOwners(run) && t in Exec(INIT, run).requests
    ensures var s := Exec(INIT, run);
            var r := s.requests[t];
            && (r.pc == Passed ==> forall i :: 0 <= i < |r.seats| ==> r.seats[i] in s.store && s.store[r.seats[i]] == r.owner)
            && (r.pc == Failed ==> forall seat :: seat in s.store ==> s.store[seat] != r.owner)
  {
    InvRun(run);
    var s := Exec(INIT, run);
    var r := s.requests[t];
    assert RequestOk(s, r);
    if r.pc == Passed {
      assert forall i :: 0 <= i < |r.seats| ==> Holds(r, r.seats[i]);
    }
    if r.pc == Failed {
      assert forall seat :: !Holds(r, seat);
    }
  }

  /** No step of a request removes or changes a key another owner holds. */
  lemma OthersKeysUntouched(run: seq<Event>, ev: Event, seat: Seat)
    requires DistinctOwners(run + [ev])
    requires var s := Exec(INIT, run);
             seat in s.store && (ev.t in s.requests ==> s.store[seat] != s.requests[ev.t].owner)
    ensures var s := Exec(INIT, run);
            seat in Step(s, ev).store && Step(s, ev).store[seat] == s.store[seat]
  {
    assert (run + [ev])[..|run|] == run;
    assert DistinctOwners(run) by {
      assert forall i :: 0 <= i < |run| ==> (run + [ev])[i] == run[i];
    }
    InvRun(run);
    var s := Exec(INIT, run);
    if ev.t in s.requests {
      var r := s.requests[ev.t];
      assert RequestOk(s, r);
      if ev.Del? && r.pc.RollingBack? && r.pc.i < |r.created| {
        assert Holds(r, r.created[r.pc.i]);
      }
    }
  }

  // ------------------------------------------------------- an undisturbed request

  lemma ExecFirst(s: State, ev: Event, rest: seq<Event>)
    ensures Exec(s, [ev] + rest) == Exec(Step(s, ev), rest)
    decreases |rest|
  {
    var run := [ev] + rest;
    if rest == [] {
      assert run[..0] == [];
    } else {
      assert run[..|run| - 1] == [ev] + rest[..|rest| - 1];
      ExecFirst(s, ev, rest[..|rest| - 1]);
    }
  }

  predicate OnlyBy(run: seq<Event>, t: ThreadId) {
    forall k :: 0 <= k < |run| ==> run[k].t == t && !run[k].Begin?
  }

  lemma {:induction false} RollsBackAlone(s: State, t: ThreadId, j: nat) returns (run: seq<Event>)
    requires t in s.requests && j <= |s.requests[t].created| && s.requests[t].pc == Undo(s.requests[t], j)
    ensures OnlyBy(run, t)
    ensures Exec(s, run) == State(s.store - (set seat | seat in s.requests[t].created[j..]), s.requests[t := s.requests[t].(pc := Failed)])
    decreases |s.requests[t].created| - j
  {
    var r := s.requests[t];
    if j == |r.created| {
      run := [];
      assert s.requests[t := r.(pc := Failed)] == s.requests;
    } else {
      var s1 := Step(s, Del(t));
      var rest := RollsBackAlone(s1, t, j + 1);
      run := [Del(t)] + rest;
      ExecFirst(s, Del(t), rest);
      assert r.created[j..] == [r.created[j]] + r.created[j + 1..];
    }
  }

  /** No seat from the i-th on is in another owner's hands. */
  predicate Reservable(store: map<Seat, Owner>, r: Request, i: nat) {
    forall j :: i <= j < |r.seats| && r.seats[j] in store ==> store[r.seats[j]] == r.owner
  }

  /** How the request stands in the end, from the store it met at its i-th seat. */
  predicate Outcome(store: map<Seat, Owner>, r: Request, i: nat, t: ThreadId, s': State)
    requires i <= |r.seats|
  {
    && t in s'.requests
    && if Reservable(store, r, i)
       then s'.requests[t].pc == Passed && s'.store == Reserved(store, r.seats[i..], r.owner)
       else s'.requests[t].pc == Failed && s'.store == store - (set seat | seat in r.created)
  }

  lemma {:induction false} ReservesAlone(s: State, t: ThreadId, i: nat) returns (run: seq<Event>)
    requires t in s.requests && i <= |s.requests[t].seats| && s.requests[t].pc == From(s.requests[t], i)
    ensures OnlyBy(run, t) && Outcome(s.store, s.requests[t], i, t, Exec(s, run))
    decreases |s.requests[t].seats| - i
  {
    var r := s.requests[t];
    if i == |r.seats| {
      run := [];
    } else {
      var seat := r.seats[i];
      if seat !in s.store {
        run := TakesFree(s, t, i);
      } else if s.store[seat] == r.owner {
        run := PassesOwn(s, t, i);
      } else {
        run := MeetsOther(s, t, i);
      }
    }
  }

  lemma TakesFree(s: State, t: ThreadId, i: nat) returns (run: seq<Event>)
    requires t in s.requests && i < |s.requests[t].seats| && s.requests[t].pc == From(s.requests[t], i)
    requires s.requests[t].seats[i] !in s.store
    ensures OnlyBy(run, t) && Outcome(s.store, s.requests[t], i, t, Exec(s, run))
    decreases |s.requests[t].seats| - i, 0
  {
    var s1 := Step(s, SetNx(t));
    var rest := ReservesAlone(s1, t, i + 1);
    run := [SetNx(t)] + rest;
    ExecFirst(s, SetNx(t), rest);
    FreeSeatTaken(s.store, s.requests[t], i);
  }

  lemma PassesOwn(s: State, t: ThreadId, i: nat) returns (run: seq<Event>)
    requires t in s.requests && i < |s.requests[t].seats| && s.requests[t].pc == From(s.requests[t], i)
    requires s.requests[t].seats[i] in s.store && s.store[s.requests[t].seats[i]] == s.requests[t].owner
    ensures OnlyBy(run, t) && Outcome(s.store, s.requests[t], i, t, Exec(s, run))
    decreases |s.requests[t].seats| - i, 0
  {
    var r := s.requests[t];
    var s2 := LooksOwn(s, t, i);
    var rest := ReservesAlone(s2, t, i + 1);
    run := [SetNx(t), Get(t)] + rest;
    ExecTwo(s, SetNx(t), Get(t), rest);
    OwnOutcome(s.store, r, i, t, Exec(s2, rest));
  }

  lemma OwnOutcome(store: map<Seat, Owner>, r: Request, i: nat, t: ThreadId, s': State)
    requires i < |r.seats| && r.seats[i] in store && store[r.seats[i]] == r.owner
    requires Outcome(store, r.(pc := From(r, i + 1)), i + 1, t, s')
    ensures Outcome(store, r, i, t, s')
  {
    OwnSeatStays(store, r.seats, i, r.owner);
  }

  lemma ExecTwo(s: State, a: Event, b: Event, rest: seq<Event>)
    ensures Exec(s, [a, b] + rest) == Exec(Step(Step(s, a), b), rest)
  {
    assert [a, b] + rest == [a] + ([b] + rest);
    ExecFirst(s, a, [b] + rest);
    ExecFirst(Step(s, a), b, rest);
  }

  lemma LooksOwn(s: State, t: ThreadId, i: nat) returns (s2: State)
    requires t in s.requests && i < |s.requests[t].seats| && s.requests[t].pc == From(s.requests[t], i)
    requires s.requests[t].seats[i] in s.store && s.store[s.requests[t].seats[i]] == s.requests[t].owner
    ensures s2 == Step(Step(s, SetNx(t)), Get(t))
    ensures s2 == s.(requests := s.requests[t := s.requests[t].(pc := From(s.requests[t], i + 1))])
  {
    s2 := Step(Step(s, SetNx(t)), Get(t));
  }

  lemma OwnSeatStays(store: map<Seat, Owner>, seats: seq<Seat>, i: nat, owner: Owner)
    requires i < |seats| && seats[i] in store && store[seats[i]] == owner
    ensures Reserved(store, seats[i..], owner) == Reserved(store, seats[i + 1..], owner)
  {
    assert seats[i..] == [seats[i]] + seats[i + 1..];
  }

  lemma MeetsOther(s: State, t: ThreadId, i: nat) returns (run: seq<Event>)
    requires t in s.requests && i < |s.requests[t].seats| && s.requests[t].pc == From(s.requests[t], i)
    requires s.requests[t].seats[i] in s.store && s.store[s.requests[t].seats[i]] != s.requests[t].owner
    ensures OnlyBy(run, t) && Outcome(s.store, s.requests[t], i, t, Exec(s, run))
  {
    var s1 := Step(s, SetNx(t));
    var s2 := Step(s1, Get(t));
    var rest := RollsBackAlone(s2, t, 0);
    run := [SetNx(t), Get(t)] + rest;
    ExecTwo(s, SetNx(t), Get(t), rest);
    assert s.requests[t].created[0..] == s.requests[t].created;
  }

  lemma FreeSeatTaken(store: map<Seat, Owner>, r: Request, i: nat)
    requires i < |r.seats| && r.seats[i] !in store
    ensures var store', r' := store[r.seats[i] := r.owner], r.(created := r.created + [r.seats[i]], pc := From(r, i + 1));
            && (Reservable(store, r, i) <==> Reservable(store', r', i + 1))
            && Reserved(store, r.seats[i..], r.owner) == Reserved(store', r.seats[i + 1..], r.owner)
            && store' - (set seat | seat in r'.created) == store - (set seat | seat in r.created)
  {
    ReservedOneMore(store, r.seats, i, r.owner);
    UndoneOneMore(store, r.created, r.seats[i], r.owner);
  }

  lemma ReservedOneMore(store: map<Seat, Owner>, seats: seq<Seat>, i: nat, owner: Owner)
    requires i < |seats|
    ensures Reserved(store, seats[i..], owner) == Reserved(store[seats[i] := owner], seats[i + 1..], owner)
  {
    assert seats[i..] == [seats[i]] + seats[i + 1..];
  }

  lemma UndoneOneMore(store: map<Seat, Owner>, created: seq<Seat>, seat: Seat, owner: Owner)
    requires seat !in store
    ensures store[seat := owner] - (set x | x in created + [seat]) == store - (set x | x in created)
  {
  }

  /** A request run without interruption passes if and only if no seat is in another owner's hands,
      and then has all seats; otherwise it fails and leaves the store as it was. */
  lemma RequestAlone(s: State, t: ThreadId, owner: Owner, seats: seq<Seat>) returns (run: seq<Event>)
    requires t !in s.requests
    ensures OnlyBy(run, t)
    ensures var s' := Exec(Step(s, Begin(t, owner, seats)), run);
            && t in s'.requests
            && (if forall seat :: seat in seats && seat in s.store ==> s.store[seat] == owner
                then s'.requests[t].pc == Passed && s'.store == Reserved(s.store, seats, owner)
                else s'.requests[t].pc == Failed && s'.store == s.store)
  {
    var begun := Step(s, Begin(t, owner, seats));
    run := ReservesAlone(begun, t, 0);
    assert seats[0..] == seats;
    if forall seat :: seat in seats && seat in s.store ==> s.store[seat] == owner {
      assert Reservable(s.store, begun.requests[t], 0);
    }
    if Reservable(s.store, begun.requests[t], 0) {
      assert forall seat :: seat in seats ==> exists j :: 0 <= j < |seats| && seats[j] == seat;
    }
    var none: seq<Seat> := begun.requests[t].created;
    assert (set seat | seat in none) == {};
  }

  // ------------------------------------------------------------ shared owners

  /** The request has got past the seat. */
  predicate Past(s: State, t: ThreadId, seat: Seat) {
    t in s.requests && exists i :: 0 <= i < Done(s.requests[t]) && i < |s.requests[t].seats| && s.requests[t].seats[i] == seat
  }

  /** Every seat a request has got past is in its owner's hands. */
  ghost predicate PastOwned(s: State) {
    forall t, seat :: Past(s, t, seat) ==> seat in s.store && s.store[seat] == s.requests[t].owner
  }

  /** The event deletes this key. */
  predicate Deletes(s: State, ev: Event, seat: Seat) {
    && ev.Del? && ev.t in s.requests && s.requests[ev.t].pc.RollingBack?
    && s.requests[ev.t].pc.i < |s.requests[ev.t].created|
    && s.requests[ev.t].created[s.requests[ev.t].pc.i] == seat
  }

  /** A rollback is about to delete a key that another request has got past. */
  ghost predicate DeletesPast(s: State, ev: Event) {
    exists t, seat :: Deletes(s, ev, seat) && t != ev.t && Past(s, t, seat)
  }

  /** What a step gets its request past. */
  lemma PastAfter(s: State, ev: Event, t: ThreadId, seat: Seat)
    requires Past(Step(s, ev), t, seat)
    ensures Past(s, t, seat)
            || (t == ev.t && seat in Step(s, ev).store && Step(s, ev).store[seat] == Step(s, ev).requests[t].owner)
  {
    var s' := Step(s, ev);
    var i :| 0 <= i < Done(s'.requests[t]) && i < |s'.requests[t].seats| && s'.requests[t].seats[i] == seat;
    if t in s.requests && i < Done(s.requests[t]) {
      assert s.requests[t].seats[i] == seat;
    }
  }

  lemma PastKept(s: State, ev: Event, t: ThreadId, seat: Seat)
    requires Past(s, t, seat) && t != ev.t
    ensures Past(Step(s, ev), t, seat) && Step(s, ev).requests[t] == s.requests[t]
  {
  }

  lemma StoreAfter(s: State, ev: Event, seat: Seat)
    requires seat in s.store
    ensures if Deletes(s, ev, seat) then seat !in Step(s, ev).store
            else seat in Step(s, ev).store && Step(s, ev).store[seat] == s.store[seat]
  {
  }

  lemma OwnerStays(s: State, ev: Event, t: ThreadId)
    requires t in s.requests
    ensures t in Step(s, ev).requests && Step(s, ev).requests[t].owner == s.requests[t].owner
  {
  }

  lemma RollingBackIsNotPast(s: State, ev: Event, seat: Seat)
    requires Deletes(s, ev, seat)
    ensures forall x :: !Past(s, ev.t, x)
  {
  }

  /** Whatever owners requests share, a step keeps the seats they have got past in their hands,
      if and only if it does not delete one of them. */
  lemma PastOwnedStepIff(s: State, ev: Event)
    requires PastOwned(s)
    ensures PastOwned(Step(s, ev)) <==> !DeletesPast(s, ev)
  {
    var s' := Step(s, ev);
    if DeletesPast(s, ev) {
      var t, seat :| Deletes(s, ev, seat) && t != ev.t && Past(s, t, seat);
      PastKept(s, ev, t, seat);
      StoreAfter(s, ev, seat);
      assert Past(s', t, seat);
    } else {
      forall t, seat | Past(s', t, seat)
        ensures seat in s'.store && s'.store[seat] == s'.requests[t].owner
      {
        PastAfter(s, ev, t, seat);
        if Past(s, t, seat) {
          if Deletes(s, ev, seat) { RollingBackIsNotPast(s, ev, seat); }
          StoreAfter(s, ev, seat);
          OwnerStays(s, ev, t);
        }
      }
    }
  }

  ghost predicate OwnedAfter(run: seq<Event>, n: nat)
    requires n <= |run|
  {
    PastOwned(Exec(INIT, run[..n]))
  }

  ghost predicate HarmAt(run: seq<Event>, k: nat)
    requires k < |run|
  {
    DeletesPast(Exec(INIT, run[..k]), run[k])
  }

  lemma OwnedAfterStep(run: seq<Event>, k: nat)
    requires k < |run| && OwnedAfter(run, k)
    ensures OwnedAfter(run, k + 1) <==> !HarmAt(run, k)
  {
    assert run[..k + 1][..k] == run[..k];
    PastOwnedStepIff(Exec(INIT, run[..k]), run[k]);
  }

  lemma {:induction false} OwnedUpTo(run: seq<Event>, n: nat)
    requires n <= |run| && forall k: nat :: k < n ==> !HarmAt(run, k)
    ensures OwnedAfter(run, n)
  {
    if n > 0 {
      OwnedUpTo(run, n - 1);
      OwnedAfterStep(run, n - 1);
    }
  }

  /** Over every run with any owners: passed requests always own their seats if and only if no
      rollback deletes a key that another request has got past. */
  lemma PastOwnedInRunsIff(run: seq<Event>)
    ensures (forall n: nat :: n <= |run| ==> OwnedAfter(run, n)) <==> (forall k: nat :: k < |run| ==> !HarmAt(run, k))
  {
    if forall n: nat :: n <= |run| ==> OwnedAfter(run, n) {
      forall k: nat | k < |run|
        ensures !HarmAt(run, k)
      {
        assert OwnedAfter(run, k) && OwnedAfter(run, k + 1);
        OwnedAfterStep(run, k);
      }
    }
    if forall k: nat :: k < |run| ==> !HarmAt(run, k) {
      forall n: nat | n <= |run|
        ensures OwnedAfter(run, n)
      {
        OwnedUpTo(run, n);
      }
    }
  }

  /** The request created its i-th key and has not deleted it. */
  predicate Undeleted(s: State, t: ThreadId, i: nat) {
    t in s.requests && Undone(s.requests[t]) <= i < |s.requests[t].created|
  }

  /** Undeleted keys are in the store under their creator's owner, and no key has two creators. */
  ghost predicate CreatedOk(s: State) {
    && (forall t, i: nat :: Undeleted(s, t, i) ==> KeyOwned(s, s.requests[t].created[i], s.requests[t].owner))
    && (forall t, u, i: nat, j: nat :: SameKey(s, t, i, u, j) ==> t == u && i == j)
  }

  predicate SameKey(s: State, t: ThreadId, i: nat, u: ThreadId, j: nat) {
    Undeleted(s, t, i) && Undeleted(s, u, j) && s.requests[t].created[i] == s.requests[u].created[j]
  }

  predicate KeyOwned(s: State, seat: Seat, owner: Owner) {
    seat in s.store && s.store[seat] == owner
  }

  /** An undeleted key is an old one, or the one just set. */
  lemma UndeletedAfter(s: State, ev: Event, t: ThreadId, i: nat)
    requires Undeleted(Step(s, ev), t, i)
    ensures var s' := Step(s, ev);
            var seat := s'.requests[t].created[i];
            || (Undeleted(s, t, i) && s.requests[t].created[i] == seat && s.requests[t].owner == s'.requests[t].owner
                && !(t == ev.t && Deletes(s, ev, seat) && s.requests[t].pc.i == i))
            || (t == ev.t && i == |s'.requests[t].created| - 1 && seat !in s.store && KeyOwned(s', seat, s'.requests[t].owner))
  {
  }

  lemma CreatedStep(s: State, ev: Event)
    requires CreatedOk(s)
    ensures CreatedOk(Step(s, ev))
  {
    var s' := Step(s, ev);
    forall t, i: nat | Undeleted(s', t, i)
      ensures KeyOwned(s', s'.requests[t].created[i], s'.requests[t].owner)
    {
      UndeletedAfter(s, ev, t, i);
      if Undeleted(s, t, i) && s.requests[t].created[i] == s'.requests[t].created[i] {
        var seat := s.requests[t].created[i];
        assert KeyOwned(s, seat, s.requests[t].owner);
        if Deletes(s, ev, seat) {
          assert SameKey(s, t, i, ev.t, s.requests[ev.t].pc.i);
        }
        StoreAfter(s, ev, seat);
      }
    }
    forall t, u, i: nat, j: nat | SameKey(s', t, i, u, j)
      ensures t == u && i == j
    {
      assert SameKey(s, t, i, u, j) ==> t == u && i == j;
      UndeletedAfter(s, ev, t, i);
      UndeletedAfter(s, ev, u, j);
      OldKeysStored(s, t, i);
      OldKeysStored(s, u, j);
    }
  }

  lemma OldKeysStored(s: State, t: ThreadId, i: nat)
    requires CreatedOk(s)
    ensures Undeleted(s, t, i) ==> s.requests[t].created[i] in s.store
  {
    if Undeleted(s, t, i) {
      assert KeyOwned(s, s.requests[t].created[i], s.requests[t].owner);
    }
  }

  lemma {:induction false} CreatedInRuns(run: seq<Event>)
    ensures CreatedOk(Exec(INIT, run))
  {
    if run != [] {
      CreatedInRuns(run[..|run| - 1]);
      CreatedStep(Exec(INIT, run[..|run| - 1]), run[|run| - 1]);
    }
  }

  /** Harm takes a shared owner: in every run a rollback deletes only its own owner's key, so the
      first request it robs has the same owner text. */
  lemma HarmNeedsSharedOwner(run: seq<Event>, ev: Event, t: ThreadId, seat: Seat)
    requires var s := Exec(INIT, run); PastOwned(s) && Deletes(s, ev, seat) && t != ev.t && Past(s, t, seat)
    ensures var s := Exec(INIT, run); s.requests[t].owner == s.requests[ev.t].owner
  {
    CreatedInRuns(run);
    var s := Exec(INIT, run);
    assert Undeleted(s, ev.t, s.requests[ev.t].pc.i);
    assert KeyOwned(s, seat, s.requests[ev.t].owner);
  }

  /** Requests that share an owner text (one user repeating an idempotency key) are not
      protected: one passes on a key the other created and then deletes. */
  lemma SameOwnerLosesKey(a: Owner, b: Owner)
    requires a != b
    ensures var s := Exec(INIT, SharedOwnerRun(a, b));
            && 1 in s.requests && s.requests[1] == Request(a, [1, 2], [1], Failed)
            && 2 in s.requests && s.requests[2] == Request(a, [1], [], Passed)
            && 1 !in s.store
  {
    SharedOwnerStart(a, b);
    SharedOwnerEnd(a, b);
    ExecPairs(Begin(0, b, [2]), SetNx(0), Begin(1, a, [1, 2]), SetNx(1), Begin(2, a, [1]), SetNx(2), Get(2), SetNx(1), Get(1), Del(1));
  }

  /** Seat 2 is another owner's; the two requests of owner `a` are under way. */
  function SharedOwnerMiddle(a: Owner, b: Owner): State {
    State(map[2 := b, 1 := a],
          map[0 := Request(b, [2], [2], Passed), 1 := Request(a, [1, 2], [1], Reserving(1)), 2 := Request(a, [1], [], Looking(0))])
  }

  lemma SharedOwnerStart(a: Owner, b: Owner)
    ensures Step(Step(Step(Step(Step(Step(INIT, Begin(0, b, [2])), SetNx(0)), Begin(1, a, [1, 2])), SetNx(1)), Begin(2, a, [1])), SetNx(2))
         == SharedOwnerMiddle(a, b)
  {
    SharedOwnerSetup(a, b);
    var none: seq<Seat> := [];
    assert none + [1] == [1];
    var s1 := State(map[2 := b], map[0 := Request(b, [2], [2], Passed)]);
    var s2 := State(map[2 := b], s1.requests[1 := Request(a, [1, 2], [], Reserving(0))]);
    assert Step(s1, Begin(1, a, [1, 2])) == s2;
    var s3 := State(map[2 := b, 1 := a], s1.requests[1 := Request(a, [1, 2], [1], Reserving(1))]);
    assert Step(s2, SetNx(1)) == s3;
    assert Step(s3, Begin(2, a, [1])) == s3.(requests := s3.requests[2 := Request(a, [1], [], Reserving(0))]);
  }

  lemma SharedOwnerSetup(a: Owner, b: Owner)
    ensures Step(Step(INIT, Begin(0, b, [2])), SetNx(0)) == State(map[2 := b], map[0 := Request(b, [2], [2], Passed)])
  {
    var none: seq<Seat> := [];
    assert none + [2] == [2];
    var s0 := State(map[], map[0 := Request(b, [2], [], Reserving(0))]);
    assert Step(INIT, Begin(0, b, [2])) == s0;
  }

  lemma SharedOwnerEnd(a: Owner, b: Owner)
    requires a != b
    ensures var s := Step(Step(Step(Step(SharedOwnerMiddle(a, b), Get(2)), SetNx(1)), Get(1)), Del(1));
            && 1 in s.requests && s.requests[1] == Request(a, [1, 2], [1], Failed)
            && 2 in s.requests && s.requests[2] == Request(a, [1], [], Passed)
            && 1 !in s.store
  {
    var s := SharedOwnerMiddle(a, b);
    var s1 := Step(s, Get(2));
    assert s1 == s.(requests := s.requests[2 := Request(a, [1], [], Passed)]);
    var s2 := Step(s1, SetNx(1));
    assert s2 == s1.(requests := s1.requests[1 := Request(a, [1, 2], [1], Looking(1))]);
    var s3 := Step(s2, Get(1));
    assert s3 == s2.(requests := s2.requests[1 := Request(a, [1, 2], [1], RollingBack(0))]);
  }

  function SharedOwnerRun(a: Owner, b: Owner): seq<Event> {
    [] + [Begin(0, b, [2]), SetNx(0)] + [Begin(1, a, [1, 2]), SetNx(1)] + [Begin(2, a, [1]), SetNx(2)]
    + [Get(2), SetNx(1)] + [Get(1), Del(1)]
  }

  lemma ExecPairs(e0: Event, e1: Event, e2: Event, e3: Event, e4: Event, e5: Event, e6: Event, e7: Event, e8: Event, e9: Event)
    ensures Exec(INIT, [] + [e0, e1] + [e2, e3] + [e4, e5] + [e6, e7] + [e8, e9])
         == Step(Step(Step(Step(Step(Step(Step(Step(Step(Step(INIT, e0), e1), e2), e3), e4), e5), e6), e7), e8), e9)
  {
    var r0: seq<Event> := [];
    var r1 := r0 + [e0, e1];
    var r2 := r1 + [e2, e3];
    var r3 := r2 + [e4, e5];
    var r4 := r3 + [e6, e7];
    Unroll(INIT, r0, e0, e1);
    Unroll(INIT, r1, e2, e3);
    Unroll(INIT, r2, e4, e5);
    Unroll(INIT, r3, e6, e7);
    Unroll(INIT, r4, e8, e9);
  }

  lemma Unroll(s: State, run: seq<Event>, a: Event, b: Event)
    ensures Exec(s, run + [a, b]) == Step(Step(Exec(s, run), a), b)
  {
    assert (run + [a, b])[..|run| + 1] == run + [a];
    assert (run + [a])[..|run|] == run;
  }

  // ----------------------------------------------------------------- the code

  /** The store with all the seats in the owner's hands. */
  function Reserved(store: map<Seat, Owner>, seats: seq<Seat>, owner: Owner): map<Seat, Owner> {
    store + map seat | seat in seats :: owner
  }

  lemma ReserveOne(store: map<Seat, Owner>, seats: seq<Seat>, i: nat, owner: Owner)
    requires i < |seats|
    ensures Reserved(store, seats[..i + 1], owner) == Reserved(store, seats[..i], owner)[seats[i] := owner]
  {
    assert forall x :: x in seats[..i + 1] <==> x in seats[..i] || x == seats[i];
  }

  lemma RolledBack(store: map<Seat, Owner>, done: seq<Seat>, created: seq<Seat>, owner: Owner)
    requires forall seat :: seat in done && seat in store ==> store[seat] == owner
    requires forall seat :: seat in created <==> seat in done && seat !in store
    ensures Reserved(store, done, owner) - (set seat | seat in created) == store
  {
    var back := Reserved(store, done, owner) - (set seat | seat in created);
    forall x
      ensures x in back <==> x in store
      ensures x in store ==> back[x] == store[x]
    {
    }
  }

  class CheckoutKeys {
    var store: map<Seat, Owner>

    constructor ()
      ensures store == map[]
    {
      store := map[];
    }

    /** The loop of `request_payment`, run alone: all seats or none. */
    method Reserve(owner: Owner, seats: seq<Seat>) returns (ok: bool, created: seq<Seat>)
      modifies this
      ensures ok <==> forall seat :: seat in seats && seat in old(store) ==> old(store)[seat] == owner
      ensures ok ==> store == Reserved(old(store), seats, owner)
      ensures ok ==> forall seat :: seat in created <==> seat in seats && seat !in old(store)
      ensures !ok ==> store == old(store)
    {
      created := [];
      for i := 0 to |seats|
        invariant store == Reserved(old(store), seats[..i], owner)
        invariant forall seat :: seat in seats[..i] && seat in old(store) ==> old(store)[seat] == owner
        invariant forall seat :: seat in created <==> seat in seats[..i] && seat !in old(store)
      {
        var seat := seats[i];
        assert forall x :: x in seats[..i + 1] <==> x in seats[..i] || x == seat;
        ReserveOne(old(store), seats, i, owner);
        if seat !in store {
          store := store[seat := owner];
          created := created + [seat];
        } else if store[seat] != owner {
          assert seat !in seats[..i];
          RollBack(created);
          RolledBack(old(store), seats[..i], created, owner);
          return false, [];
        }
      }
      assert seats[..|seats|] == seats;
      return true, created;
    }

    method RollBack(created: seq<Seat>)
      modifies this
      ensures store == old(store) - set seat | seat in created
    {
      for i := 0 to |created|
        invariant store == old(store) - set seat | seat in created[..i]
      {
        assert forall x :: x in created[..i + 1] <==> x in created[..i] || x == created[i];
        store := store - {created[i]};
      }
      assert created[..|created|] == created;
    }
  }
}
