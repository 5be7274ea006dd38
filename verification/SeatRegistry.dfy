/**
 * Concurrent `register_seat` calls on one actor: the seat-to-slot map
 * (`seat_indices`) against the slots' seat ids (`seat_states`). Each map
 * operation and each compare-exchange is one step of the calling thread; a run
 * is any sequence of steps, and a step nobody is ready for does nothing.
 */
module SeatRegistry {

  type ThreadId = nat

  datatype Call =
    | Absent(seat: int, index: nat)      // the first lookup found no entry
    | Claiming(seat: int, index: nat)    // an entry for this index was seen or inserted
    | Removing(seat: int, index: nat)    // the slot belongs to another seat
    | Registered(seat: int, index: nat)  // returned Ok
    | Refused                            // returned Err

  datatype State = State(slots: seq<int>, indices: map<int, nat>, calls: map<ThreadId, Call>)

  datatype Event =
    | Enter(t: ThreadId, seat: int, oneBased: int)
    | Insert(t: ThreadId)
    | Claim(t: ThreadId)
    | Remove(t: ThreadId)

  function Init(seatCount: nat): State {
    State(seq(seatCount, _ => 0), map[], map[])
  }

  predicate ValidRequest(seatCount: nat, seat: int, oneBased: int) {
    seat > 0 && 0 <= oneBased - 1 < seatCount
  }

  function Lookup(s: State, seat: int, index: nat, absent: Call): Call {
    if seat !in s.indices then absent
    else if s.indices[seat] == index then Claiming(seat, index) else Refused
  }

  function Step(s: State, ev: Event): State {
    match ev
    case Enter(t, seat, oneBased) =>
      if t in s.calls then s
      else if !ValidRequest(|s.slots|, seat, oneBased) then s.(calls := s.calls[t := Refused])
      else s.(calls := s.calls[t := Lookup(s, seat, oneBased - 1, Absent(seat, oneBased - 1))])
    case Insert(t) =>
      if t in s.calls && s.calls[t].Absent? then
        var seat, index := s.calls[t].seat, s.calls[t].index;
        s.(calls := s.calls[t := Lookup(s, seat, index, Claiming(seat, index))],
           indices := if seat in s.indices then s.indices else s.indices[seat := index])
      else s
    case Claim(t) =>
      if t in s.calls && s.calls[t].Claiming? && s.calls[t].index < |s.slots| then
        var seat, index := s.calls[t].seat, s.calls[t].index;
        if s.slots[index] == 0 then
          s.(slots := s.slots[index := seat], calls := s.calls[t := Registered(seat, index)])
        else if s.slots[index] == seat then s.(calls := s.calls[t := Registered(seat, index)])
        else s.(calls := s.calls[t := Removing(seat, index)])
      else s
    case Remove(t) =>
      if t in s.calls && s.calls[t].Removing? then
        var seat, index := s.calls[t].seat, s.calls[t].index;
        s.(calls := s.calls[t := Refused],
           indices := if seat in s.indices && s.indices[seat] == index then s.indices - {seat} else s.indices)
      else s
  }

  function Exec(s: State, run: seq<Event>): State {
    if run == [] then s else Step(Exec(s, run[..|run| - 1]), run[|run| - 1])
  }

  // --------------------------------------------------------------- invariant

  predicate Maps(s: State, seat: int, i: nat) {
    seat in s.indices && s.indices[seat] == i
  }

  predicate TakenByOther(s: State, seat: int, i: nat) {
    i < |s.slots| && s.slots[i] != 0 && s.slots[i] != seat
  }

  /** The call still has a claim or a removal to do. */
  predicate Pending(s: State, t: ThreadId, seat: int, i: nat) {
    t in s.calls && (s.calls[t] == Claiming(seat, i) || s.calls[t] == Removing(seat, i))
  }

  ghost predicate CallOk(s: State, t: ThreadId)
    requires t in s.calls
  {
    match s.calls[t]
    case Absent(seat, i) => seat > 0 && i < |s.slots|
    case Claiming(seat, i) => seat > 0 && i < |s.slots| && (Maps(s, seat, i) || TakenByOther(s, seat, i))
    case Removing(seat, i) => seat > 0 && TakenByOther(s, seat, i)
    case Registered(seat, i) => seat > 0 && i < |s.slots| && s.slots[i] == seat
    case Refused => true
  }

  ghost predicate EntryOk(s: State, seat: int, i: nat) {
    && seat > 0 && i < |s.slots|
    && (s.slots[i] == seat || exists t :: Pending(s, t, seat, i))
  }

  ghost predicate Inv(s: State) {
    && (forall i :: 0 <= i < |s.slots| && s.slots[i] != 0 ==> Maps(s, s.slots[i], i))
    && (forall t :: t in s.calls ==> CallOk(s, t))
    && (forall seat, i :: Maps(s, seat, i) ==> EntryOk(s, seat, i))
  }

  lemma SlotsAfter(s: State, ev: Event)
    requires Inv(s)
    ensures forall i :: 0 <= i < |s.slots| && Step(s, ev).slots[i] != 0 ==> Maps(Step(s, ev), Step(s, ev).slots[i], i)
  {
    if ev.Remove? && ev.t in s.calls {
      assert CallOk(s, ev.t);
    }
    if ev.Claim? && ev.t in s.calls {
      assert CallOk(s, ev.t);
    }
  }

  lemma CallsAfter(s: State, ev: Event, u: ThreadId)
    requires Inv(s) && u in Step(s, ev).calls
    ensures CallOk(Step(s, ev), u)
  {
    if u in s.calls { assert CallOk(s, u); }
    if ev.t in s.calls { assert CallOk(s, ev.t); }
  }

  lemma EntriesAfter(s: State, ev: Event, seat: int, i: nat)
    requires Inv(s) && Maps(Step(s, ev), seat, i)
    ensures EntryOk(Step(s, ev), seat, i)
  {
    var s' := Step(s, ev);
    if ev.t in s.calls { assert CallOk(s, ev.t); }
    if Maps(s, seat, i) {
      assert EntryOk(s, seat, i);
      if s.slots[i] != seat {
        var t :| Pending(s, t, seat, i);
        assert s'.slots[i] == seat || Pending(s', t, seat, i);
      }
    } else {
      assert Pending(s', ev.t, seat, i);
    }
  }

  lemma InvStep(s: State, ev: Event)
    requires Inv(s)
    ensures Inv(Step(s, ev))
  {
    SlotsAfter(s, ev);
    forall u | u in Step(s, ev).calls ensures CallOk(Step(s, ev), u) { CallsAfter(s, ev, u); }
    forall seat, i | Maps(Step(s, ev), seat, i) ensures EntryOk(Step(s, ev), seat, i) { EntriesAfter(s, ev, seat, i); }
  }

  lemma {:induction false} InvRun(s: State, run: seq<Event>)
    requires Inv(s)
    ensures Inv(Exec(s, run))
  {
    if run != [] {
      InvRun(s, run[..|run| - 1]);
      InvStep(Exec(s, run[..|run| - 1]), run[|run| - 1]);
    }
  }

  // ---------------------------------------------------------------- theorems

  /** A slot keeps the first seat written into it, and their number is fixed. */
  lemma {:induction false} SlotsWriteOnce(s: State, run: seq<Event>)
    ensures |Exec(s, run).slots| == |s.slots|
    ensures forall i :: 0 <= i < |s.slots| && s.slots[i] != 0 ==> Exec(s, run).slots[i] == s.slots[i]
  {
    if run != [] {
      SlotsWriteOnce(s, run[..|run| - 1]);
    }
  }

  /** Under every interleaving, a filled slot is mapped back, and a call that may
      still claim its slot has its entry unless another seat already sits there. */
  lemma RegistryAgrees(seatCount: nat, run: seq<Event>)
    ensures var s := Exec(Init(seatCount), run);
            && (forall i :: 0 <= i < |s.slots| && s.slots[i] != 0 ==> Maps(s, s.slots[i], i))
            && (forall t, seat, i :: Pending(s, t, seat, i) ==> Maps(s, seat, i) || TakenByOther(s, seat, i))
  {
    InvRun(Init(seatCount), run);
    var s := Exec(Init(seatCount), run);
    assert forall t :: t in s.calls ==> CallOk(s, t);
  }

  ghost predicate Quiet(s: State) {
    forall t, seat, i :: !Pending(s, t, seat, i)
  }

  /** With no call under way the map and the slots are exact inverses. */
  lemma QuietRegistryInverse(seatCount: nat, run: seq<Event>, seat: int, i: nat)
    requires Quiet(Exec(Init(seatCount), run))
    ensures var s := Exec(Init(seatCount), run);
            Maps(s, seat, i) <==> i < |s.slots| && s.slots[i] == seat && seat != 0
  {
    InvRun(Init(seatCount), run);
    var s := Exec(Init(seatCount), run);
    if Maps(s, seat, i) {
      assert EntryOk(s, seat, i);
    }
  }

  lemma {:induction false} ResultsStay(s: State, more: seq<Event>, t: ThreadId)
    requires t in s.calls && (s.calls[t].Registered? || s.calls[t].Refused?)
    ensures t in Exec(s, more).calls && Exec(s, more).calls[t] == s.calls[t]
  {
    if more != [] {
      ResultsStay(s, more[..|more| - 1], t);
    }
  }

  /** The call of this thread, as first entered in the run. */
  ghost predicate EnteredAs(run: seq<Event>, t: ThreadId, seat: int, oneBased: int) {
    exists k :: 0 <= k < |run| && run[k] == Enter(t, seat, oneBased) && forall j :: 0 <= j < k ==> !(run[j].Enter? && run[j].t == t)
  }

  predicate CallFor(call: Call, seat: int, index: int) {
    call.Refused? || (call.seat == seat && call.index == index)
  }

  lemma {:induction false} CallIsEntered(seatCount: nat, run: seq<Event>, t: ThreadId)
    ensures t in Exec(Init(seatCount), run).calls <==> exists k :: 0 <= k < |run| && run[k].Enter? && run[k].t == t
  {
    if run != [] {
      var n := |run| - 1;
      CallIsEntered(seatCount, run[..n], t);
      if run[n].Enter? && run[n].t == t {
        assert t in Exec(Init(seatCount), run).calls;
      }
      if k :| 0 <= k < n && run[..n][k].Enter? && run[..n][k].t == t {
        assert run[k].Enter?;
      }
    }
  }

  /** Under every interleaving a call that registers returns the index it asked for, for the seat it
      asked for. */
  lemma {:induction false} RegisteredAsAsked(seatCount: nat, run: seq<Event>, t: ThreadId, seat: int, oneBased: int)
    requires EnteredAs(run, t, seat, oneBased)
    ensures t in Exec(Init(seatCount), run).calls && CallFor(Exec(Init(seatCount), run).calls[t], seat, oneBased - 1)
  {
    var n := |run| - 1;
    var k :| 0 <= k < |run| && run[k] == Enter(t, seat, oneBased) && forall j :: 0 <= j < k ==> !(run[j].Enter? && run[j].t == t);
    var s := Exec(Init(seatCount), run[..n]);
    if k < n {
      assert run[..n][k] == run[k] && forall j :: 0 <= j < k ==> run[..n][j] == run[j];
      RegisteredAsAsked(seatCount, run[..n], t, seat, oneBased);
      CallForAfter(s, run[n], t, seat, oneBased - 1);
    } else {
      CallIsEntered(seatCount, run[..n], t);
      assert forall j :: 0 <= j < n ==> run[..n][j] == run[j];
      EnterIs(s, t, seat, oneBased);
    }
  }

  lemma CallForAfter(s: State, ev: Event, t: ThreadId, seat: int, index: int)
    requires t in s.calls && CallFor(s.calls[t], seat, index)
    ensures t in Step(s, ev).calls && CallFor(Step(s, ev).calls[t], seat, index)
  {
  }

  lemma EnterIs(s: State, t: ThreadId, seat: int, oneBased: int)
    requires t !in s.calls
    ensures t in Step(s, Enter(t, seat, oneBased)).calls && CallFor(Step(s, Enter(t, seat, oneBased)).calls[t], seat, oneBased - 1)
  {
  }

  /** A call run alone registers exactly if its arguments are valid, the seat has no other index and
      the slot no other seat; otherwise it is refused and leaves the registry as it was. */
  lemma CallAlone(s: State, t: ThreadId, seat: int, oneBased: int)
    requires t !in s.calls
    ensures var s' := Step(Step(Step(Step(s, Enter(t, seat, oneBased)), Insert(t)), Claim(t)), Remove(t));
            var i := oneBased - 1;
            && t in s'.calls
            && (s'.calls[t].Registered? <==>
                  && seat > 0 && 0 <= i < |s.slots|
                  && (seat in s.indices ==> s.indices[seat] == i) && (s.slots[i] == 0 || s.slots[i] == seat))
            && (s'.calls[t].Registered? ==> s'.calls[t] == Registered(seat, i) && s'.slots == s.slots[i := seat] && s'.indices == s.indices[seat := i])
            && (!s'.calls[t].Registered? ==> s'.calls[t] == Refused && s'.slots == s.slots)
            && (!s'.calls[t].Registered? && seat !in s.indices ==> s'.indices == s.indices)
  {
    var s1 := Step(s, Enter(t, seat, oneBased));
    var s2 := Step(s1, Insert(t));
    assert s2.slots == s.slots;
    if s2.calls[t].Claiming? {
      assert s2.calls[t] == Claiming(seat, oneBased - 1) && s2.indices == s.indices[seat := oneBased - 1];
    } else {
      assert s2.calls[t] == Refused && s2.indices == s.indices;
    }
  }

  /** Successful calls agree: one slot per seat, one seat per slot, from then on. */
  lemma RegisteredBijective(seatCount: nat, run: seq<Event>, t: ThreadId, u: ThreadId)
    requires var s := Exec(Init(seatCount), run);
             t in s.calls && u in s.calls && s.calls[t].Registered? && s.calls[u].Registered?
    ensures var s := Exec(Init(seatCount), run);
            s.calls[t].seat == s.calls[u].seat <==> s.calls[t].index == s.calls[u].index
  {
    InvRun(Init(seatCount), run);
    var s := Exec(Init(seatCount), run);
    assert CallOk(s, t) && CallOk(s, u);
    assert Maps(s, s.calls[t].seat, s.calls[t].index) && Maps(s, s.calls[u].seat, s.calls[u].index);
  }

  // ----------------------------------------------- requests checked against metadata

  /** A schedule's seat metadata: seat id to one-based index. */
  ghost predicate Metadata(meta: map<int, int>, seatCount: nat) {
    && (forall seat :: seat in meta ==> seat > 0 && 1 <= meta[seat] <= seatCount)
    && (forall a, b :: a in meta && b in meta && meta[a] == meta[b] ==> a == b)
  }

  predicate FromMetadata(meta: map<int, int>, ev: Event) {
    ev.Enter? ==> ev.seat in meta && meta[ev.seat] == ev.oneBased
  }

  predicate Agrees(meta: map<int, int>, seat: int, i: nat) {
    seat in meta && meta[seat] == i + 1
  }

  ghost predicate MetaInv(meta: map<int, int>, s: State) {
    && (forall i :: 0 <= i < |s.slots| && s.slots[i] != 0 ==> Agrees(meta, s.slots[i], i))
    && (forall seat, i :: Maps(s, seat, i) ==> Agrees(meta, seat, i))
    && (forall t :: t in s.calls ==> !s.calls[t].Refused? && !s.calls[t].Removing? && Agrees(meta, s.calls[t].seat, s.calls[t].index))
  }

  lemma MetaStep(meta: map<int, int>, s: State, ev: Event)
    requires Metadata(meta, |s.slots|) && MetaInv(meta, s) && FromMetadata(meta, ev)
    ensures MetaInv(meta, Step(s, ev))
  {
    var s' := Step(s, ev);
    if ev.Enter? {
      assert Maps(s, ev.seat, if ev.seat in s.indices then s.indices[ev.seat] else 0) || ev.seat !in s.indices;
    } else if ev.t in s.calls {
      var c := s.calls[ev.t];
      assert !c.Refused? && Agrees(meta, c.seat, c.index);
      if c.seat in s.indices { assert Maps(s, c.seat, s.indices[c.seat]); }
      if c.Claiming? && c.index < |s.slots| && s.slots[c.index] != 0 { assert Agrees(meta, s.slots[c.index], c.index); }
    }
    forall seat, i | Maps(s', seat, i)
      ensures Agrees(meta, seat, i)
    {
      assert Maps(s, seat, i) || (ev.Insert? && s.calls[ev.t] == Absent(seat, i));
    }
  }

  /** Calls that carry a schedule's own metadata are never refused, however they interleave. */
  lemma {:induction false} MetadataNeverRefused(meta: map<int, int>, seatCount: nat, run: seq<Event>)
    requires Metadata(meta, seatCount)
    requires forall k :: 0 <= k < |run| ==> FromMetadata(meta, run[k])
    ensures var s := Exec(Init(seatCount), run);
            && MetaInv(meta, s) && |s.slots| == seatCount
            && forall t :: t in s.calls ==> !s.calls[t].Refused?
  {
    if run != [] {
      MetadataNeverRefused(meta, seatCount, run[..|run| - 1]);
      MetaStep(meta, Exec(Init(seatCount), run[..|run| - 1]), run[|run| - 1]);
    }
  }
}
