/**
 * A show actor of the gateway: the fixed arrays of slot owners and admission
 * gates, the seat map, and the `lock` request that registers, admits, queues
 * and finally clears. Requests are run one at a time here; their interleavings
 * are the subject of ActorLease and SeatRegistry.
 */
module ShowActor {
  import opened Wrappers

  datatype Gate = Available | Processing

  datatype Error =
    | LengthMismatch | SeatCountOutside | SeatCountMismatch | Closing
    | SeatIdNotPositive | IndexOutside | DifferentIndex | DifferentSeat

  datatype LockResult = LockResult(locked: seq<int>, failed: seq<int>)

  /** What becomes of the task handed to the actor's bounded queue. */
  datatype Outcome =
    | QueueFull
    | ReplyLost
    | Answered(acquires: nat -> bool)  // the lock store's answer for the k-th admitted seat

  const MAX_SEATS_PER_SHOW := 200_000

  // ----------------------------------------------------------- specification

  /** The seats that win their gate, in order: free before, and not asked for earlier. */
  function Admission(seats: seq<int>, busy: set<int>): seq<int> {
    if seats == [] then []
    else
      var won := Admission(seats[..|seats| - 1], busy);
      var seat := seats[|seats| - 1];
      if seat in busy || seat in won then won else won + [seat]
  }

  /** The seats, in order, whose lock was acquired. */
  function Acquired(seats: seq<int>, acquires: nat -> bool): seq<int> {
    if seats == [] then []
    else
      var n := |seats| - 1;
      Acquired(seats[..n], acquires) + if acquires(n) then [seats[n]] else []
  }

  /** The requests that found the gate taken, in order. */
  function Turned(seats: seq<int>, busy: set<int>): seq<int> {
    if seats == [] then []
    else
      var n := |seats| - 1;
      Turned(seats[..n], busy)
      + if seats[n] in busy || seats[n] in Admission(seats[..n], busy) then [seats[n]] else []
  }

  function NotAcquired(seats: seq<int>, acquires: nat -> bool): seq<int> {
    if seats == [] then []
    else
      var n := |seats| - 1;
      NotAcquired(seats[..n], acquires) + if acquires(n) then [] else [seats[n]]
  }

  /** One more element, put on either part. */
  lemma PartsOneMore(part: seq<int>, rest: seq<int>, whole: seq<int>, n: nat)
    requires |whole| == n + 1 && multiset(part) + multiset(rest) == multiset(whole[..n])
    ensures multiset(part + [whole[n]]) + multiset(rest) == multiset(whole)
    ensures multiset(part) + multiset(rest + [whole[n]]) == multiset(whole)
    ensures part + [] == part && rest + [] == rest
  {
    assert whole == whole[..n] + [whole[n]];
  }

  lemma {:induction false} AdmissionPartitions(seats: seq<int>, busy: set<int>)
    ensures multiset(Admission(seats, busy)) + multiset(Turned(seats, busy)) == multiset(seats)
  {
    if seats != [] {
      var n := |seats| - 1;
      AdmissionPartitions(seats[..n], busy);
      PartsOneMore(Admission(seats[..n], busy), Turned(seats[..n], busy), seats, n);
    }
  }

  lemma {:induction false} AcquisitionPartitions(seats: seq<int>, acquires: nat -> bool)
    ensures multiset(Acquired(seats, acquires)) + multiset(NotAcquired(seats, acquires)) == multiset(seats)
  {
    if seats != [] {
      var n := |seats| - 1;
      AcquisitionPartitions(seats[..n], acquires);
      PartsOneMore(Acquired(seats[..n], acquires), NotAcquired(seats[..n], acquires), seats, n);
    }
  }

  function LockedSeats(seats: seq<int>, busy: set<int>, outcome: Outcome): seq<int> {
    if outcome.Answered? then Acquired(Admission(seats, busy), outcome.acquires) else []
  }

  /** A seat is admitted exactly when it was asked for and its gate stood open, and only once. */
  lemma {:induction false} AdmissionIs(seats: seq<int>, busy: set<int>)
    ensures forall s :: s in Admission(seats, busy) <==> s in seats && s !in busy
    ensures forall i, j :: 0 <= i < j < |Admission(seats, busy)| ==> Admission(seats, busy)[i] != Admission(seats, busy)[j]
  {
    if seats != [] {
      var n := |seats| - 1;
      AdmissionIs(seats[..n], busy);
      assert forall s :: s in seats <==> s in seats[..n] || s == seats[n];
    }
  }

  lemma {:induction false} AcquiredIs(seats: seq<int>, acquires: nat -> bool)
    ensures forall s :: s in Acquired(seats, acquires) <==> exists k :: 0 <= k < |seats| && seats[k] == s && acquires(k)
  {
    if seats != [] {
      AcquiredIs(seats[..|seats| - 1], acquires);
    }
  }

  // ------------------------------------------------------- the actor's arrays

  /** Slots and map are inverse to each other, and only registered slots have a taken gate. */
  ghost predicate Consistent(ids: seq<int>, gates: seq<Gate>, indices: map<int, nat>) {
    && |gates| == |ids|
    && (forall seat :: seat in indices ==> seat > 0 && indices[seat] < |ids| && ids[indices[seat]] == seat)
    && (forall i :: 0 <= i < |ids| && ids[i] != 0 ==> ids[i] in indices && indices[ids[i]] == i)
    && (forall i :: 0 <= i < |ids| && gates[i] == Processing ==> ids[i] != 0)
  }

  /** The seats whose gate is taken. */
  ghost function BusySeats(ids: seq<int>, gates: seq<Gate>, indices: map<int, nat>): set<int>
    requires Consistent(ids, gates, indices)
  {
    set seat | seat in indices && gates[indices[seat]] == Processing
  }

  lemma GateMoves(ids: seq<int>, gates: seq<Gate>, indices: map<int, nat>, seat: int, gate: Gate)
    requires Consistent(ids, gates, indices) && seat in indices
    ensures var gates' := gates[indices[seat] := gate];
            && Consistent(ids, gates', indices)
            && BusySeats(ids, gates', indices)
               == if gate == Processing then BusySeats(ids, gates, indices) + {seat} else BusySeats(ids, gates, indices) - {seat}
  {
    var gates' := gates[indices[seat] := gate];
    forall s | s in indices
      ensures gates'[indices[s]] == if s == seat then gate else gates[indices[s]]
    {
      assert ids[indices[s]] == s && ids[indices[seat]] == seat;
    }
  }

  lemma SlotFills(ids: seq<int>, gates: seq<Gate>, indices: map<int, nat>, seat: int, i: nat)
    requires Consistent(ids, gates, indices) && seat > 0 && i < |ids|
    requires if seat in indices then indices[seat] == i else ids[i] == 0
    ensures Consistent(ids[i := seat], gates, indices[seat := i])
    ensures BusySeats(ids[i := seat], gates, indices[seat := i]) == BusySeats(ids, gates, indices)
  {
  }

  // -------------------------------------------------------------- bookkeeping

  lemma AppendElements(s: seq<int>, x: int)
    ensures Elements(s + [x]) == Elements(s) + {x}
  {
  }

  lemma ConcatCounts(s: seq<int>, t: seq<int>)
    ensures multiset(s + t) == multiset(s) + multiset(t)
  {
  }

  lemma PartsOfDistinct(whole: seq<int>, part: seq<int>, rest: seq<int>)
    requires multiset(part) + multiset(rest) == multiset(whole)
    requires forall i, j :: 0 <= i < j < |whole| ==> whole[i] != whole[j]
    ensures Elements(rest) == Elements(whole) - Elements(part)
  {
    forall x
      ensures x in rest <==> x in whole && x !in part
    {
      assert (multiset(part) + multiset(rest))[x] == multiset(whole)[x];
      DistinctCounts(whole, x);
    }
  }

  lemma {:induction false} DistinctCounts(s: seq<int>, x: int)
    requires forall i, j :: 0 <= i < j < |s| ==> s[i] != s[j]
    ensures multiset(s)[x] <= 1
  {
    if s != [] {
      var n := |s| - 1;
      DistinctCounts(s[..n], x);
      assert s == s[..n] + [s[n]];
      assert s[n] !in s[..n];
    }
  }

  // ------------------------------------------------------------- registration

  /** The seat may sit at this one-based index: it does already, or neither is taken. */
  predicate Fits(ids: seq<int>, indices: map<int, nat>, seat: int, oneBased: int) {
    && seat > 0 && 1 <= oneBased <= |ids|
    && (if seat in indices then indices[seat] == oneBased - 1 else ids[oneBased - 1] == 0)
  }

  /** The first k seats fit the registry, and repeat a seat exactly when they repeat its index. */
  ghost predicate Compatible(ids: seq<int>, indices: map<int, nat>, seats: seq<int>, oneBased: seq<int>, k: nat)
    requires k <= |seats| == |oneBased|
  {
    && (forall j :: 0 <= j < k ==> Fits(ids, indices, seats[j], oneBased[j]))
    && (forall i, j :: 0 <= i < j < k ==> (seats[i] == seats[j] <==> oneBased[i] == oneBased[j]))
  }

  /** The k-th seat is the first that does not go with the registry and the seats before it. */
  ghost predicate FirstRefused(ids: seq<int>, indices: map<int, nat>, seats: seq<int>, oneBased: seq<int>, k: nat)
    requires k < |seats| == |oneBased|
  {
    Compatible(ids, indices, seats, oneBased, k) && !Compatible(ids, indices, seats, oneBased, k + 1)
  }

  /** The map has grown by the first k seats of the request and nothing else. */
  ghost predicate Grown(was: map<int, nat>, now: map<int, nat>, seats: seq<int>, oneBased: seq<int>, k: nat)
    requires k <= |seats| == |oneBased|
  {
    && (forall seat :: seat in was ==> seat in now && now[seat] == was[seat])
    && (forall j :: 0 <= j < k ==> seats[j] in now && now[seats[j]] == oneBased[j] - 1)
    && (forall seat :: seat in now ==> seat in was || seat in seats[..k])
  }

  /** Fitting the registry as it has grown is fitting the old one and the seats before. */
  lemma CompatibleOneMore(ids: seq<int>, indices: map<int, nat>, ids': seq<int>, indices': map<int, nat>,
                          gates: seq<Gate>, seats: seq<int>, oneBased: seq<int>, k: nat)
    requires Consistent(ids, gates, indices) && Consistent(ids', gates, indices')
    requires k < |seats| == |oneBased| && Grown(indices, indices', seats, oneBased, k)
    requires Compatible(ids, indices, seats, oneBased, k)
    ensures Compatible(ids, indices, seats, oneBased, k + 1) <==> Fits(ids', indices', seats[k], oneBased[k])
  {
    if Fits(ids', indices', seats[k], oneBased[k]) {
      FitsBefore(ids, indices, ids', indices', gates, seats, oneBased, k);
    }
    if Compatible(ids, indices, seats, oneBased, k + 1) {
      FitsNow(ids, indices, ids', indices', gates, seats, oneBased, k);
    }
  }

  lemma FitsBefore(ids: seq<int>, indices: map<int, nat>, ids': seq<int>, indices': map<int, nat>,
                   gates: seq<Gate>, seats: seq<int>, oneBased: seq<int>, k: nat)
    requires Consistent(ids, gates, indices) && Consistent(ids', gates, indices')
    requires k < |seats| == |oneBased| && Grown(indices, indices', seats, oneBased, k)
    requires Fits(ids', indices', seats[k], oneBased[k])
    ensures Fits(ids, indices, seats[k], oneBased[k])
    ensures forall j :: 0 <= j < k ==> (seats[j] == seats[k] <==> oneBased[j] == oneBased[k])
  {
    var seat, index := seats[k], oneBased[k] - 1;
    assert ids'[index] == 0 || ids'[index] == seat;
    assert ids[index] != 0 ==> ids[index] in indices' && indices'[ids[index]] == index;
    assert ids[index] != 0 ==> ids'[index] == ids[index];
    forall j | 0 <= j < k
      ensures seats[j] == seats[k] <==> oneBased[j] == oneBased[k]
    {
      assert indices'[seats[j]] == oneBased[j] - 1 && ids'[indices'[seats[j]]] == seats[j];
    }
  }

  lemma FitsNow(ids: seq<int>, indices: map<int, nat>, ids': seq<int>, indices': map<int, nat>,
                gates: seq<Gate>, seats: seq<int>, oneBased: seq<int>, k: nat)
    requires Consistent(ids, gates, indices) && Consistent(ids', gates, indices')
    requires k < |seats| == |oneBased| && Grown(indices, indices', seats, oneBased, k)
    requires Compatible(ids, indices, seats, oneBased, k + 1)
    ensures Fits(ids', indices', seats[k], oneBased[k])
  {
    var seat, index := seats[k], oneBased[k] - 1;
    assert Fits(ids, indices, seat, oneBased[k]);
    if seat in indices' && seat !in indices {
      var j :| 0 <= j < k && seats[j] == seat;
      assert oneBased[j] == oneBased[k];
    }
    var other := ids'[index];
    assert other != 0 ==> other in indices' && indices'[other] == index;
    assert other != 0 && other in indices ==> ids[index] == other;
    assert other != 0 && other !in indices ==> exists j :: 0 <= j < k && seats[j] == other && oneBased[j] == oneBased[k];
  }

  // ---------------------------------------------------------------- the actor

  class Actor {
    const seatIds: array<int>      // 0 marks a slot nobody registered
    const gates: array<Gate>
    var indices: map<int, nat>
    var inFlight: int
    var closing: bool

    ghost predicate Valid()
      reads this, seatIds, gates
    {
      Consistent(seatIds[..], gates[..], indices)
    }

    ghost function Busy(): set<int>
      requires Valid()
      reads this, seatIds, gates
    {
      BusySeats(seatIds[..], gates[..], indices)
    }

    constructor (seatCount: nat)
      ensures Valid() && seatIds.Length == seatCount && Busy() == {}
      ensures indices == map[] && inFlight == 0 && !closing
      ensures fresh(seatIds) && fresh(gates)
    {
      seatIds := new int[seatCount](_ => 0);
      gates := new Gate[seatCount](_ => Available);
      indices := map[];
      inFlight := 0;
      closing := false;
    }

    /** The whole of `register_seat`, run alone: it succeeds exactly on the seat's own
        or a free slot, and a refusal leaves the registry as it was. */
    method RegisterSeat(seat: int, oneBased: int) returns (r: Result<nat, Error>)
      requires Valid()
      modifies this`indices, seatIds
      ensures Valid() && Busy() == old(Busy())
      ensures r.Ok? <==> Fits(old(seatIds[..]), old(indices), seat, oneBased)
      ensures seat <= 0 <==> r == Err(SeatIdNotPositive)
      ensures seat > 0 && !(1 <= oneBased <= seatIds.Length) <==> r == Err(IndexOutside)
      ensures r == Err(DifferentIndex) <==>
              seat > 0 && 1 <= oneBased <= seatIds.Length && seat in old(indices) && old(indices)[seat] != oneBased - 1
      ensures r == Err(DifferentSeat) <==>
              seat > 0 && 1 <= oneBased <= seatIds.Length && seat !in old(indices) && old(seatIds[oneBased - 1]) != 0
      ensures r.Ok? ==> r.value == oneBased - 1 && r.value < seatIds.Length
      ensures r.Ok? ==> indices == old(indices)[seat := r.value] && seatIds[..] == old(seatIds[..])[r.value := seat]
      ensures r.Err? ==> indices == old(indices) && seatIds[..] == old(seatIds[..])
    {
      if seat <= 0 {
        return Err(SeatIdNotPositive);
      }
      var index := oneBased - 1;
      if index < 0 || index >= seatIds.Length {
        return Err(IndexOutside);
      }
      if seat in indices {
        if indices[seat] != index {
          return Err(DifferentIndex);
        }
      } else {
        indices := indices[seat := index];
      }
      if seatIds[index] == 0 {
        seatIds[index] := seat;
        SlotFills(old(seatIds[..]), gates[..], old(indices), seat, index);
        return Ok(index);
      } else if seatIds[index] == seat {
        assert seatIds[..] == seatIds[..][index := seat];
        assert indices == old(indices)[seat := index];
        return Ok(index);
      } else {
        if seat in indices && indices[seat] == index {
          indices := indices - {seat};
        }
        assert indices == old(indices);
        return Err(DifferentSeat);
      }
    }

    /** Registers a request's seats in order; the first refusal ends the request. */
    method RegisterAll(seats: seq<int>, oneBased: seq<int>) returns (r: Result<(), Error>)
      requires Valid() && |seats| == |oneBased|
      modifies this`indices, seatIds
      ensures Valid() && Busy() == old(Busy())
      ensures r.Ok? <==> Compatible(old(seatIds[..]), old(indices), seats, oneBased, |seats|)
      ensures r.Ok? ==> Grown(old(indices), indices, seats, oneBased, |seats|)
      ensures r.Err? ==> exists k :: 0 <= k < |seats| && FirstRefused(old(seatIds[..]), old(indices), seats, oneBased, k)
                                     && Grown(old(indices), indices, seats, oneBased, k)
    {
      for k := 0 to |seats|
        invariant Valid() && Busy() == old(Busy())
        invariant Compatible(old(seatIds[..]), old(indices), seats, oneBased, k)
        invariant Grown(old(indices), indices, seats, oneBased, k)
      {
        CompatibleOneMore(old(seatIds[..]), old(indices), seatIds[..], indices, gates[..], seats, oneBased, k);
        var one := RegisterSeat(seats[k], oneBased[k]);
        if one.Err? {
          assert FirstRefused(old(seatIds[..]), old(indices), seats, oneBased, k);
          return Err(one.error);
        }
      }
      return Ok(());
    }

    /** A gate admits one request until it is cleared. */
    method TryAdmit(seat: int) returns (won: bool)
      requires Valid() && seat in indices
      modifies gates
      ensures Valid() && won == (seat !in old(Busy())) && Busy() == old(Busy()) + {seat}
    {
      var index := indices[seat];
      GateMoves(seatIds[..], gates[..], indices, seat, Processing);
      ghost var was := gates[..];
      won := gates[index] == Available;
      if won {
        gates[index] := Processing;
      }
      assert gates[..] == was[index := Processing];
    }

    method ClearSeat(seat: int)
      requires Valid()
      modifies gates
      ensures Valid() && Busy() == old(Busy()) - {seat}
    {
      if seat in indices {
        GateMoves(seatIds[..], gates[..], indices, seat, Available);
        ghost var was := gates[..];
        gates[indices[seat]] := Available;
        assert gates[..] == was[indices[seat] := Available];
      }
    }

    method AdmitAll(seats: seq<int>) returns (admitted: seq<int>, failed: seq<int>)
      requires Valid() && forall k :: 0 <= k < |seats| ==> seats[k] in indices
      modifies gates
      ensures Valid()
      ensures admitted == Admission(seats, old(Busy()))
      ensures multiset(admitted) + multiset(failed) == multiset(seats)
      ensures Busy() == old(Busy()) + Elements(admitted)
    {
      ghost var busy := Busy();
      admitted, failed := [], [];
      for k := 0 to |seats|
        invariant Valid()
        invariant admitted == Admission(seats[..k], busy) && failed == Turned(seats[..k], busy)
        invariant Busy() == busy + Elements(admitted)
      {
        assert seats[..k + 1][..k] == seats[..k];
        AppendElements(admitted, seats[k]);
        var won := TryAdmit(seats[k]);
        if won {
          admitted := admitted + [seats[k]];
        } else {
          failed := failed + [seats[k]];
        }
      }
      assert seats[..|seats|] == seats;
      AdmissionPartitions(seats, busy);
    }

    /** Opens the gates of the seats that are known here; others are ignored. */
    method ClearAdmission(seats: seq<int>)
      requires Valid()
      modifies gates
      ensures Valid() && Busy() == old(Busy()) - Elements(seats)
    {
      ghost var busy := Busy();
      for k := 0 to |seats|
        invariant Valid() && Busy() == busy - Elements(seats[..k])
      {
        assert seats[..k + 1] == seats[..k] + [seats[k]];
        AppendElements(seats[..k], seats[k]);
        ClearSeat(seats[k]);
      }
      assert seats[..|seats|] == seats;
    }

    /** The actor's side: one lock attempt per admitted seat. */
    static method AcquireAll(seats: seq<int>, acquires: nat -> bool) returns (r: LockResult)
      ensures r.locked == Acquired(seats, acquires)
      ensures multiset(r.locked) + multiset(r.failed) == multiset(seats)
    {
      var locked, failed := [], [];
      for k := 0 to |seats|
        invariant locked == Acquired(seats[..k], acquires) && failed == NotAcquired(seats[..k], acquires)
      {
        assert seats[..k + 1][..k] == seats[..k];
        if acquires(k) {
          locked := locked + [seats[k]];
        } else {
          failed := failed + [seats[k]];
        }
      }
      assert seats[..|seats|] == seats;
      AcquisitionPartitions(seats, acquires);
      r := LockResult(locked, failed);
    }

    /** From the queue to the answer, for the admitted seats. */
    method Dispatch(admitted: seq<int>, failed: seq<int>, outcome: Outcome) returns (r: LockResult)
      requires Valid() && forall i, j :: 0 <= i < j < |admitted| ==> admitted[i] != admitted[j]
      modifies gates
      ensures Valid()
      ensures r.locked == if outcome.Answered? then Acquired(admitted, outcome.acquires) else []
      ensures multiset(r.locked) + multiset(r.failed) == multiset(admitted) + multiset(failed)
      ensures Busy() == old(Busy()) - (Elements(admitted) - Elements(r.locked))
    {
      ConcatCounts(failed, admitted);
      if outcome.QueueFull? {
        ClearAdmission(admitted);
        return LockResult([], failed + admitted);
      }
      var result := LockResult([], admitted);
      if outcome.ReplyLost? {
        ClearAdmission(admitted);   // by the actor, before the panic travels on
      } else {
        result := AcquireAll(admitted, outcome.acquires);
        PartsOfDistinct(admitted, result.locked, result.failed);
      }
      ClearAdmission(result.failed);
      ConcatCounts(result.failed, failed);
      return LockResult(result.locked, result.failed + failed);
    }

    /**
     * The `lock` request on a mapped actor. Every seat of the request comes back
     * exactly once, as locked or as failed, duplicates included; the gates that
     * end up taken are those taken before and those of the locked seats; and a
     * refused request moves no gate.
     */
    method Lock(seats: seq<int>, oneBased: seq<int>, totalSeatCount: int, outcome: Outcome)
      returns (r: Result<LockResult, Error>)
      requires Valid()
      modifies this, seatIds, gates
      ensures Valid() && inFlight == old(inFlight) && closing == old(closing)
      ensures r.Ok? ==> r.value.locked == LockedSeats(seats, old(Busy()), outcome)
      ensures r.Ok? ==> multiset(r.value.locked) + multiset(r.value.failed) == multiset(seats)
      ensures r.Ok? ==> Busy() == old(Busy()) + Elements(r.value.locked)
      ensures r.Ok? <==> |seats| == |oneBased| && 0 < totalSeatCount <= 200_000 && totalSeatCount == seatIds.Length
                         && !old(closing) && Compatible(old(seatIds[..]), old(indices), seats, oneBased, |seats|)
      ensures r.Ok? ==> Grown(old(indices), indices, seats, oneBased, |seats|)
      ensures r.Err? ==> Busy() == old(Busy())
    {
      if |seats| != |oneBased| {
        return Err(LengthMismatch);
      }
      if totalSeatCount <= 0 || totalSeatCount > MAX_SEATS_PER_SHOW {
        return Err(SeatCountOutside);
      }
      if seatIds.Length != totalSeatCount {
        return Err(SeatCountMismatch);
      }
      if closing {
        return Err(Closing);
      }
      inFlight := inFlight + 1;
      var registered := RegisterAll(seats, oneBased);
      if registered.Err? {
        inFlight := inFlight - 1;
        return Err(registered.error);
      }
      ghost var busy := Busy();
      var admitted, failed := AdmitAll(seats);
      AdmissionIs(seats, busy);
      var answer := LockResult([], failed);
      if admitted != [] {
        answer := Dispatch(admitted, failed, outcome);
        LockedWereAdmitted(admitted, outcome);
        assert (busy + Elements(admitted)) - (Elements(admitted) - Elements(answer.locked)) == busy + Elements(answer.locked);
      }
      inFlight := inFlight - 1;
      return Ok(answer);
    }
  }

  lemma LockedWereAdmitted(admitted: seq<int>, outcome: Outcome)
    ensures var locked := if outcome.Answered? then Acquired(admitted, outcome.acquires) else [];
            Elements(locked) <= Elements(admitted)
  {
    if outcome.Answered? {
      AcquiredIs(admitted, outcome.acquires);
      forall s | s in Elements(Acquired(admitted, outcome.acquires))
        ensures s in Elements(admitted)
      {
      }
    }
  }
}
