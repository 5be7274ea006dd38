/**
 * One logical seat-lock store: what the Lua scripts and commands of the lock
 * library do to the lock keys, the context keys, the three sorted sets and the
 * two-bit seat cells, each call one atomic step at a given time.
 *
 * A key with a time to live is kept with the time at which it lapses and is
 * visible before that time only. Members of the sorted sets name a seat and a
 * user (the schedule being part of the set's key), so all three are maps from
 * such claims to scores.
 */
module SeatLockStore {
  import opened Wrappers

  datatype Seat = Seat(schedule: int, id: nat)
  datatype Claim = Claim(seat: Seat, user: int)
  datatype Lease = Lease(user: int, until: int)
  datatype Cell = Free | Locked | Booked

  type Ttl = t: int | t > 0 witness 300

  const LOCK_TTL: Ttl := 300
  const GRACE := 15

  /** The part that is replicated to every node. */
  datatype Shared = Shared(
    userLocks: map<Claim, int>,
    roomLocks: map<Claim, int>,
    queue: map<Claim, int>,
    cells: map<Seat, Cell>)

  datatype Store = Store(owners: map<Seat, Lease>, contexts: map<Claim, int>, shared: Shared)

  datatype Op =
    | Acquire(c: Claim, ttl: Ttl)         // acquire_seat_lock_lua
    | AcquireKey(c: Claim, ttl: Ttl)      // acquire_lock
    | Metadata(c: Claim, ttl: Ttl)        // update_seat_metadata_lua, one seat
    | Release(c: Claim)
    | ReleaseExpired(c: Claim)
    | Book(c: Claim)
    | ForceBook(c: Claim)

  datatype Event = At(now: int, op: Op)

  const EMPTY := Store(map[], map[], Shared(map[], map[], map[], map[]))

  function CellOf(cells: map<Seat, Cell>, seat: Seat): Cell {
    if seat in cells then cells[seat] else Free
  }

  predicate Live(s: Store, seat: Seat, now: int) {
    seat in s.owners && now < s.owners[seat].until
  }

  /** No live lock, or the user's own. */
  predicate MayTake(s: Store, c: Claim, now: int) {
    Live(s, c.seat, now) ==> s.owners[c.seat].user == c.user
  }

  function LockShared(h: Shared, c: Claim, expiry: int): Shared {
    Shared(h.userLocks[c := expiry], h.roomLocks[c := expiry], h.queue[c := expiry + GRACE], h.cells[c.seat := Locked])
  }

  function ClearShared(h: Shared, c: Claim, cell: Cell): Shared {
    Shared(h.userLocks - {c}, h.roomLocks - {c}, h.queue - {c}, h.cells[c.seat := cell])
  }

  /** The two deletions the scripts make when the caller may take the lock. */
  function DropKeys(s: Store, c: Claim, now: int): Store {
    if MayTake(s, c, now) then s.(owners := s.owners - {c.seat}, contexts := s.contexts - {c}) else s
  }

  function Apply(s: Store, now: int, op: Op): Store {
    match op
    case Acquire(c, ttl) =>
      if MayTake(s, c, now) then
        Store(s.owners[c.seat := Lease(c.user, now + ttl)], s.contexts[c := now + ttl],
              LockShared(s.shared, c, now + ttl))
      else s
    case AcquireKey(c, ttl) =>
      if MayTake(s, c, now) then s.(owners := s.owners[c.seat := Lease(c.user, now + ttl)]) else s
    case Metadata(c, ttl) => s.(shared := LockShared(s.shared, c, now + ttl))
    case Release(c) =>
      if MayTake(s, c, now) then DropKeys(s, c, now).(shared := ClearShared(s.shared, c, Free)) else s
    case ReleaseExpired(c) => DropKeys(s, c, now).(shared := ClearShared(s.shared, c, Free))
    case Book(c) =>
      if MayTake(s, c, now) then DropKeys(s, c, now).(shared := ClearShared(s.shared, c, Booked)) else s
    case ForceBook(c) => DropKeys(s, c, now).(shared := ClearShared(s.shared, c, Booked))
  }

  /** The Boolean a call returns; metadata updates and forced bookings always go through. */
  function Succeeds(s: Store, now: int, op: Op): bool {
    op.Metadata? || op.ForceBook? || MayTake(s, op.c, now)
  }

  function Exec(s: Store, run: seq<Event>): Store {
    if run == [] then s
    else
      var last := run[|run| - 1];
      Apply(Exec(s, run[..|run| - 1]), last.now, last.op)
  }

  ghost predicate Monotone(run: seq<Event>) {
    forall i, j :: 0 <= i < j < |run| ==> run[i].now <= run[j].now
  }

  // -------------------------------------------------------- mutual exclusion

  /** The k-th call is a successful acquisition, on either path, of this claim. */
  predicate Acquires(s: Store, run: seq<Event>, k: nat, c: Claim)
    requires k < |run|
  {
    && (run[k].op.Acquire? || run[k].op.AcquireKey?)
    && run[k].op.c == c
    && Succeeds(Exec(s, run[..k]), run[k].now, run[k].op)
  }

  predicate Removes(ev: Event, c: Claim) {
    (ev.op.Release? || ev.op.ReleaseExpired? || ev.op.Book? || ev.op.ForceBook?) && ev.op.c == c
  }

  ghost predicate RemovedBetween(run: seq<Event>, c: Claim, i: int, m: int) {
    exists k :: 0 <= i < k < m <= |run| && Removes(run[k], c)
  }

  function Until(ev: Event): int {
    if ev.op.Acquire? || ev.op.AcquireKey? then ev.now + ev.op.ttl else ev.now
  }

  /** One of the claim's acquisitions from the i-th call on had lapsed when the p-th call came. */
  ghost predicate LapsedAt(s: Store, run: seq<Event>, c: Claim, i: nat, p: nat)
    requires p < |run|
  {
    exists k :: i <= k < p && Acquires(s, run, k, c) && Until(run[k]) <= run[p].now
  }

  ghost predicate LapsedBefore(s: Store, run: seq<Event>, c: Claim, i: nat, m: nat)
    requires m <= |run|
  {
    exists p: nat :: p < m && LapsedAt(s, run, c, i, p)
  }

  /** The claim still owns the key, by the latest of its acquisitions from i on. */
  ghost predicate StillOwned(s: Store, run: seq<Event>, c: Claim, i: nat, m: nat)
    requires m <= |run|
  {
    exists k :: i <= k < m && OwnedSince(s, run, c, k, m)
  }

  /** The claim owns the key by the k-th call, the latest before m by which it acquired it. */
  predicate OwnedSince(s: Store, run: seq<Event>, c: Claim, k: nat, m: nat)
    requires k < m <= |run|
  {
    && Acquires(s, run, k, c) && (forall j: nat :: k < j < m ==> !Acquires(s, run, j, c))
    && c.seat in Exec(s, run[..m]).owners
    && Exec(s, run[..m]).owners[c.seat] == Lease(c.user, Until(run[k]))
  }

  lemma OwnedStep(s: Store, run: seq<Event>, c: Claim, i: nat, m: nat)
    requires m < |run| && StillOwned(s, run, c, i, m)
    ensures || StillOwned(s, run, c, i, m + 1)
            || LapsedAt(s, run, c, i, m)
            || (Removes(run[m], c) && i < m)
  {
    var k :| i <= k < m && OwnedSince(s, run, c, k, m);
    var before := Exec(s, run[..m]);
    assert run[..m + 1][..m] == run[..m];
    assert Exec(s, run[..m + 1]) == Apply(before, run[m].now, run[m].op);
    if Until(run[k]) <= run[m].now {
      assert LapsedAt(s, run, c, i, m);
    } else {
      assert Live(before, c.seat, run[m].now);
      if run[m].op.c == c && (run[m].op.Acquire? || run[m].op.AcquireKey?) {
        assert OwnedSince(s, run, c, m, m + 1);
      } else if !Removes(run[m], c) {
        assert OwnedSince(s, run, c, k, m + 1);
      }
    }
  }

  lemma {:induction false} OwnedUntil(s: Store, run: seq<Event>, c: Claim, i: nat, m: nat)
    requires i < m <= |run| && Acquires(s, run, i, c)
    ensures StillOwned(s, run, c, i, m) || LapsedBefore(s, run, c, i, m) || RemovedBetween(run, c, i, m)
    decreases m
  {
    if m == i + 1 {
      assert run[..m][..i] == run[..i];
      assert Exec(s, run[..m]) == Apply(Exec(s, run[..i]), run[i].now, run[i].op);
      assert OwnedSince(s, run, c, i, m);
    } else {
      OwnedUntil(s, run, c, i, m - 1);
      if StillOwned(s, run, c, i, m - 1) {
        OwnedStep(s, run, c, i, m - 1);
      }
    }
  }

  /** No call for another claim, release or booking or acquisition, touches a live lock of a
      user or the context key beside it. */
  lemma OthersLeaveLock(s: Store, now: int, op: Op, seat: Seat)
    requires Live(s, seat, now) && op.c != Claim(seat, s.owners[seat].user)
    ensures var s' := Apply(s, now, op);
            var c := Claim(seat, s.owners[seat].user);
            && seat in s'.owners && s'.owners[seat] == s.owners[seat]
            && (c in s'.contexts <==> c in s.contexts) && (c in s.contexts ==> s'.contexts[c] == s.contexts[c])
  {
  }

  /**
   * Two users never both hold a seat: between an acquisition by one and an
   * acquisition by another lies a release or booking of the first claim, or an
   * acquisition of that claim has lapsed.
   */
  lemma MutualExclusion(s: Store, run: seq<Event>, seat: Seat, u: int, v: int, i: nat, j: nat)
    requires Monotone(run) && i < j < |run| && u != v
    requires Acquires(s, run, i, Claim(seat, u)) && Acquires(s, run, j, Claim(seat, v))
    ensures RemovedBetween(run, Claim(seat, u), i, j) || LapsedAt(s, run, Claim(seat, u), i, j)
  {
    var c := Claim(seat, u);
    OwnedUntil(s, run, c, i, j);
    if LapsedBefore(s, run, c, i, j) {
      var p: nat :| p < j && LapsedAt(s, run, c, i, p);
      var k :| i <= k < p && Acquires(s, run, k, c) && Until(run[k]) <= run[p].now;
      assert run[p].now <= run[j].now;
    }
  }

  ghost predicate ConstantTtl(run: seq<Event>) {
    forall k :: 0 <= k < |run| && (run[k].op.Acquire? || run[k].op.AcquireKey?) ==> run[k].op.ttl == LOCK_TTL
  }

  /** With the one TTL the services use, a seat not released stays with its user for the full TTL. */
  lemma HeldForTheTtl(s: Store, run: seq<Event>, seat: Seat, u: int, v: int, i: nat, j: nat)
    requires Monotone(run) && ConstantTtl(run) && i < j < |run| && u != v
    requires Acquires(s, run, i, Claim(seat, u)) && Acquires(s, run, j, Claim(seat, v))
    requires !RemovedBetween(run, Claim(seat, u), i, j)
    ensures run[j].now >= run[i].now + 300
  {
    MutualExclusion(s, run, seat, u, v, i, j);
    var k :| i <= k < j && Acquires(s, run, k, Claim(seat, u)) && Until(run[k]) <= run[j].now;
    assert i < k ==> run[i].now <= run[k].now;
  }

  // --------------------------------------------------------- who holds a lock

  /** A release or booking whose claim may take the seat leaves no lock and no context key of it, so
      that anyone may acquire the seat; one whose claim may not leaves the keys as they were. */
  lemma RemovalFrees(s: Store, now: int, op: Op, user: int)
    requires op.Release? || op.ReleaseExpired? || op.Book? || op.ForceBook?
    ensures var s' := Apply(s, now, op);
            if Live(s, op.c.seat, now) && s.owners[op.c.seat].user != op.c.user then
              s'.owners == s.owners && s'.contexts == s.contexts
            else
              && op.c.seat !in s'.owners && op.c !in s'.contexts && MayTake(s', Claim(op.c.seat, user), now)
              && (forall seat :: seat != op.c.seat ==> (seat in s'.owners <==> seat in s.owners))
  {
  }

  /** By the first n calls and this time, the claim's latest successful acquisition has neither
      been removed nor lapsed. */
  ghost predicate HeldBy(run: seq<Event>, c: Claim, n: nat, now: int)
    requires n <= |run|
  {
    exists k: nat :: k < n && HeldSince(run, c, k, n) && now < Until(run[k])
  }

  /** The k-th call is the claim's latest acquisition among the first n, and not removed since. */
  ghost predicate HeldSince(run: seq<Event>, c: Claim, k: nat, n: nat)
    requires k < n <= |run|
  {
    && Acquires(EMPTY, run, k, c)
    && (forall j: nat :: k < j < n ==> !Acquires(EMPTY, run, j, c) && !Removes(run[j], c))
  }

  /** What a call does to the lock key of a seat. */
  lemma OwnersAfter(s: Store, now: int, op: Op, seat: Seat)
    ensures var s' := Apply(s, now, op);
            if seat == op.c.seat && (op.Acquire? || op.AcquireKey?) && MayTake(s, op.c, now) then
              seat in s'.owners && s'.owners[seat] == Lease(op.c.user, now + op.ttl)
            else if seat == op.c.seat && Removes(At(now, op), op.c) && MayTake(s, op.c, now) then seat !in s'.owners
            else (seat in s'.owners <==> seat in s.owners) && (seat in s.owners ==> s'.owners[seat] == s.owners[seat])
  {
  }

  /** A stored lock key comes from its user's latest acquisition, not removed since. */
  lemma {:induction false} StoredSince(run: seq<Event>, n: nat, seat: Seat)
    requires n <= |run| && seat in Exec(EMPTY, run[..n]).owners
    ensures var lease := Exec(EMPTY, run[..n]).owners[seat];
            exists k: nat :: k < n && HeldSince(run, Claim(seat, lease.user), k, n) && lease.until == Until(run[k])
    decreases n
  {
    if n > 0 {
      var m := n - 1;
      var s, ev := Exec(EMPTY, run[..m]), run[m];
      assert run[..n][..m] == run[..m];
      OwnersAfter(s, ev.now, ev.op, seat);
      var lease := Exec(EMPTY, run[..n]).owners[seat];
      var c := Claim(seat, lease.user);
      if Acquires(EMPTY, run, m, c) {
        assert HeldSince(run, c, m, n) && lease.until == Until(run[m]);
      } else {
        StoredSince(run, m, seat);
        var k: nat :| k < m && HeldSince(run, c, k, m) && lease.until == Until(run[k]);
        assert HeldSince(run, c, k, n);
      }
    }
  }

  /** And until that lapses, it is stored. */
  lemma {:induction false} HeldIsStored(run: seq<Event>, c: Claim, k: nat, n: nat, now: int)
    requires Monotone(run) && k < n <= |run| && HeldSince(run, c, k, n) && now < Until(run[k])
    requires forall j :: 0 <= j < n ==> run[j].now <= now
    ensures c.seat in Exec(EMPTY, run[..n]).owners && Exec(EMPTY, run[..n]).owners[c.seat] == Lease(c.user, Until(run[k]))
    decreases n
  {
    var m := n - 1;
    var s, ev := Exec(EMPTY, run[..m]), run[m];
    assert run[..n][..m] == run[..m];
    OwnersAfter(s, ev.now, ev.op, c.seat);
    if k < m {
      assert HeldSince(run, c, k, m);
      HeldIsStored(run, c, k, m, now);
      assert Live(s, c.seat, ev.now);
    }
  }

  /** Over every run from an empty store: a user's lock is live if and only if the user's latest
      successful acquisition has neither been removed nor lapsed. */
  lemma LiveLockIff(run: seq<Event>, seat: Seat, user: int, n: nat, now: int)
    requires Monotone(run) && n <= |run| && forall j :: 0 <= j < n ==> run[j].now <= now
    ensures var s := Exec(EMPTY, run[..n]);
            (Live(s, seat, now) && s.owners[seat].user == user) <==> HeldBy(run, Claim(seat, user), n, now)
  {
    var s := Exec(EMPTY, run[..n]);
    if Live(s, seat, now) && s.owners[seat].user == user {
      StoredSince(run, n, seat);
    }
    if HeldBy(run, Claim(seat, user), n, now) {
      var k: nat :| k < n && HeldSince(run, Claim(seat, user), k, n) && now < Until(run[k]);
      HeldIsStored(run, Claim(seat, user), k, n, now);
    }
  }

  /** The converse of mutual exclusion: an acquisition, on either path, is refused if and only if
      another user's latest acquisition of the seat has neither been removed nor lapsed. */
  lemma RefusedIff(run: seq<Event>, k: nat)
    requires Monotone(run) && k < |run| && (run[k].op.Acquire? || run[k].op.AcquireKey?)
    ensures !Succeeds(Exec(EMPTY, run[..k]), run[k].now, run[k].op)
            <==> exists u :: u != run[k].op.c.user && HeldBy(run, Claim(run[k].op.c.seat, u), k, run[k].now)
  {
    var s, seat := Exec(EMPTY, run[..k]), run[k].op.c.seat;
    if Live(s, seat, run[k].now) {
      LiveLockIff(run, seat, s.owners[seat].user, k, run[k].now);
    }
    if u :| u != run[k].op.c.user && HeldBy(run, Claim(seat, u), k, run[k].now) {
      LiveLockIff(run, seat, u, k, run[k].now);
    }
  }

  // ------------------------------------------------------------ context keys

  /** A visible context key means that the user owns the lock, for at least as long. */
  ghost predicate ContextsBacked(s: Store, now: int) {
    forall c :: c in s.contexts && now < s.contexts[c] ==>
      c.seat in s.owners && s.owners[c.seat].user == c.user && s.contexts[c] <= s.owners[c.seat].until
  }

  /** Extending a bare lock key would let it lapse before the caller's context key. */
  predicate Shortens(s: Store, now: int, op: Op) {
    && op.AcquireKey? && MayTake(s, op.c, now)
    && op.c in s.contexts && now < s.contexts[op.c]
    && now + op.ttl < s.contexts[op.c]
  }

  lemma ContextsLater(s: Store, now: int, later: int)
    requires ContextsBacked(s, now) && now <= later
    ensures ContextsBacked(s, later)
  {
  }

  /** Every call keeps context keys backed, except a bare acquisition with too short a TTL. */
  lemma ContextStepIff(s: Store, now: int, op: Op)
    requires ContextsBacked(s, now)
    ensures ContextsBacked(Apply(s, now, op), now) <==> !Shortens(s, now, op)
  {
    if Shortens(s, now, op) {
      ShorteningUnbacks(s, now, op);
    } else {
      var s' := Apply(s, now, op);
      forall c | c in s'.contexts && now < s'.contexts[c]
        ensures c.seat in s'.owners && s'.owners[c.seat].user == c.user && s'.contexts[c] <= s'.owners[c.seat].until
      {
        if c != op.c { OtherContextStep(s, now, op, c); } else { OwnContextStep(s, now, op); }
      }
    }
  }

  lemma ShorteningUnbacks(s: Store, now: int, op: Op)
    requires Shortens(s, now, op)
    ensures !ContextsBacked(Apply(s, now, op), now)
  {
    var s' := Apply(s, now, op);
    assert op.c in s'.contexts && s'.contexts[op.c] > s'.owners[op.c.seat].until;
  }

  lemma OtherContextStep(s: Store, now: int, op: Op, c: Claim)
    requires ContextsBacked(s, now) && c != op.c
    requires c in Apply(s, now, op).contexts && now < Apply(s, now, op).contexts[c]
    ensures var s' := Apply(s, now, op);
            c.seat in s'.owners && s'.owners[c.seat].user == c.user && s'.contexts[c] <= s'.owners[c.seat].until
  {
    assert c in s.contexts && now < s.contexts[c];
    assert Live(s, c.seat, now);
  }

  lemma OwnContextStep(s: Store, now: int, op: Op)
    requires ContextsBacked(s, now) && !Shortens(s, now, op)
    requires op.c in Apply(s, now, op).contexts && now < Apply(s, now, op).contexts[op.c]
    ensures var s' := Apply(s, now, op);
            op.c.seat in s'.owners && s'.owners[op.c.seat].user == op.c.user && s'.contexts[op.c] <= s'.owners[op.c.seat].until
  {
  }

  ghost predicate ContextsWithin(s: Store, now: int) {
    forall c :: c in s.contexts ==> s.contexts[c] <= now + LOCK_TTL
  }

  lemma WithinStep(s: Store, was: int, now: int, op: Op)
    requires ContextsWithin(s, was) && was <= now
    requires op.Acquire? ==> op.ttl == LOCK_TTL
    ensures ContextsWithin(Apply(s, now, op), now)
  {
  }

  lemma NoShortening(s: Store, was: int, now: int, op: Op)
    requires ContextsWithin(s, was) && was <= now
    requires op.AcquireKey? ==> op.ttl == LOCK_TTL
    ensures !Shortens(s, now, op)
  {
  }

  lemma {:induction false} ContextsBackedInRuns(run: seq<Event>)
    requires Monotone(run) && ConstantTtl(run)
    ensures run != [] ==> ContextsBacked(Exec(EMPTY, run), run[|run| - 1].now)
                          && ContextsWithin(Exec(EMPTY, run), run[|run| - 1].now)
  {
    if run != [] {
      var n := |run| - 1;
      var s := Exec(EMPTY, run[..n]);
      ContextsBackedInRuns(run[..n]);
      var was := if n > 0 then run[n - 1].now else run[n].now;
      assert run[..n] != [] ==> run[..n][n - 1] == run[n - 1];
      ContextsLater(s, was, run[n].now);
      NoShortening(s, was, run[n].now, run[n].op);
      ContextStepIff(s, run[n].now, run[n].op);
      WithinStep(s, was, run[n].now, run[n].op);
    }
  }

  /** What `user_holds_lock` reads off the context key is true of the lock key. */
  lemma UserHoldsLockSound(run: seq<Event>, c: Claim, now: int)
    requires Monotone(run) && ConstantTtl(run)
    requires run != [] && run[|run| - 1].now <= now
    requires c in Exec(EMPTY, run).contexts && now < Exec(EMPTY, run).contexts[c]
    ensures var s := Exec(EMPTY, run);
            Live(s, c.seat, now) && s.owners[c.seat].user == c.user
  {
    ContextsBackedInRuns(run);
    ContextsLater(Exec(EMPTY, run), run[|run| - 1].now, now);
  }

  /** The owner of every live lock has a context key that lasts at least as long. */
  ghost predicate LocksHaveContexts(s: Store, now: int) {
    forall seat :: Live(s, seat, now) ==>
      var c := Claim(seat, s.owners[seat].user);
      c in s.contexts && s.owners[seat].until <= s.contexts[c]
  }

  /** A bare acquisition by a user without a context key that lasts as long. */
  predicate LeavesBare(s: Store, now: int, op: Op) {
    op.AcquireKey? && MayTake(s, op.c, now) && !(op.c in s.contexts && now + op.ttl <= s.contexts[op.c])
  }

  /** Every call keeps live locks provided with context keys, except exactly such an acquisition. */
  lemma LockContextStepIff(s: Store, now: int, op: Op)
    requires LocksHaveContexts(s, now)
    ensures LocksHaveContexts(Apply(s, now, op), now) <==> !LeavesBare(s, now, op)
  {
    var s' := Apply(s, now, op);
    if LeavesBare(s, now, op) {
      assert Live(s', op.c.seat, now) && s'.owners[op.c.seat].user == op.c.user;
    } else {
      forall seat | Live(s', seat, now)
        ensures var c := Claim(seat, s'.owners[seat].user); c in s'.contexts && s'.owners[seat].until <= s'.contexts[c]
      {
        if seat != op.c.seat {
          assert Live(s, seat, now);
        }
      }
    }
  }

  /** Live locks have their context keys after the first n calls. */
  ghost predicate PairedAfter(run: seq<Event>, n: nat)
    requires n <= |run|
  {
    n > 0 ==> LocksHaveContexts(Exec(EMPTY, run[..n]), run[n - 1].now)
  }

  predicate BareAt(run: seq<Event>, k: nat)
    requires k < |run|
  {
    LeavesBare(Exec(EMPTY, run[..k]), run[k].now, run[k].op)
  }

  lemma PairedStep(run: seq<Event>, k: nat)
    requires Monotone(run) && k < |run| && PairedAfter(run, k)
    ensures PairedAfter(run, k + 1) <==> !BareAt(run, k)
  {
    var s := Exec(EMPTY, run[..k]);
    assert LocksHaveContexts(s, run[k].now);
    LockContextStepIff(s, run[k].now, run[k].op);
    assert run[..k + 1][..k] == run[..k];
  }

  lemma {:induction false} PairedUpTo(run: seq<Event>, n: nat)
    requires Monotone(run) && n <= |run| && forall k: nat :: k < n ==> !BareAt(run, k)
    ensures PairedAfter(run, n)
  {
    if n > 0 {
      PairedUpTo(run, n - 1);
      PairedStep(run, n - 1);
    }
  }

  /** The least such run: one bare acquisition. */
  lemma BareLockHasNoContext()
    ensures var s := Apply(EMPTY, 0, AcquireKey(Claim(Seat(1, 1), 7), LOCK_TTL));
            Live(s, Seat(1, 1), 0) && Claim(Seat(1, 1), 7) !in s.contexts
  {
  }

  /** So over any run from an empty store, live locks always have their context keys if and only
      if no call was such an acquisition. */
  lemma LocksHaveContextsIff(run: seq<Event>)
    requires Monotone(run)
    ensures (forall n: nat :: n <= |run| ==> PairedAfter(run, n)) <==> (forall k: nat :: k < |run| ==> !BareAt(run, k))
  {
    if forall n: nat :: n <= |run| ==> PairedAfter(run, n) {
      forall k: nat | k < |run|
        ensures !BareAt(run, k)
      {
        assert PairedAfter(run, k) && PairedAfter(run, k + 1);
        PairedStep(run, k);
      }
    }
    if forall k: nat :: k < |run| ==> !BareAt(run, k) {
      forall n: nat | n <= |run|
        ensures PairedAfter(run, n)
      {
        PairedUpTo(run, n);
      }
    }
  }

  ghost predicate NoBareAcquisition(run: seq<Event>) {
    forall k :: 0 <= k < |run| ==> !run[k].op.AcquireKey?
  }

  lemma {:induction false} LuaRunsPaired(run: seq<Event>, now: int)
    requires Monotone(run) && NoBareAcquisition(run) && forall k :: 0 <= k < |run| ==> run[k].now <= now
    ensures ContextsBacked(Exec(EMPTY, run), now) && LocksHaveContexts(Exec(EMPTY, run), now)
  {
    if run != [] {
      var n := |run| - 1;
      var s := Exec(EMPTY, run[..n]);
      LuaRunsPaired(run[..n], run[n].now);
      ContextStepIff(s, run[n].now, run[n].op);
      LockContextStepIff(s, run[n].now, run[n].op);
      ContextsLater(Exec(EMPTY, run), run[n].now, now);
    }
  }

  /** With Lua acquisitions alone, `user_holds_lock` answers yes if and only if the user owns the live lock. */
  lemma {:induction false} UserHoldsLockIff(run: seq<Event>, c: Claim, now: int)
    requires Monotone(run) && NoBareAcquisition(run) && forall k :: 0 <= k < |run| ==> run[k].now <= now
    ensures var s := Exec(EMPTY, run);
            (c in s.contexts && now < s.contexts[c]) <==> (Live(s, c.seat, now) && s.owners[c.seat].user == c.user)
  {
    LuaRunsPaired(run, now);
  }

  /** With bare acquisitions alone, the path the services take, it answers no to everyone. */
  lemma {:induction false} BareRunsHaveNoContexts(run: seq<Event>)
    requires forall k :: 0 <= k < |run| ==> !run[k].op.Acquire?
    ensures Exec(EMPTY, run).contexts == map[]
  {
    if run != [] {
      BareRunsHaveNoContexts(run[..|run| - 1]);
    }
  }

  /** The processor's look at a user's seats before a checkout: the first seat of which the user lacks
      the lock key or the context key. */
  method FirstSeatNotHeld(s: Store, now: int, seats: seq<Seat>, user: int) returns (missing: Option<Seat>)
    ensures missing.None? <==> forall k :: 0 <= k < |seats| ==> HoldsBothKeys(s, now, seats[k], user)
    ensures missing.Some? ==> exists k :: 0 <= k < |seats| && missing.value == seats[k] && !HoldsBothKeys(s, now, seats[k], user)
                                          && forall j :: 0 <= j < k ==> HoldsBothKeys(s, now, seats[j], user)
  {
    for k := 0 to |seats|
      invariant forall j :: 0 <= j < k ==> HoldsBothKeys(s, now, seats[j], user)
    {
      var seat := seats[k];
      if seat !in s.owners || now >= s.owners[seat].until {
        return Some(seat);
      }
      if s.owners[seat].user != user {
        return Some(seat);
      }
      if Claim(seat, user) !in s.contexts || now >= s.contexts[Claim(seat, user)] {
        return Some(seat);
      }
    }
    return None;
  }

  predicate HoldsBothKeys(s: Store, now: int, seat: Seat, user: int) {
    && Live(s, seat, now) && s.owners[seat].user == user
    && Claim(seat, user) in s.contexts && now < s.contexts[Claim(seat, user)]
  }

  /** With Lua acquisitions alone that look finds what the lock keys say; with bare ones alone it
      finds no seat held. */
  lemma CheckoutLookIs(run: seq<Event>, now: int, seat: Seat, user: int)
    requires Monotone(run) && forall k :: 0 <= k < |run| ==> run[k].now <= now
    ensures NoBareAcquisition(run) ==>
              (HoldsBothKeys(Exec(EMPTY, run), now, seat, user) <==> HeldBy(run, Claim(seat, user), |run|, now))
    ensures (forall k :: 0 <= k < |run| ==> !run[k].op.Acquire?) ==> !HoldsBothKeys(Exec(EMPTY, run), now, seat, user)
  {
    assert run[..|run|] == run;
    LiveLockIff(run, seat, user, |run|, now);
    if NoBareAcquisition(run) {
      UserHoldsLockIff(run, Claim(seat, user), now);
    }
    if forall k :: 0 <= k < |run| ==> !run[k].op.Acquire? {
      BareRunsHaveNoContexts(run);
    }
  }

  // -------------------------------------------- sets and cells against the history

  /** The call writes its claim's set members and its seat's cell. */
  predicate WritesSets(s: Store, now: int, op: Op) {
    match op
    case Acquire(_, _) => Succeeds(s, now, op)
    case AcquireKey(_, _) => false
    case Release(_) => Succeeds(s, now, op)
    case Book(_) => Succeeds(s, now, op)
    case _ => true
  }

  predicate Writes(run: seq<Event>, k: nat)
    requires k < |run|
  {
    WritesSets(Exec(EMPTY, run[..k]), run[k].now, run[k].op)
  }

  function LastOfClaim(run: seq<Event>, n: nat, c: Claim): Option<Event>
    requires n <= |run|
  {
    if n == 0 then None
    else if Writes(run, n - 1) && run[n - 1].op.c == c then Some(run[n - 1])
    else LastOfClaim(run, n - 1, c)
  }

  function LastOfSeat(run: seq<Event>, n: nat, seat: Seat): Option<Event>
    requires n <= |run|
  {
    if n == 0 then None
    else if Writes(run, n - 1) && run[n - 1].op.c.seat == seat then Some(run[n - 1])
    else LastOfSeat(run, n - 1, seat)
  }

  predicate Locking(ev: Option<Event>) {
    ev.Some? && (ev.value.op.Acquire? || ev.value.op.Metadata?)
  }

  predicate ListedAs(m: map<Claim, int>, c: Claim, ev: Option<Event>, extra: int) {
    && (c in m <==> Locking(ev))
    && (c in m ==> m[c] == ev.value.now + ev.value.op.ttl + extra)
  }

  ghost predicate SetsAre(h: Shared, c: Claim, ev: Option<Event>) {
    ListedAs(h.userLocks, c, ev, 0) && ListedAs(h.roomLocks, c, ev, 0) && ListedAs(h.queue, c, ev, 15)
  }

  predicate CellIs(h: Shared, seat: Seat, ev: Option<Event>) {
    && (CellOf(h.cells, seat) == Locked <==> Locking(ev))
    && (CellOf(h.cells, seat) == Booked <==> ev.Some? && (ev.value.op.Book? || ev.value.op.ForceBook?))
  }

  lemma SetsAfter(s: Store, now: int, op: Op, c: Claim, ev: Option<Event>)
    requires SetsAre(s.shared, c, ev)
    ensures SetsAre(Apply(s, now, op).shared, c, if WritesSets(s, now, op) && op.c == c then Some(At(now, op)) else ev)
  {
  }

  lemma CellAfter(s: Store, now: int, op: Op, seat: Seat, ev: Option<Event>)
    requires CellIs(s.shared, seat, ev)
    ensures CellIs(Apply(s, now, op).shared, seat, if WritesSets(s, now, op) && op.c.seat == seat then Some(At(now, op)) else ev)
  {
  }

  /** A claim is in all three sets exactly when the last call that wrote it was an acquisition or a
      metadata update, with that call's expiry for a score, and 15 seconds more in the queue. */
  lemma {:induction false} SetsAreHistory(run: seq<Event>, n: nat, c: Claim)
    requires n <= |run|
    ensures SetsAre(Exec(EMPTY, run[..n]).shared, c, LastOfClaim(run, n, c))
    decreases n
  {
    if n > 0 {
      SetsAreHistory(run, n - 1, c);
      assert run[..n][..n - 1] == run[..n - 1];
      SetsAfter(Exec(EMPTY, run[..n - 1]), run[n - 1].now, run[n - 1].op, c, LastOfClaim(run, n - 1, c));
    }
  }

  /** A seat's cell reads locked, booked or free as the last call that wrote it left it. */
  lemma {:induction false} CellIsHistory(run: seq<Event>, n: nat, seat: Seat)
    requires n <= |run|
    ensures CellIs(Exec(EMPTY, run[..n]).shared, seat, LastOfSeat(run, n, seat))
    decreases n
  {
    if n > 0 {
      CellIsHistory(run, n - 1, seat);
      assert run[..n][..n - 1] == run[..n - 1];
      CellAfter(Exec(EMPTY, run[..n - 1]), run[n - 1].now, run[n - 1].op, seat, LastOfSeat(run, n - 1, seat));
    }
  }

  // ------------------------------------------------- due entries and lapsed locks

  /** A queue entry of a lock's owner comes due 15 seconds after the lock lapses, or later. */
  ghost predicate QueueOutlasts(s: Store) {
    forall c :: c in s.shared.queue && c.seat in s.owners && s.owners[c.seat].user == c.user ==>
      s.owners[c.seat].until + 15 <= s.shared.queue[c]
  }

  /** A bare acquisition that outlives the claim's queue entry, or a metadata update that makes the
      entry come due too early for the lock. */
  predicate OutrunsQueue(s: Store, now: int, op: Op) {
    || (op.AcquireKey? && MayTake(s, op.c, now) && op.c in s.shared.queue && s.shared.queue[op.c] < now + op.ttl + 15)
    || (op.Metadata? && op.c.seat in s.owners && s.owners[op.c.seat].user == op.c.user && now + op.ttl < s.owners[op.c.seat].until)
  }

  lemma QueueOutlastsStepIff(s: Store, now: int, op: Op)
    requires QueueOutlasts(s)
    ensures QueueOutlasts(Apply(s, now, op)) <==> !OutrunsQueue(s, now, op)
  {
    var s' := Apply(s, now, op);
    if OutrunsQueue(s, now, op) {
      assert op.c in s'.shared.queue && s'.owners[op.c.seat].user == op.c.user;
    }
  }

  /** So while entries outlast locks, a claim whose entry is due has no live lock. */
  lemma DueEntryHasLapsed(s: Store, c: Claim, now: int)
    requires QueueOutlasts(s) && c in s.shared.queue && s.shared.queue[c] <= now
    ensures Live(s, c.seat, now) ==> s.owners[c.seat].user != c.user
  {
  }

  ghost predicate ConstantMetadata(run: seq<Event>) {
    forall k :: 0 <= k < |run| && run[k].op.Metadata? ==> run[k].op.ttl == LOCK_TTL
  }

  ghost predicate UntilWithin(s: Store, now: int) {
    forall seat :: seat in s.owners ==> s.owners[seat].until <= now + LOCK_TTL
  }

  /** With Lua acquisitions alone and one TTL, over every run the owner of a due entry has lost the lock. */
  lemma {:induction false} DueEntriesLapsedInRuns(run: seq<Event>, now: int)
    requires Monotone(run) && NoBareAcquisition(run) && ConstantTtl(run) && ConstantMetadata(run)
    requires forall k :: 0 <= k < |run| ==> run[k].now <= now
    ensures QueueOutlasts(Exec(EMPTY, run)) && UntilWithin(Exec(EMPTY, run), now)
  {
    if run != [] {
      var n := |run| - 1;
      var s := Exec(EMPTY, run[..n]);
      DueEntriesLapsedInRuns(run[..n], run[n].now);
      NothingOutruns(s, run[n].now, run[n].op);
      QueueOutlastsStepIff(s, run[n].now, run[n].op);
      UntilWithinStep(s, run[n].now, run[n].op);
    }
  }

  lemma NothingOutruns(s: Store, now: int, op: Op)
    requires UntilWithin(s, now) && !op.AcquireKey? && (op.Metadata? ==> op.ttl == LOCK_TTL)
    ensures !OutrunsQueue(s, now, op)
  {
  }

  lemma UntilWithinStep(s: Store, now: int, op: Op)
    requires UntilWithin(s, now) && !op.AcquireKey? && (op.Acquire? ==> op.ttl == LOCK_TTL)
    ensures UntilWithin(Apply(s, now, op), now)
  {
  }

  // ----------------------------------------------- locked cells and the queue

  ghost predicate Queued(h: Shared, seat: Seat) {
    exists u :: Claim(seat, u) in h.queue
  }

  /** A seat shown as locked has an entry in the delayed queue. */
  ghost predicate LockedCellsQueued(h: Shared) {
    forall seat :: CellOf(h.cells, seat) == Locked ==> Queued(h, seat)
  }

  lemma QueuedStep(s: Store, now: int, op: Op)
    requires LockedCellsQueued(s.shared)
    ensures LockedCellsQueued(Apply(s, now, op).shared)
  {
    var h, h' := s.shared, Apply(s, now, op).shared;
    forall seat | CellOf(h'.cells, seat) == Locked
      ensures Queued(h', seat)
    {
      if seat == op.c.seat && h' != h {
        assert Claim(seat, op.c.user) in h'.queue;
      } else {
        assert Queued(h, seat);
        var u :| Claim(seat, u) in h.queue;
        assert Claim(seat, u) in h'.queue;
      }
    }
  }

  lemma {:induction false} QueuedInRuns(run: seq<Event>)
    ensures LockedCellsQueued(Exec(EMPTY, run).shared)
  {
    if run != [] {
      QueuedInRuns(run[..|run| - 1]);
      QueuedStep(Exec(EMPTY, run[..|run| - 1]), run[|run| - 1].now, run[|run| - 1].op);
    }
  }

  /** The gateway's expiry worker also drops single queue entries (those whose seat another
      user owns); that keeps locked cells queued exactly when it is not a locked seat's only entry. */
  lemma DroppedEntryIff(h: Shared, c: Claim)
    requires LockedCellsQueued(h)
    ensures LockedCellsQueued(h.(queue := h.queue - {c})) <==>
            (CellOf(h.cells, c.seat) == Locked ==> exists u :: u != c.user && Claim(c.seat, u) in h.queue)
  {
    var h' := h.(queue := h.queue - {c});
    if CellOf(h.cells, c.seat) == Locked && LockedCellsQueued(h') {
      assert Queued(h', c.seat);
      var u :| Claim(c.seat, u) in h'.queue;
      assert u != c.user;
    }
    if CellOf(h.cells, c.seat) == Locked ==> exists u :: u != c.user && Claim(c.seat, u) in h.queue {
      forall seat | CellOf(h'.cells, seat) == Locked
        ensures Queued(h', seat)
      {
        if seat == c.seat {
          var u :| u != c.user && Claim(seat, u) in h.queue;
          assert Claim(seat, u) in h'.queue;
        } else {
          assert Queued(h, seat);
          var u :| Claim(seat, u) in h.queue;
          assert Claim(seat, u) in h'.queue;
        }
      }
    }
  }

  /** And it does happen on the path the services take: a lapsed lock is taken over by a bare
      acquisition, whose owner makes the worker drop the only entry of a cell that still reads
      locked before the new owner's metadata is written. */
  lemma OrphanedCell()
    ensures var c := Claim(Seat(1, 1), 7);
            var run := [At(0, AcquireKey(c, LOCK_TTL)), At(0, Metadata(c, LOCK_TTL)), At(400, AcquireKey(Claim(Seat(1, 1), 8), LOCK_TTL))];
            var s := Exec(EMPTY, run);
            && Live(s, c.seat, 400) && s.owners[c.seat].user != c.user
            && c in s.shared.queue && s.shared.queue[c] <= 400
            && !LockedCellsQueued(s.shared.(queue := s.shared.queue - {c}))
  {
    var c := Claim(Seat(1, 1), 7);
    var e0, e1, e2 := At(0, AcquireKey(c, LOCK_TTL)), At(0, Metadata(c, LOCK_TTL)), At(400, AcquireKey(Claim(Seat(1, 1), 8), LOCK_TTL));
    assert [e0, e1, e2][..2] == [e0, e1] && [e0, e1][..1] == [e0] && [e0][..0] == [];
    assert Exec(EMPTY, []) == EMPTY;
    var s0 := Exec(EMPTY, [e0]);
    assert s0 == Apply(EMPTY, 0, e0.op);
    var s1 := Exec(EMPTY, [e0, e1]);
    assert s1 == Apply(s0, 0, e1.op);
    var s := Exec(EMPTY, [e0, e1, e2]);
    assert s == Apply(s1, 400, e2.op);
    var h := s.shared.(queue := s.shared.queue - {c});
    assert h.queue == map[];
    assert CellOf(h.cells, c.seat) == Locked && !Queued(h, c.seat);
  }
}
