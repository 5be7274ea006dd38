/**
 * The lock library over several Redis nodes: a seat's lock and context keys
 * live on the node its CRC-16 names, the sorted sets and the bitmap are
 * written to every node. The cluster is proved to be one logical store
 * (SeatLockStore), and the layout updater's pass is run on it.
 */
module SeatLockCluster {
  import opened Wrappers
  import opened SeatLockStore
  import Crc16
  import Keys

  // ------------------------------------------------------------------ routing

  /** The k-th binary digit of a number, the lowest being the 0-th. */
  predicate Digit(v: nat, k: nat) {
    if k == 0 then v % 2 == 1 else Digit(v / 2, k - 1)
  }

  function AsciiByte(c: char): Crc16.Byte {
    seq(8, i requires 0 <= i < 8 => Digit(c as int, 7 - i))
  }

  function Ascii(s: string): seq<Crc16.Byte> {
    seq(|s|, i requires 0 <= i < |s| => AsciiByte(s[i]))
  }

  function WordValue(w: seq<bool>): nat {
    if w == [] then 0 else 2 * WordValue(w[..|w| - 1]) + (if w[|w| - 1] then 1 else 0)
  }

  function Route(seat: Seat, n: nat): (k: nat)
    requires n > 0
    ensures k < n
  {
    WordValue(Crc16.Crc(Ascii(Keys.Print(Keys.SeatLock(seat.schedule, seat.id))))) % n
  }

  function Pow2(n: nat): nat {
    if n == 0 then 1 else 2 * Pow2(n - 1)
  }

  /** v is the number with these binary digits, the highest first. */
  predicate IsNumber(w: seq<bool>, v: nat) {
    v < Pow2(|w|) && forall i :: 0 <= i < |w| ==> (w[i] <==> Digit(v, |w| - 1 - i))
  }

  lemma {:induction false} WordValueIsNumber(w: seq<bool>)
    ensures IsNumber(w, WordValue(w))
  {
    if w != [] {
      var n := |w| - 1;
      var v := WordValue(w);
      WordValueIsNumber(w[..n]);
      assert v / 2 == WordValue(w[..n]);
      forall i | 0 <= i < |w|
        ensures w[i] <==> Digit(v, n - i)
      {
        assert i < n ==> w[..n][i] == w[i];
      }
    }
  }

  /** Binary digits determine the number. */
  lemma {:induction false} NumberUnique(w: seq<bool>, v: nat)
    requires IsNumber(w, v)
    ensures v == WordValue(w)
  {
    if w != [] {
      var n := |w| - 1;
      assert v / 2 < Pow2(n);
      forall i | 0 <= i < n
        ensures w[..n][i] <==> Digit(v / 2, n - 1 - i)
      {
        assert w[i] <==> Digit(v, n - i);
      }
      NumberUnique(w[..n], v / 2);
      assert w[n] <==> Digit(v, 0);
    }
  }

  lemma SameNumberSameDigits(a: seq<bool>, b: seq<bool>, v: nat)
    requires |a| == |b| && IsNumber(a, v) && IsNumber(b, v)
    ensures a == b
  {
  }

  lemma AsciiByteIsNumber(c: char)
    requires c as int < 256
    ensures IsNumber(AsciiByte(c), c as int)
  {
    assert Pow2(8) == 256;
  }

  /** The bytes of a text: each has its character's code for a number. */
  predicate BytesOf(data: seq<Crc16.Byte>, text: string) {
    |data| == |text| && forall i :: 0 <= i < |text| ==> IsNumber(data[i], text[i] as int)
  }

  lemma KeyTextIsAscii(s: int, t: int)
    ensures forall c :: c in Keys.PrintInt(s) + ":" + Keys.PrintInt(t) ==> c as int < 128
  {
    Keys.PrintIntShape(s);
    Keys.PrintIntShape(t);
  }

  lemma BytesAreAscii(data: seq<Crc16.Byte>, text: string)
    requires BytesOf(data, text) && forall c :: c in text ==> c as int < 128
    ensures data == Ascii(text)
  {
    forall i | 0 <= i < |text|
      ensures data[i] == Ascii(text)[i]
    {
      AsciiByteIsNumber(text[i]);
      SameNumberSameDigits(data[i], AsciiByte(text[i]), text[i] as int);
    }
  }

  /** Where a seat goes: take the bytes of "schedule:seat", the remainder of that polynomial times
      x^16 by the generator, and the number with those 16 digits; the node is that number modulo
      how many nodes there are. */
  lemma RouteIs(seat: Seat, n: nat, data: seq<Crc16.Byte>, r: Crc16.Word, v: nat)
    requires n > 0
    requires BytesOf(data, Keys.PrintInt(seat.schedule) + ":" + Keys.PrintInt(seat.id))
    requires Crc16.IsRemainder(Crc16.Bits(data) + Crc16.Zeros(16), Crc16.GENERATOR, r)
    requires v < 65536 && forall i :: 0 <= i < 16 ==> (r[i] <==> Digit(v, 15 - i))
    ensures Route(seat, n) == v % n
  {
    var text := Keys.PrintInt(seat.schedule) + ":" + Keys.PrintInt(seat.id);
    KeyTextIsAscii(seat.schedule, seat.id);
    BytesAreAscii(data, text);
    Crc16.CrcCharacterised(data, r);
    SixteenDigits();
    NumberUnique(r, v);
  }

  /** There always are such bytes, such a remainder and such a number. */
  lemma RouteDefined(seat: Seat, n: nat) returns (data: seq<Crc16.Byte>, r: Crc16.Word, v: nat)
    requires n > 0
    ensures BytesOf(data, Keys.PrintInt(seat.schedule) + ":" + Keys.PrintInt(seat.id))
    ensures Crc16.IsRemainder(Crc16.Bits(data) + Crc16.Zeros(16), Crc16.GENERATOR, r)
    ensures v < 65536 && (forall i :: 0 <= i < 16 ==> (r[i] <==> Digit(v, 15 - i))) && Route(seat, n) == v % n
  {
    var text := Keys.PrintInt(seat.schedule) + ":" + Keys.PrintInt(seat.id);
    KeyTextIsAscii(seat.schedule, seat.id);
    data := Ascii(text);
    forall i | 0 <= i < |text|
      ensures IsNumber(data[i], text[i] as int)
    {
      assert text[i] in text;
      AsciiByteIsNumber(text[i]);
    }
    r := Crc16.Crc(data);
    Crc16.CrcIsRemainder(data);
    v := WordValue(r);
    WordValueIsNumber(r);
    SixteenDigits();
  }

  lemma SixteenDigits()
    ensures Pow2(16) == 65536
  {
    assert Pow2(4) == 16 && Pow2(8) == 256 && Pow2(12) == 4096;
  }

  // ------------------------------------------------------ replicated commands

  datatype ZSet = UserLocks | RoomLocks | Queue

  datatype Command =
    | ZAdd(z: ZSet, c: Claim, score: int)
    | ZRem(z: ZSet, c: Claim)
    | SetCell(seat: Seat, cell: Cell)

  function Do(h: Shared, cmd: Command): Shared {
    match cmd
    case ZAdd(UserLocks, c, score) => h.(userLocks := h.userLocks[c := score])
    case ZAdd(RoomLocks, c, score) => h.(roomLocks := h.roomLocks[c := score])
    case ZAdd(Queue, c, score) => h.(queue := h.queue[c := score])
    case ZRem(UserLocks, c) => h.(userLocks := h.userLocks - {c})
    case ZRem(RoomLocks, c) => h.(roomLocks := h.roomLocks - {c})
    case ZRem(Queue, c) => h.(queue := h.queue - {c})
    case SetCell(seat, cell) => h.(cells := h.cells[seat := cell])
  }

  function DoAll(nodes: seq<Store>, cmd: Command): seq<Store> {
    seq(|nodes|, k requires 0 <= k < |nodes| => nodes[k].(shared := Do(nodes[k].shared, cmd)))
  }

  // ------------------------------------------------------------ cluster calls

  /** What the script itself leaves on the seat's node. */
  function Script(s: Store, now: int, op: Op): Store {
    if op.ReleaseExpired? && !MayTake(s, op.c, now)
    then s.(shared := Do(s.shared, ZRem(Queue, op.c)))
    else Apply(s, now, op)
  }

  function LockAll(nodes: seq<Store>, c: Claim, expiry: int): seq<Store> {
    seq(|nodes|, k requires 0 <= k < |nodes| => nodes[k].(shared := LockShared(nodes[k].shared, c, expiry)))
  }

  function ClearAll(nodes: seq<Store>, c: Claim, cell: Cell): seq<Store> {
    seq(|nodes|, k requires 0 <= k < |nodes| => nodes[k].(shared := ClearShared(nodes[k].shared, c, cell)))
  }

  function Replicated(nodes: seq<Store>, now: int, op: Op, ok: bool): seq<Store> {
    match op
    case Acquire(c, ttl) => if ok then LockAll(nodes, c, now + ttl) else nodes
    case AcquireKey(_, _) => nodes
    case Metadata(_, _) => nodes
    case Release(c) => if ok then ClearAll(nodes, c, Free) else nodes
    case ReleaseExpired(c) => ClearAll(nodes, c, Free)
    case Book(c) => if ok then ClearAll(nodes, c, Booked) else nodes
    case ForceBook(c) => ClearAll(nodes, c, Booked)
  }

  function ClusterSucceeds(nodes: seq<Store>, now: int, op: Op): bool
    requires nodes != []
  {
    Succeeds(nodes[Route(op.c.seat, |nodes|)], now, op)
  }

  function ClusterApply(nodes: seq<Store>, now: int, op: Op): (nodes': seq<Store>)
    requires nodes != []
    ensures |nodes'| == |nodes|
  {
    var k := Route(op.c.seat, |nodes|);
    Replicated(nodes[k := Script(nodes[k], now, op)], now, op, ClusterSucceeds(nodes, now, op))
  }

  function ClusterExec(nodes: seq<Store>, run: seq<Event>): (nodes': seq<Store>)
    requires nodes != []
    ensures |nodes'| == |nodes|
  {
    if run == [] then nodes
    else
      var last := run[|run| - 1];
      ClusterApply(ClusterExec(nodes, run[..|run| - 1]), last.now, last.op)
  }

  // ---------------------------------------------------------------- refinement

  /** The seats whose keys belong on node k. */
  function Here(k: nat, n: nat): Seat -> bool
    requires n > 0
  {
    seat => Route(seat, n) == k
  }

  ghost predicate OwnersAt(node: Store, s: Store, here: Seat -> bool) {
    forall seat :: (seat in node.owners <==> seat in s.owners && here(seat))
                   && (seat in node.owners ==> node.owners[seat] == s.owners[seat])
  }

  ghost predicate ContextsAt(node: Store, s: Store, here: Seat -> bool) {
    forall c :: (c in node.contexts <==> c in s.contexts && here(c.seat))
                && (c in node.contexts ==> node.contexts[c] == s.contexts[c])
  }

  /** Every seat's keys are exactly on the node it routes to. */
  ghost predicate KeysRepresent(nodes: seq<Store>, s: Store) {
    && nodes != []
    && forall k :: 0 <= k < |nodes| ==>
         OwnersAt(nodes[k], s, Here(k, |nodes|)) && ContextsAt(nodes[k], s, Here(k, |nodes|))
  }

  ghost predicate SharedEverywhere(nodes: seq<Store>, h: Shared) {
    forall k :: 0 <= k < |nodes| ==> nodes[k].shared == h
  }

  ghost predicate Represents(nodes: seq<Store>, s: Store) {
    KeysRepresent(nodes, s) && SharedEverywhere(nodes, s.shared)
  }

  lemma RoutedNodeDecides(nodes: seq<Store>, s: Store, now: int, c: Claim)
    requires KeysRepresent(nodes, s)
    ensures MayTake(nodes[Route(c.seat, |nodes|)], c, now) == MayTake(s, c, now)
  {
    var k := Route(c.seat, |nodes|);
    assert OwnersAt(nodes[k], s, Here(k, |nodes|));
  }

  /** The keys after a call, on every node. */
  lemma KeysAfter(nodes: seq<Store>, now: int, op: Op)
    requires nodes != []
    ensures var nodes' := ClusterApply(nodes, now, op);
            var r := Route(op.c.seat, |nodes|);
            forall k :: 0 <= k < |nodes| ==>
              nodes'[k].owners == (if k == r then Apply(nodes[k], now, op) else nodes[k]).owners
              && nodes'[k].contexts == (if k == r then Apply(nodes[k], now, op) else nodes[k]).contexts
  {
  }

  lemma OwnNodeStep(node: Store, s: Store, here: Seat -> bool, now: int, op: Op)
    requires here(op.c.seat)
    requires OwnersAt(node, s, here) && ContextsAt(node, s, here)
    ensures OwnersAt(Apply(node, now, op), Apply(s, now, op), here)
    ensures ContextsAt(Apply(node, now, op), Apply(s, now, op), here)
  {
    OwnOwnersStep(node, s, here, now, op);
    OwnContextsStep(node, s, here, now, op);
  }

  lemma OwnOwnersStep(node: Store, s: Store, here: Seat -> bool, now: int, op: Op)
    requires here(op.c.seat) && OwnersAt(node, s, here)
    ensures OwnersAt(Apply(node, now, op), Apply(s, now, op), here)
  {
    assert MayTake(node, op.c, now) == MayTake(s, op.c, now);
  }

  lemma OwnContextsStep(node: Store, s: Store, here: Seat -> bool, now: int, op: Op)
    requires here(op.c.seat) && OwnersAt(node, s, here) && ContextsAt(node, s, here)
    ensures ContextsAt(Apply(node, now, op), Apply(s, now, op), here)
  {
    assert MayTake(node, op.c, now) == MayTake(s, op.c, now);
  }

  lemma OtherNodeStep(node: Store, s: Store, here: Seat -> bool, now: int, op: Op)
    requires !here(op.c.seat)
    requires OwnersAt(node, s, here) && ContextsAt(node, s, here)
    ensures OwnersAt(node, Apply(s, now, op), here)
    ensures ContextsAt(node, Apply(s, now, op), here)
  {
  }

  lemma SameKeys(node: Store, other: Store, s: Store, here: Seat -> bool)
    requires OwnersAt(node, s, here) && ContextsAt(node, s, here)
    requires other.owners == node.owners && other.contexts == node.contexts
    ensures OwnersAt(other, s, here) && ContextsAt(other, s, here)
  {
  }

  lemma KeysStep(nodes: seq<Store>, s: Store, now: int, op: Op)
    requires KeysRepresent(nodes, s)
    ensures KeysRepresent(ClusterApply(nodes, now, op), Apply(s, now, op))
    ensures ClusterSucceeds(nodes, now, op) == Succeeds(s, now, op)
  {
    var nodes' := ClusterApply(nodes, now, op);
    var n := |nodes|;
    KeysAfter(nodes, now, op);
    RoutedNodeDecides(nodes, s, now, op.c);
    forall k | 0 <= k < n
      ensures OwnersAt(nodes'[k], Apply(s, now, op), Here(k, n)) && ContextsAt(nodes'[k], Apply(s, now, op), Here(k, n))
    {
      var here := Here(k, n);
      if k == Route(op.c.seat, n) {
        OwnNodeStep(nodes[k], s, here, now, op);
        SameKeys(Apply(nodes[k], now, op), nodes'[k], Apply(s, now, op), here);
      } else {
        OtherNodeStep(nodes[k], s, here, now, op);
        SameKeys(nodes[k], nodes'[k], Apply(s, now, op), here);
      }
    }
  }

  /** Writing the same members, or removing them, again changes nothing. */
  lemma ReplayIsIdle(h: Shared, c: Claim, expiry: int, cell: Cell)
    ensures LockShared(LockShared(h, c, expiry), c, expiry) == LockShared(h, c, expiry)
    ensures ClearShared(ClearShared(h, c, cell), c, cell) == ClearShared(h, c, cell)
    ensures ClearShared(Do(h, ZRem(Queue, c)), c, cell) == ClearShared(h, c, cell)
  {
  }

  lemma SharedStep(nodes: seq<Store>, s: Store, now: int, op: Op)
    requires Represents(nodes, s) && !op.Metadata?
    ensures SharedEverywhere(ClusterApply(nodes, now, op), Apply(s, now, op).shared)
  {
    RoutedNodeDecides(nodes, s, now, op.c);
    ScriptShared(s, now, op);
    forall k: nat | k < |nodes|
      ensures ClusterApply(nodes, now, op)[k].shared == Apply(s, now, op).shared
    {
      NodeStep(nodes, now, op, k);
    }
  }

  /** The replicated part after a script, from the part before and the answer alone. */
  function ScriptedShared(h: Shared, now: int, op: Op, ok: bool): Shared {
    match op
    case Acquire(c, ttl) => if ok then LockShared(h, c, now + ttl) else h
    case AcquireKey(_, _) => h
    case Metadata(c, ttl) => LockShared(h, c, now + ttl)
    case Release(c) => if ok then ClearShared(h, c, Free) else h
    case ReleaseExpired(c) => if ok then ClearShared(h, c, Free) else Do(h, ZRem(Queue, c))
    case Book(c) => if ok then ClearShared(h, c, Booked) else h
    case ForceBook(c) => ClearShared(h, c, Booked)
  }

  lemma ScriptShared(s: Store, now: int, op: Op)
    ensures Script(s, now, op).shared == ScriptedShared(s.shared, now, op, Succeeds(s, now, op))
    ensures Apply(s, now, op).shared
         == if op.ReleaseExpired? then ClearShared(s.shared, op.c, Free)
            else ScriptedShared(s.shared, now, op, Succeeds(s, now, op))
  {
  }

  /** The replicated writes leave the routed node and the others alike. */
  lemma ReplicationCovers(h: Shared, now: int, op: Op, ok: bool)
    requires !op.Metadata?
    ensures var logical := if op.ReleaseExpired? then ClearShared(h, op.c, Free) else ScriptedShared(h, now, op, ok);
            && ReplicatedShared(h, now, op, ok) == logical
            && ReplicatedShared(ScriptedShared(h, now, op, ok), now, op, ok) == logical
  {
    ReplayIsIdle(h, op.c, if op.Acquire? then now + op.ttl else now, if op.Book? || op.ForceBook? then Booked else Free);
  }

  function ReplicatedShared(h: Shared, now: int, op: Op, ok: bool): Shared {
    match op
    case Acquire(c, ttl) => if ok then LockShared(h, c, now + ttl) else h
    case AcquireKey(_, _) => h
    case Metadata(_, _) => h
    case Release(c) => if ok then ClearShared(h, c, Free) else h
    case ReleaseExpired(c) => ClearShared(h, c, Free)
    case Book(c) => if ok then ClearShared(h, c, Booked) else h
    case ForceBook(c) => ClearShared(h, c, Booked)
  }

  /** Metadata is written to the seat's own node alone, so it keeps the nodes alike
      exactly when there is one node, or nothing it writes is news. */
  lemma MetadataStepIff(nodes: seq<Store>, s: Store, now: int, c: Claim, ttl: Ttl)
    requires Represents(nodes, s)
    ensures var op := Metadata(c, ttl);
            SharedEverywhere(ClusterApply(nodes, now, op), Apply(s, now, op).shared)
            <==> |nodes| == 1 || LockShared(s.shared, c, now + ttl) == s.shared
  {
    var k := Route(c.seat, |nodes|);
    var other := if k == 0 then 1 else 0;
    var nodes' := ClusterApply(nodes, now, Metadata(c, ttl));
    assert nodes'[k].shared == LockShared(s.shared, c, now + ttl);
    assert |nodes| > 1 ==> nodes'[other].shared == s.shared;
  }

  ghost predicate NoMetadata(run: seq<Event>) {
    forall i :: 0 <= i < |run| ==> !run[i].op.Metadata?
  }

  function Fresh(n: nat): seq<Store> {
    seq(n, _ => EMPTY)
  }

  /** Over every run of calls of any kind, lock and context keys are those of one
      logical store, each on its seat's node, and every call gives the same answer. */
  lemma {:induction false} ClusterKeysRefine(n: nat, run: seq<Event>, now: int, op: Op)
    requires n > 0
    ensures KeysRepresent(ClusterExec(Fresh(n), run), Exec(EMPTY, run))
    ensures ClusterSucceeds(ClusterExec(Fresh(n), run), now, op) == Succeeds(Exec(EMPTY, run), now, op)
  {
    if run != [] {
      var last := run[|run| - 1];
      ClusterKeysRefine(n, run[..|run| - 1], last.now, last.op);
      KeysStep(ClusterExec(Fresh(n), run[..|run| - 1]), Exec(EMPTY, run[..|run| - 1]), last.now, last.op);
    }
    KeysStep(ClusterExec(Fresh(n), run), Exec(EMPTY, run), now, op);
  }

  /** On the cluster an acquisition is refused if and only if another user's latest acquisition of the
      seat, anywhere in the run, has neither been removed nor lapsed. */
  lemma ClusterRefusedIff(n: nat, run: seq<Event>, k: nat)
    requires n > 0 && Monotone(run) && k < |run| && (run[k].op.Acquire? || run[k].op.AcquireKey?)
    ensures !ClusterSucceeds(ClusterExec(Fresh(n), run[..k]), run[k].now, run[k].op)
            <==> exists u :: u != run[k].op.c.user && HeldBy(run, Claim(run[k].op.c.seat, u), k, run[k].now)
  {
    ClusterKeysRefine(n, run[..k], run[k].now, run[k].op);
    RefusedIff(run, k);
  }

  /** And once a release or booking has answered yes, every user can acquire the seat. */
  lemma ClusterRemovalFrees(n: nat, run: seq<Event>, now: int, op: Op, user: int, ttl: Ttl)
    requires n > 0 && (op.Release? || op.ReleaseExpired? || op.Book?)
    requires ClusterSucceeds(ClusterExec(Fresh(n), run), now, op)
    ensures ClusterSucceeds(ClusterApply(ClusterExec(Fresh(n), run), now, op), now, AcquireKey(Claim(op.c.seat, user), ttl))
  {
    var more := run + [At(now, op)];
    assert more[..|run|] == run;
    ClusterKeysRefine(n, run, now, op);
    ClusterKeysRefine(n, more, now, AcquireKey(Claim(op.c.seat, user), ttl));
    RemovalFrees(Exec(EMPTY, run), now, op, user);
  }

  /** Over every run without bare metadata updates the cluster is one logical store. */
  lemma {:induction false} ClusterRefines(n: nat, run: seq<Event>)
    requires n > 0 && NoMetadata(run)
    ensures Represents(ClusterExec(Fresh(n), run), Exec(EMPTY, run))
  {
    if run != [] {
      var m := |run| - 1;
      ClusterRefines(n, run[..m]);
      KeysStep(ClusterExec(Fresh(n), run[..m]), Exec(EMPTY, run[..m]), run[m].now, run[m].op);
      SharedStep(ClusterExec(Fresh(n), run[..m]), Exec(EMPTY, run[..m]), run[m].now, run[m].op);
    }
  }

  // ------------------------------------------------------- the updater's pass

  function PassEvent(c: Claim, now: int, booked: Seat -> bool): Event {
    At(now, if booked(c.seat) then ForceBook(c) else ReleaseExpired(c))
  }

  function PassEvents(due: seq<Claim>, now: int, booked: Seat -> bool): seq<Event> {
    seq(|due|, k requires 0 <= k < |due| => PassEvent(due[k], now, booked))
  }

  predicate Processed(due: seq<Claim>, seat: Seat) {
    exists c :: c in due && c.seat == seat
  }

  function CellAfterPass(h: Shared, due: seq<Claim>, booked: Seat -> bool, seat: Seat): Cell {
    if Processed(due, seat) then (if booked(seat) then Booked else Free) else CellOf(h.cells, seat)
  }

  /** The seat is locked by a user none of whose entries is due. */
  predicate LiveForOther(s: Store, due: seq<Claim>, now: int, seat: Seat) {
    Live(s, seat, now) && Claim(seat, s.owners[seat].user) !in due
  }

  lemma {:induction false} PassResult(s: Store, due: seq<Claim>, now: int, booked: Seat -> bool)
    ensures var s' := Exec(s, PassEvents(due, now, booked));
            && s'.shared.queue == s.shared.queue - Elements(due)
            && (forall seat :: CellOf(s'.shared.cells, seat) == CellAfterPass(s.shared, due, booked, seat))
            && (forall seat :: LiveForOther(s, due, now, seat) ==> seat in s'.owners && s'.owners[seat] == s.owners[seat])
  {
    if due != [] {
      var n := |due| - 1;
      var all, first := PassEvents(due, now, booked), PassEvents(due[..n], now, booked);
      assert all[..n] == first;
      PassResult(s, due[..n], now, booked);
      var before, after := Exec(s, first), Exec(s, all);
      assert after == Apply(before, now, PassEvent(due[n], now, booked).op);
      assert Elements(due) == Elements(due[..n]) + {due[n]};
      forall seat
        ensures CellOf(after.shared.cells, seat) == CellAfterPass(s.shared, due, booked, seat)
      {
        ProcessedOneMore(due, n, seat);
        assert CellOf(before.shared.cells, seat) == CellAfterPass(s.shared, due[..n], booked, seat);
      }
    }
  }

  lemma ProcessedOneMore(due: seq<Claim>, n: nat, seat: Seat)
    requires |due| == n + 1
    ensures Processed(due, seat) <==> Processed(due[..n], seat) || due[n].seat == seat
  {
    assert forall c :: c in due <==> c in due[..n] || c == due[n];
    if due[n].seat == seat { assert due[n] in due; }
  }

  /**
   * Once every queue entry is due, one pass in whatever order leaves an empty
   * queue and no cell reading locked; the cell of each queued seat is booked
   * exactly when the database says so, and the others are untouched.
   */
  lemma PassCleans(s: Store, due: seq<Claim>, now: int, booked: Seat -> bool)
    requires LockedCellsQueued(s.shared)
    requires Elements(due) == s.shared.queue.Keys
    ensures var s' := Exec(s, PassEvents(due, now, booked));
            && s'.shared.queue == map[]
            && (forall seat :: CellOf(s'.shared.cells, seat) != Locked)
            && (forall seat :: Queued(s.shared, seat) ==> (CellOf(s'.shared.cells, seat) == Booked <==> booked(seat)))
            && (forall seat :: !Queued(s.shared, seat) ==> CellOf(s'.shared.cells, seat) == CellOf(s.shared.cells, seat))
  {
    PassResult(s, due, now, booked);
    forall seat
      ensures Processed(due, seat) <==> Queued(s.shared, seat)
    {
      ProcessedIsQueued(s.shared, due, seat);
    }
  }

  lemma ProcessedIsQueued(h: Shared, due: seq<Claim>, seat: Seat)
    requires Elements(due) == h.queue.Keys
    ensures Processed(due, seat) <==> Queued(h, seat)
  {
    if Processed(due, seat) {
      var c :| c in due && c.seat == seat;
      assert c in Elements(due) && Claim(seat, c.user) in h.queue;
    }
    if Queued(h, seat) {
      var u :| Claim(seat, u) in h.queue;
      assert Claim(seat, u) in Elements(due);
    }
  }

  // ------------------------------------- the pass on nodes that need not be alike

  /** What a call makes of the replicated part of a node, whatever the node holds. */
  function NodeAfter(h: Shared, routed: bool, now: int, op: Op, ok: bool): Shared {
    if op.Metadata? then (if routed then LockShared(h, op.c, now + op.ttl) else h)
    else if op.ReleaseExpired? then ClearShared(h, op.c, Free)
    else ScriptedShared(h, now, op, ok)
  }

  lemma NodeStep(nodes: seq<Store>, now: int, op: Op, k: nat)
    requires nodes != [] && k < |nodes|
    ensures ClusterApply(nodes, now, op)[k].shared
         == NodeAfter(nodes[k].shared, k == Route(op.c.seat, |nodes|), now, op, ClusterSucceeds(nodes, now, op))
  {
    var r := Route(op.c.seat, |nodes|);
    var ok := ClusterSucceeds(nodes, now, op);
    ScriptShared(nodes[r], now, op);
    var written := if k == r then ScriptedShared(nodes[k].shared, now, op, ok) else nodes[k].shared;
    ReplicatedOn(nodes, now, op, k);
    assert ClusterApply(nodes, now, op)[k].shared == ReplicatedShared(written, now, op, ok);
    if !op.Metadata? {
      ReplicationCovers(nodes[k].shared, now, op, ok);
    }
  }

  lemma ReplicatedOn(nodes: seq<Store>, now: int, op: Op, k: nat)
    requires nodes != [] && k < |nodes|
    ensures var r := Route(op.c.seat, |nodes|);
            var written := if k == r then Script(nodes[r], now, op).shared else nodes[k].shared;
            ClusterApply(nodes, now, op)[k].shared == ReplicatedShared(written, now, op, ClusterSucceeds(nodes, now, op))
  {
  }

  lemma LockKeepsQueued(h: Shared, c: Claim, expiry: int)
    requires LockedCellsQueued(h)
    ensures LockedCellsQueued(LockShared(h, c, expiry))
  {
    var h' := LockShared(h, c, expiry);
    forall seat | CellOf(h'.cells, seat) == Locked
      ensures Queued(h', seat)
    {
      if seat == c.seat {
        assert Claim(seat, c.user) in h'.queue;
      } else {
        assert Queued(h, seat);
        var u :| Claim(seat, u) in h.queue;
        assert Claim(seat, u) in h'.queue;
      }
    }
  }

  lemma ClearKeepsQueued(h: Shared, c: Claim, cell: Cell)
    requires LockedCellsQueued(h) && cell != Locked
    ensures LockedCellsQueued(ClearShared(h, c, cell))
  {
    var h' := ClearShared(h, c, cell);
    forall seat | CellOf(h'.cells, seat) == Locked
      ensures Queued(h', seat)
    {
      assert seat != c.seat && Queued(h, seat);
      var u :| Claim(seat, u) in h.queue;
      assert Claim(seat, u) in h'.queue;
    }
  }

  lemma NodeKeepsQueued(h: Shared, routed: bool, now: int, op: Op, ok: bool)
    requires LockedCellsQueued(h)
    ensures LockedCellsQueued(NodeAfter(h, routed, now, op, ok))
  {
    if op.Acquire? || op.Metadata? { LockKeepsQueued(h, op.c, now + op.ttl); }
    ClearKeepsQueued(h, op.c, Free);
    ClearKeepsQueued(h, op.c, Booked);
  }

  /** Over every run, metadata updates included, each node's locked cells are queued on that node. */
  lemma {:induction false} NodesQueuedInRuns(n: nat, run: seq<Event>, k: nat)
    requires k < n
    ensures LockedCellsQueued(ClusterExec(Fresh(n), run)[k].shared)
  {
    if run != [] {
      var last := run[|run| - 1];
      var nodes := ClusterExec(Fresh(n), run[..|run| - 1]);
      NodesQueuedInRuns(n, run[..|run| - 1], k);
      NodeStep(nodes, last.now, last.op, k);
      NodeKeepsQueued(nodes[k].shared, k == Route(last.op.c.seat, |nodes|), last.now, last.op, ClusterSucceeds(nodes, last.now, last.op));
    }
  }

  lemma NodeSeesPassEvent(nodes: seq<Store>, s: Store, c: Claim, now: int, booked: Seat -> bool, k: nat)
    requires nodes != [] && k < |nodes| && nodes[k].shared == s.shared
    ensures var ev := PassEvent(c, now, booked);
            ClusterApply(nodes, ev.now, ev.op)[k].shared == Apply(s, ev.now, ev.op).shared
  {
    var ev := PassEvent(c, now, booked);
    NodeStep(nodes, ev.now, ev.op, k);
    ScriptShared(s, ev.now, ev.op);
  }

  /** A pass does to every node what it would do to that node alone. */
  lemma {:induction false} NodeSeesPass(nodes: seq<Store>, due: seq<Claim>, now: int, booked: Seat -> bool, k: nat)
    requires nodes != [] && k < |nodes|
    ensures ClusterExec(nodes, PassEvents(due, now, booked))[k].shared == Exec(nodes[k], PassEvents(due, now, booked)).shared
  {
    if due != [] {
      var n := |due| - 1;
      NodeSeesPass(nodes, due[..n], now, booked, k);
      assert PassEvents(due, now, booked)[..n] == PassEvents(due[..n], now, booked);
      NodeSeesPassEvent(ClusterExec(nodes, PassEvents(due[..n], now, booked)), Exec(nodes[k], PassEvents(due[..n], now, booked)),
                        due[n], now, booked, k);
    }
  }

  ghost predicate NoLockedCell(h: Shared) {
    forall seat :: CellOf(h.cells, seat) != Locked
  }

  /** Every cell that reads locked here is of a seat queued there. */
  ghost predicate LockedQueuedOn(h: Shared, there: Shared) {
    forall seat :: CellOf(h.cells, seat) == Locked ==> Queued(there, seat)
  }

  lemma NodeCleanIff(nodes: seq<Store>, r: nat, due: seq<Claim>, now: int, booked: Seat -> bool, k: nat)
    requires r < |nodes| && k < |nodes| && Elements(due) == nodes[r].shared.queue.Keys
    ensures var h' := ClusterExec(nodes, PassEvents(due, now, booked))[k].shared;
            && h'.queue == nodes[k].shared.queue - nodes[r].shared.queue.Keys
            && (forall seat :: Queued(nodes[r].shared, seat) ==> CellOf(h'.cells, seat) == if booked(seat) then Booked else Free)
            && (NoLockedCell(h') <==> LockedQueuedOn(nodes[k].shared, nodes[r].shared))
  {
    NodeSeesPass(nodes, due, now, booked, k);
    PassResult(nodes[k], due, now, booked);
    var h, h' := nodes[k].shared, ClusterExec(nodes, PassEvents(due, now, booked))[k].shared;
    forall seat
      ensures CellOf(h'.cells, seat)
           == if Queued(nodes[r].shared, seat) then (if booked(seat) then Booked else Free) else CellOf(h.cells, seat)
    {
      ProcessedIsQueued(nodes[r].shared, due, seat);
    }
    if NoLockedCell(h') {
      forall seat | CellOf(h.cells, seat) == Locked
        ensures Queued(nodes[r].shared, seat)
      {
        assert CellOf(h'.cells, seat) != Locked;
      }
    }
  }

  /**
   * After any run of any calls, a pass over all of node r's queue empties that
   * queue and cleans node r; another node ends without a locked cell if and only
   * if each of its locked cells is of a seat queued on r; and every queued seat
   * reads on all nodes what the database says.
   */
  lemma PassCleansCluster(n: nat, run: seq<Event>, r: nat, due: seq<Claim>, now: int, booked: Seat -> bool)
    requires r < n && Elements(due) == ClusterExec(Fresh(n), run)[r].shared.queue.Keys
    ensures var before := ClusterExec(Fresh(n), run);
            var after := ClusterExec(before, PassEvents(due, now, booked));
            && after[r].shared.queue == map[] && NoLockedCell(after[r].shared)
            && (forall k :: 0 <= k < n ==> (NoLockedCell(after[k].shared) <==> LockedQueuedOn(before[k].shared, before[r].shared)))
            && (forall k, seat :: 0 <= k < n && Queued(before[r].shared, seat) ==>
                 CellOf(after[k].shared.cells, seat) == if booked(seat) then Booked else Free)
  {
    var before := ClusterExec(Fresh(n), run);
    NodesQueuedInRuns(n, run, r);
    forall k: nat | k < n
      ensures var h' := ClusterExec(before, PassEvents(due, now, booked))[k].shared;
              && h'.queue == before[k].shared.queue - before[r].shared.queue.Keys
              && (forall seat :: Queued(before[r].shared, seat) ==> CellOf(h'.cells, seat) == if booked(seat) then Booked else Free)
              && (NoLockedCell(h') <==> LockedQueuedOn(before[k].shared, before[r].shared))
    {
      NodeCleanIff(before, r, due, now, booked, k);
    }
  }

  // ----------------------------------------------------------------- the code

  lemma LockCommands(nodes: seq<Store>, c: Claim, expiry: int)
    ensures LockAll(nodes, c, expiry)
         == DoAll(DoAll(DoAll(DoAll(nodes, ZAdd(UserLocks, c, expiry)), ZAdd(RoomLocks, c, expiry)),
                        ZAdd(Queue, c, expiry + GRACE)), SetCell(c.seat, Locked))
  {
  }

  lemma ClearCommands(nodes: seq<Store>, c: Claim, cell: Cell)
    ensures ClearAll(nodes, c, cell)
         == DoAll(DoAll(DoAll(DoAll(nodes, ZRem(UserLocks, c)), ZRem(RoomLocks, c)), ZRem(Queue, c)), SetCell(c.seat, cell))
  {
  }

  class SingleNodeLock {
    var nodes: seq<Store>

    constructor (n: nat)
      requires n > 0
      ensures nodes == Fresh(n)
    {
      nodes := Fresh(n);
    }

    /** `zadd_cluster`, `zrem_cluster` and the replicated bitmap write: one command on every node. */
    method Replicate(cmd: Command)
      modifies this
      ensures nodes == DoAll(old(nodes), cmd)
    {
      ghost var all := DoAll(nodes, cmd);
      for k := 0 to |nodes|
        invariant |nodes| == |old(nodes)|
        invariant forall i :: 0 <= i < k ==> nodes[i] == all[i]
        invariant forall i :: k <= i < |nodes| ==> nodes[i] == old(nodes)[i]
      {
        nodes := nodes[k := nodes[k].(shared := Do(nodes[k].shared, cmd))];
      }
    }

    method ReplicateLock(c: Claim, expiry: int)
      modifies this
      ensures nodes == LockAll(old(nodes), c, expiry)
    {
      LockCommands(nodes, c, expiry);
      Replicate(ZAdd(UserLocks, c, expiry));
      Replicate(ZAdd(RoomLocks, c, expiry));
      Replicate(ZAdd(Queue, c, expiry + GRACE));
      Replicate(SetCell(c.seat, Locked));
    }

    method ReplicateClear(c: Claim, cell: Cell)
      modifies this
      ensures nodes == ClearAll(old(nodes), c, cell)
    {
      ClearCommands(nodes, c, cell);
      Replicate(ZRem(UserLocks, c));
      Replicate(ZRem(RoomLocks, c));
      Replicate(ZRem(Queue, c));
      Replicate(SetCell(c.seat, cell));
    }

    method AcquireLock(now: int, c: Claim, ttl: Ttl) returns (ok: bool)
      requires nodes != []
      modifies this
      ensures nodes == ClusterApply(old(nodes), now, AcquireKey(c, ttl))
      ensures ok == ClusterSucceeds(old(nodes), now, AcquireKey(c, ttl))
    {
      var k := Route(c.seat, |nodes|);
      var node := nodes[k];
      if !Live(node, c.seat, now) {
        nodes := nodes[k := node.(owners := node.owners[c.seat := Lease(c.user, now + ttl)])];
        return true;
      }
      if node.owners[c.seat].user == c.user {
        nodes := nodes[k := node.(owners := node.owners[c.seat := Lease(c.user, now + ttl)])];
        return true;
      }
      assert nodes == nodes[k := node];
      return false;
    }

    method AcquireSeatLockLua(now: int, c: Claim, ttl: Ttl) returns (ok: bool)
      requires nodes != []
      modifies this
      ensures nodes == ClusterApply(old(nodes), now, Acquire(c, ttl))
      ensures ok == ClusterSucceeds(old(nodes), now, Acquire(c, ttl))
    {
      var k := Route(c.seat, |nodes|);
      ok := MayTake(nodes[k], c, now);
      nodes := nodes[k := Script(nodes[k], now, Acquire(c, ttl))];
      if ok {
        ReplicateLock(c, now + ttl);
      }
    }

    /** One transaction, on the seat's own node. */
    method UpdateOneSeat(now: int, c: Claim, ttl: Ttl)
      requires nodes != []
      modifies this
      ensures nodes == ClusterApply(old(nodes), now, Metadata(c, ttl))
    {
      var k := Route(c.seat, |nodes|);
      nodes := nodes[k := nodes[k].(shared := LockShared(nodes[k].shared, c, now + ttl))];
    }

    method UpdateSeatMetadata(now: int, claims: seq<Claim>, ttl: Ttl)
      requires nodes != []
      modifies this
      ensures nodes == ClusterExec(old(nodes), MetadataEvents(claims, now, ttl))
    {
      for i := 0 to |claims|
        invariant |nodes| == |old(nodes)|
        invariant nodes == ClusterExec(old(nodes), MetadataEvents(claims[..i], now, ttl))
      {
        MetadataAppend(claims, i, now, ttl);
        UpdateOneSeat(now, claims[i], ttl);
      }
      assert claims[..|claims|] == claims;
    }

    method ReleaseLock(now: int, c: Claim) returns (ok: bool)
      requires nodes != []
      modifies this
      ensures nodes == ClusterApply(old(nodes), now, Release(c))
      ensures ok == ClusterSucceeds(old(nodes), now, Release(c))
    {
      var k := Route(c.seat, |nodes|);
      ok := MayTake(nodes[k], c, now);
      nodes := nodes[k := Script(nodes[k], now, Release(c))];
      if ok {
        ReplicateClear(c, Free);
      }
    }

    method ReleaseExpiredLockLua(now: int, c: Claim) returns (ok: bool)
      requires nodes != []
      modifies this
      ensures nodes == ClusterApply(old(nodes), now, ReleaseExpired(c))
      ensures ok == ClusterSucceeds(old(nodes), now, ReleaseExpired(c))
    {
      var k := Route(c.seat, |nodes|);
      ok := MayTake(nodes[k], c, now);
      nodes := nodes[k := Script(nodes[k], now, ReleaseExpired(c))];
      ReplicateClear(c, Free);
    }

    method BookSeatLua(now: int, c: Claim) returns (ok: bool)
      requires nodes != []
      modifies this
      ensures nodes == ClusterApply(old(nodes), now, Book(c))
      ensures ok == ClusterSucceeds(old(nodes), now, Book(c))
    {
      var k := Route(c.seat, |nodes|);
      ok := MayTake(nodes[k], c, now);
      nodes := nodes[k := Script(nodes[k], now, Book(c))];
      if ok {
        ReplicateClear(c, Booked);
      }
    }

    method ForceBookSeatLua(now: int, c: Claim)
      requires nodes != []
      modifies this
      ensures nodes == ClusterApply(old(nodes), now, ForceBook(c))
    {
      var k := Route(c.seat, |nodes|);
      nodes := nodes[k := Script(nodes[k], now, ForceBook(c))];
      ReplicateClear(c, Booked);
    }

    /** The layout updater's loop over the due entries, in the order Redis lists them. */
    method RunUpdaterPass(due: seq<Claim>, now: int, booked: Seat -> bool)
      requires nodes != []
      modifies this
      ensures nodes == ClusterExec(old(nodes), PassEvents(due, now, booked))
    {
      for i := 0 to |due|
        invariant |nodes| == |old(nodes)|
        invariant nodes == ClusterExec(old(nodes), PassEvents(due[..i], now, booked))
      {
        PassOneMore(due, i, now, booked);
        if booked(due[i].seat) {
          ForceBookSeatLua(now, due[i]);
        } else {
          var _ := ReleaseExpiredLockLua(now, due[i]);
        }
      }
      assert due[..|due|] == due;
    }
  }

  lemma PassOneMore(due: seq<Claim>, i: nat, now: int, booked: Seat -> bool)
    requires i < |due|
    ensures PassEvents(due[..i + 1], now, booked) == PassEvents(due[..i], now, booked) + [PassEvent(due[i], now, booked)]
    ensures (PassEvents(due[..i], now, booked) + [PassEvent(due[i], now, booked)])[..i] == PassEvents(due[..i], now, booked)
  {
  }

  lemma MetadataAppend(claims: seq<Claim>, i: nat, now: int, ttl: Ttl)
    requires i < |claims|
    ensures MetadataEvents(claims[..i + 1], now, ttl)
         == MetadataEvents(claims[..i], now, ttl) + [At(now, Metadata(claims[i], ttl))]
  {
  }

  function MetadataEvents(claims: seq<Claim>, now: int, ttl: Ttl): seq<Event> {
    seq(|claims|, k requires 0 <= k < |claims| => At(now, Metadata(claims[k], ttl)))
  }
}
