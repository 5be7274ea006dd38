/**
 * The names under which the services share state in Redis. All families live
 * in one key space, so representing them as separate maps is only faithful if
 * no two keys ever print alike: PrintInjective.
 */
module Keys {

  datatype Key =
    | SeatLock(schedule: int, seat: int)
    | SeatContext(schedule: int, seat: int, user: int)
    | RoomLocks(schedule: int)
    | UserLocks(schedule: int, user: int)
    | SeatsBitmap(schedule: int)
    | ProcessingQueue
    | ProcessingStream
    | QueueLock
    | ScheduleClosed(schedule: int)
    | SeatCheckout(schedule: int, seat: int)
    | UpdaterLeader

  function Digits(n: nat): string {
    if n < 10 then [DIGITS[n]] else Digits(n / 10) + [DIGITS[n % 10]]
  }

  const DIGITS := "0123456789"

  /** Rust's `{}` on an integer. */
  function PrintInt(i: int): string {
    if i < 0 then "-" + Digits(-i) else Digits(i)
  }

  function Print(k: Key): string {
    match k
    case SeatLock(s, t) => PrintInt(s) + ":" + PrintInt(t)
    case SeatContext(s, t, u) => "seat_ctx:{" + (PrintInt(s) + "}" + (":" + (PrintInt(t) + ":" + PrintInt(u))))
    case RoomLocks(s) => "{" + (PrintInt(s) + "}" + ":locks")
    case UserLocks(s, u) => "{" + (PrintInt(s) + "}" + (":user:" + PrintInt(u)))
    case SeatsBitmap(s) => "{" + (PrintInt(s) + "}" + ":seats_bitmap")
    case ProcessingQueue => "cache:seat_processing:queue"
    case ProcessingStream => "cache:seat_processing:stream"
    case QueueLock => "lock:seat_processing:queue"
    case ScheduleClosed(s) => "schedule:closed:" + PrintInt(s)
    case SeatCheckout(s, t) => "seat_checkout:" + (PrintInt(s) + ":" + PrintInt(t))
    case UpdaterLeader => "lock_server:layout_updater_leader"
  }

  // ------------------------------------------------------------ decimal text

  predicate IsDigit(c: char) {
    '0' <= c <= '9'
  }

  function Value(s: string): int {
    if s == [] then 0 else Value(s[..|s| - 1]) * 10 + (s[|s| - 1] as int - '0' as int)
  }

  lemma {:induction false} DigitsRead(n: nat)
    ensures Digits(n) != [] && (forall c :: c in Digits(n) ==> IsDigit(c))
    ensures Value(Digits(n)) == n
  {
    if n >= 10 {
      DigitsRead(n / 10);
      assert Digits(n)[..|Digits(n)| - 1] == Digits(n / 10);
      assert IsDigit(DIGITS[n % 10]);
    } else {
      assert Digits(n)[..0] == [];
    }
  }

  lemma PrintIntShape(i: int)
    ensures PrintInt(i) != [] && (PrintInt(i)[0] == '-' <==> i < 0)
    ensures forall c :: c in PrintInt(i) ==> IsDigit(c) || c == '-'
  {
    var d := Digits(if i < 0 then -i else i);
    DigitsRead(if i < 0 then -i else i);
    assert d[0] in d;
  }

  lemma PrintIntInjective(a: int, b: int)
    requires PrintInt(a) == PrintInt(b)
    ensures a == b
  {
    PrintIntShape(a);
    PrintIntShape(b);
    DigitsRead(if a < 0 then -a else a);
    DigitsRead(if b < 0 then -b else b);
    if a < 0 {
      assert PrintInt(a)[1..] == Digits(-a) && PrintInt(b)[1..] == Digits(-b);
    }
  }

  // ------------------------------------------------------------- composition

  function Cut(s: string, c: char): nat {
    if s == [] || s[0] == c then 0 else 1 + Cut(s[1..], c)
  }

  lemma {:induction false} CutAtSeparator(a: string, c: char, x: string)
    requires c !in a
    ensures Cut(a + [c] + x, c) == |a|
  {
    if a != [] {
      CutAtSeparator(a[1..], c, x);
      assert (a + [c] + x)[1..] == a[1..] + [c] + x;
    }
  }

  /** A separator that the first part cannot contain makes a pair readable again. */
  lemma SeparatorSplits(a: string, b: string, c: char, x: string, y: string)
    requires c !in a && c !in b
    requires a + [c] + x == b + [c] + y
    ensures a == b && x == y
  {
    var s := a + [c] + x;
    CutAtSeparator(a, c, x);
    CutAtSeparator(b, c, y);
    assert a == s[..|a|] && b == s[..|a|];
    assert x == s[|a| + 1..] && y == s[|a| + 1..];
  }

  lemma IntThen(i: int, j: int, c: char, x: string, y: string)
    requires !IsDigit(c) && c != '-'
    requires PrintInt(i) + [c] + x == PrintInt(j) + [c] + y
    ensures i == j && x == y
  {
    PrintIntShape(i);
    PrintIntShape(j);
    SeparatorSplits(PrintInt(i), PrintInt(j), c, x, y);
    PrintIntInjective(i, j);
  }

  lemma SamePrefix(p: string, x: string, y: string)
    requires p + x == p + y
    ensures x == y
  {
    assert x == (p + x)[|p|..];
    assert y == (p + y)[|p|..];
  }

  function Opening(k: Key): string {
    match k
    case SeatLock(_, _) => ""
    case SeatContext(_, _, _) => "seat_ctx"
    case RoomLocks(_) => "{"
    case UserLocks(_, _) => "{"
    case SeatsBitmap(_) => "{"
    case ProcessingQueue => "cache:se"
    case ProcessingStream => "cache:se"
    case QueueLock => "lock:sea"
    case ScheduleClosed(_) => "schedule"
    case SeatCheckout(_, _) => "seat_che"
    case UpdaterLeader => "lock_ser"
  }

  lemma PrintOpens(k: Key)
    ensures Opening(k) <= Print(k)
    ensures k.SeatLock? ==> Print(k) != [] && (IsDigit(Print(k)[0]) || Print(k)[0] == '-')
  {
    if k.SeatLock? {
      PrintIntShape(k.schedule);
      assert Print(k)[0] == PrintInt(k.schedule)[0];
    } else {
      NamedOpens(k);
    }
  }

  lemma NamedOpens(k: Key)
    requires !k.SeatLock?
    ensures Opening(k) <= Print(k)
  {
  }

  lemma TwoOpenings(p: string, q: string, s: string)
    requires p <= s && q <= s
    ensures forall i :: 0 <= i < |p| && i < |q| ==> p[i] == q[i]
  {
  }

  predicate Braced(k: Key) {
    k.RoomLocks? || k.UserLocks? || k.SeatsBitmap?
  }

  lemma OpeningsDecide(a: Key, b: Key)
    requires Print(a) == Print(b)
    requires !Braced(a)
    ensures Opening(a) == Opening(b)
  {
    PrintOpens(a);
    PrintOpens(b);
    TwoOpenings(Opening(a), Opening(b), Print(a));
    if !a.SeatLock? && !b.SeatLock? {
      assert Opening(a)[0] == Opening(b)[0];
      if !Braced(b) {
        assert Opening(a)[1] == Opening(b)[1];
        assert Opening(a)[4] == Opening(b)[4] && Opening(a)[6] == Opening(b)[6];
      }
    }
  }

  function BracedRest(k: Key): string
    requires Braced(k)
  {
    match k
    case RoomLocks(s) => ":locks"
    case UserLocks(s, u) => ":user:" + PrintInt(u)
    case SeatsBitmap(s) => ":seats_bitmap"
  }

  lemma BracedInjective(a: Key, b: Key)
    requires Braced(a) && Braced(b) && Print(a) == Print(b)
    ensures a == b
  {
    SamePrefix("{", PrintInt(a.schedule) + "}" + BracedRest(a), PrintInt(b.schedule) + "}" + BracedRest(b));
    IntThen(a.schedule, b.schedule, '}', BracedRest(a), BracedRest(b));
    BracedRestInjective(a, b);
  }

  lemma BracedRestInjective(a: Key, b: Key)
    requires Braced(a) && Braced(b) && a.schedule == b.schedule && BracedRest(a) == BracedRest(b)
    ensures a == b
  {
    assert BracedRest(a)[1] == BracedRest(b)[1];
    if a.UserLocks? {
      SamePrefix(":user:", PrintInt(a.user), PrintInt(b.user));
      PrintIntInjective(a.user, b.user);
    }
  }

  /** Distinct keys never share a name, within a family or across families. */
  lemma PrintInjective(a: Key, b: Key)
    ensures Print(a) == Print(b) <==> a == b
  {
    if Print(a) == Print(b) {
      if Braced(a) && Braced(b) {
        BracedInjective(a, b);
      } else {
        if Braced(a) { OpeningsDecide(b, a); } else { OpeningsDecide(a, b); }
        SameFamilyInjective(a, b);
      }
    }
  }

  lemma SeatContextInjective(s: int, t: int, u: int, s': int, t': int, u': int)
    requires Print(SeatContext(s, t, u)) == Print(SeatContext(s', t', u'))
    ensures s == s' && t == t' && u == u'
  {
    var x, y := ":" + (PrintInt(t) + ":" + PrintInt(u)), ":" + (PrintInt(t') + ":" + PrintInt(u'));
    SamePrefix("seat_ctx:{", PrintInt(s) + "}" + x, PrintInt(s') + "}" + y);
    IntThen(s, s', '}', x, y);
    SamePrefix(":", PrintInt(t) + ":" + PrintInt(u), PrintInt(t') + ":" + PrintInt(u'));
    IntThen(t, t', ':', PrintInt(u), PrintInt(u'));
    PrintIntInjective(u, u');
  }

  lemma SameFamilyInjective(a: Key, b: Key)
    requires Print(a) == Print(b) && Opening(a) == Opening(b) && !Braced(a)
    ensures a == b
  {
    match a
    case SeatLock(s, t) =>
      assert b.SeatLock?;
      IntThen(s, b.schedule, ':', PrintInt(t), PrintInt(b.seat));
      PrintIntInjective(t, b.seat);
    case SeatContext(s, t, u) =>
      assert Opening(b)[6] == 't';
      assert b.SeatContext?;
      SeatContextInjective(s, t, u, b.schedule, b.seat, b.user);
    case ScheduleClosed(s) =>
      assert Opening(b)[1] == 'c';
      assert b.ScheduleClosed?;
      SamePrefix("schedule:closed:", PrintInt(s), PrintInt(b.schedule));
      PrintIntInjective(s, b.schedule);
    case SeatCheckout(s, t) =>
      assert Opening(b)[6] == 'h';
      assert b.SeatCheckout?;
      SamePrefix("seat_checkout:", PrintInt(s) + ":" + PrintInt(t), PrintInt(b.schedule) + ":" + PrintInt(b.seat));
      IntThen(s, b.schedule, ':', PrintInt(t), PrintInt(b.seat));
      PrintIntInjective(t, b.seat);
    case ProcessingQueue =>
      assert Opening(b)[0] == 'c';
      assert |Print(a)| == 27 && |Print(b)| == |Print(a)|;
    case ProcessingStream =>
      assert Opening(b)[0] == 'c';
      assert |Print(a)| == 28 && |Print(b)| == |Print(a)|;
    case QueueLock =>
      assert Opening(b)[4] == ':';
    case UpdaterLeader =>
      assert Opening(b)[4] == '_';
  }

  // ---------------------------------------------------------------- hash tags

  /** What a Redis cluster hashes of a key with braces: the text between them. */
  function HashTag(s: string): string {
    var open := Cut(s, '{');
    if open >= |s| then s else var rest := s[open + 1..]; if Cut(rest, '}') <= |rest| then rest[..Cut(rest, '}')] else rest
  }

  lemma {:induction false} CutPrefix(p: string, c: char, x: string)
    requires c !in p
    ensures Cut(p + [c] + x, c) == |p|
  {
    CutAtSeparator(p, c, x);
  }

  lemma TagBetween(p: string, d: string, x: string)
    requires '{' !in p && '}' !in d
    ensures HashTag(p + "{" + d + "}" + x) == d
  {
    var s := p + "{" + d + "}" + x;
    assert s == p + ['{'] + (d + "}" + x);
    CutPrefix(p, '{', d + "}" + x);
    assert s[|p| + 1..] == d + ['}'] + x;
    CutPrefix(d, '}', x);
  }

  /** The context keys, the sets and the bitmap of a schedule carry one hash tag, the schedule's
      number, as their printer promises. */
  lemma OneHashTag(schedule: int, seat: int, user: int)
    ensures HashTag(Print(SeatContext(schedule, seat, user))) == PrintInt(schedule)
    ensures HashTag(Print(RoomLocks(schedule))) == PrintInt(schedule)
    ensures HashTag(Print(UserLocks(schedule, user))) == PrintInt(schedule)
    ensures HashTag(Print(SeatsBitmap(schedule))) == PrintInt(schedule)
  {
    BracedTag(schedule, ":locks");
    BracedTag(schedule, ":user:" + PrintInt(user));
    BracedTag(schedule, ":seats_bitmap");
    ContextTag(schedule, seat, user);
  }

  lemma BracedTag(schedule: int, rest: string)
    ensures HashTag("{" + (PrintInt(schedule) + "}" + rest)) == PrintInt(schedule)
  {
    PrintIntShape(schedule);
    TagBetween("", PrintInt(schedule), rest);
    assert "" + "{" + PrintInt(schedule) + "}" + rest == "{" + (PrintInt(schedule) + "}" + rest);
  }

  lemma ContextTag(schedule: int, seat: int, user: int)
    ensures HashTag(Print(SeatContext(schedule, seat, user))) == PrintInt(schedule)
  {
    PrintIntShape(schedule);
    NamedTag(PrintInt(schedule), ":" + (PrintInt(seat) + ":" + PrintInt(user)));
  }

  lemma NamedTag(d: string, rest: string)
    requires '}' !in d
    ensures HashTag("seat_ctx:{" + (d + "}" + rest)) == d
  {
    TagBetween("seat_ctx:", d, rest);
    assert "seat_ctx:" + "{" == "seat_ctx:{";
    assert "seat_ctx:" + "{" + d + "}" + rest == "seat_ctx:{" + (d + "}" + rest);
  }

  lemma SmallNumbers()
    ensures PrintInt(1) == "1" && PrintInt(23) == "23" && PrintInt(-4) == "-4"
  {
    assert Digits(1) == "1" && Digits(4) == "4";
    assert Digits(2) == "2" && Digits(23) == "2" + "3";
  }

  /** One name of each family, letter by letter. */
  lemma NamesAre()
    ensures Print(SeatLock(1, 23)) == "1:23" && Print(RoomLocks(1)) == "{1}:locks" && Print(SeatsBitmap(1)) == "{1}:seats_bitmap"
    ensures Print(ScheduleClosed(1)) == "schedule:closed:1" && CheckoutOwner(1, "k") == "1:k" && RoomChannel(1) == "room:1"
  {
    SmallNumbers();
  }

  lemma ContextNameIs()
    ensures Print(SeatContext(1, 23, -4)) == "seat_ctx:{1}:23:-4"
  {
    SmallNumbers();
    assert PrintInt(23) + ":" + PrintInt(-4) == "23:-4";
    assert ":" + (PrintInt(23) + ":" + PrintInt(-4)) == ":23:-4";
    assert PrintInt(1) + "}" + (":" + (PrintInt(23) + ":" + PrintInt(-4))) == "1}:23:-4";
  }

  lemma UserNameIs()
    ensures Print(UserLocks(1, 23)) == "{1}:user:23"
  {
    SmallNumbers();
    assert PrintInt(1) + "}" + (":user:" + PrintInt(23)) == "1}:user:23";
  }

  lemma CheckoutNameIs()
    ensures Print(SeatCheckout(1, 23)) == "seat_checkout:1:23"
  {
    SmallNumbers();
    assert PrintInt(1) + ":" + PrintInt(23) == "1:23";
  }

  // ----------------------------------------------------------- other printers

  /** The owner text of a checkout reservation. */
  function CheckoutOwner(user: int, idempotencyKey: string): string {
    PrintInt(user) + ":" + idempotencyKey
  }

  /** Two payment requests write the same owner only for one user and one idempotency key. */
  lemma CheckoutOwnerInjective(u: int, k: string, v: int, l: string)
    ensures CheckoutOwner(u, k) == CheckoutOwner(v, l) <==> u == v && k == l
  {
    if CheckoutOwner(u, k) == CheckoutOwner(v, l) {
      IntThen(u, v, ':', k, l);
    }
  }

  function RoomChannel(schedule: int): string {
    "room:" + PrintInt(schedule)
  }

  /** `split(':').nth(1)` */
  function SecondPart(s: string): string {
    var rest := After(s);
    Before(rest)
  }

  function After(s: string): string {
    if s == [] then [] else if s[0] == ':' then s[1..] else After(s[1..])
  }

  function Before(s: string): string {
    if s == [] || s[0] == ':' then [] else [s[0]] + Before(s[1..])
  }

  function ParseInt(s: string): int {
    if s != [] && s[0] == '-' then -Value(s[1..]) else Value(s)
  }

  lemma {:induction false} BeforeWhole(s: string)
    requires ':' !in s
    ensures Before(s) == s
  {
    if s != [] {
      BeforeWhole(s[1..]);
    }
  }

  /** The gateway reads back from a room's channel name the schedule it was made for. */
  lemma RoomChannelRoundTrip(schedule: int)
    ensures ParseInt(SecondPart(RoomChannel(schedule))) == schedule
  {
    var d := PrintInt(schedule);
    var s := RoomChannel(schedule);
    PrintIntShape(schedule);
    assert s[1..][1..][1..][1..] == ":" + d;
    assert After(s[1..][1..][1..][1..]) == d;
    assert After(s[1..][1..]) == d;
    assert After(s) == d;
    BeforeWhole(d);
    DigitsRead(if schedule < 0 then -schedule else schedule);
    if schedule < 0 {
      assert d[1..] == Digits(-schedule);
    }
  }
}
