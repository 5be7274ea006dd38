/**
 * The gateway's sliding-window limiter: a sorted set that is trimmed on every
 * check and expires as a whole. It is proved to decide as a log of all
 * admissions that is never trimmed and never lost, exactly as long as no
 * admission draws a member that the set still holds.
 */
module SlidingWindow {

  type Member = nat

  datatype Window = Window(limit: int, lengthMs: int)

  /** The sorted set (member to score) and the time its key lapses. */
  datatype State = State(entries: map<Member, int>, deadline: int)

  datatype Event = Check(now: int, member: Member)

  const INIT := State(map[], 0)

  function After(entries: map<Member, int>, t: int): map<Member, int> {
    map m | m in entries && entries[m] > t :: entries[m]
  }

  function Visible(s: State, now: int): map<Member, int> {
    if now < s.deadline then s.entries else map[]
  }

  function Kept(w: Window, s: State, now: int): map<Member, int> {
    After(Visible(s, now), now - w.lengthMs)
  }

  function Allowed(w: Window, s: State, now: int): bool {
    |Kept(w, s, now)| < w.limit
  }

  function Step(w: Window, s: State, ev: Event): State {
    var kept := Kept(w, s, ev.now);
    if |kept| < w.limit then State(kept[ev.member := ev.now], ev.now + 2 * w.lengthMs) else s.(entries := kept)
  }

  function Exec(w: Window, run: seq<Event>): State {
    if run == [] then INIT else Step(w, Exec(w, run[..|run| - 1]), run[|run| - 1])
  }

  function AllowedAt(w: Window, run: seq<Event>, k: nat): bool
    requires k < |run|
  {
    Allowed(w, Exec(w, run[..k]), run[k].now)
  }

  // -------------------------------------------------------- the reference log

  /** How many of the times lie after t. */
  function CountAfter(log: seq<int>, t: int): nat {
    if log == [] then 0
    else CountAfter(log[..|log| - 1], t) + if log[|log| - 1] > t then 1 else 0
  }

  /** How many of the times lie in (a, b]. */
  function CountIn(log: seq<int>, a: int, b: int): nat {
    if log == [] then 0
    else CountIn(log[..|log| - 1], a, b) + if a < log[|log| - 1] <= b then 1 else 0
  }

  function LogStep(w: Window, log: seq<int>, now: int): seq<int> {
    if CountAfter(log, now - w.lengthMs) < w.limit then log + [now] else log
  }

  /** The admissions of a limiter that remembers every one of them. */
  function FullLog(w: Window, run: seq<Event>): seq<int> {
    if run == [] then []
    else LogStep(w, FullLog(w, run[..|run| - 1]), run[|run| - 1].now)
  }

  ghost predicate Monotone(run: seq<Event>) {
    forall i, j :: 0 <= i < j < |run| ==> run[i].now <= run[j].now
  }

  // -------------------------------------------------------------------- proof

  /** Scores are past times, and the set outlives each of them by two windows. */
  ghost predicate StateOk(w: Window, s: State, now: int) {
    forall m :: m in s.entries ==> s.entries[m] <= now && s.entries[m] + 2 * w.lengthMs <= s.deadline
  }

  /** The expiry of the key takes nothing that trimming would have left. */
  lemma ExpiryIdle(w: Window, s: State, now: int, later: int)
    requires StateOk(w, s, now) && now <= later
    ensures Kept(w, s, later) == After(s.entries, later - w.lengthMs)
  {
    if later >= s.deadline {
      assert After(s.entries, later - w.lengthMs) == map[];
    }
  }

  lemma StateStep(w: Window, s: State, ev: Event)
    requires StateOk(w, s, ev.now)
    ensures StateOk(w, Step(w, s, ev), ev.now)
  {
  }

  /** From now on, the set and the log count the same. */
  ghost predicate Agrees(w: Window, s: State, log: seq<int>, now: int) {
    forall later :: now <= later ==> SameCount(w, s, log, later)
  }

  predicate SameCount(w: Window, s: State, log: seq<int>, later: int) {
    |After(s.entries, later - w.lengthMs)| == CountAfter(log, later - w.lengthMs)
  }

  /** An admission that the set does not count, since it holds the member already. */
  predicate Uncounted(w: Window, s: State, ev: Event) {
    Allowed(w, s, ev.now) && ev.member in Kept(w, s, ev.now)
  }

  lemma AfterTwice(entries: map<Member, int>, t: int, u: int)
    requires t <= u
    ensures After(After(entries, t), u) == After(entries, u)
  {
  }

  lemma AfterAdded(entries: map<Member, int>, m: Member, now: int, t: int)
    requires m !in After(entries, t)
    ensures |After(entries[m := now], t)| == |After(entries, t)| + if now > t then 1 else 0
  {
    assert After(entries[m := now], t) == if now > t then After(entries, t)[m := now] else After(entries, t);
    assert now > t ==> After(entries, t)[m := now].Keys == After(entries, t).Keys + {m};
    KeysCount(After(entries, t));
    KeysCount(After(entries, t)[m := now]);
  }

  lemma KeysCount(entries: map<Member, int>)
    ensures |entries.Keys| == |entries|
  {
  }

  lemma CountAppended(log: seq<int>, now: int, t: int)
    ensures CountAfter(log + [now], t) == CountAfter(log, t) + if now > t then 1 else 0
  {
    assert (log + [now])[..|log|] == log;
  }

  lemma CountedAdmission(w: Window, s: State, log: seq<int>, ev: Event)
    requires StateOk(w, s, ev.now) && Agrees(w, s, log, ev.now)
    requires Allowed(w, s, ev.now) && ev.member !in Kept(w, s, ev.now)
    ensures Agrees(w, Step(w, s, ev), log + [ev.now], ev.now)
  {
    var kept := After(s.entries, ev.now - w.lengthMs);
    ExpiryIdle(w, s, ev.now, ev.now);
    forall later | ev.now <= later
      ensures SameCount(w, Step(w, s, ev), log + [ev.now], later)
    {
      assert SameCount(w, s, log, later);
      AfterTwice(s.entries, ev.now - w.lengthMs, later - w.lengthMs);
      AfterAdded(kept, ev.member, ev.now, later - w.lengthMs);
      CountAppended(log, ev.now, later - w.lengthMs);
    }
  }

  lemma UncountedAdmission(w: Window, s: State, log: seq<int>, ev: Event)
    requires StateOk(w, s, ev.now) && Agrees(w, s, log, ev.now) && Uncounted(w, s, ev)
    ensures !Agrees(w, Step(w, s, ev), log + [ev.now], ev.now)
  {
    var t := ev.now - w.lengthMs;
    var kept := After(s.entries, t);
    ExpiryIdle(w, s, ev.now, ev.now);
    assert After(kept[ev.member := ev.now], t) == kept[ev.member := ev.now];
    assert kept[ev.member := ev.now].Keys == kept.Keys;
    KeysCount(kept);
    KeysCount(kept[ev.member := ev.now]);
    CountAppended(log, ev.now, t);
    assert SameCount(w, s, log, ev.now) && !SameCount(w, Step(w, s, ev), log + [ev.now], ev.now);
  }

  lemma DenialAgrees(w: Window, s: State, log: seq<int>, ev: Event)
    requires StateOk(w, s, ev.now) && Agrees(w, s, log, ev.now) && !Allowed(w, s, ev.now)
    ensures Agrees(w, Step(w, s, ev), log, ev.now)
  {
    ExpiryIdle(w, s, ev.now, ev.now);
    forall later | ev.now <= later
      ensures SameCount(w, Step(w, s, ev), log, later)
    {
      assert SameCount(w, s, log, later);
      AfterTwice(s.entries, ev.now - w.lengthMs, later - w.lengthMs);
    }
  }

  /** A check keeps the set counting like the log if and only if it is not an uncounted admission;
      its own decision is the log's in any case. */
  lemma StepAgreesIff(w: Window, s: State, log: seq<int>, ev: Event)
    requires StateOk(w, s, ev.now) && Agrees(w, s, log, ev.now)
    ensures Allowed(w, s, ev.now) <==> CountAfter(log, ev.now - w.lengthMs) < w.limit
    ensures Agrees(w, Step(w, s, ev), LogStep(w, log, ev.now), ev.now) <==> !Uncounted(w, s, ev)
  {
    ExpiryIdle(w, s, ev.now, ev.now);
    assert SameCount(w, s, log, ev.now);
    if !Allowed(w, s, ev.now) {
      DenialAgrees(w, s, log, ev);
    } else if ev.member in Kept(w, s, ev.now) {
      UncountedAdmission(w, s, log, ev);
    } else {
      CountedAdmission(w, s, log, ev);
    }
  }

  // ------------------------------------------------------------------ over runs

  lemma {:induction false} StateInRuns(w: Window, run: seq<Event>, now: int)
    requires Monotone(run) && (run != [] ==> run[|run| - 1].now <= now)
    ensures StateOk(w, Exec(w, run), now)
  {
    if run != [] {
      var n := |run| - 1;
      assert n > 0 ==> run[..n][n - 1] == run[n - 1];
      StateInRuns(w, run[..n], run[n].now);
      StateStep(w, Exec(w, run[..n]), run[n]);
    }
  }

  /** After the first n checks the set counts like the log. */
  ghost predicate AgreesAfter(w: Window, run: seq<Event>, n: nat)
    requires n <= |run|
  {
    n > 0 ==> Agrees(w, Exec(w, run[..n]), FullLog(w, run[..n]), run[n - 1].now)
  }

  predicate UncountedAt(w: Window, run: seq<Event>, k: nat)
    requires k < |run|
  {
    Uncounted(w, Exec(w, run[..k]), run[k])
  }

  ghost predicate AllCounted(w: Window, run: seq<Event>) {
    forall k: nat :: k < |run| ==> !UncountedAt(w, run, k)
  }

  lemma StateNow(w: Window, run: seq<Event>, k: nat)
    requires Monotone(run) && k < |run|
    ensures StateOk(w, Exec(w, run[..k]), run[k].now)
  {
    assert k > 0 ==> run[..k][k - 1] == run[k - 1];
    StateInRuns(w, run[..k], run[k].now);
  }

  lemma AgreesNow(w: Window, run: seq<Event>, k: nat)
    requires Monotone(run) && k < |run| && AgreesAfter(w, run, k)
    ensures Agrees(w, Exec(w, run[..k]), FullLog(w, run[..k]), run[k].now)
  {
    if k == 0 {
      assert run[..0] == [];
      NothingAgrees(w, run[0].now);
    } else {
      AgreesLater(w, Exec(w, run[..k]), FullLog(w, run[..k]), run[k - 1].now, run[k].now);
    }
  }

  lemma AgreesLater(w: Window, s: State, log: seq<int>, now: int, later: int)
    requires Agrees(w, s, log, now) && now <= later
    ensures Agrees(w, s, log, later)
  {
  }

  lemma AgreesAfterStep(w: Window, run: seq<Event>, k: nat)
    requires Monotone(run) && k < |run| && AgreesAfter(w, run, k)
    ensures AllowedAt(w, run, k) <==> CountAfter(FullLog(w, run[..k]), run[k].now - w.lengthMs) < w.limit
    ensures AgreesAfter(w, run, k + 1) <==> !UncountedAt(w, run, k)
  {
    StateNow(w, run, k);
    AgreesNow(w, run, k);
    StepAgreesIff(w, Exec(w, run[..k]), FullLog(w, run[..k]), run[k]);
    assert run[..k + 1][..k] == run[..k];
  }

  lemma NothingAgrees(w: Window, now: int)
    ensures Agrees(w, INIT, [], now)
  {
    forall later
      ensures SameCount(w, INIT, [], later)
    {
      assert After(INIT.entries, later - w.lengthMs) == map[];
    }
  }

  lemma {:induction false} AgreesUpTo(w: Window, run: seq<Event>, n: nat)
    requires Monotone(run) && n <= |run| && forall k: nat :: k < n ==> !UncountedAt(w, run, k)
    ensures AgreesAfter(w, run, n)
  {
    if n > 0 {
      AgreesUpTo(w, run, n - 1);
      AgreesAfterStep(w, run, n - 1);
    }
  }

  // ---------------------------------------------------------------- theorems

  /** Over every run with a monotone clock, whatever members are drawn: the set always counts the
      admissions of the window if and only if none draws a member the set still holds. */
  lemma CountsExactlyIff(w: Window, run: seq<Event>)
    requires Monotone(run)
    ensures (forall n: nat :: n <= |run| ==> AgreesAfter(w, run, n)) <==> AllCounted(w, run)
  {
    if forall n: nat :: n <= |run| ==> AgreesAfter(w, run, n) {
      forall k: nat | k < |run|
        ensures !UncountedAt(w, run, k)
      {
        assert AgreesAfter(w, run, k) && AgreesAfter(w, run, k + 1);
        AgreesAfterStep(w, run, k);
      }
    }
    if AllCounted(w, run) {
      forall n: nat | n <= |run|
        ensures AgreesAfter(w, run, n)
      {
        AgreesUpTo(w, run, n);
      }
    }
  }

  /** Up to the first uncounted admission, a check passes exactly when fewer than `limit` of all
      admissions so far lie in (now - W, now]; trimming and key expiry never change an answer. */
  lemma DecidesLikeFullLog(w: Window, run: seq<Event>, k: nat)
    requires Monotone(run) && k < |run| && forall j: nat :: j < k ==> !UncountedAt(w, run, j)
    ensures AllowedAt(w, run, k) <==> CountAfter(FullLog(w, run[..k]), run[k].now - w.lengthMs) < w.limit
  {
    AgreesUpTo(w, run, k);
    AgreesAfterStep(w, run, k);
  }

  /** How many checks passed at a time in (a, b]. */
  function PassedIn(w: Window, run: seq<Event>, a: int, b: int): nat {
    if run == [] then 0
    else
      var n := |run| - 1;
      PassedIn(w, run[..n], a, b) + if a < run[n].now <= b && AllowedAt(w, run, n) then 1 else 0
  }

  lemma {:induction false} InNotMoreThanAfter(log: seq<int>, a: int, b: int, t: int)
    requires t <= a
    ensures CountIn(log, a, b) <= CountAfter(log, t)
  {
    if log != [] {
      InNotMoreThanAfter(log[..|log| - 1], a, b, t);
    }
  }

  lemma {:induction false} LogNeverExceeds(w: Window, run: seq<Event>, a: int)
    requires w.limit >= 0
    ensures CountIn(FullLog(w, run), a, a + w.lengthMs) <= w.limit
  {
    if run != [] {
      var log, now := FullLog(w, run[..|run| - 1]), run[|run| - 1].now;
      LogNeverExceeds(w, run[..|run| - 1], a);
      assert (log + [now])[..|log|] == log;
      if a < now <= a + w.lengthMs {
        InNotMoreThanAfter(log, a, a + w.lengthMs, now - w.lengthMs);
      }
    }
  }

  lemma {:induction false} PassedAreLogged(w: Window, run: seq<Event>, a: int, b: int)
    requires Monotone(run) && AllCounted(w, run)
    ensures PassedIn(w, run, a, b) == CountIn(FullLog(w, run), a, b)
  {
    if run != [] {
      var n := |run| - 1;
      var before := run[..n];
      assert forall k: nat :: k < n ==> before[..k] == run[..k];
      assert forall k: nat :: k < n ==> (UncountedAt(w, before, k) <==> UncountedAt(w, run, k));
      PassedAreLogged(w, before, a, b);
      DecidesLikeFullLog(w, run, n);
      var log := FullLog(w, before);
      assert (log + [run[n].now])[..|log|] == log;
    }
  }

  /** While every admission is counted, no window of the configured length, wherever it starts,
      sees more than `limit` checks pass. */
  lemma WindowNeverExceeds(w: Window, run: seq<Event>, a: int)
    requires Monotone(run) && AllCounted(w, run) && w.limit >= 0
    ensures PassedIn(w, run, a, a + w.lengthMs) <= w.limit
  {
    PassedAreLogged(w, run, a, a + w.lengthMs);
    LogNeverExceeds(w, run, a);
  }

  lemma {:induction false} EntriesAreChecks(w: Window, run: seq<Event>, m: Member)
    requires m in Exec(w, run).entries
    ensures exists i :: 0 <= i < |run| && run[i] == Check(Exec(w, run).entries[m], m)
  {
    var n := |run| - 1;
    if run[n] != Check(Exec(w, run).entries[m], m) {
      EntriesAreChecks(w, run[..n], m);
    }
  }

  /** Members that do not repeat within a window's length are all counted. */
  lemma SpacedMembersCounted(w: Window, run: seq<Event>)
    requires Monotone(run)
    requires forall i, j :: 0 <= i < j < |run| && run[i].member == run[j].member ==> run[i].now <= run[j].now - w.lengthMs
    ensures AllCounted(w, run)
  {
    forall k: nat | k < |run|
      ensures !UncountedAt(w, run, k)
    {
      var s, m := Exec(w, run[..k]), run[k].member;
      if m in s.entries {
        EntriesAreChecks(w, run[..k], m);
        var i :| 0 <= i < k && run[..k][i] == Check(s.entries[m], m);
        assert run[i].now <= run[k].now - w.lengthMs;
      }
    }
  }

  /** Two checks that draw the same member in one millisecond count once, and a third passes under a limit of two. */
  lemma RepeatedMemberAdmitsMore()
    ensures var run := [Check(0, 1), Check(0, 1), Check(0, 2)];
            var w := Window(2, 1000);
            AllowedAt(w, run, 0) && AllowedAt(w, run, 1) && AllowedAt(w, run, 2)
  {
    var w := Window(2, 1000);
    var run := [Check(0, 1), Check(0, 1), Check(0, 2)];
    assert run[..2] == [Check(0, 1), Check(0, 1)] && run[..2][..1] == [Check(0, 1)] && run[..1] == [Check(0, 1)] && run[..0] == [];
    assert Kept(w, INIT, 0) == map[];
    assert Exec(w, run[..1]) == State(map[1 := 0], 2000);
    assert Kept(w, Exec(w, run[..1]), 0) == map[1 := 0];
    assert Exec(w, run[..2]) == State(map[1 := 0], 2000);
  }

  // ----------------------------------------------------------------- the code

  class Limiter {
    const window: Window
    var entries: map<Member, int>
    var deadline: int

    ghost function View(): State
      reads this
    {
      State(entries, deadline)
    }

    constructor (limit: int, lengthMs: int)
      ensures window == Window(limit, lengthMs) && View() == INIT
    {
      window := Window(limit, lengthMs);
      entries, deadline := map[], 0;
    }

    method CheckSlidingWindow(now: int, member: Member) returns (allowed: bool, count: int, resetAt: int)
      modifies this
      ensures View() == Step(window, old(View()), Check(now, member))
      ensures allowed == Allowed(window, old(View()), now)
      ensures count == |Kept(window, old(View()), now)| + if allowed then 1 else 0
      ensures resetAt == now + window.lengthMs
    {
      if now >= deadline {
        entries := map[];
      }
      entries := map m | m in entries && entries[m] > now - window.lengthMs :: entries[m];
      count := |entries|;
      allowed := count < window.limit;
      resetAt := now + window.lengthMs;
      if allowed {
        entries, deadline := entries[member := now], now + 2 * window.lengthMs;
        count := count + 1;
      }
    }
  }
}
