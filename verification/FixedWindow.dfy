/**
 * The HTTP server's fixed-window limiter: a counter and a window start per
 * client. Times are in nanoseconds, the resolution of the clock it reads.
 */
module FixedWindow {
  import opened Wrappers

  datatype Entry = Entry(count: nat, start: int)

  const MAX_REQUESTS := 500
  const HOUR := 3600 * 1_000_000_000
  const U32 := 0x1_0000_0000

  /** One request: the entry is made or restarted, then counted. */
  function Step(e: Option<Entry>, now: int): Entry {
    var entry := if e.None? then Entry(0, now) else e.value;
    var current := if now - entry.start > HOUR then Entry(0, now) else entry;
    current.(count := (current.count + 1) % U32)
  }

  function Exec(times: seq<int>): Option<Entry> {
    if times == [] then None else Some(Step(Exec(times[..|times| - 1]), times[|times| - 1]))
  }

  /** The k-th request goes through. */
  predicate Passes(times: seq<int>, k: nat)
    requires k < |times|
  {
    Step(Exec(times[..k]), times[k]).count <= MAX_REQUESTS
  }

  /** How many of the requests made in [a, b] went through. */
  function PassedIn(times: seq<int>, a: int, b: int): nat {
    if times == [] then 0
    else
      var n := |times| - 1;
      PassedIn(times[..n], a, b) + if a <= times[n] <= b && Passes(times, n) then 1 else 0
  }

  ghost predicate Monotone(times: seq<int>) {
    forall i, j :: 0 <= i < j < |times| ==> times[i] <= times[j]
  }

  function Min(a: int, b: int): int {
    if a < b then a else b
  }

  /** Why two windows can meet an interval but not fill it: the first request of
      a window that began before the interval is outside it. */
  lemma {:induction false} PassedBound(times: seq<int>, a: int, b: int)
    requires Monotone(times) && |times| < U32 && b - a <= HOUR
    requires times != [] ==> times[|times| - 1] <= b
    ensures times == [] ==> PassedIn(times, a, b) == 0
    ensures times != [] ==>
      var e := Exec(times).value;
      && 1 <= e.count <= |times| && e.start <= times[|times| - 1]
      && (times[|times| - 1] < a ==> PassedIn(times, a, b) == 0)
      && PassedIn(times, a, b) <= Min(e.count, MAX_REQUESTS) + (if e.start < a then -1 else MAX_REQUESTS - 1)
  {
    if times != [] {
      var n := |times| - 1;
      assert n > 0 ==> times[..n][n - 1] == times[n - 1];
      PassedBound(times[..n], a, b);
      var e := Exec(times).value;
      assert e == Step(Exec(times[..n]), times[n]);
      if n > 0 {
        var was := Exec(times[..n]).value;
        assert e.count == if times[n] - was.start > HOUR then 1 else was.count + 1;
      }
    }
  }

  /** A client gets at most 999 requests through in any hour, wherever the hour starts. */
  lemma {:induction false} HourBound(times: seq<int>, a: int)
    requires Monotone(times) && |times| < U32
    ensures PassedIn(times, a, a + 3_600_000_000_000) <= 999
  {
    if times != [] {
      if times[|times| - 1] <= a + HOUR {
        PassedBound(times, a, a + HOUR);
      } else {
        HourBound(times[..|times| - 1], a);
      }
    }
  }

  /** The k-th request starts a window. */
  predicate Begins(times: seq<int>, k: nat)
    requires k < |times|
  {
    var before := Exec(times[..k]);
    before.None? || times[k] - before.value.start > HOUR
  }

  /** How many of the requests from the k-th on, made by time b, went through. */
  function PassedFrom(times: seq<int>, k: nat, b: int): nat
    requires k <= |times|
  {
    if |times| == k then 0
    else
      var n := |times| - 1;
      PassedFrom(times[..n], k, b) + if times[n] <= b && Passes(times, n) then 1 else 0
  }

  lemma StepWithin(count: nat, start: int, now: int)
    requires count + 1 < U32 && now - start <= HOUR
    ensures Step(Some(Entry(count, start)), now) == Entry(count + 1, start)
  {
  }

  lemma {:induction false} InsideWindow(times: seq<int>, k: nat)
    requires Monotone(times) && |times| < U32 && k < |times| && Begins(times, k)
    requires times[|times| - 1] <= times[k] + HOUR
    ensures Exec(times) == Some(Entry(|times| - k, times[k]))
    ensures PassedFrom(times, k, times[k] + HOUR) <= Min(|times| - k, MAX_REQUESTS)
  {
    var n := |times| - 1;
    if n > k {
      PrefixBegins(times, k, n);
      InsideWindow(times[..n], k);
      OneMoreInside(times, k);
    } else {
      FirstInside(times, k);
    }
  }

  lemma PrefixBegins(times: seq<int>, k: nat, n: nat)
    requires Monotone(times) && k < n < |times| && Begins(times, k)
    ensures Monotone(times[..n]) && Begins(times[..n], k)
    ensures times[..n][k] == times[k] && times[..n][n - 1] <= times[n]
  {
    assert times[..n][..k] == times[..k];
  }

  lemma FirstInside(times: seq<int>, k: nat)
    requires |times| == k + 1 && Begins(times, k)
    ensures Exec(times) == Some(Entry(1, times[k]))
    ensures PassedFrom(times, k, times[k] + HOUR) == 1
  {
    assert PassedFrom(times[..k], k, times[k] + HOUR) == 0;
  }

  lemma OneMoreInside(times: seq<int>, k: nat)
    requires |times| < U32 && k < |times| - 1 && times[|times| - 1] <= times[k] + HOUR
    requires Exec(times[..|times| - 1]) == Some(Entry(|times| - 1 - k, times[k]))
    ensures Exec(times) == Some(Entry(|times| - k, times[k]))
    ensures PassedFrom(times, k, times[k] + HOUR)
         == PassedFrom(times[..|times| - 1], k, times[k] + HOUR) + if |times| - k <= MAX_REQUESTS then 1 else 0
  {
    StepWithin(|times| - 1 - k, times[k], times[|times| - 1]);
  }

  /** Within one window the advertised 500 hold: no more go through in the hour it lasts. */
  lemma {:induction false} OneWindowBound(times: seq<int>, k: nat)
    requires Monotone(times) && |times| < U32 && k < |times| && Begins(times, k)
    ensures PassedFrom(times, k, times[k] + HOUR) <= 500
  {
    var n := |times| - 1;
    if times[n] <= times[k] + HOUR {
      InsideWindow(times, k);
    } else {
      assert times[..n][..k] == times[..k];
      OneWindowBound(times[..n], k);
    }
  }

  // ------------------------------------------------ when an hour keeps to the limit

  /** Inside a window that begins with the w-th request, an hour that ends with the last request
      holds what it held before, and as many of the window's requests as the limit lets through. */
  lemma {:induction false} HourOfWindow(times: seq<int>, w: nat, a: int, b: int)
    requires Monotone(times) && |times| < U32 && w < |times| && Begins(times, w)
    requires times[|times| - 1] <= b <= times[w] + HOUR && a <= times[w]
    ensures PassedIn(times, a, b) == PassedIn(times[..w], a, b) + Min(|times| - w, MAX_REQUESTS)
  {
    var n := |times| - 1;
    InsideWindow(times, w);
    assert a <= times[n] <= b;
    if n > w {
      PrefixBegins(times, w, n);
      assert times[..n][..w] == times[..w];
      HourOfWindow(times[..n], w, a, b);
      PassesInside(times, w);
    } else {
      FirstInside(times, w);
      assert Passes(times, n);
    }
  }

  lemma PassesInside(times: seq<int>, w: nat)
    requires Monotone(times) && |times| < U32 && w < |times| - 1 && Begins(times, w)
    requires times[|times| - 1] <= times[w] + HOUR
    ensures Passes(times, |times| - 1) <==> |times| - w <= MAX_REQUESTS
  {
    InsideWindow(times, w);
    assert Exec(times) == Some(Step(Exec(times[..|times| - 1]), times[|times| - 1]));
  }

  /** The request that began the window the last request counts in. */
  function WindowBegin(times: seq<int>): (w: nat)
    requires times != []
    ensures w < |times|
  {
    var n := |times| - 1;
    if n == 0 || Begins(times, n) then n else WindowBegin(times[..n])
  }

  lemma {:induction false} WindowBeginIs(times: seq<int>)
    requires times != [] && Monotone(times) && |times| < U32
    ensures Begins(times, WindowBegin(times)) && times[|times| - 1] <= times[WindowBegin(times)] + HOUR
  {
    var n := |times| - 1;
    assert times[..0] == [];
    if n > 0 && !Begins(times, n) {
      var w := WindowBegin(times[..n]);
      WindowBeginIs(times[..n]);
      assert times[..n][..w] == times[..w];
      InsideWindow(times[..n], w);
    }
  }

  /** What earlier windows let through in the hour that ends with the last request. */
  function CarriedIn(times: seq<int>): nat
    requires times != []
  {
    var t := times[|times| - 1];
    PassedIn(times[..WindowBegin(times)], t - HOUR, t)
  }

  /** What the current window has let through. */
  function OwnPasses(times: seq<int>): nat
    requires times != []
  {
    Min(Exec(times).value.count, MAX_REQUESTS)
  }

  predicate HourKept(times: seq<int>, a: int) {
    PassedIn(times, a, a + HOUR) <= MAX_REQUESTS
  }

  /** The hour ending with the last request lets through what the counter says and what earlier
      windows let through in it; so it keeps to the documented 500 if and only if that sum does. */
  lemma HourKeptIff(times: seq<int>)
    requires times != [] && Monotone(times) && |times| < U32
    ensures var t := times[|times| - 1];
            && PassedIn(times, t - HOUR, t) == CarriedIn(times) + OwnPasses(times)
            && (HourKept(times, t - HOUR) <==> CarriedIn(times) + OwnPasses(times) <= MAX_REQUESTS)
  {
    var t, w := times[|times| - 1], WindowBegin(times);
    WindowBeginIs(times);
    InsideWindow(times, w);
    HourOfWindow(times, w, t - HOUR, t);
  }

  lemma {:induction false} PassedInPrefix(times: seq<int>, n: nat, a: int, b: int)
    requires n <= |times|
    ensures PassedIn(times[..n], a, b) <= PassedIn(times, a, b)
  {
    if n == |times| {
      assert times[..n] == times;
    } else {
      assert times[..|times| - 1][..n] == times[..n];
      PassedInPrefix(times[..|times| - 1], n, a, b);
    }
  }

  lemma {:induction false} PassedInWider(times: seq<int>, a: int, b: int, c: int, d: int)
    requires forall i :: 0 <= i < |times| && a <= times[i] <= b ==> c <= times[i] <= d
    ensures PassedIn(times, a, b) <= PassedIn(times, c, d)
  {
    if times != [] {
      PassedInWider(times[..|times| - 1], a, b, c, d);
    }
  }

  /** The hour ending with the n-th request keeps to the limit. */
  predicate KeptAt(times: seq<int>, n: nat)
    requires 0 < n <= |times|
  {
    CarriedIn(times[..n]) + OwnPasses(times[..n]) <= MAX_REQUESTS
  }

  lemma KeptAtWhenHoursAre(times: seq<int>, n: nat)
    requires Monotone(times) && |times| < U32 && 0 < n <= |times| && forall a :: HourKept(times, a)
    ensures KeptAt(times, n)
  {
    var a := times[n - 1] - HOUR;
    HourKeptIff(times[..n]);
    PassedInPrefix(times, n, a, a + HOUR);
    assert HourKept(times, a);
  }

  lemma {:induction false} HoursKeptWhenAtAll(times: seq<int>, a: int)
    requires Monotone(times) && |times| < U32 && forall n :: 0 < n <= |times| ==> KeptAt(times, n)
    ensures HourKept(times, a)
  {
    if times != [] {
      var n := |times| - 1;
      var t := times[n];
      if t <= a + HOUR {
        assert times[..n + 1] == times && KeptAt(times, n + 1);
        HourKeptIff(times);
        PassedInWider(times, a, a + HOUR, t - HOUR, t);
      } else {
        assert forall m :: 0 < m <= n ==> times[..n][..m] == times[..m];
        assert forall m :: 0 < m <= n ==> (KeptAt(times[..n], m) <==> KeptAt(times, m));
        HoursKeptWhenAtAll(times[..n], a);
      }
    }
  }

  /** Over every run: all hours, wherever they start, keep to the documented 500 if and only if at
      every request the counter and what earlier windows let through in the last hour do. */
  lemma HoursKeptIff(times: seq<int>)
    requires Monotone(times) && |times| < U32
    ensures (forall a :: HourKept(times, a)) <==> (forall n :: 0 < n <= |times| ==> KeptAt(times, n))
  {
    if forall a :: HourKept(times, a) {
      forall n | 0 < n <= |times| ensures KeptAt(times, n) { KeptAtWhenHoursAre(times, n); }
    }
    if forall n :: 0 < n <= |times| ==> KeptAt(times, n) {
      forall a ensures HourKept(times, a) { HoursKeptWhenAtAll(times, a); }
    }
  }

  // ------------------------------------------------------ the bound is reached

  /** One request at 0, 499 at the very end of its window, 500 just after. */
  function Burst(n: nat): seq<int> {
    if n == 0 then []
    else Burst(n - 1) + [BurstTime(n)]
  }

  lemma {:induction false} BurstShape(n: nat)
    ensures |Burst(n)| == n
    ensures forall i :: 0 <= i < n ==> Burst(n)[i] == if i == 0 then 0 else if i < MAX_REQUESTS then HOUR else HOUR + 1
  {
    if n > 0 {
      BurstShape(n - 1);
    }
  }

  lemma AppendRequest(times: seq<int>, t: int, a: int, b: int)
    ensures Exec(times + [t]) == Some(Step(Exec(times), t))
    ensures PassedIn(times + [t], a, b)
         == PassedIn(times, a, b) + if a <= t <= b && Step(Exec(times), t).count <= MAX_REQUESTS then 1 else 0
  {
    assert (times + [t])[..|times|] == times;
  }

  function BurstTime(n: nat): int {
    if n <= 1 then 0 else if n <= MAX_REQUESTS then HOUR else HOUR + 1
  }

  function BurstEntry(n: nat): Entry {
    if n <= MAX_REQUESTS then Entry(n, 0) else Entry(n - MAX_REQUESTS, HOUR + 1)
  }

  lemma BurstStep(n: nat)
    requires 1 < n <= 2 * MAX_REQUESTS
    ensures Step(Some(BurstEntry(n - 1)), BurstTime(n)) == BurstEntry(n)
    ensures 1 <= BurstTime(n) <= HOUR + 1 && BurstEntry(n).count <= MAX_REQUESTS
  {
  }

  lemma {:induction false} BurstRun(n: nat)
    requires 1 <= n <= 2 * MAX_REQUESTS
    ensures Exec(Burst(n)) == Some(BurstEntry(n)) && PassedIn(Burst(n), 1, HOUR + 1) == n - 1
  {
    AppendRequest(Burst(n - 1), BurstTime(n), 1, HOUR + 1);
    if n > 1 {
      BurstStep(n);
      BurstRun(n - 1);
    }
  }

  /** So the documented 500 requests an hour are exceeded, and 999 is the exact maximum. */
  lemma HourBoundIsReached()
    ensures exists times :: Monotone(times) && |times| < U32 && PassedIn(times, 1, 1 + 3_600_000_000_000) == 999
  {
    BurstShape(2 * MAX_REQUESTS);
    BurstRun(2 * MAX_REQUESTS);
    assert PassedIn(Burst(2 * MAX_REQUESTS), 1, 1 + HOUR) == 2 * MAX_REQUESTS - 1;
  }

  // ----------------------------------------------------------------- the code

  class RateLimiter {
    var clients: map<string, Entry>

    constructor ()
      ensures clients == map[]
    {
      clients := map[];
    }

    method Admit(ip: string, now: int) returns (passes: bool)
      modifies this
      ensures var was := if ip in old(clients) then Some(old(clients)[ip]) else None;
              clients == old(clients)[ip := Step(was, now)] && passes == (Step(was, now).count <= MAX_REQUESTS)
    {
      if ip !in clients {
        clients := clients[ip := Entry(0, now)];
      }
      if now - clients[ip].start > HOUR {
        clients := clients[ip := Entry(0, now)];
      }
      clients := clients[ip := Entry((clients[ip].count + 1) % U32, clients[ip].start)];
      passes := clients[ip].count <= MAX_REQUESTS;
    }
  }
}
