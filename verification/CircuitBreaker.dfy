/**
 * The gateway's circuit breaker over three Redis keys, against its history:
 * the failures since the last success and the time of the last failure. Each
 * call is one step, although it issues several commands; what the one command
 * that can come too late does is stated at the end.
 */
module CircuitBreaker {

  datatype Phase = Closed | Open | HalfOpen

  datatype State = State(phase: Phase, failures: nat, openUntil: int)

  datatype Event = Allow(now: int) | Success(now: int) | Failure(now: int)

  datatype Config = Config(threshold: nat, ttl: int)

  const U32_MAX := 0xffff_ffff

  const INIT := State(Closed, 0, 0)

  /** INCR's reply read as a u32; a reply that does not fit reads as one. */
  function AsU32(n: nat): nat {
    if n <= U32_MAX then n else 1
  }

  function Allows(s: State, now: int): bool {
    !(s.phase == Open && now < s.openUntil)
  }

  function Step(c: Config, s: State, ev: Event): State {
    match ev
    case Allow(now) => if s.phase == Open && now >= s.openUntil then s.(phase := HalfOpen) else s
    case Success(_) => s.(failures := 0, phase := Closed)
    case Failure(now) =>
      var failures := s.failures + 1;
      if AsU32(failures) >= c.threshold || s.phase == HalfOpen
      then State(Open, failures, now + c.ttl)
      else s.(failures := failures)
  }

  function Exec(c: Config, run: seq<Event>): State {
    if run == [] then INIT else Step(c, Exec(c, run[..|run| - 1]), run[|run| - 1])
  }

  // ------------------------------------------------------------- the history

  function FailuresSinceSuccess(run: seq<Event>): nat {
    if run == [] then 0
    else
      match run[|run| - 1]
      case Allow(_) => FailuresSinceSuccess(run[..|run| - 1])
      case Success(_) => 0
      case Failure(_) => FailuresSinceSuccess(run[..|run| - 1]) + 1
  }

  /** Meaningful when there has been a failure. */
  function LastFailure(run: seq<Event>): int {
    if run == [] then 0
    else if run[|run| - 1].Failure? then run[|run| - 1].now
    else LastFailure(run[..|run| - 1])
  }

  predicate Tripped(c: Config, run: seq<Event>) {
    FailuresSinceSuccess(run) >= 1 && FailuresSinceSuccess(run) >= c.threshold
  }

  ghost predicate Monotone(run: seq<Event>) {
    forall i, j :: 0 <= i < j < |run| ==> run[i].now <= run[j].now
  }

  /** The counter has stayed within the u32 it is read as. */
  ghost predicate Counted(run: seq<Event>) {
    forall k :: 0 <= k <= |run| ==> FailuresSinceSuccess(run[..k]) <= U32_MAX
  }

  /** The keys hold what the history of outcomes says. */
  predicate FollowsHistory(c: Config, run: seq<Event>, s: State) {
    && s.failures == FailuresSinceSuccess(run)
    && (s.phase != Closed <==> Tripped(c, run))
    && (s.phase != Closed ==> s.openUntil == LastFailure(run) + c.ttl)
    && (s.phase == HalfOpen ==> run != [] && s.openUntil <= run[|run| - 1].now)
  }

  lemma {:induction false} PhaseIsHistory(c: Config, run: seq<Event>)
    requires Monotone(run) && Counted(run)
    ensures FollowsHistory(c, run, Exec(c, run))
  {
    if run != [] {
      var n := |run| - 1;
      assert run[..|run|] == run;
      assert forall k :: 0 <= k <= n ==> run[..n][..k] == run[..k];
      assert n > 0 ==> run[..n][n - 1] == run[n - 1];
      assert FailuresSinceSuccess(run[..|run|]) <= U32_MAX;
      PhaseIsHistory(c, run[..n]);
    }
  }

  /**
   * A request is denied exactly when the failures since the last success reach
   * the threshold and the last of them is less than the open period ago.
   */
  lemma DeniesIff(c: Config, run: seq<Event>, now: int)
    requires Monotone(run) && Counted(run)
    requires run != [] ==> run[|run| - 1].now <= now
    ensures !Allows(Exec(c, run), now) <==> Tripped(c, run) && now < LastFailure(run) + c.ttl
  {
    PhaseIsHistory(c, run);
  }

  /** A request has been admitted after the open period of the last failure. */
  predicate Probed(c: Config, run: seq<Event>) {
    run != [] &&
    var before, ev := run[..|run| - 1], run[|run| - 1];
    ev.Allow? && (Probed(c, before) || (Tripped(c, before) && ev.now >= LastFailure(before) + c.ttl))
  }

  /** The breaker is half-open exactly when it is tripped and has admitted a request since. */
  lemma {:induction false} HalfOpenIff(c: Config, run: seq<Event>)
    requires Monotone(run) && Counted(run)
    ensures Exec(c, run).phase == HalfOpen <==> Tripped(c, run) && Probed(c, run)
  {
    if run != [] {
      var n := |run| - 1;
      assert run[..|run|] == run;
      assert forall k :: 0 <= k <= n ==> run[..n][..k] == run[..k];
      HalfOpenIff(c, run[..n]);
      PhaseIsHistory(c, run[..n]);
      PhaseIsHistory(c, run);
    }
  }

  /** A counter that no longer fits a u32 reads as one failure. */
  lemma OverflownCounter(c: Config, s: State, now: int)
    requires s.failures >= 0xffff_ffff
    ensures Step(c, s, Failure(now))
         == if c.threshold <= 1 || s.phase == HalfOpen then State(Open, s.failures + 1, now + c.ttl) else s.(failures := s.failures + 1)
  {
  }

  lemma {:induction false} ProbesChangeNoHistory(run: seq<Event>, probes: seq<Event>)
    requires forall i :: 0 <= i < |probes| ==> probes[i].Allow?
    ensures FailuresSinceSuccess(run + probes) == FailuresSinceSuccess(run) && LastFailure(run + probes) == LastFailure(run)
  {
    if probes == [] {
      assert run + probes == run;
    } else {
      assert (run + probes)[..|run + probes| - 1] == run + probes[..|probes| - 1];
      ProbesChangeNoHistory(run, probes[..|probes| - 1]);
    }
  }

  lemma ProbesStayCounted(run: seq<Event>, probes: seq<Event>)
    requires Counted(run) && forall i :: 0 <= i < |probes| ==> probes[i].Allow?
    ensures Counted(run + probes)
  {
    forall k | 0 <= k <= |run + probes|
      ensures FailuresSinceSuccess((run + probes)[..k]) <= U32_MAX
    {
      if k <= |run| {
        assert (run + probes)[..k] == run[..k];
      } else {
        assert (run + probes)[..k] == run + probes[..k - |run|];
        ProbesChangeNoHistory(run, probes[..k - |run|]);
        assert run[..|run|] == run;
      }
    }
  }

  /** The half-open phase is no single probe: once a tripped breaker has admitted one request, it
      admits every further one, however many, until an outcome is recorded. */
  lemma HalfOpenAllowsAll(c: Config, run: seq<Event>, probes: seq<Event>, j: nat)
    requires Monotone(run + probes) && Counted(run)
    requires forall i :: 0 <= i < |probes| ==> probes[i].Allow?
    requires j < |probes| && Tripped(c, run) && Allows(Exec(c, run), probes[0].now)
    ensures Allows(Exec(c, run + probes[..j]), probes[j].now)
  {
    var sofar := run + probes[..j];
    assert sofar == (run + probes)[..|run| + j];
    assert forall i :: 0 <= i < |run| ==> run[i] == (run + probes)[i];
    assert forall i :: 0 <= i < |probes| ==> probes[i] == (run + probes)[|run| + i];
    ProbesStayCounted(run, probes[..j]);
    ProbesChangeNoHistory(run, probes[..j]);
    DeniesIff(c, run, probes[0].now);
    DeniesIff(c, sofar, probes[j].now);
  }

  /** `allow_request` reads OPEN and the deadline before it writes HALF_OPEN. When that write comes
      after other calls, the keys still follow the history if and only if the breaker is tripped
      at that moment and its open period over. */
  lemma {:induction false} LateHalfOpenIff(c: Config, run: seq<Event>, now: int)
    requires Monotone(run) && Counted(run)
    ensures FollowsHistory(c, run + [Allow(now)], Exec(c, run).(phase := HalfOpen))
            <==> Tripped(c, run) && LastFailure(run) + c.ttl <= now
  {
    PhaseIsHistory(c, run);
    assert (run + [Allow(now)])[..|run|] == run;
  }

  /** Otherwise, on a breaker that is not tripped, one failure opens it, which is right only if it
      was the failure that reaches the threshold. */
  lemma {:induction false} StrayHalfOpenDenies(c: Config, run: seq<Event>, t: int, now: int)
    requires Monotone(run) && Counted(run + [Failure(t)]) && !Tripped(c, run) && t <= now < t + c.ttl
    ensures !Allows(Step(c, Exec(c, run).(phase := HalfOpen), Failure(t)), now)
    ensures Allows(Exec(c, run + [Failure(t)]), now) <==> FailuresSinceSuccess(run) + 1 < c.threshold
  {
    var more := run + [Failure(t)];
    assert more[..|run|] == run && more[..|more|] == more;
    assert forall k :: 0 <= k <= |run| ==> more[..k] == run[..k];
    assert FailuresSinceSuccess(more[..|more|]) <= U32_MAX;
    PhaseIsHistory(c, run);
  }

  // ----------------------------------------------------------------- the code

  class Breaker {
    const config: Config
    var phase: Phase
    var failures: nat
    var openUntil: int

    ghost function View(): State
      reads this
    {
      State(phase, failures, openUntil)
    }

    constructor (threshold: nat, ttl: int)
      ensures config == Config(threshold, ttl) && View() == INIT
    {
      config := Config(threshold, ttl);
      phase, failures, openUntil := Closed, 0, 0;
    }

    method AllowRequest(now: int) returns (allowed: bool)
      modifies this
      ensures View() == Step(config, old(View()), Allow(now))
      ensures allowed == Allows(old(View()), now)
    {
      if phase == Open {
        if now < openUntil {
          return false;
        }
        phase := HalfOpen;
      }
      return true;
    }

    method RecordSuccess(now: int)
      modifies this
      ensures View() == Step(config, old(View()), Success(now))
    {
      failures := 0;
      phase := Closed;
    }

    method RecordFailure(now: int)
      modifies this
      ensures View() == Step(config, old(View()), Failure(now))
    {
      var was := phase;
      failures := failures + 1;
      if AsU32(failures) >= config.threshold || was == HalfOpen {
        phase := Open;
        openUntil := now + config.ttl;
      }
    }
  }
}
