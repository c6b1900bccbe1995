/** The deploy gate: a new instance answers for the whole of its soak, within its deadline (liveswap/health.go,
    waitHealthy).

    Times and durations are integers.  A probe takes any time up to its timeout, a sleep its interval, and nothing
    else any; cancellation, the process's life and each probe's answer are the environment's. */
module Health {
  import opened Options

  datatype Config = Config(checked: bool, interval: int, timeout: int, soak: int, deadline: int)

  datatype Verdict = Healthy | Canceled | Exited | DeadlineMissed | LateProbeFailed

  /** One look at the instance: when, and whether it was well. */
  datatype Tick = Tick(at: int, healthy: bool)

  /** When the healthy ticks a log ends with began. */
  function Since(log: seq<Tick>): Option<int>
  {
    if log == [] || !log[|log| - 1].healthy then None
    else
      var before := Since(log[..|log| - 1]);
      if before.Some? then before else Some(log[|log| - 1].at)
  }

  /** Consecutive healthy ticks, from the i-th to the last, that span the soak. */
  ghost predicate Soak(log: seq<Tick>, i: nat, soak: int)
    requires i < |log|
  {
    (forall k :: i <= k < |log| ==> log[k].healthy) && log[|log| - 1].at - log[i].at >= soak
  }

  ghost predicate Soaked(log: seq<Tick>, soak: int) { exists i: nat :: i < |log| && Soak(log, i, soak) }

  ghost predicate InOrder(log: seq<Tick>) { forall i, j :: 0 <= i < j < |log| ==> log[i].at <= log[j].at }

  /** The ticks that Since looks back over are the last ones, all healthy, from that time on. */
  lemma {:induction false} SinceIsRun(log: seq<Tick>) returns (i: nat)
    requires Since(log).Some?
    ensures i < |log| && log[i].at == Since(log).value && (forall k :: i <= k < |log| ==> log[k].healthy)
    ensures i > 0 ==> !log[i - 1].healthy
  {
    var rest := log[..|log| - 1];
    if Since(rest).Some? {
      i := SinceIsRun(rest);
    } else {
      i := |log| - 1;
    }
  }

  /** A log ends soaked exactly when that run spans the soak. */
  lemma SoakedBySince(log: seq<Tick>, soak: int)
    requires InOrder(log) && log != []
    ensures Soaked(log, soak) <==> Since(log).Some? && log[|log| - 1].at - Since(log).value >= soak
  {
    if Since(log).Some? {
      var i := SinceIsRun(log);
      assert log[|log| - 1].at - log[i].at >= soak ==> Soak(log, i, soak);
      if j: nat :| j < |log| && Soak(log, j, soak) {
        if j < i {
          assert !log[i - 1].healthy;
        }
      }
    }
  }

  /** The log ended soaked at no earlier tick. */
  ghost predicate NotBefore(log: seq<Tick>, soak: int) { forall n :: 0 <= n < |log| ==> !Soaked(log[..n], soak) }

  function Max(a: int, b: int): int { if a < b then b else a }

  /** The gate opens exactly when the log first ends soaked; it looks past the deadline once at most, and only if that
      look can complete the soak; and it is done in bounded time. */
  method WaitHealthy(start: int, hc: Config) returns (v: Verdict, log: seq<Tick>, finish: int)
    requires hc.interval > 0 && hc.timeout >= 0
    ensures InOrder(log) && forall k :: 0 <= k < |log| ==> log[k].at >= start
    ensures v == Healthy <==> Soaked(log, hc.soak)
    ensures NotBefore(log, hc.soak)
    ensures forall k :: 0 <= k < |log| - 1 ==> log[k].at <= start + hc.deadline
    ensures log != [] && log[|log| - 1].at > start + hc.deadline ==>
              var before := Since(log[..|log| - 1]); before.Some? && log[|log| - 1].at - before.value >= hc.soak
    ensures v == DeadlineMissed || v == LateProbeFailed ==> finish > start + hc.deadline
    ensures start <= finish <= start + Max(hc.deadline, 0) + hc.interval + 2 * hc.timeout
  {
    var now, healthySince := start, None;
    log := [];
    while true
      invariant InOrder(log) && healthySince == Since(log)
      invariant NotBefore(log, hc.soak) && !Soaked(log, hc.soak)
      invariant forall k :: 0 <= k < |log| ==> start <= log[k].at <= start + hc.deadline && log[k].at <= now
      invariant start <= now && (now == start || now <= start + hc.deadline + hc.timeout + hc.interval)
      decreases start + hc.deadline - now
    {
      var canceled, alive: bool := *, *;
      if canceled || !alive {
        return if canceled then Canceled else Exited, log, now;
      }
      var pastDeadline := now > start + hc.deadline;
      var soakDue := healthySince.Some? && now - healthySince.value >= hc.soak;
      if pastDeadline && !soakDue {
        return DeadlineMissed, log, now;
      }
      var healthy, took := Look(hc);
      var tick := Tick(now, healthy);
      Looked(log, tick, hc.soak);
      if !healthy {
        healthySince := None;
      } else if healthySince.None? {
        healthySince := Some(now);
      }
      log := log + [tick];
      finish := now + took;
      if healthySince.Some? && now - healthySince.value >= hc.soak {
        return Healthy, log, finish;
      }
      if pastDeadline {
        return LateProbeFailed, log, finish;
      }
      now := finish + hc.interval;
    }
  }

  /** One look: with no health check, the process's life was enough. */
  method Look(hc: Config) returns (healthy: bool, took: int)
    requires hc.timeout >= 0
    ensures 0 <= took <= hc.timeout && (!hc.checked ==> healthy)
  {
    healthy, took := true, 0;
    if hc.checked {
      healthy, took := *, *;
      took := if took < 0 then 0 else if took > hc.timeout then hc.timeout else took;
    }
  }

  /** A log one tick longer. */
  lemma Looked(log: seq<Tick>, tick: Tick, soak: int)
    requires InOrder(log) && forall k :: 0 <= k < |log| ==> log[k].at <= tick.at
    ensures var log' := log + [tick];
            && InOrder(log') && log'[..|log|] == log
            && Since(log') == (if !tick.healthy then None else if Since(log).Some? then Since(log) else Some(tick.at))
            && (Soaked(log', soak) <==> Since(log').Some? && tick.at - Since(log').value >= soak)
            && (NotBefore(log, soak) && !Soaked(log, soak) ==> NotBefore(log', soak))
  {
    var log' := log + [tick];
    assert log'[..|log'| - 1] == log;
    forall n | 0 <= n < |log| ensures log'[..n] == log[..n] {}
    SoakedBySince(log', soak);
  }
}
