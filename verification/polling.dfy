/**
 * `main`'s schedule checks and its polling loop: an attempt that ends
 * with the availability error is retried after a pause of the interval
 * plus a random jitter, until an attempt ends otherwise or the attempt
 * limit (0 meaning none) is reached.
 */
module Polling {
  import opened Results
  import opened Attempt

  datatype ScheduleError =
    | IntervalNotPositive   // "interval_seconds must be > 0"
    | JitterNegative        // "jitter_seconds must be >= 0"
    | MaxAttemptsNegative   // "max_attempts must be >= 0"

  datatype Schedule = Schedule(interval: int, jitter: int, maxAttempts: int)

  predicate ValidSchedule(s: Schedule) {
    s.interval > 0 && s.jitter >= 0 && s.maxAttempts >= 0
  }

  /** The command-line checks, made in this order before anything else runs. */
  function CheckSchedule(s: Schedule): (r: Option<ScheduleError>)
    ensures r.None? <==> ValidSchedule(s)
    ensures s.interval <= 0 ==> r == Some(IntervalNotPositive)
    ensures s.interval > 0 && s.jitter < 0 ==> r == Some(JitterNegative)
    ensures s.interval > 0 && s.jitter >= 0 && s.maxAttempts < 0 ==> r == Some(MaxAttemptsNegative)
  {
    if s.interval <= 0 then Some(IntervalNotPositive)
    else if s.jitter < 0 then Some(JitterNegative)
    else if s.maxAttempts < 0 then Some(MaxAttemptsNegative)
    else None
  }

  /** How the program ends. */
  datatype RunResult =
    | Done(outcome: Outcome)   // an attempt returned: completed or stopped by the dry run
    | Raised(failure: Failure) // an attempt's exception left `main`
    | StillPolling             // the supplied attempt outcomes ran out while still retrying

  /** Whether an attempt outcome is retried by the polling loop. */
  predicate Retried(o: Outcome) {
    o.Failed? && o.failure.Unavailable?
  }

  /**
   * Reference for the polling loop, given the outcomes of successive
   * attempts and the number already made: the number of attempts made
   * in all and how the run ends.
   */
  function Poll(outcomes: seq<Outcome>, maxAttempts: nat, made: nat): (r: (nat, RunResult))
    requires made <= |outcomes|
    ensures made <= r.0 <= |outcomes|
    decreases |outcomes| - made
  {
    if made == |outcomes| then (made, StillPolling)
    else
      var o := outcomes[made];
      if !Retried(o) then (made + 1, if o.Failed? then Raised(o.failure) else Done(o))
      else if maxAttempts > 0 && made + 1 >= maxAttempts then (made + 1, Raised(o.failure))
      else Poll(outcomes, maxAttempts, made + 1)
  }

  /** The polling loop's pauses: one after every retried attempt. */
  class Poller {
    const interval: nat
    const jitter: nat
    const maxAttempts: nat
    var attempt: nat
    var sleeps: seq<nat>

    constructor (s: Schedule)
      requires ValidSchedule(s)
      ensures interval == s.interval && jitter == s.jitter && maxAttempts == s.maxAttempts
      ensures attempt == 0 && sleeps == []
    {
      interval := s.interval;
      jitter := s.jitter;
      maxAttempts := s.maxAttempts;
      attempt := 0;
      sleeps := [];
    }

    /** Every pause lies between the interval and the interval plus the jitter, both included. */
    ghost predicate PausesInRange()
      reads this
    {
      forall k :: 0 <= k < |sleeps| ==> interval <= sleeps[k] <= interval + jitter
    }

    /**
     * The polling loop of `main`, fed with the outcomes of successive
     * attempts. The random part of each pause is any whole number of
     * seconds from 0 to the jitter.
     */
    method Run(outcomes: seq<Outcome>) returns (r: RunResult)
      requires attempt == 0 && sleeps == []
      modifies this
      ensures (attempt, r) == Poll(outcomes, maxAttempts, 0)
      ensures |sleeps| == (if r.StillPolling? then attempt else attempt - 1)
      ensures PausesInRange()
      ensures jitter == 0 ==> forall k :: 0 <= k < |sleeps| ==> sleeps[k] == interval
    {
      while true
        invariant attempt <= |outcomes|
        invariant |sleeps| == attempt
        invariant PausesInRange()
        invariant jitter == 0 ==> forall k :: 0 <= k < |sleeps| ==> sleeps[k] == interval
        invariant Poll(outcomes, maxAttempts, 0) == Poll(outcomes, maxAttempts, attempt)
        decreases |outcomes| - attempt
      {
        if attempt == |outcomes| {
          return StillPolling;
        }
        attempt := attempt + 1;
        var o := outcomes[attempt - 1];
        if !Retried(o) {
          return if o.Failed? then Raised(o.failure) else Done(o);
        }
        if maxAttempts != 0 && attempt >= maxAttempts {
          return Raised(o.failure);
        }
        var extra := 0;
        if jitter != 0 {
          extra :| 0 <= extra <= jitter;
        }
        sleeps := sleeps + [interval + extra];
      }
    }
  }

  /**
   * Without polling there is exactly one attempt and its outcome is the
   * program's: the run ends as polling with a limit of one attempt would.
   */
  function RunOnce(outcome: Outcome): (r: RunResult)
    ensures r.Raised? <==> outcome.Failed?
    ensures r.Raised? ==> r.failure == outcome.failure
    ensures r.Done? ==> r.outcome == outcome
    ensures Poll([outcome], 1, 0) == (1, r)
  {
    if outcome.Failed? then Raised(outcome.failure) else Done(outcome)
  }

  /**
   * Only availability failures are retried: every attempt before the
   * last one made ended with the availability error.
   */
  lemma {:induction false} OnlyAvailabilityRetried(outcomes: seq<Outcome>, maxAttempts: nat, made: nat)
    requires made <= |outcomes|
    ensures var (n, _) := Poll(outcomes, maxAttempts, made);
      forall j :: made <= j < n - 1 ==> Retried(outcomes[j])
    ensures var (n, r) := Poll(outcomes, maxAttempts, made);
      r.StillPolling? ==> n == |outcomes| && forall j :: made <= j < n ==> Retried(outcomes[j])
    decreases |outcomes| - made
  {
    if made < |outcomes| && Retried(outcomes[made]) && !(maxAttempts > 0 && made + 1 >= maxAttempts) {
      OnlyAvailabilityRetried(outcomes, maxAttempts, made + 1);
    }
  }

  /**
   * The run ends as its last attempt did, except that an availability
   * failure ends it only on the last allowed attempt.
   */
  lemma {:induction false} EndsWithLastAttempt(outcomes: seq<Outcome>, maxAttempts: nat, made: nat)
    requires made <= |outcomes|
    ensures var (n, r) := Poll(outcomes, maxAttempts, made);
      && (r.Done? ==> n > made && r.outcome == outcomes[n - 1] && !outcomes[n - 1].Failed?)
      && (r.Raised? ==> n > made && outcomes[n - 1] == Failed(r.failure))
      && (r.Raised? && r.failure.Unavailable? ==> maxAttempts > 0 && n >= maxAttempts)
      && (maxAttempts > 0 && made < maxAttempts ==> n <= maxAttempts)
    decreases |outcomes| - made
  {
    if made < |outcomes| && Retried(outcomes[made]) && !(maxAttempts > 0 && made + 1 >= maxAttempts) {
      EndsWithLastAttempt(outcomes, maxAttempts, made + 1);
    }
  }

  /** With no attempt limit the availability error never ends the run. */
  lemma UnlimitedNeverGivesUp(outcomes: seq<Outcome>)
    ensures var (_, r) := Poll(outcomes, 0, 0);
      !(r.Raised? && r.failure.Unavailable?)
  {
    EndsWithLastAttempt(outcomes, 0, 0);
  }

  /**
   * When the first `maxAttempts` attempts all find no availability, the
   * run gives up with that error after exactly `maxAttempts` attempts.
   */
  lemma {:induction false} GivesUpAtLimit(outcomes: seq<Outcome>, maxAttempts: nat, made: nat)
    requires 0 < maxAttempts <= |outcomes| && made < maxAttempts
    requires forall j :: made <= j < maxAttempts ==> Retried(outcomes[j])
    ensures Retried(outcomes[maxAttempts - 1])
    ensures Poll(outcomes, maxAttempts, made) == (maxAttempts, Raised(outcomes[maxAttempts - 1].failure))
    decreases maxAttempts - made
  {
    if made + 1 < maxAttempts {
      GivesUpAtLimit(outcomes, maxAttempts, made + 1);
    }
  }

  /** A run of three attempts, at most: two pauses of 300 to 330 seconds, then the error. */
  method ThreeUnavailableAttempts() {
    var schedule := Schedule(300, 30, 3);
    assert CheckSchedule(schedule).None?;
    var p := new Poller(schedule);
    var none := Failed(Unavailable("Requested dates not available."));
    var outcomes := [none, none, none, Completed];
    GivesUpAtLimit(outcomes, 3, 0);
    var r := p.Run(outcomes);
    assert r == Raised(Unavailable("Requested dates not available."));
    assert p.attempt == 3 && |p.sleeps| == 2;
    assert 300 <= p.sleeps[1] <= 330;
  }
}
