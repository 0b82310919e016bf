/**
 * The decisions inside one booking attempt (`run_attempt`): the
 * screenshot step counter, the availability gate after the people count
 * is entered, and the stop before the final submission in a dry run.
 * Browser work between those points is summarised by the failure it
 * raised, if any.
 */
module Attempt {
  import opened Results

  /** The two kinds of exception an attempt ends with. */
  datatype Failure =
    | Unavailable(reason: string)   // AvailabilityNotFoundError: retried when polling
    | Fatal(reason: string)         // any other error: ends the run

  /** How one attempt ends; `run_attempt` returns normally in the first two cases. */
  datatype Outcome = Completed | DryRunStopped | Failed(failure: Failure)

  // ---------------------------------------------------------------------
  // snap
  // ---------------------------------------------------------------------

  /** The counter after a snapshot, and the number written into the file name when one is taken. */
  datatype Shot = Shot(step: nat, taken: Option<nat>)

  /** `snap`: without a screenshot directory nothing is written and the counter stays. */
  function Snap(screenshots: bool, step: nat): (r: Shot)
    ensures r.taken.Some? <==> screenshots
    ensures r.taken.Some? ==> r.taken.value == r.step
    ensures r.step == step + (if screenshots then 1 else 0)
  {
    if !screenshots then Shot(step, None) else Shot(step + 1, Some(step + 1))
  }

  /** `n` snapshots in a row from counter `step`: the numbers written, and the final counter. */
  function SnapRun(screenshots: bool, step: nat, n: nat): (r: (seq<nat>, nat))
    decreases n
  {
    if n == 0 then ([], step)
    else
      var s := Snap(screenshots, step);
      var rest := SnapRun(screenshots, s.step, n - 1);
      (if s.taken.Some? then [s.taken.value] + rest.0 else rest.0, rest.1)
  }

  /**
   * With a screenshot directory the files of one attempt are numbered
   * 1, 2, ... in the order they are taken; without one nothing is taken
   * and the counter never moves.
   */
  lemma {:induction false} SnapRunNumbering(screenshots: bool, step: nat, n: nat)
    ensures screenshots ==>
      var r := SnapRun(screenshots, step, n);
      |r.0| == n && (forall i :: 0 <= i < n ==> r.0[i] == step + 1 + i) && r.1 == step + n
    ensures !screenshots ==> SnapRun(screenshots, step, n) == ([], step)
    decreases n
  {
    if n > 0 {
      SnapRunNumbering(screenshots, Snap(screenshots, step).step, n - 1);
    }
  }

  // ---------------------------------------------------------------------
  // Availability gate
  // ---------------------------------------------------------------------

  /** What the attempt reads around the availability button. */
  datatype GatePage = GatePage(
    disabledBefore: bool,        // the check-availability button is disabled
    alternativePresent: bool,    // the "next availability" button can be found
    disabledAfter: bool)         // the check-availability button is disabled on the second read

  /**
   * The gate: a disabled button raises the availability error unless
   * alternative dates are allowed, in which case the alternative is
   * clicked (a missing alternative button is a plain error); a button
   * still disabled afterwards raises the availability error. On success,
   * whether the alternative was taken.
   */
  function AvailabilityGate(allowAlternativeDates: bool, page: GatePage): (r: Result<bool, Failure>)
    ensures r.Ok? <==>
      !page.disabledAfter && (!page.disabledBefore || (allowAlternativeDates && page.alternativePresent))
    ensures r.Ok? ==> r.value == page.disabledBefore
    ensures r.Err? && r.error.Fatal? <==>
      page.disabledBefore && allowAlternativeDates && !page.alternativePresent
    ensures page.disabledBefore && !allowAlternativeDates ==> r.Err? && r.error.Unavailable?
  {
    if page.disabledBefore && !allowAlternativeDates then
      Err(Unavailable("Requested dates not available. Set allow_alternative_dates: true to continue."))
    else if page.disabledBefore && !page.alternativePresent then
      Err(Fatal("Missing element: next_availability_alt"))
    else if page.disabledAfter then
      Err(Unavailable("Availability check is still disabled after selecting dates and people."))
    else
      Ok(page.disabledBefore)
  }

  // ---------------------------------------------------------------------
  // One attempt
  // ---------------------------------------------------------------------

  /** What one attempt meets on the site. */
  datatype AttemptPage = AttemptPage(
    beforeGate: Option<Failure>,   // raised while logging in, choosing hut, dates and people,
                                   // or because the availability check button is missing
    gate: GatePage,
    afterGate: Option<string>,     // raised while filling the overnight and personal-data steps
    summaryDisabled: bool)         // the summary step's next button is missing or disabled

  /** `run_attempt` from the point of view of its caller. */
  function RunAttempt(allowAlternativeDates: bool, dryRun: bool, page: AttemptPage): (r: Outcome)
    ensures page.beforeGate.Some? ==> r == Failed(page.beforeGate.value)
    ensures page.beforeGate.None? && AvailabilityGate(allowAlternativeDates, page.gate).Err? ==>
      r == Failed(AvailabilityGate(allowAlternativeDates, page.gate).error)
    ensures r == Completed <==>
      && page.beforeGate.None?
      && AvailabilityGate(allowAlternativeDates, page.gate).Ok?
      && page.afterGate.None?
      && !dryRun
      && !page.summaryDisabled
    ensures r == DryRunStopped <==>
      page.beforeGate.None? && AvailabilityGate(allowAlternativeDates, page.gate).Ok? && page.afterGate.None? && dryRun
    ensures page.beforeGate.None? && AvailabilityGate(allowAlternativeDates, page.gate).Ok? && page.afterGate.Some? ==>
      r == Failed(Fatal(page.afterGate.value))
    ensures page.beforeGate.None? && AvailabilityGate(allowAlternativeDates, page.gate).Ok? && page.afterGate.None?
            && !dryRun && page.summaryDisabled ==>
      r.Failed? && r.failure.Fatal?
  {
    match page.beforeGate
    case Some(f) => Failed(f)
    case None =>
      match AvailabilityGate(allowAlternativeDates, page.gate)
      case Err(f) => Failed(f)
      case Ok(_) =>
        if page.afterGate.Some? then Failed(Fatal(page.afterGate.value))
        else if dryRun then DryRunStopped
        else if page.summaryDisabled then Failed(Fatal("Summary step incomplete; next button disabled."))
        else Completed
  }

  /** A dry run never reaches the final submission, whatever the site shows. */
  lemma DryRunNeverSubmits(allowAlternativeDates: bool, page: AttemptPage)
    ensures RunAttempt(allowAlternativeDates, true, page) != Completed
    ensures RunAttempt(allowAlternativeDates, true, page) == RunAttempt(allowAlternativeDates, true, page.(summaryDisabled := !page.summaryDisabled))
  {
  }

  /**
   * An attempt ends with the availability error only when a date cell
   * was disabled or the availability button stayed disabled: the steps
   * after the gate only ever raise plain errors.
   */
  lemma UnavailableOnlyBeforeSummary(allowAlternativeDates: bool, dryRun: bool, page: AttemptPage)
    requires RunAttempt(allowAlternativeDates, dryRun, page).Failed?
    requires RunAttempt(allowAlternativeDates, dryRun, page).failure.Unavailable?
    ensures page.beforeGate.Some? || page.gate.disabledBefore || page.gate.disabledAfter
    ensures page.beforeGate.Some? || AvailabilityGate(allowAlternativeDates, page.gate).Err?
  {
  }

  /** With alternative dates refused, a disabled availability button fails the attempt as unavailable. */
  lemma StrictDatesNeverTakeAlternative(dryRun: bool, page: AttemptPage)
    requires page.beforeGate.None? && page.gate.disabledBefore
    ensures RunAttempt(false, dryRun, page).Failed?
    ensures RunAttempt(false, dryRun, page).failure.Unavailable?
  {
  }
}
