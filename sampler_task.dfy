/** The scheduled unit of work of the daemon: one sampler behind an
    enable/disable switch. A run that finds it enabled samples once and
    swallows a runtime failure the sampler raises; an `Error` is not caught
    and leaves the run. A disabled task does nothing. Scheduling and threads are left to the caller: one call of `Run`
    is one tick. */
module Daemon {

  /** How one call of the sampler's `sample()` ends: normally, with a
      `RuntimeException`, or with a `java.lang.Error` (which is not a
      `RuntimeException`). */
  datatype SampleOutcome = Completed | ThrewRuntimeException | ThrewError

  class SamplerTask {
    /** The `enabled` flag; a new task is enabled. */
    var enabled: bool
    /** Number of times `sample()` has been invoked on the wrapped sampler. */
    var samples: nat
    /** Number of sampler failures logged as warnings and then ignored. */
    var ignoredFailures: nat

    constructor ()
      ensures enabled && samples == 0 && ignoredFailures == 0
    {
      enabled := true;
      samples := 0;
      ignoredFailures := 0;
    }

    /** One tick. `outcome` is how the sampler's `sample()` ends if it is
        called. A runtime failure is logged and ignored; `propagated` says
        whether an `Error` left the run. */
    method Run(outcome: SampleOutcome) returns (propagated: bool)
      modifies this
      ensures propagated <==> old(enabled) && outcome == ThrewError
      ensures enabled == old(enabled)
      ensures samples == old(samples) + (if old(enabled) then 1 else 0)
      ensures ignoredFailures == old(ignoredFailures) + (if old(enabled) && outcome == ThrewRuntimeException then 1 else 0)
    {
      propagated := false;
      if enabled {
        samples := samples + 1;
        if outcome == ThrewRuntimeException {
          ignoredFailures := ignoredFailures + 1;
        } else if outcome == ThrewError {
          propagated := true;
        }
      }
    }

    method Enable()
      modifies this
      ensures enabled && samples == old(samples) && ignoredFailures == old(ignoredFailures)
    {
      enabled := true;
    }

    method Disable()
      modifies this
      ensures !enabled && samples == old(samples) && ignoredFailures == old(ignoredFailures)
    {
      enabled := false;
    }
  }

  /** A tick whose sampler throws a runtime failure does not stop the next
      one; an `Error` leaves the tick; a disabled task does not sample;
      enabling it again resumes sampling. */
  method Scenario()
  {
    var task := new SamplerTask();
    var propagated := task.Run(ThrewRuntimeException);
    assert !propagated;
    propagated := task.Run(Completed);
    assert task.samples == 2 && task.ignoredFailures == 1;
    propagated := task.Run(ThrewError);
    assert propagated && task.samples == 3 && task.ignoredFailures == 1;
    task.Disable();
    propagated := task.Run(ThrewError);
    assert !propagated && task.samples == 3;
    task.Enable();
    propagated := task.Run(Completed);
    assert task.samples == 4;
  }
}
