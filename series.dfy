/**
 * The control flow of `async/series` as the car service uses it: the tasks run
 * one after another, each task hands an outcome to its callback, the first
 * failing task ends the run, and the final callback receives exactly that
 * task's error, or nothing when every task passed.
 *
 * A task is modelled as a function of its position in the list and of the
 * state it starts from; it returns the state it leaves, the foreign calls it
 * made (in order) and the outcome it passes to its callback.
 */
module Series {
  import opened Wrappers

  /** What one task did. */
  datatype Step<S, C, E> = Step(after: S, calls: seq<C>, outcome: Outcome<E>)

  /** What a run of tasks did; `ran` counts the tasks that were started. */
  datatype Report<S, C, E> = Report(after: S, calls: seq<C>, outcome: Outcome<E>, ran: nat)

  /** A run of some tasks followed by a run of the ones after them. */
  function Join<S, C, E>(p: Report<S, C, E>, q: Report<S, C, E>): Report<S, C, E>
  {
    Report(q.after, p.calls + q.calls, q.outcome, p.ran + q.ran)
  }

  /** A run that has started no task yet. */
  function Start<S, C, E>(s: S): Report<S, C, E>
  {
    Report(s, [], Pass, 0)
  }

  /** A report extended by one more task. */
  function Extend<S, C, E>(p: Report<S, C, E>, t: Step<S, C, E>): Report<S, C, E>
  {
    Report(t.after, p.calls + t.calls, t.outcome, p.ran + 1)
  }

  /**
   * Runs tasks k, k+1, ..., n-1 from state s, stopping after the first task
   * whose outcome is a failure.
   */
  function Run<S, C, E>(task: (nat, S) -> Step<S, C, E>, n: nat, k: nat, s: S): (r: Report<S, C, E>)
    requires k <= n
    ensures r.ran <= n - k
    ensures r.outcome.Pass? ==> r.ran == n - k
    ensures r.outcome.Fail? ==> 0 < r.ran
    decreases n - k
  {
    if k == n then Report(s, [], Pass, 0)
    else
      var t := task(k, s);
      if t.outcome.Fail? then Report(t.after, t.calls, t.outcome, 1)
      else Join(Report(t.after, t.calls, Pass, 1), Run(task, n, k + 1, t.after))
  }

  /**
   * A run splits at any intermediate position m: if the tasks before m already
   * failed, the later tasks are never started; otherwise the run continues
   * from the state the earlier tasks left.
   */
  lemma {:induction false} RunSplit<S, C, E>(task: (nat, S) -> Step<S, C, E>, n: nat, m: nat, k: nat, s: S)
    requires k <= m <= n
    ensures var p := Run(task, m, k, s);
            Run(task, n, k, s) == if p.outcome.Fail? then p else Join(p, Run(task, n, m, p.after))
    decreases m - k
  {
    if k < m {
      var t := task(k, s);
      if t.outcome.Pass? {
        RunSplit(task, n, m, k + 1, t.after);
      }
    }
  }

  /**
   * The first failing task ends the run: if tasks k..f-1 passed and task f
   * fails, the run's outcome is exactly task f's, no task after f makes any
   * call, and f - k + 1 tasks were started.
   */
  lemma RunStopsAtFirstFailure<S, C, E>(task: (nat, S) -> Step<S, C, E>, n: nat, f: nat, k: nat, s: S)
    requires k <= f < n
    requires Run(task, f, k, s).outcome.Pass?
    requires task(f, Run(task, f, k, s).after).outcome.Fail?
    ensures var p := Run(task, f, k, s);
            var t := task(f, p.after);
            Run(task, n, k, s) == Report(t.after, p.calls + t.calls, t.outcome, f - k + 1)
  {
    RunSplit(task, n, f, k, s);
  }

  /**
   * Success is reported exactly when every task, started from the state its
   * predecessors left, passed.
   */
  lemma {:induction false} RunPassesIffEveryTaskPasses<S, C, E>(task: (nat, S) -> Step<S, C, E>, n: nat, k: nat, s: S)
    requires k <= n
    ensures Run(task, n, k, s).outcome.Pass? <==>
            forall j :: k <= j < n ==> task(j, Run(task, j, k, s).after).outcome.Pass?
    decreases n - k
  {
    if k < n {
      RunPassesIffEveryTaskPasses(task, n - 1, k, s);
      RunSplit(task, n, n - 1, k, s);
    }
  }

  /**
   * Executing a series one task at a time: when the whole run is the tasks
   * before k (which passed and left `done`) followed by the tasks from k on,
   * then after task k the run is either over (task k failed) or is the tasks
   * up to k followed by the tasks after k, run from the state k left.
   */
  lemma RunAdvance<S, C, E>(task: (nat, S) -> Step<S, C, E>, n: nat, k: nat, whole: Report<S, C, E>, done: Report<S, C, E>)
    requires k < n
    requires whole == Join(done, Run(task, n, k, done.after))
    ensures var next := Extend(done, task(k, done.after));
            (next.outcome.Pass? ==> whole == Join(next, Run(task, n, k + 1, next.after)))
            && (next.outcome.Fail? ==> whole == next)
  {
    var t := task(k, done.after);
    if t.outcome.Pass? {
      var rest := Run(task, n, k + 1, t.after);
      assert done.calls + (t.calls + rest.calls) == (done.calls + t.calls) + rest.calls;
    }
  }

  /** A series that has started no task yet, or has no task left, adds nothing. */
  lemma RunEnds<S, C, E>(task: (nat, S) -> Step<S, C, E>, n: nat, k: nat, done: Report<S, C, E>)
    requires k <= n
    ensures Join(Start(done.after), Run(task, n, k, done.after)) == Run(task, n, k, done.after)
    ensures done.outcome.Pass? ==> Join(done, Run(task, n, n, done.after)) == done
  {
    assert done.calls + [] == done.calls;
  }
}
