/** The run-state machine of `Simulator` on values.

    `tasks` lists every task ever submitted to an executor, oldest first; the last one
    is the task behind the `simulationFuture` field, which `resume` overwrites. An empty
    list means that the `lateinit` field has not been assigned yet.

    The worker is modelled by explicit events: its task starts (which is where
    `status = RUNNING` is executed), it fails with an exception, or it ends because a
    cancellation interrupted its sleep. The failure callback runs on the thread that
    completes the future; for a cancellation that is the thread calling `cancel` inside
    `pause` or `stop`, which overwrite its `STOPPED` right afterwards, so only its
    effect on a genuine failure is visible. */
module RunState {

  datatype Status = Idle | Running | Paused | Stopped

  /** Where the submitted task is: waiting for the worker thread, running `simulate`,
      or finished (only ever by an exception: `simulate` does not return normally). */
  datatype Phase = Queued | Started | Ended

  /** A submitted task and whether its future has been cancelled. */
  datatype Task = Task(cancelled: bool, phase: Phase)

  datatype Control = Control(status: Status, tasks: seq<Task>)

  const Initial := Control(Idle, [])

  /** The `simulationFuture` field has been assigned. */
  predicate HasFuture(c: Control)
  {
    |c.tasks| > 0
  }

  /** The task of `simulationFuture`. */
  function Current(c: Control): Task
    requires HasFuture(c)
  {
    c.tasks[|c.tasks| - 1]
  }

  /** The invariant that makes reading `simulationFuture` safe: any status other
      than `IDLE` is reached only after a future was assigned. */
  predicate Inv(c: Control)
  {
    c.status != Idle ==> HasFuture(c)
  }

  /** `future.cancel(true)`: no effect on a future that is already done. */
  function Cancel(t: Task): (r: Task)
    ensures r.phase == t.phase
    ensures t.phase != Ended ==> r.cancelled
    ensures t.phase == Ended ==> r == t
  {
    if t.phase == Ended then t else t.(cancelled := true)
  }

  /** Cancel the last task and keep the others. */
  function CancelCurrent(tasks: seq<Task>): (r: seq<Task>)
    requires |tasks| > 0
    ensures |r| == |tasks| && r[|r| - 1] == Cancel(tasks[|tasks| - 1])
    ensures forall k :: 0 <= k < |tasks| - 1 ==> r[k] == tasks[k]
  {
    tasks[|tasks| - 1 := Cancel(tasks[|tasks| - 1])]
  }

  /** `resume()`: unless running, submit a fresh task; the status is left to the worker. */
  function Resume(c: Control): (r: Control)
    ensures Inv(c) ==> Inv(r)
  {
    if c.status == Running then c
    else c.(tasks := c.tasks + [Task(false, Queued)])
  }

  /** `start()`: `resume()`, but only from `IDLE`. */
  function Start(c: Control): (r: Control)
    ensures Inv(c) ==> Inv(r)
  {
    if c.status != Idle then c else Resume(c)
  }

  /** `stop()`. */
  function Stop(c: Control): (r: Control)
    requires Inv(c)
    ensures Inv(r)
  {
    if c.status == Idle then c
    else if Current(c).cancelled then c
    else Control(Stopped, CancelCurrent(c.tasks))
  }

  /** `pause()`. */
  function Pause(c: Control): (r: Control)
    requires Inv(c)
    ensures Inv(r)
  {
    if c.status != Running || Current(c).cancelled then c
    else Control(Paused, CancelCurrent(c.tasks))
  }

  /** The control part of `reset()`: `stop()`, then `IDLE`. */
  function Reset(c: Control): (r: Control)
    requires Inv(c)
    ensures Inv(r)
  {
    Stop(c).(status := Idle)
  }

  /** The worker thread picks up task `k`; a cancelled task is never run. */
  predicate CanStart(c: Control, k: nat)
  {
    k < |c.tasks| && c.tasks[k] == Task(false, Queued)
  }

  /** The first statement of the submitted task: `status = RUNNING`. */
  function WorkerStarts(c: Control, k: nat): (r: Control)
    requires CanStart(c, k)
    ensures Inv(r)
  {
    Control(Running, c.tasks[k := Task(false, Started)])
  }

  predicate IsStarted(c: Control, k: nat)
  {
    k < |c.tasks| && c.tasks[k].phase == Started
  }

  /** Task `k` throws. If its future was not cancelled, `onFailure` sets `STOPPED`;
      a cancelled future has already reported and ignores the exception. */
  function WorkerFails(c: Control, k: nat): (r: Control)
    requires IsStarted(c, k)
    ensures Inv(c) ==> Inv(r)
  {
    var t := c.tasks[k];
    if t.cancelled then c.(tasks := c.tasks[k := t.(phase := Ended)])
    else Control(Stopped, c.tasks[k := t.(phase := Ended)])
  }

  /** Task `k`, cancelled, reaches `Thread.sleep`, which throws `InterruptedException`. */
  function WorkerInterrupted(c: Control, k: nat): (r: Control)
    requires IsStarted(c, k) && c.tasks[k].cancelled
    ensures Inv(c) ==> Inv(r)
  {
    c.(tasks := c.tasks[k := c.tasks[k].(phase := Ended)])
  }

  // ---------------------------------------------------------------------------
  // Properties of the state machine

  /** `start()` does nothing unless the status is `IDLE`. */
  lemma StartOnlyFromIdle(c: Control)
    ensures c.status != Idle ==> Start(c) == c
    ensures c.status == Idle ==> Start(c) == Resume(c)
  {
  }

  /** `resume()` does nothing while running; otherwise it installs a fresh, uncancelled
      and not yet started task, keeps every earlier task as it was, and does not
      change the status: only the worker's first statement makes it `RUNNING`. */
  lemma ResumeInstallsFreshTask(c: Control)
    ensures c.status == Running ==> Resume(c) == c
    ensures c.status != Running ==>
      var r := Resume(c);
      && r.status == c.status
      && |r.tasks| == |c.tasks| + 1 && r.tasks[..|c.tasks|] == c.tasks
      && HasFuture(r) && Current(r) == Task(false, Queued)
      && CanStart(r, |c.tasks|)
  {
  }

  /** `pause()` acts only when running with an uncancelled future, and then ends in
      `PAUSE` with that future cancelled; otherwise it does nothing. */
  lemma PauseEffect(c: Control)
    requires Inv(c)
    ensures c.status == Running && !Current(c).cancelled ==>
      var r := Pause(c);
      && r.status == Paused
      && |r.tasks| == |c.tasks| && HasFuture(r)
      && r.tasks[..|c.tasks| - 1] == c.tasks[..|c.tasks| - 1]
      && (Current(c).phase != Ended ==> Current(r).cancelled)
    ensures !(c.status == Running && !Current(c).cancelled) ==> Pause(c) == c
  {
  }

  /** `stop()` does nothing when `IDLE` or when the future is already cancelled;
      otherwise it cancels the future and ends `STOPPED`. */
  lemma StopEffect(c: Control)
    requires Inv(c)
    ensures c.status == Idle || Current(c).cancelled ==> Stop(c) == c
    ensures c.status != Idle && !Current(c).cancelled ==>
      var r := Stop(c);
      && r.status == Stopped
      && |r.tasks| == |c.tasks| && HasFuture(r)
      && r.tasks[..|c.tasks| - 1] == c.tasks[..|c.tasks| - 1]
      && (Current(c).phase != Ended ==> Current(r).cancelled)
  {
  }

  /** `stop()` after a `pause()` that took effect does nothing: the future is already
      cancelled, so the status stays `PAUSE`. */
  lemma StopAfterPauseKeepsPause(c: Control)
    requires Inv(c) && c.status == Running && HasFuture(c)
    requires !Current(c).cancelled && Current(c).phase != Ended
    ensures Stop(Pause(c)) == Pause(c)
    ensures Stop(Pause(c)).status == Paused
  {
    PauseEffect(c);
  }

  /** `reset()` ends in `IDLE` whatever the state before. */
  lemma ResetEndsIdle(c: Control)
    requires Inv(c)
    ensures Reset(c).status == Idle
    ensures |Reset(c).tasks| == |c.tasks|
  {
  }

  /** `stop()` between `start()` and the worker's start is ignored, because the status
      is still `IDLE`; the task then starts and the simulator runs. */
  lemma StopBeforeWorkerStartIsIgnored()
    ensures Stop(Start(Initial)) == Start(Initial)
    ensures CanStart(Stop(Start(Initial)), 0)
    ensures WorkerStarts(Stop(Start(Initial)), 0).status == Running
  {
  }

  /** A second `start()` before the worker has started submits a second task; the
      first one is no longer referenced, is never cancelled by `stop()`, and can still
      start afterwards and set the status back to `RUNNING`. */
  lemma SecondStartLeavesFirstTaskLive()
    ensures
      var c2 := Start(Start(Initial));
      var c3 := WorkerStarts(c2, 1);
      var c4 := Stop(c3);
      && |c2.tasks| == 2 && CanStart(c2, 0) && CanStart(c2, 1)
      && c4.status == Stopped && Current(c4).cancelled
      && CanStart(c4, 0)
      && WorkerStarts(c4, 0).status == Running
  {
  }

  /** The command sequence start, pause, resume, stop, reset (with the worker starting
      each submitted task) ends `IDLE`, the last task cancelled. */
  lemma CommandSequenceEndsIdle()
    ensures
      var c1 := WorkerStarts(Start(Initial), 0);
      var c2 := Pause(c1);
      var c3 := WorkerStarts(Resume(c2), 1);
      var c4 := Stop(c3);
      var c5 := Reset(c4);
      && c2.status == Paused && c3.status == Running && c4.status == Stopped
      && c5.status == Idle && |c5.tasks| == 2
      && c5.tasks[0].cancelled && c5.tasks[1].cancelled
  {
  }
}
