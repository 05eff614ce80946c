/** The clear as the server carries it out: which tasks, and what becomes of them. */
module ServerClear {
  import opened JobDag
  import opened JobClear
  import opened JobRun

  /** A task in its pod is marked, so that its end starts it over. */
  function RestartLive(s: TaskState): TaskState {
    if s in {Queued, Running} then Restarting else s
  }

  /** A task that has ended is archived and given a fresh try. */
  function RotateEnded(s: TaskState): TaskState {
    if s in {Succeeded, Skipped, Failed, TimedOut, UpstreamFailed, UpstreamSkipped, Canceled} then Untouched else s
  }

  /** A task that has not begun is reset in place. */
  function ResetPending(s: TaskState): TaskState {
    if s in {Untouched, Scheduled, UpForRetry} then Untouched else s
  }

  /** The server's clear of one task: the closure it computes, every output taken as
      present, and the three statements on the tasks it names. */
  method ClearTask(dag: Dag, s: Job, seed: nat) returns (t: Job)
    requires Registered(dag) && |s.tasks| == |dag| && seed < |dag| && s.phase != Stopping
    ensures Step(dag, s, Clear(seed), t)
  {
    var run := ServerClosure(dag, seed);
    t := Job(
      if s.phase == Settled then Waiting else s.phase,
      seq(|dag|, i requires 0 <= i < |dag| => if i in run then ResetPending(RotateEnded(RestartLive(s.tasks[i]))) else s.tasks[i]));
  }
}
