/** How a connection paces its attempts: repeats wait for the retry interval, and a failed rendering is not repeated. */
module Pacing {
  import opened Common
  import opened Assignments
  import opened Session
  import opened Attempt
  import opened Delivery
  import opened Budget
  import C = Coherence
  import D = Delta

  // ---------------------------------------------------------------------------------------------
  // The retry interval
  // ---------------------------------------------------------------------------------------------

  /** How often the checks found the retry interval over for assignment `id`, since the last connect. */
  ghost function WaitedAfter(w: World, step: Step, id: nat, n: nat): nat {
    if step.Connect? then 0 else if step == Check(true) && w.job.Loaded? && w.job.id == id then n + 1 else n
  }

  ghost function Waited(w: World, steps: seq<Step>, id: nat, n: nat): nat
    requires Sized(w) && Possible(w, steps)
    decreases |steps|
  {
    if steps == [] then n else Waited(Next(w, steps[0]), steps[1..], id, WaitedAfter(w, steps[0], id, n))
  }

  /** One for the assignment an attempt is past its checks on, its record not written yet. */
  ghost function Past(job: Job, id: nat): nat {
    if (job.Checked? || job.Based? || job.Numbered? || job.Prepared?) && job.id == id then 1 else 0
  }

  ghost predicate Paced(w: World, id: nat, n: nat) {
    CountOf(w.attemptsHere, id) + Past(w.job, id) <= 1 + n
  }

  /** The checks: the first attempt on the connection passes at once, a later one only after the interval. */
  lemma CheckPaces(w: World, elapsed: bool, id: nat, n: nat)
    requires BudgetInv(w) && Sized(w) && Enabled(w, Check(elapsed)) && Paced(w, id, n)
    ensures Paced(Next(w, Check(elapsed)), id, WaitedAfter(w, Check(elapsed), id, n))
  {
    hide Acknowledged, Newest, Coherent;
  }

  lemma WritePaces(w: World, step: Step, id: nat, n: nat)
    requires Sized(w) && Enabled(w, step) && step.Write? && Paced(w, id, n)
    ensures Paced(Next(w, step), id, n)
  {
  }

  lemma StepPaces(w: World, step: Step, id: nat, n: nat)
    requires BudgetInv(w) && Sized(w) && Enabled(w, step) && Paced(w, id, n)
    ensures Paced(Next(w, step), id, WaitedAfter(w, step, id, n))
  {
    hide BudgetInv, Coherent, D.Paint, D.Placed, Patch, Newest, ConfirmedBase, Decide, Remembered, Verdicted,
         MarkDelivered, Reconcile, Execute, PendingId;
    match step
    case Check(elapsed) => CheckPaces(w, elapsed, id, n);
    case Write(_, _) => WritePaces(w, step, id, n);
    case _ =>
  }

  lemma {:induction false} RunPaces(w: World, steps: seq<Step>, id: nat, n: nat)
    requires BudgetInv(w) && Sized(w) && Possible(w, steps) && Paced(w, id, n)
    ensures Paced(Run(w, steps), id, Waited(w, steps, id, n))
    decreases |steps|
  {
    hide Next, Enabled, Sized, BudgetInv, Paced, WaitedAfter;
    if steps != [] {
      StepPaces(w, steps[0], id, n);
      StepKeeps(w, steps[0]);
      RunPaces(Next(w, steps[0]), steps[1..], id, WaitedAfter(w, steps[0], id, n));
    }
  }

  /**
   Over every run from a fresh server an assignment is written on the current connection at most once more than the
   retry interval was found over for it there: its first attempt goes out at once, every repeat has waited.
   */
  lemma RepeatsWait(start: World, steps: seq<Step>, id: nat)
    requires C.Init(start) && Possible(start, steps)
    ensures CountOf(Run(start, steps).attemptsHere, id) <= 1 + Waited(start, steps, id, 0)
  {
    hide Next, Enabled;
    RunPaces(start, steps, id, 0);
  }

  // ---------------------------------------------------------------------------------------------
  // Failed renderings
  // ---------------------------------------------------------------------------------------------

  /** How often rendering assignment `id` has failed since the last connect. */
  ghost function FailedAfter(w: World, step: Step, id: nat, n: nat): nat {
    if step.Connect? then 0
    else if step.Render? && w.job.Checked? && w.job.id == id && w.job.row.rendered == None then n + 1
    else n
  }

  ghost function FailedRenders(w: World, steps: seq<Step>, id: nat, n: nat): nat
    requires Sized(w) && Possible(w, steps)
    decreases |steps|
  {
    if steps == [] then n else FailedRenders(Next(w, steps[0]), steps[1..], id, FailedAfter(w, steps[0], id, n))
  }

  /** A failure is noted until a newer assignment is tried, and an assignment noted does not pass the checks. */
  ghost predicate NotRepeated(w: World, id: nat, n: nat) {
    && n <= 1
    && (w.connected ==> w.session.renderFailedID <= w.session.attemptID && (n > 0 ==> id <= w.session.renderFailedID))
    && (w.job.Checked? && w.job.id == id ==> n == 0)
  }

  lemma CheckKeepsFailed(w: World, elapsed: bool, id: nat, n: nat)
    requires BudgetInv(w) && Sized(w) && Enabled(w, Check(elapsed)) && NotRepeated(w, id, n)
    ensures NotRepeated(Next(w, Check(elapsed)), id, n)
  {
    hide Acknowledged, Newest, Coherent;
  }

  lemma RenderFails(w: World, id: nat, n: nat)
    requires BudgetInv(w) && Sized(w) && Enabled(w, Render) && NotRepeated(w, id, n)
    ensures NotRepeated(Next(w, Render), id, FailedAfter(w, Render, id, n))
  {
    hide Patch, ConfirmedBase, Newest;
  }

  lemma StepFails(w: World, step: Step, id: nat, n: nat)
    requires BudgetInv(w) && Sized(w) && Enabled(w, step) && NotRepeated(w, id, n)
    ensures NotRepeated(Next(w, step), id, FailedAfter(w, step, id, n))
  {
    hide BudgetInv, Coherent, D.Paint, D.Placed, Patch, Newest, ConfirmedBase, Decide, Verdicted,
         MarkDelivered, Reconcile, Execute, PendingId;
    match step
    case Check(elapsed) => CheckKeepsFailed(w, elapsed, id, n);
    case Render => RenderFails(w, id, n);
    case _ =>
  }

  lemma {:induction false} RunFails(w: World, steps: seq<Step>, id: nat, n: nat)
    requires BudgetInv(w) && Sized(w) && Possible(w, steps) && NotRepeated(w, id, n)
    ensures NotRepeated(Run(w, steps), id, FailedRenders(w, steps, id, n))
    decreases |steps|
  {
    hide Next, Enabled, Sized, BudgetInv, NotRepeated, FailedAfter;
    if steps != [] {
      StepFails(w, steps[0], id, n);
      StepKeeps(w, steps[0]);
      RunFails(Next(w, steps[0]), steps[1..], id, FailedAfter(w, steps[0], id, n));
    }
  }

  /** Over every run from a fresh server, rendering an assignment fails at most once on a connection. */
  lemma FailsOnce(start: World, steps: seq<Step>, id: nat)
    requires C.Init(start) && Possible(start, steps)
    ensures FailedRenders(start, steps, id, 0) <= 1
  {
    hide Next, Enabled;
    RunFails(start, steps, id, 0);
  }
}
