/** Node install jobs: the rule that starts them, and the pipeline that runs each one and may fail
    at any stage. A job is named by its position in the table. */
module InstallJob {
  import opened Wrappers

  datatype Status = Pending | Running | Success | Failed | Cancelled

  datatype Job = Job(server: int, status: Status, progress: nat, finished: bool, error: Option<string>)

  function Created(server: int): Job {
    Job(server, Pending, 0, false, None)
  }

  predicate Open(j: Job) {
    j.status.Pending? || j.status.Running?
  }

  /** The progress the pipeline reports before each of its stages; only a forced install removes the
      previous one first. */
  function Stages(force: bool): seq<nat> {
    [5, 10] + (if force then [20] else []) + [30, 55, 75, 90]
  }

  predicate Closes(status: Status) {
    status.Success? || status.Failed? || status.Cancelled?
  }

  function Clamp(progress: int): nat {
    if progress < 0 then 0 else if progress > 100 then 100 else progress
  }

  /** `_set_status`; a report need not carry a progress. */
  function Reported(j: Job, status: Status, progress: Option<int>): Job {
    Job(j.server, status,
        if status.Success? then 100 else if progress.Some? then Clamp(progress.value) else j.progress,
        j.finished || Closes(status),
        if status.Success? then None else j.error)
  }

  /** What the runner writes when the pipeline raises. */
  function Crashed(j: Job, error: string): Job {
    Job(j.server, Failed, 100, true, Some(error))
  }

  /** Reports that stop after `k` stages, and the end of the job. */
  lemma TrailRises(force: bool, k: nat)
    requires k <= |Stages(force)|
    ensures var trail := [0] + Stages(force)[..k] + [100];
            forall i, j | 0 <= i < j < |trail| :: trail[i] <= trail[j] <= 100
  {
    var stages := Stages(force);
    assert forall i | 0 <= i < |stages| :: stages[i] <= 100;
    assert forall i, j | 0 <= i < j < |stages| :: stages[i] <= stages[j];
  }

  // ---------- one run ----------

  class InstallRun {
    var job: Job
    /** The progress values written so far. */
    ghost var trail: seq<nat>

    constructor (server: int)
      ensures job == Created(server) && trail == [0]
    {
      job := Created(server);
      trail := [0];
    }

    method SetStatus(status: Status, progress: Option<int>)
      modifies this
      ensures job == Reported(old(job), status, progress) && trail == old(trail) + [job.progress]
      ensures job.server == old(job.server) && job.status == status
      ensures status == Success ==> job.progress == 100 && job.finished && job.error == None
      ensures status != Success ==> job.error == old(job.error)
      ensures status != Success && progress == None ==> job.progress == old(job.progress)
      ensures status != Success && progress.Some? ==>
                && (progress.value <= 0 ==> job.progress == 0) && (progress.value >= 100 ==> job.progress == 100)
                && (0 < progress.value < 100 ==> job.progress == progress.value)
      ensures job.finished <==> old(job.finished) || status in {Success, Failed, Cancelled}
    {
      job := job.(status := status);
      if progress.Some? {
        var clamped := if progress.value > 100 then 100 else progress.value;
        job := job.(progress := if clamped < 0 then 0 else clamped);
      }
      if status.Success? || status.Failed? || status.Cancelled? {
        job := job.(finished := true);
      }
      if status.Success? {
        job := job.(progress := 100, error := None);
      }
      trail := trail + [job.progress];
    }

    /** The whole pipeline. The work after the `k`-th report raises when `k == failAt`; beyond the
        last report nothing is left to raise. */
    method RunInstall(force: bool, failAt: nat, error: string)
      requires job.status.Pending? && job.progress == 0 && !job.finished && trail == [0]
      modifies this
      ensures job.server == old(job.server) && job.finished && job.progress == 100
      ensures job.status == if failAt > |Stages(force)| then Success else Failed
      ensures job.error == if job.status.Success? then None else Some(error)
      ensures forall j, k | 0 <= j < k < |trail| :: trail[j] <= trail[k] <= 100
      ensures trail == [0] + (if failAt > |Stages(force)| then Stages(force) else Stages(force)[..failAt]) + [100]
      ensures !force && failAt >= 7 ==> trail == [0, 5, 10, 30, 55, 75, 90, 100] && job.status == Success
      ensures force && failAt >= 8 ==> trail == [0, 5, 10, 20, 30, 55, 75, 90, 100] && job.status == Success
      ensures failAt < (if force then 8 else 7) ==> job.status == Failed
    {
      var stages := Stages(force);
      TrailRises(force, if failAt > |stages| then |stages| else failAt);
      for k := 0 to |stages|
        invariant k <= failAt
        invariant trail == [0] + stages[..k]
        invariant job.server == old(job.server)
      {
        if k == failAt {
          job := Crashed(job, error);
          trail := trail + [100];
          return;
        }
        SetStatus(Running, Some(stages[k]));
      }
      assert stages[..|stages|] == stages;
      if failAt == |stages| {
        job := Crashed(job, error);
        trail := trail + [100];
        return;
      }
      SetStatus(Success, Some(100));
    }
  }

  // ---------- all jobs, every interleaving ----------

  /** A job and its task: how many stages the task has reported. */
  datatype Task = Task(job: Job, force: bool, reported: nat)

  datatype Event =
    | Start(server: int, force: bool)
    | Advance(i: nat)                  // the task's current work succeeds
    | Raise(i: nat, error: string)     // or raises

  /** The job a new request attaches to: the newest open one of the server. */
  function Existing(tasks: seq<Task>, server: int): Option<nat> {
    if tasks == [] then None
    else
      var n := |tasks| - 1;
      if tasks[n].job.server == server && Open(tasks[n].job) then Some(n) else Existing(tasks[..n], server)
  }

  function Advanced(t: Task): Task {
    var stages := Stages(t.force);
    if t.job.finished then t
    else if t.reported < |stages| then Task(Reported(t.job, Running, Some(stages[t.reported])), t.force, t.reported + 1)
    else t.(job := Reported(t.job, Success, Some(100)))
  }

  function After(tasks: seq<Task>, e: Event): seq<Task> {
    match e
    case Start(server, force) =>
      if Existing(tasks, server).Some? && !force then tasks else tasks + [Task(Created(server), force, 0)]
    case Advance(i) => if i < |tasks| then tasks[i := Advanced(tasks[i])] else tasks
    case Raise(i, error) =>
      if i < |tasks| && !tasks[i].job.finished
      then tasks[i := tasks[i].(job := Crashed(tasks[i].job, error))]
      else tasks
  }

  function AfterAll(tasks: seq<Task>, events: seq<Event>): seq<Task> {
    if events == [] then tasks else After(AfterAll(tasks, events[..|events| - 1]), events[|events| - 1])
  }

  /** The progress of an unfinished task is that of its last report. */
  predicate Consistent(t: Task) {
    var stages := Stages(t.force);
    && t.reported <= |stages|
    && (t.job.finished <==> t.job.status.Success? || t.job.status.Failed?)
    && (t.job.finished ==> t.job.progress == 100)
    && (t.job.finished ==> (t.job.error == None <==> t.job.status.Success?))
    && (!t.job.finished ==>
          && t.job.progress == (if t.reported == 0 then 0 else stages[t.reported - 1])
          && t.job.status == (if t.reported == 0 then Pending else Running))
  }

  predicate AllConsistent(tasks: seq<Task>) {
    forall i | 0 <= i < |tasks| :: Consistent(tasks[i])
  }

  lemma AdvancedForward(t: Task)
    requires Consistent(t)
    ensures Consistent(Advanced(t)) && Forward(t.job, Advanced(t).job)
  {
    var stages := Stages(t.force);
    assert forall k | 0 <= k < |stages| :: stages[k] <= 100 && (k > 0 ==> stages[k - 1] <= stages[k]);
  }

  lemma CrashedForward(t: Task, error: string)
    requires Consistent(t) && !t.job.finished
    ensures var c := t.(job := Crashed(t.job, error)); Consistent(c) && Forward(t.job, c.job)
  {
    assert forall k | 0 <= k < |Stages(t.force)| :: Stages(t.force)[k] <= 100;
  }

  /** Progress does not fall, and a finished job stays as it is. */
  predicate Forward(a: Job, b: Job) {
    a.progress <= b.progress && a.server == b.server && (a.finished ==> a == b)
  }

  lemma StepConsistent(tasks: seq<Task>, e: Event)
    requires AllConsistent(tasks)
    ensures AllConsistent(After(tasks, e)) && |tasks| <= |After(tasks, e)|
    ensures forall i | 0 <= i < |tasks| :: Forward(tasks[i].job, After(tasks, e)[i].job)
  {
    hide Consistent, Advanced, Existing;
    match e {
      case Start(server, force) => CreatedConsistent(server, force);
      case Advance(i) => if i < |tasks| { AdvancedForward(tasks[i]); }
      case Raise(i, error) => if i < |tasks| && !tasks[i].job.finished { CrashedForward(tasks[i], error); }
    }
  }

  lemma CreatedConsistent(server: int, force: bool)
    ensures Consistent(Task(Created(server), force, 0))
  {
  }

  /** In every interleaving: a job's progress never decreases, and once it is finished, it is
      `success` or `failed` with progress 100 and never changes again. */
  lemma {:induction false} JobsOnlyMoveForward(tasks: seq<Task>, events: seq<Event>, i: nat)
    requires AllConsistent(tasks) && i < |tasks|
    ensures AllConsistent(AfterAll(tasks, events)) && |tasks| <= |AfterAll(tasks, events)|
    ensures var a, b := tasks[i].job, AfterAll(tasks, events)[i].job;
            && Forward(a, b)
            && (a.finished ==> a.progress == 100 && (a.status.Success? || a.status.Failed?))
            && (a.finished ==> (a.error == None <==> a.status.Success?))
    decreases |events|
  {
    if events != [] {
      var init := events[..|events| - 1];
      JobsOnlyMoveForward(tasks, init, i);
      StepConsistent(AfterAll(tasks, init), events[|events| - 1]);
      assert AfterAll(tasks, init)[i].job.progress <= AfterAll(tasks, events)[i].job.progress;
    }
  }

  /** What each event does to the table: a request without force attaches to the open job of its server,
      any other opens a pending job at the end; work that raises closes its job as failed, with the
      error; and nothing touches another job. */
  lemma EventsWrite(tasks: seq<Task>, server: int, force: bool, i: nat, error: string)
    ensures After(tasks, Start(server, force)) ==
            if !force && Existing(tasks, server).Some? then tasks
            else tasks + [Task(Job(server, Pending, 0, false, None), force, 0)]
    ensures var b := After(tasks, Raise(i, error));
            && |b| == |tasks| && (forall k | 0 <= k < |tasks| && k != i :: b[k] == tasks[k])
            && (i < |tasks| && !tasks[i].job.finished ==>
                  b[i].job == Job(tasks[i].job.server, Failed, 100, true, Some(error)))
            && (i < |tasks| && tasks[i].job.finished ==> b[i] == tasks[i])
    ensures var b := After(tasks, Advance(i));
            |b| == |tasks| && forall k | 0 <= k < |tasks| && k != i :: b[k] == tasks[k]
  {
    hide Existing, Advanced;
  }

  /** How much work a task has left. */
  function Remaining(t: Task): nat {
    if t.job.finished || t.reported > |Stages(t.force)| then 0 else |Stages(t.force)| - t.reported + 1
  }

  lemma AdvanceOnce(tasks: seq<Task>, i: nat)
    requires AllConsistent(tasks) && i < |tasks|
    ensures var a, b := tasks[i], After(tasks, Advance(i))[i];
            if a.job.finished then b == a
            else if Remaining(a) == 1 then b.job.status.Success? && b.job.finished
            else !b.job.finished && Remaining(b) == Remaining(a) - 1
  {
    assert Consistent(tasks[i]);
  }

  /** A task that is advanced as often as it has work left is finished, successfully. */
  lemma {:induction false} AdvancingFinishes(tasks: seq<Task>, i: nat, n: nat)
    requires AllConsistent(tasks) && i < |tasks| && !tasks[i].job.finished
    ensures Remaining(tasks[i]) > 0
    ensures var b := AfterAll(tasks, seq(n, _ => Advance(i)));
            && AllConsistent(b) && |b| == |tasks|
            && (n < Remaining(tasks[i]) ==> !b[i].job.finished && Remaining(b[i]) == Remaining(tasks[i]) - n)
            && (n >= Remaining(tasks[i]) ==> b[i].job.finished && b[i].job.status.Success?)
    decreases n
  {
    assert Consistent(tasks[i]);
    if n > 0 {
      var events := seq(n, _ => Advance(i));
      assert events[..n - 1] == seq(n - 1, _ => Advance(i)) && events[n - 1] == Advance(i);
      AdvancingFinishes(tasks, i, n - 1);
      var before := AfterAll(tasks, events[..n - 1]);
      StepConsistent(before, Advance(i));
      AdvanceOnce(before, i);
      hide Remaining, Advanced, Consistent, Stages;
    }
  }

  // ---------- one open job per server ----------

  ghost predicate OneOpen(tasks: seq<Task>) {
    forall i, j | 0 <= i < j < |tasks| && tasks[i].job.status in {Pending, Running}
                  && tasks[j].job.status in {Pending, Running} ::
      tasks[i].job.server != tasks[j].job.server
  }

  lemma {:induction false} ExistingFinds(tasks: seq<Task>, server: int)
    ensures match Existing(tasks, server)
            case Some(n) =>
              n < |tasks| && tasks[n].job.server == server && tasks[n].job.status in {Pending, Running}
              && forall i | n < i < |tasks| && tasks[i].job.server == server ::
                   tasks[i].job.status !in {Pending, Running}
            case None =>
              forall i | 0 <= i < |tasks| && tasks[i].job.server == server ::
                tasks[i].job.status !in {Pending, Running}
    decreases |tasks|
  {
    if tasks != [] {
      ExistingFinds(tasks[..|tasks| - 1], server);
      assert forall i | 0 <= i < |tasks| - 1 :: tasks[..|tasks| - 1][i] == tasks[i];
    }
  }

  /** While no install is forced, no server ever has two pending or running jobs. */
  lemma {:induction false} NeverTwoOpen(events: seq<Event>)
    requires forall k | 0 <= k < |events| && events[k].Start? :: !events[k].force
    ensures AllConsistent(AfterAll([], events)) && OneOpen(AfterAll([], events))
    decreases |events|
  {
    if events != [] {
      var n := |events| - 1;
      var tasks, e := AfterAll([], events[..n]), events[n];
      NeverTwoOpen(events[..n]);
      StepConsistent(tasks, e);
      if e.Start? {
        ExistingFinds(tasks, e.server);
      }
      var b := After(tasks, e);
      forall i, j | 0 <= i < j < |b| && Open(b[i].job) && Open(b[j].job) ensures b[i].job.server != b[j].job.server {
        assert i < |tasks| ==> b[i].job.server == tasks[i].job.server && Open(tasks[i].job);
        assert j < |tasks| ==> b[j].job.server == tasks[j].job.server && Open(tasks[j].job);
      }
    }
  }

  /** A forced request while a job is open leaves the server with two. */
  lemma ForceOpensASecond(tasks: seq<Task>, server: int)
    requires Existing(tasks, server).Some?
    ensures !OneOpen(After(tasks, Start(server, true)))
    ensures After(tasks, Start(server, false)) == tasks
  {
    ExistingFinds(tasks, server);
    var b := After(tasks, Start(server, true));
    var n := Existing(tasks, server).value;
    assert Open(b[n].job) && Open(b[|tasks|].job) && b[n].job.server == b[|tasks|].job.server;
  }
}
