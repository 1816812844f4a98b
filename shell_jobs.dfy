// The shell's background-job table. Jobs are values kept in a dictionary from
// job id to job; the manager hands out increasing ids and remembers which
// finished jobs have been reported to the user. Whether a job's thread is
// still alive is the parameter `alive`, and the clock is the parameter `now`.
// A dictionary iterates in insertion order; ids are inserted in increasing
// order and never reused, so the model iterates in increasing id order.
module ShellJobs {
  import opened Wrappers

  datatype JobState = Running | Completed | Failed

  /** The text each state is shown as. */
  function StateName(s: JobState): (r: string)
    ensures r != []
    ensures s.Completed? <==> r == "Done"
  {
    match s
    case Running => "Running"
    case Completed => "Done"
    case Failed => "Failed"
  }

  /** The thread a job runs on, known by an identifier. */
  type ThreadId = nat

  datatype Job = Job(jobId: int, command: string, thread: ThreadId, state: JobState,
                      exitCode: Option<int>, startTime: int, endTime: Option<int>)

  predicate Finished(j: Job) { j.state == Completed || j.state == Failed }

  /** `update_job_status` on one job: the exit code decides between done and failed. */
  function Finish(j: Job, code: int, now: int): (r: Job)
    ensures r.state == Completed <==> code == 0
    ensures Finished(r) && r.exitCode == Some(code) && r.endTime == Some(now)
    ensures r.jobId == j.jobId && r.command == j.command && r.thread == j.thread && r.startTime == j.startTime
  {
    j.(exitCode := Some(code), endTime := Some(now), state := if code == 0 then Completed else Failed)
  }

  /** Reaping one job: a running job whose thread has ended is done, with exit code 0 unless one was
      recorded. */
  function Reap(j: Job, alive: ThreadId -> bool, now: int): Job
  {
    if j.state == Running && !alive(j.thread) then
      j.(state := Completed, endTime := Some(now), exitCode := if j.exitCode.None? then Some(0) else j.exitCode)
    else j
  }

  function ReapAll(jobs: map<int, Job>, alive: ThreadId -> bool, now: int): (r: map<int, Job>)
    ensures r.Keys == jobs.Keys
  {
    map id | id in jobs :: Reap(jobs[id], alive, now)
  }

  /** After reaping, a job still running has a live thread; every other job is unchanged apart from the
      ones reaped, which are done with an exit code; and reaping again changes nothing. */
  lemma ReapSettles(jobs: map<int, Job>, alive: ThreadId -> bool, now: int, later: int)
    ensures forall id :: id in jobs ==>
              var r := ReapAll(jobs, alive, now)[id];
              (r.state == Running <==> jobs[id].state == Running && alive(jobs[id].thread))
              && (jobs[id].state == Running && !alive(jobs[id].thread) ==>
                    r.state == Completed && r.exitCode.Some? && r.endTime == Some(now))
              && (jobs[id].state != Running || alive(jobs[id].thread) ==> r == jobs[id])
    ensures ReapAll(ReapAll(jobs, alive, now), alive, later) == ReapAll(jobs, alive, now)
  {
    var once := ReapAll(jobs, alive, now);
    assert forall id :: id in once ==> Reap(once[id], alive, later) == once[id];
  }

  /** The ids of a job table that lie below `n`, in increasing order. Every id in use lies below the
      next one to be handed out, so with `n` that id this is the order the table iterates in. */
  function Ids(s: set<int>, n: int): (r: seq<int>)
    ensures forall x :: x in r <==> x in s && 1 <= x < n
    ensures forall i :: 0 <= i < |r| ==> r[i] in s
    ensures forall i, j :: 0 <= i < j < |r| ==> r[i] < r[j]
    ensures forall i :: 0 <= i < |r| ==> r[i] < n
    decreases n
  {
    if n <= 1 then []
    else Ids(s, n - 1) + (if n - 1 in s then [n - 1] else [])
  }

  /** The jobs of `ids`, in that order. */
  function JobsOf(ids: seq<int>, jobs: map<int, Job>): (r: seq<Job>)
    requires forall i :: 0 <= i < |ids| ==> ids[i] in jobs
    ensures |r| == |ids| && forall i :: 0 <= i < |ids| ==> r[i] == jobs[ids[i]]
  {
    seq(|ids|, i requires 0 <= i < |ids| => jobs[ids[i]])
  }

  /** The running jobs among `ids`, in order. */
  function RunningOf(ids: seq<int>, jobs: map<int, Job>): seq<Job>
    decreases |ids|
  {
    if ids == [] then []
    else
      var id := ids[|ids| - 1];
      RunningOf(ids[..|ids| - 1], jobs) + (if id in jobs && jobs[id].state == Running then [jobs[id]] else [])
  }

  /** The finished jobs among `ids` whose id has not been reported, in order. */
  function UnnotifiedOf(ids: seq<int>, jobs: map<int, Job>, notified: set<int>): seq<Job>
    decreases |ids|
  {
    if ids == [] then []
    else
      var id := ids[|ids| - 1];
      UnnotifiedOf(ids[..|ids| - 1], jobs, notified)
        + (if id in jobs && Finished(jobs[id]) && jobs[id].jobId !in notified then [jobs[id]] else [])
  }

  lemma UnnotifiedStep(ids: seq<int>, i: int, jobs: map<int, Job>, notified: set<int>)
    requires 0 <= i < |ids|
    ensures UnnotifiedOf(ids[..i + 1], jobs, notified) == UnnotifiedOf(ids[..i], jobs, notified)
              + (if ids[i] in jobs && Finished(jobs[ids[i]]) && jobs[ids[i]].jobId !in notified then [jobs[ids[i]]] else [])
  {
    assert ids[..i + 1][..i] == ids[..i];
  }

  /** A job `cleanup_finished_jobs` removes: finished, reported, and its thread over. */
  predicate Removable(id: int, j: Job, notified: set<int>, alive: ThreadId -> bool) {
    Finished(j) && id in notified && !alive(j.thread)
  }

  /** The removable ids among `ids`, in order. */
  function RemovableIds(ids: seq<int>, jobs: map<int, Job>, notified: set<int>, alive: ThreadId -> bool): (r: seq<int>)
    ensures forall id :: id in r <==> id in ids && id in jobs && Removable(id, jobs[id], notified, alive)
    decreases |ids|
  {
    if ids == [] then []
    else
      var id := ids[|ids| - 1];
      RemovableIds(ids[..|ids| - 1], jobs, notified, alive)
        + (if id in jobs && Removable(id, jobs[id], notified, alive) then [id] else [])
  }

  /** A job is listed as running exactly when one of the ids names it and it is running. */
  lemma {:induction false} RunningOfExactly(ids: seq<int>, jobs: map<int, Job>)
    ensures forall x :: x in RunningOf(ids, jobs) <==> exists id :: id in ids && id in jobs && jobs[id] == x && x.state == Running
    decreases |ids|
  {
    if ids != [] {
      var init := ids[..|ids| - 1];
      RunningOfExactly(init, jobs);
      assert forall id :: id in ids <==> id in init || id == ids[|ids| - 1];
    }
  }

  /** What `get_running_jobs` lists: exactly the jobs that were running on a live thread, unchanged. */
  lemma RunningAfterReap(jobs: map<int, Job>, next: int, alive: ThreadId -> bool, now: int)
    requires forall id :: id in jobs ==> 1 <= id < next
    ensures var reaped := ReapAll(jobs, alive, now);
            forall x :: x in RunningOf(Ids(reaped.Keys, next), reaped) <==>
              exists id :: id in jobs && jobs[id] == x && x.state == Running && alive(x.thread)
  {
    var reaped := ReapAll(jobs, alive, now);
    RunningOfExactly(Ids(reaped.Keys, next), reaped);
    ReapSettles(jobs, alive, now, now);
  }

  /** A job is listed as unreported exactly when one of the ids names it, it is finished and its own id
      has not been reported. */
  lemma {:induction false} UnnotifiedOfExactly(ids: seq<int>, jobs: map<int, Job>, notified: set<int>)
    ensures forall x :: x in UnnotifiedOf(ids, jobs, notified) <==>
              exists id :: id in ids && id in jobs && jobs[id] == x && Finished(x) && x.jobId !in notified
    decreases |ids|
  {
    if ids != [] {
      var init := ids[..|ids| - 1];
      UnnotifiedOfExactly(init, jobs, notified);
      assert forall id :: id in ids <==> id in init || id == ids[|ids| - 1];
    }
  }

  /** What `cleanup_finished_jobs` keeps. */
  function CleanedJobs(jobs: map<int, Job>, notified: set<int>, alive: ThreadId -> bool): (r: map<int, Job>)
  {
    map id | id in jobs && !Removable(id, jobs[id], notified, alive) :: jobs[id]
  }

  /** Cleaning up keeps every job that is unfinished, unreported or still alive, unchanged, and only
      those; a second clean-up with the reported ids that remain removes nothing more. */
  lemma CleanupKeepsTheRest(jobs: map<int, Job>, notified: set<int>, alive: ThreadId -> bool)
    ensures forall id :: id in CleanedJobs(jobs, notified, alive) <==>
              id in jobs && (!Finished(jobs[id]) || id !in notified || alive(jobs[id].thread))
    ensures forall id :: id in CleanedJobs(jobs, notified, alive) ==> CleanedJobs(jobs, notified, alive)[id] == jobs[id]
    ensures var kept := CleanedJobs(jobs, notified, alive);
            CleanedJobs(kept, notified - (jobs.Keys - kept.Keys), alive) == kept
  {
    var kept := CleanedJobs(jobs, notified, alive);
    var n' := notified - (jobs.Keys - kept.Keys);
    assert forall id :: id in kept ==> !Removable(id, kept[id], n', alive);
  }

  /** The table with the jobs of `done` reaped and the others as they were. */
  function PartlyReaped(jobs: map<int, Job>, done: set<int>, alive: ThreadId -> bool, now: int): map<int, Job>
  {
    map id | id in jobs :: if id in done then Reap(jobs[id], alive, now) else jobs[id]
  }

  /** The loop of `_reap_completed_jobs`, over the table's ids in iteration order. */
  method ReapEach(jobs: map<int, Job>, ids: seq<int>, alive: ThreadId -> bool, now: int) returns (r: map<int, Job>)
    requires forall id :: id in jobs ==> id in ids
    requires forall i, j :: 0 <= i < j < |ids| ==> ids[i] < ids[j]
    ensures r == ReapAll(jobs, alive, now)
  {
    r := jobs;
    ghost var done: set<int> := {};
    var i := 0;
    while i < |ids|
      invariant 0 <= i <= |ids|
      invariant forall k :: 0 <= k < i ==> ids[k] in done
      invariant forall k :: i <= k < |ids| ==> ids[k] !in done
      invariant r == PartlyReaped(jobs, done, alive, now)
    {
      var id := ids[i];
      if id in r {
        assert r[id] == jobs[id];
        r := r[id := Reap(r[id], alive, now)];
      }
      assert r == PartlyReaped(jobs, done + {id}, alive, now);
      done := done + {id};
      i := i + 1;
    }
    forall id | id in jobs ensures id in done {
      var k :| 0 <= k < |ids| && ids[k] == id;
    }
  }

  function Members(ids: seq<int>): set<int>
  {
    set id | id in ids
  }

  /** Removing the removable ids is what `CleanedJobs` keeps, and the ids that go are those. */
  lemma RemovingRemovable(jobs: map<int, Job>, notified: set<int>, alive: ThreadId -> bool, doomed: seq<int>)
    requires forall id :: id in doomed <==> id in jobs && Removable(id, jobs[id], notified, alive)
    ensures jobs - Members(doomed) == CleanedJobs(jobs, notified, alive)
    ensures jobs.Keys - (jobs - Members(doomed)).Keys == Members(doomed)
  {
    var kept := jobs - Members(doomed);
    forall id ensures id in jobs.Keys - kept.Keys <==> id in Members(doomed) {
      assert id in Members(doomed) <==> id in doomed;
      assert id in kept <==> id in jobs && id !in Members(doomed);
    }
  }

  /** The removal loop of `cleanup_finished_jobs`: each id of `doomed` leaves the table and the
      reported set. */
  method RemoveEach(jobs: map<int, Job>, notified: set<int>, doomed: seq<int>)
      returns (jobs': map<int, Job>, notified': set<int>)
    ensures jobs' == jobs - Members(doomed)
    ensures notified' == notified - Members(doomed)
  {
    jobs', notified' := jobs, notified;
    var i := 0;
    while i < |doomed|
      invariant 0 <= i <= |doomed|
      invariant jobs' == jobs - Members(doomed[..i])
      invariant notified' == notified - Members(doomed[..i])
    {
      assert Members(doomed[..i + 1]) == Members(doomed[..i]) + {doomed[i]} by {
        assert doomed[..i + 1] == doomed[..i] + [doomed[i]];
      }
      jobs' := jobs' - {doomed[i]};
      notified' := notified' - {doomed[i]};
      i := i + 1;
    }
    assert doomed[..|doomed|] == doomed;
  }

  class JobManager {
    var jobs: map<int, Job>
    var nextJobId: int
    var notified: set<int>

    /** Ids are positive, below the next one to be handed out, and each job carries its own id. */
    predicate Valid()
      reads this
    {
      nextJobId >= 1 && forall id :: id in jobs ==> 1 <= id < nextJobId && jobs[id].jobId == id
    }

    constructor()
      ensures Valid() && jobs == map[] && nextJobId == 1 && notified == {}
    {
      jobs := map[];
      nextJobId := 1;
      notified := {};
    }

    /** `add_job`: the new job is running, under an id greater than every id in use. */
    method AddJob(command: string, thread: ThreadId, now: int) returns (id: int)
      requires Valid()
      modifies this
      ensures Valid()
      ensures id == old(nextJobId) && nextJobId == id + 1
      ensures forall k :: k in old(jobs) ==> k < id
      ensures jobs == old(jobs)[id := Job(id, command, thread, Running, None, now, None)]
      ensures notified == old(notified)
    {
      id := nextJobId;
      nextJobId := nextJobId + 1;
      jobs := jobs[id := Job(id, command, thread, Running, None, now, None)];
    }

    /** `update_job_status`: an unknown id is ignored. */
    method UpdateJobStatus(id: int, code: int, now: int)
      requires Valid()
      modifies this
      ensures Valid()
      ensures id in old(jobs) ==> jobs == old(jobs)[id := Finish(old(jobs)[id], code, now)]
      ensures id !in old(jobs) ==> jobs == old(jobs)
      ensures nextJobId == old(nextJobId) && notified == old(notified)
    {
      if id in jobs {
        jobs := jobs[id := Finish(jobs[id], code, now)];
      }
    }

    /** `get_job`. */
    function GetJob(id: int): (r: Option<Job>)
      reads this
      ensures r.Some? <==> id in jobs
      ensures r.Some? ==> r.value == jobs[id]
    {
      if id in jobs then Some(jobs[id]) else None
    }

    /** `_reap_completed_jobs`: every job of the table is reaped in turn. */
    method ReapCompletedJobs(alive: ThreadId -> bool, now: int)
      requires Valid()
      modifies this
      ensures Valid()
      ensures jobs == ReapAll(old(jobs), alive, now)
      ensures nextJobId == old(nextJobId) && notified == old(notified)
    {
      jobs := ReapEach(jobs, Ids(jobs.Keys, nextJobId), alive, now);
    }

    /** `get_running_jobs`: after reaping, the running jobs in id order. */
    method GetRunningJobs(alive: ThreadId -> bool, now: int) returns (r: seq<Job>)
      requires Valid()
      modifies this
      ensures Valid()
      ensures jobs == ReapAll(old(jobs), alive, now)
      ensures nextJobId == old(nextJobId) && notified == old(notified)
      ensures r == RunningOf(Ids(jobs.Keys, nextJobId), jobs)
    {
      ReapCompletedJobs(alive, now);
      r := RunningOf(Ids(jobs.Keys, nextJobId), jobs);
    }

    /** `get_all_jobs`: after reaping, every job in id order. */
    method GetAllJobs(alive: ThreadId -> bool, now: int) returns (r: seq<Job>)
      requires Valid()
      modifies this
      ensures Valid()
      ensures jobs == ReapAll(old(jobs), alive, now)
      ensures nextJobId == old(nextJobId) && notified == old(notified)
      ensures r == JobsOf(Ids(jobs.Keys, nextJobId), jobs)
    {
      ReapCompletedJobs(alive, now);
      r := JobsOf(Ids(jobs.Keys, nextJobId), jobs);
    }

    /** `remove_job`: a missing id changes nothing. */
    method RemoveJob(id: int)
      requires Valid()
      modifies this
      ensures Valid()
      ensures jobs == old(jobs) - {id}
      ensures nextJobId == old(nextJobId) && notified == old(notified)
    {
      if id in jobs {
        jobs := jobs - {id};
      }
    }

    /** `wait_for_job`: nothing for an unknown id, otherwise the recorded exit code once the thread has
        been joined. */
    function WaitForJob(id: int): (r: Option<int>)
      reads this
      ensures id !in jobs ==> r.None?
      ensures id in jobs ==> r == jobs[id].exitCode
    {
      if id in jobs then jobs[id].exitCode else None
    }

    /** `wait_for_all`: joins the running jobs, whose listing reaps the table first. */
    method WaitForAll(alive: ThreadId -> bool, now: int)
      requires Valid()
      modifies this
      ensures Valid()
      ensures jobs == ReapAll(old(jobs), alive, now)
      ensures nextJobId == old(nextJobId) && notified == old(notified)
    {
      var running := GetRunningJobs(alive, now);
    }

    /** `cleanup_finished_jobs`: the removable jobs go, from the table and from the reported set. */
    method CleanupFinishedJobs(alive: ThreadId -> bool)
      requires Valid()
      modifies this
      ensures Valid()
      ensures jobs == CleanedJobs(old(jobs), old(notified), alive)
      ensures notified == old(notified) - (old(jobs).Keys - jobs.Keys)
      ensures nextJobId == old(nextJobId)
    {
      var doomed := RemovableIds(Ids(jobs.Keys, nextJobId), jobs, notified, alive);
      ghost var before := jobs;
      ghost var reported := notified;
      assert forall id :: id in doomed <==> id in before && Removable(id, before[id], reported, alive);
      RemovingRemovable(before, reported, alive, doomed);
      jobs, notified := RemoveEach(jobs, notified, doomed);
    }

    /** `get_unnotified_completed_jobs`: the finished jobs not yet reported, in id order. */
    method GetUnnotifiedCompletedJobs() returns (r: seq<Job>)
      requires Valid()
      ensures r == UnnotifiedOf(Ids(jobs.Keys, nextJobId), jobs, notified)
    {
      var table, reported := jobs, notified;
      var ids := Ids(table.Keys, nextJobId);
      r := [];
      var i := 0;
      while i < |ids|
        invariant 0 <= i <= |ids|
        invariant r == UnnotifiedOf(ids[..i], table, reported)
      {
        UnnotifiedStep(ids, i, table, reported);
        var job := table[ids[i]];
        if Finished(job) && job.jobId !in reported {
          r := r + [job];
        }
        i := i + 1;
      }
      assert ids[..|ids|] == ids;
    }

    /** `mark_job_notified`. */
    method MarkJobNotified(id: int)
      requires Valid()
      modifies this
      ensures Valid()
      ensures notified == old(notified) + {id}
      ensures jobs == old(jobs) && nextJobId == old(nextJobId)
    {
      notified := notified + {id};
    }
  }
}
