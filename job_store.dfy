/** The in-memory store of analysis jobs (backend/app/job_store.py, with the job record of
  * backend/app/models_jobs.py). Jobs are objects the store hands out and updates in place. The
  * clock and the random id are inputs: `now` is the current time, `newId` the id drawn. */
module JobStore {
  import opened Wrappers

  datatype JobStatus = Pending | Running | Completed | Failed

  datatype LogEntry = LogEntry(timestamp: int, level: string, message: string)

  class Job {
    const id: string
    const repoPath: string
    const repoIndex: int
    const moduleName: string
    const moduleType: string
    const createdAt: int
    var status: JobStatus
    var startedAt: Option<int>
    var completedAt: Option<int>
    var log: seq<LogEntry>
    var summary: Option<string>
    var error: Option<string>

    /** A new job: pending, with an empty log and no times, summary or error yet. */
    constructor(id: string, repoPath: string, repoIndex: int, moduleName: string, moduleType: string, createdAt: int)
      ensures this.id == id && this.repoPath == repoPath && this.repoIndex == repoIndex
      ensures this.moduleName == moduleName && this.moduleType == moduleType && this.createdAt == createdAt
      ensures status == Pending && log == [] && startedAt == None && completedAt == None
      ensures summary == None && error == None
    {
      this.id := id;
      this.repoPath := repoPath;
      this.repoIndex := repoIndex;
      this.moduleName := moduleName;
      this.moduleType := moduleType;
      this.createdAt := createdAt;
      status := Pending;
      startedAt := None;
      completedAt := None;
      log := [];
      summary := None;
      error := None;
    }
  }

  /** Python's truth value of an optional string: present and not empty. */
  predicate Truthy(s: Option<string>) {
    s.Some? && s.value != ""
  }

  // ---------------------------------------------------------------------------------------
  // Newest first
  // ---------------------------------------------------------------------------------------

  /** No job is older than one listed after it. */
  predicate NewestFirst(js: seq<Job>) {
    forall i, j :: 0 <= i < j < |js| ==> js[i].createdAt >= js[j].createdAt
  }

  /** `x` put after every job at least as new as itself, so equal times keep their order. */
  function InsertByAge(s: seq<Job>, x: Job): (r: seq<Job>)
    requires NewestFirst(s)
    ensures NewestFirst(r) && multiset(r) == multiset(s) + multiset{x}
  {
    if s == [] then [x]
    else if x.createdAt > s[0].createdAt then [x] + s
    else
      var rest := InsertByAge(s[1..], x);
      KeptBehind(s, x, rest);
      [s[0]] + rest
  }

  /** Putting `s[0]` back in front of the insertion into the rest keeps the order. */
  lemma KeptBehind(s: seq<Job>, x: Job, rest: seq<Job>)
    requires NewestFirst(s) && s != [] && x.createdAt <= s[0].createdAt
    requires NewestFirst(rest) && multiset(rest) == multiset(s[1..]) + multiset{x}
    ensures NewestFirst([s[0]] + rest) && multiset([s[0]] + rest) == multiset(s) + multiset{x}
  {
    assert s == [s[0]] + s[1..];
    forall j | 0 <= j < |rest|
      ensures rest[j].createdAt <= s[0].createdAt
    {
      assert rest[j] in multiset(rest);
      if rest[j] != x {
        assert rest[j] in s[1..];
      }
    }
  }

  /** `sorted(jobs, key=created_at, reverse=True)`, as an insertion sort. */
  function ByAge(js: seq<Job>): (r: seq<Job>)
    ensures NewestFirst(r) && multiset(r) == multiset(js)
  {
    if js == [] then []
    else
      assert js == js[..|js| - 1] + [js[|js| - 1]];
      InsertByAge(ByAge(js[..|js| - 1]), js[|js| - 1])
  }

  // ---------------------------------------------------------------------------------------
  // The store
  // ---------------------------------------------------------------------------------------

  class Store {
    /** `_jobs`, keyed by job id. */
    var jobs: map<string, Job>
    /** The order in which the ids entered `_jobs` (a dict keeps insertion order). */
    var order: seq<string>

    /** Each id once in the insertion order, exactly the stored ids, and one job per id. */
    ghost predicate Valid()
      reads this
    {
      && (forall i, j :: 0 <= i < j < |order| ==> order[i] != order[j])
      && (forall id :: id in jobs <==> id in order)
      && (forall a, b :: a in jobs && b in jobs && a != b ==> jobs[a] != jobs[b])
    }

    constructor()
      ensures jobs == map[] && order == [] && Valid()
    {
      jobs := map[];
      order := [];
    }

    /** `create_job`: a new pending job with an empty log, stored under `newId`. An id drawn
      * again replaces the job stored under it and keeps its place in the order. */
    method CreateJob(newId: string, repoPath: string, repoIndex: int, moduleName: string, moduleType: string, now: int)
      returns (job: Job)
      requires Valid()
      modifies this
      ensures Valid() && fresh(job)
      ensures jobs == old(jobs)[newId := job]
      ensures order == if newId in old(jobs) then old(order) else old(order) + [newId]
      ensures job.id == newId && job.createdAt == now && job.status == Pending && job.log == []
      ensures job.repoPath == repoPath && job.repoIndex == repoIndex
      ensures job.moduleName == moduleName && job.moduleType == moduleType
    {
      job := new Job(newId, repoPath, repoIndex, moduleName, moduleType, now);
      if newId !in jobs {
        order := order + [newId];
      }
      jobs := jobs[newId := job];
    }

    /** `get_job`: the job stored under the id, or nothing. */
    method GetJob(id: string) returns (r: Option<Job>)
      ensures r.None? <==> id !in jobs
      ensures r.Some? ==> r.value == jobs[id]
    {
      r := if id in jobs then Some(jobs[id]) else None;
    }

    /** The stored jobs in insertion order. */
    function Values(): (r: seq<Job>)
      reads this
      requires Valid()
    {
      seq(|order|, i requires 0 <= i < |order| reads this requires Valid() => jobs[order[i]])
    }

    /** `get_all_jobs`: every stored job once, newest first. */
    method GetAllJobs() returns (r: seq<Job>)
      requires Valid()
      ensures r == ByAge(Values())
      ensures NewestFirst(r) && |r| == |jobs|
      ensures forall id :: id in jobs ==> jobs[id] in r
      ensures forall j :: j in r ==> exists id :: id in jobs && jobs[id] == j
    {
      var vs := Values();
      r := ByAge(vs);
      OrderCount();
      forall id | id in jobs
        ensures jobs[id] in r
      {
        var i :| 0 <= i < |order| && order[i] == id;
        assert vs[i] == jobs[id];
        assert jobs[id] in multiset(vs);
      }
      forall j | j in r
        ensures exists id :: id in jobs && jobs[id] == j
      {
        assert j in multiset(vs);
        var i :| 0 <= i < |vs| && vs[i] == j;
        assert jobs[order[i]] == j;
      }
    }

    /** The order lists as many ids as are stored. */
    lemma OrderCount()
      requires Valid()
      ensures |order| == |jobs|
    {
      var ids := set i | 0 <= i < |order| :: order[i];
      assert ids == jobs.Keys;
      DistinctCard(order);
    }

    /** `add_log`: one entry appended to the job's log; an unknown id changes nothing. */
    method AddLog(id: string, level: string, message: string, now: int)
      modifies if id in jobs then {jobs[id]} else {}
      ensures id in jobs ==> jobs[id].log == old(jobs[id].log) + [LogEntry(now, level, message)]
      ensures id in jobs ==>
                var j := jobs[id];
                && j.status == old(j.status) && j.startedAt == old(j.startedAt) && j.completedAt == old(j.completedAt)
                && j.summary == old(j.summary) && j.error == old(j.error)
    {
      var job := GetJob(id);
      if job.Some? {
        job.value.log := job.value.log + [LogEntry(now, level, message)];
      }
    }

    /** `update_status`: the status is set whatever it was; RUNNING stamps the start and
      * COMPLETED or FAILED the end; error and summary are replaced only by a non-empty value. An
      * unknown id changes nothing. */
    method UpdateStatus(id: string, status: JobStatus, error: Option<string>, summary: Option<string>, now: int)
      modifies if id in jobs then {jobs[id]} else {}
      ensures id in jobs ==>
                var j := jobs[id];
                && j.status == status
                && j.startedAt == (if status == Running then Some(now) else old(j.startedAt))
                && j.completedAt == (if status == Completed || status == Failed then Some(now) else old(j.completedAt))
                && j.error == (if Truthy(error) then error else old(j.error))
                && j.summary == (if Truthy(summary) then summary else old(j.summary))
                && j.log == old(j.log)
    {
      var job := GetJob(id);
      if job.Some? {
        var j := job.value;
        j.status := status;
        if status == Running {
          j.startedAt := Some(now);
        }
        if status == Completed || status == Failed {
          j.completedAt := Some(now);
        }
        if Truthy(error) {
          j.error := error;
        }
        if Truthy(summary) {
          j.summary := summary;
        }
      }
    }
  }

  /** A list without repeats has as many distinct elements as entries. */
  lemma {:induction false} DistinctCard(xs: seq<string>)
    requires forall i, j :: 0 <= i < j < |xs| ==> xs[i] != xs[j]
    ensures |set i | 0 <= i < |xs| :: xs[i]| == |xs|
  {
    if xs != [] {
      var n := |xs| - 1;
      DistinctCard(xs[..n]);
      var front := set i | 0 <= i < n :: xs[..n][i];
      var all := set i | 0 <= i < |xs| :: xs[i];
      assert front == set i | 0 <= i < n :: xs[i];
      assert all == front + {xs[n]};
      assert xs[n] !in front;
    }
  }
}
