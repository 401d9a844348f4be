/**
 * `POST /api/jobs` inserts a job after checking its title; `GET /api/jobs`
 * lists every job, newest first, each with its interviews.
 */
module JobsRoute {
  import opened Wrappers
  import opened JsText
  import opened Store

  /** The JSON body; `isActive` is `None` when the key is omitted. */
  datatype JobBody = JobBody(
    title: Field, description: Field, department: Field, location: Field, isActive: Option<bool>)

  datatype JobResponse =
    | BadRequest(error: string)
    | Created(job: Job)
  {
    function Status(): nat {
      if BadRequest? then 400 else 201
    }
  }

  const TitleRequiredError := "title is required"

  /** The destructuring default `isActive = true`: only an omitted value is replaced. */
  function ActiveFlag(isActive: Option<bool>): (b: bool)
    ensures isActive.Some? ==> b == isActive.value
    ensures isActive.None? ==> b
  {
    match isActive
    case Some(v) => v
    case None => true
  }

  method Post(db: Database, body: JobBody, now: int) returns (r: JobResponse)
    requires db.Valid()
    modifies db
    ensures db.Valid()
    ensures r.Status() == 400 <==> !Truthy(body.title)
    ensures !Truthy(body.title) ==> r == BadRequest(TitleRequiredError) && unchanged(db)
    ensures Truthy(body.title) ==>
      && r.Created?
      && r.job == Job(old(db.nextJobId), body.title.value, body.description, body.department,
                      body.location, ActiveFlag(body.isActive), now)
      && db.jobs == old(db.jobs) + [r.job]
      && db.candidates == old(db.candidates) && db.interviews == old(db.interviews)
  {
    if !Truthy(body.title) {
      return BadRequest(TitleRequiredError);
    }
    var job := db.CreateJob(
      body.title.value, body.description, body.department, body.location, ActiveFlag(body.isActive), now);
    return Created(job);
  }

  /** The order `createdAt: 'desc'`: no job is listed before a newer one. */
  predicate NewestFirst(s: seq<Job>) {
    forall i, k :: 0 <= i < k < |s| ==> s[i].createdAt >= s[k].createdAt
  }

  /** Places `j` before the first job not newer than it. */
  function InsertNewestFirst(j: Job, s: seq<Job>): (r: seq<Job>)
    ensures multiset(r) == multiset(s) + multiset{j}
    ensures NewestFirst(s) ==> NewestFirst(r)
  {
    if s == [] then [j]
    else if j.createdAt >= s[0].createdAt then [j] + s
    else
      var rest := InsertNewestFirst(j, s[1..]);
      assert s == [s[0]] + s[1..];
      assert NewestFirst(s) ==> NewestFirst([s[0]] + rest) by {
        if NewestFirst(s) {
          forall k | 0 <= k < |rest| ensures rest[k].createdAt <= s[0].createdAt {
            var x := rest[k];
            assert x in multiset(rest);
            if x != j {
              assert x in multiset(s[1..]);
              var m :| 0 <= m < |s[1..]| && s[1..][m] == x;
              assert s[m + 1] == x;
            }
          }
        }
      }
      [s[0]] + rest
  }

  /** The jobs in `createdAt`-descending order. */
  function SortNewestFirst(s: seq<Job>): (r: seq<Job>)
    ensures multiset(r) == multiset(s)
    ensures NewestFirst(r)
  {
    if s == [] then []
    else
      assert s == [s[0]] + s[1..];
      InsertNewestFirst(s[0], SortNewestFirst(s[1..]))
  }

  /** The interviews that refer to the job with key `jobId`, in table order. */
  function InterviewsFor(interviews: seq<Interview>, jobId: nat): (r: seq<Interview>)
    ensures forall x :: x in r <==> x in interviews && x.jobId == jobId
  {
    if interviews == [] then []
    else
      var rest := InterviewsFor(interviews[1..], jobId);
      assert interviews == [interviews[0]] + interviews[1..];
      if interviews[0].jobId == jobId then [interviews[0]] + rest else rest
  }

  datatype JobListing = JobListing(job: Job, interviews: seq<Interview>)

  function Jobs(listing: seq<JobListing>): seq<Job> {
    seq(|listing|, i requires 0 <= i < |listing| => listing[i].job)
  }

  /** The `GET` result over the two tables. */
  function ListJobs(jobs: seq<Job>, interviews: seq<Interview>): (r: seq<JobListing>)
    ensures multiset(Jobs(r)) == multiset(jobs)
    ensures NewestFirst(Jobs(r))
    ensures forall i :: 0 <= i < |r| ==>
      forall x :: x in r[i].interviews <==> x in interviews && x.jobId == r[i].job.id
  {
    var sorted := SortNewestFirst(jobs);
    var r := seq(|sorted|, i requires 0 <= i < |sorted| => JobListing(sorted[i], InterviewsFor(interviews, sorted[i].id)));
    assert Jobs(r) == sorted;
    r
  }

  /** `GET /api/jobs`: every job, active or not, newest first. */
  function Get(db: Database): (r: seq<JobListing>)
    reads db
    ensures multiset(Jobs(r)) == multiset(db.jobs) && NewestFirst(Jobs(r))
    ensures forall i :: 0 <= i < |r| ==>
      forall x :: x in r[i].interviews <==> x in db.interviews && x.jobId == r[i].job.id
  {
    ListJobs(db.jobs, db.interviews)
  }
}
