/**
 * The database the route handlers talk to, as in-memory tables. Each table is
 * a sequence of records in insertion order; ids come from a per-table counter,
 * the way an auto-incrementing key does, and `createdAt`/`scheduledAt` come
 * from a clock reading the caller passes in.
 */
module Store {
  import opened Wrappers
  import opened JsText

  datatype InterviewStatus = Pending | InProgress | Completed

  datatype Job = Job(
    id: nat, title: string, description: Option<string>, department: Option<string>,
    location: Option<string>, isActive: bool, createdAt: int)

  datatype Candidate = Candidate(id: nat, firstName: string, lastName: string, email: string)

  datatype Interview = Interview(id: nat, candidateId: nat, jobId: nat, status: InterviewStatus, scheduledAt: int)

  ghost predicate HasJob(jobs: seq<Job>, id: nat) {
    exists i :: 0 <= i < |jobs| && jobs[i].id == id
  }

  ghost predicate HasCandidate(candidates: seq<Candidate>, id: nat) {
    exists i :: 0 <= i < |candidates| && candidates[i].id == id
  }

  /** The lookup by the unique `email` column. */
  function FindCandidateByEmail(candidates: seq<Candidate>, email: string): (r: Option<Candidate>)
    ensures r.Some? ==> r.value in candidates && r.value.email == email
    ensures r.None? <==> forall i :: 0 <= i < |candidates| ==> candidates[i].email != email
  {
    if candidates == [] then None
    else if candidates[0].email == email then Some(candidates[0])
    else
      var r := FindCandidateByEmail(candidates[1..], email);
      assert forall i :: 1 <= i < |candidates| ==> candidates[i] == candidates[1..][i - 1];
      r
  }

  /** The job filter of the candidate endpoint: active, and the title contains the position, ignoring case. */
  predicate MatchesPosition(job: Job, position: string) {
    job.isActive && ContainsIgnoringCase(job.title, position)
  }

  /** The first job, in table order, that the filter accepts. */
  function FirstMatchingJob(jobs: seq<Job>, position: string): (r: Option<nat>)
    ensures r.Some? ==> r.value < |jobs| && MatchesPosition(jobs[r.value], position)
    ensures r.Some? ==> forall i :: 0 <= i < r.value ==> !MatchesPosition(jobs[i], position)
    ensures r.None? <==> forall i :: 0 <= i < |jobs| ==> !MatchesPosition(jobs[i], position)
  {
    if jobs == [] then None
    else if MatchesPosition(jobs[0], position) then Some(0)
    else
      var rest := FirstMatchingJob(jobs[1..], position);
      assert forall i :: 1 <= i < |jobs| ==> jobs[i] == jobs[1..][i - 1];
      match rest
      case None => None
      case Some(k) => Some(k + 1)
  }

  class Database {
    var jobs: seq<Job>
    var candidates: seq<Candidate>
    var interviews: seq<Interview>
    var nextJobId: nat
    var nextCandidateId: nat
    var nextInterviewId: nat

    /**
     * Keys are unique and below their counter (kept in increasing order),
     * e-mails are unique, and every interview refers to an existing
     * candidate and an existing job.
     */
    ghost predicate Valid()
      reads this
    {
      && (forall i, k :: 0 <= i < k < |jobs| ==> jobs[i].id < jobs[k].id)
      && (forall i :: 0 <= i < |jobs| ==> jobs[i].id < nextJobId)
      && (forall i, k :: 0 <= i < k < |candidates| ==> candidates[i].id < candidates[k].id)
      && (forall i :: 0 <= i < |candidates| ==> candidates[i].id < nextCandidateId)
      && (forall i, k :: 0 <= i < k < |interviews| ==> interviews[i].id < interviews[k].id)
      && (forall i :: 0 <= i < |interviews| ==> interviews[i].id < nextInterviewId)
      && (forall i, k :: 0 <= i < k < |candidates| ==> candidates[i].email != candidates[k].email)
      && (forall i :: 0 <= i < |interviews| ==>
            HasCandidate(candidates, interviews[i].candidateId) && HasJob(jobs, interviews[i].jobId))
    }

    constructor ()
      ensures Valid()
      ensures jobs == [] && candidates == [] && interviews == []
    {
      jobs, candidates, interviews := [], [], [];
      nextJobId, nextCandidateId, nextInterviewId := 1, 1, 1;
    }

    /** Inserts a job under a fresh key; nothing else changes. */
    method CreateJob(
      title: string, description: Option<string>, department: Option<string>,
      location: Option<string>, isActive: bool, now: int) returns (job: Job)
      requires Valid()
      modifies this
      ensures Valid()
      ensures job == Job(old(nextJobId), title, description, department, location, isActive, now)
      ensures forall i :: 0 <= i < |old(jobs)| ==> old(jobs)[i].id != job.id
      ensures jobs == old(jobs) + [job]
      ensures candidates == old(candidates) && interviews == old(interviews)
      ensures nextJobId == old(nextJobId) + 1
      ensures nextCandidateId == old(nextCandidateId) && nextInterviewId == old(nextInterviewId)
    {
      job := Job(nextJobId, title, description, department, location, isActive, now);
      jobs := jobs + [job];
      nextJobId := nextJobId + 1;
      forall i | 0 <= i < |interviews| ensures HasJob(jobs, interviews[i].jobId) {
        assert HasJob(old(jobs), old(interviews)[i].jobId);
        var w :| 0 <= w < |old(jobs)| && old(jobs)[w].id == interviews[i].jobId;
        assert jobs[w] == old(jobs)[w];
      }
    }

    /** Inserts a candidate; the unique `email` column forbids a second row with the same address. */
    method CreateCandidate(firstName: string, lastName: string, email: string) returns (c: Candidate)
      requires Valid()
      requires FindCandidateByEmail(candidates, email).None?
      modifies this
      ensures Valid()
      ensures c == Candidate(old(nextCandidateId), firstName, lastName, email)
      ensures candidates == old(candidates) + [c]
      ensures jobs == old(jobs) && interviews == old(interviews)
      ensures nextCandidateId == old(nextCandidateId) + 1
      ensures nextJobId == old(nextJobId) && nextInterviewId == old(nextInterviewId)
    {
      c := Candidate(nextCandidateId, firstName, lastName, email);
      candidates := candidates + [c];
      nextCandidateId := nextCandidateId + 1;
      forall i | 0 <= i < |interviews| ensures HasCandidate(candidates, interviews[i].candidateId) {
        assert HasCandidate(old(candidates), old(interviews)[i].candidateId);
        var w :| 0 <= w < |old(candidates)| && old(candidates)[w].id == interviews[i].candidateId;
        assert candidates[w] == old(candidates)[w];
      }
    }

    /** Inserts an interview; its foreign keys must name an existing candidate and job. */
    method CreateInterview(candidateId: nat, jobId: nat, status: InterviewStatus, now: int)
      returns (iv: Interview)
      requires Valid()
      requires HasCandidate(candidates, candidateId) && HasJob(jobs, jobId)
      modifies this
      ensures Valid()
      ensures iv == Interview(old(nextInterviewId), candidateId, jobId, status, now)
      ensures interviews == old(interviews) + [iv]
      ensures jobs == old(jobs) && candidates == old(candidates)
      ensures nextInterviewId == old(nextInterviewId) + 1
      ensures nextJobId == old(nextJobId) && nextCandidateId == old(nextCandidateId)
    {
      iv := Interview(nextInterviewId, candidateId, jobId, status, now);
      interviews := interviews + [iv];
      nextInterviewId := nextInterviewId + 1;
    }
  }
}
