/**
 * `POST /api/candidates`: validate the application form, return the existing
 * candidate for a known e-mail, otherwise find or create the job and create
 * the candidate together with a PENDING interview.
 */
module CandidatesRoute {
  import opened Wrappers
  import opened JsText
  import opened EmailFormat
  import opened Store

  /** The JSON body's fields, each possibly absent. */
  datatype CandidateBody = CandidateBody(firstName: Field, lastName: Field, email: Field, jobPosition: Field)

  datatype CandidateResponse =
    | BadRequest(error: string)
    | AlreadyExists(candidate: Candidate, message: string)
    | Created(candidate: Candidate, job: Job, interview: Interview, message: string)
  {
    function Status(): nat {
      match this
      case BadRequest(_) => 400
      case AlreadyExists(_, _) => 200
      case Created(_, _, _, _) => 201
    }
  }

  const MissingFieldsError := "firstName, lastName, email, and jobPosition are required"
  const InvalidEmailError := "Invalid email format"
  const ExistsMessage := "Candidate already exists"
  const CreatedMessage := "Candidate created successfully and interview session initiated"

  predicate HasRequiredFields(body: CandidateBody) {
    Truthy(body.firstName) && Truthy(body.lastName) && Truthy(body.email) && Truthy(body.jobPosition)
  }

  /** The body passes both checks: all four fields present and the e-mail well formed. */
  predicate Admissible(body: CandidateBody) {
    HasRequiredFields(body) && IsValidEmail(body.email.value)
  }

  /** Description given to a job created on the fly for an unmatched position. */
  function AutoDescription(position: string): string {
    "Position for " + position
  }

  method Post(db: Database, body: CandidateBody, now: int) returns (r: CandidateResponse)
    requires db.Valid()
    modifies db
    ensures db.Valid()
    // validation, in this order; a rejected body changes nothing
    ensures !HasRequiredFields(body) ==> r == BadRequest(MissingFieldsError)
    ensures HasRequiredFields(body) && !IsValidEmail(body.email.value) ==> r == BadRequest(InvalidEmailError)
    ensures r.Status() == 400 <==> !Admissible(body)
    ensures !Admissible(body) ==> unchanged(db)
    // a known e-mail returns the stored candidate and changes nothing
    ensures Admissible(body) && old(FindCandidateByEmail(db.candidates, body.email.value)).Some? ==>
      && r == AlreadyExists(old(FindCandidateByEmail(db.candidates, body.email.value)).value, ExistsMessage)
      && unchanged(db)
    // a new applicant: exactly one candidate and one PENDING interview, and at most one job
    ensures Admissible(body) && old(FindCandidateByEmail(db.candidates, body.email.value)).None? ==>
      && r.Created? && r.message == CreatedMessage
      && r.candidate == Candidate(old(db.nextCandidateId), body.firstName.value, body.lastName.value, body.email.value)
      && db.candidates == old(db.candidates) + [r.candidate]
      && r.interview == Interview(old(db.nextInterviewId), r.candidate.id, r.job.id, Pending, now)
      && db.interviews == old(db.interviews) + [r.interview]
      && match old(FirstMatchingJob(db.jobs, body.jobPosition.value))
         case Some(k) => r.job == old(db.jobs)[k] && db.jobs == old(db.jobs)
         case None =>
           && r.job == Job(old(db.nextJobId), body.jobPosition.value,
                           Some(AutoDescription(body.jobPosition.value)), None, None, true, now)
           && db.jobs == old(db.jobs) + [r.job]
  {
    if !HasRequiredFields(body) {
      return BadRequest(MissingFieldsError);
    }
    var firstName, lastName, email, position :=
      body.firstName.value, body.lastName.value, body.email.value, body.jobPosition.value;
    if !IsValidEmail(email) {
      return BadRequest(InvalidEmailError);
    }
    var existing := FindCandidateByEmail(db.candidates, email);
    if existing.Some? {
      return AlreadyExists(existing.value, ExistsMessage);
    }
    var job: Job;
    var matched := FirstMatchingJob(db.jobs, position);
    if matched.Some? {
      job := db.jobs[matched.value];
    } else {
      job := db.CreateJob(position, Some(AutoDescription(position)), None, None, true, now);
    }
    assert HasJob(db.jobs, job.id) by {
      if matched.Some? { assert db.jobs[matched.value].id == job.id; }
      else { assert db.jobs[|db.jobs| - 1].id == job.id; }
    }
    var candidate := db.CreateCandidate(firstName, lastName, email);
    assert HasCandidate(db.candidates, candidate.id) by {
      assert db.candidates[|db.candidates| - 1].id == candidate.id;
    }
    assert HasJob(db.jobs, job.id);
    var interview := db.CreateInterview(candidate.id, job.id, Pending, now);
    return Created(candidate, job, interview, CreatedMessage);
  }
}
