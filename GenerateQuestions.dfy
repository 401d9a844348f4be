/**
 * `POST /api/generate-questions`: normalise the body into user and job data,
 * validate both, build the prompt, and accept the model's reply only when it
 * parses to an array of exactly five elements. The model is a parameter: a
 * function from the prompt to what came back.
 */
module GenerateQuestions {
  import opened Wrappers
  import opened JsText
  import opened Domain

  datatype UserFields = UserFields(firstName: Field, lastName: Field, email: Field, jobPosition: Field)

  datatype JobFields = JobFields(id: Field, title: Field, department: Field, location: Field, description: Field)

  /** The request body: either nested `userData`/`jobData` objects or the same fields flat. */
  datatype RequestBody = RequestBody(
    userData: Option<UserFields>, jobData: Option<JobFields>,
    firstName: Field, lastName: Field, email: Field, jobPosition: Field,
    id: Field, title: Field, department: Field, location: Field, description: Field)

  /** The variable parts of the prompt; the fixed instructions around them are not modelled. */
  datatype Prompt = Prompt(
    position: string, department: string, location: string, description: string,
    name: string, email: string, appliedPosition: string)

  /** What the model call yields once decoded. */
  datatype Reply =
    | ServiceFailure              // the call or the envelope decoding threw
    | Unparseable                 // the generated text is not JSON
    | NotAnArray                  // JSON, but not an array
    | Elements(items: seq<Question>)

  datatype GenerateResponse =
    | Failure(status: nat, error: string)
    | Success(questions: seq<Question>, userData: UserFields, jobData: JobFields)

  const UserDataRequired := "User data (firstName, lastName, email) is required"
  const JobDataRequired := "Job data (title, description) is required"
  const ParseFailed := "Failed to parse generated questions"
  const InvalidFormat := "Invalid response format from AI"
  const GenerationFailed := "Failed to generate interview questions"
  const NotSpecified := "Not specified"
  const QuestionCount := 5

  /** The five job keys, so that the per-field fallback can be stated once. */
  datatype JobKey = Id | Title | Department | Location | Description

  function FieldOf(j: JobFields, k: JobKey): Field {
    match k
    case Id => j.id
    case Title => j.title
    case Department => j.department
    case Location => j.location
    case Description => j.description
  }

  /** `requestBody.field` for a job key, read from the flat body. */
  function FlatJobField(body: RequestBody, k: JobKey): Field {
    match k
    case Id => body.id
    case Title => body.title
    case Department => body.department
    case Location => body.location
    case Description => body.description
  }

  /** `requestBody.jobData?.field`: absent when there is no nested job object. */
  function NestedJobField(jobData: Option<JobFields>, k: JobKey): Field {
    match jobData
    case Some(j) => FieldOf(j, k)
    case None => None
  }

  /** `requestBody.field || requestBody.jobData?.field`. */
  function FallbackJobField(body: RequestBody, k: JobKey): Field {
    Or(FlatJobField(body, k), NestedJobField(body.jobData, k))
  }

  /**
   * The nested objects are used as they are only when both are present;
   * otherwise user fields come from the flat body alone and each job field is
   * the flat value when truthy, else the nested job object's value.
   */
  function Normalize(body: RequestBody): (r: (UserFields, JobFields))
    ensures body.userData.Some? && body.jobData.Some? ==> r == (body.userData.value, body.jobData.value)
    ensures !(body.userData.Some? && body.jobData.Some?) ==>
      && r.0 == UserFields(body.firstName, body.lastName, body.email, body.jobPosition)
      && (forall k :: Truthy(FlatJobField(body, k)) ==> FieldOf(r.1, k) == FlatJobField(body, k))
      && (forall k :: !Truthy(FlatJobField(body, k)) ==> FieldOf(r.1, k) == NestedJobField(body.jobData, k))
  {
    if body.userData.Some? && body.jobData.Some? then
      (body.userData.value, body.jobData.value)
    else
      var user := UserFields(body.firstName, body.lastName, body.email, body.jobPosition);
      var job := JobFields(
        FallbackJobField(body, Id), FallbackJobField(body, Title), FallbackJobField(body, Department),
        FallbackJobField(body, Location), FallbackJobField(body, Description));
      (user, job)
  }

  predicate UserValid(u: UserFields) {
    Truthy(u.firstName) && Truthy(u.lastName) && Truthy(u.email)
  }

  predicate JobValid(j: JobFields) {
    Truthy(j.title) && Truthy(j.description)
  }

  /** A field interpolated into a template literal: an absent value prints as `undefined`. */
  function Interpolate(f: Field): string {
    match f
    case Some(s) => s
    case None => "undefined"
  }

  /** `field || 'Not specified'`. */
  function OrNotSpecified(f: Field): (s: string)
    ensures Truthy(f) ==> s == f.value
    ensures !Truthy(f) ==> s == NotSpecified
  {
    if Truthy(f) then f.value else NotSpecified
  }

  function BuildPrompt(u: UserFields, j: JobFields): (p: Prompt)
    requires UserValid(u) && JobValid(j)
    ensures p.position == j.title.value && p.description == j.description.value
    ensures p.department == OrNotSpecified(j.department) && p.location == OrNotSpecified(j.location)
    ensures p.name == u.firstName.value + " " + u.lastName.value && p.email == u.email.value
    ensures p.appliedPosition == Interpolate(u.jobPosition)
  {
    Prompt(
      j.title.value, OrNotSpecified(j.department), OrNotSpecified(j.location), j.description.value,
      u.firstName.value + " " + u.lastName.value, u.email.value, Interpolate(u.jobPosition))
  }

  /** The handler, with the model call `ai` made only after both checks pass. */
  function Handle(body: RequestBody, ai: Prompt -> Reply): (r: GenerateResponse)
    // user data is checked first, then job data; neither failure consults the model
    ensures !UserValid(Normalize(body).0) ==> r == Failure(400, UserDataRequired)
    ensures UserValid(Normalize(body).0) && !JobValid(Normalize(body).1) ==> r == Failure(400, JobDataRequired)
    ensures r.Failure? && r.status == 400 <==> !UserValid(Normalize(body).0) || !JobValid(Normalize(body).1)
    // the reply is accepted exactly when it is an array of five elements
    ensures UserValid(Normalize(body).0) && JobValid(Normalize(body).1) ==>
      var reply := ai(BuildPrompt(Normalize(body).0, Normalize(body).1));
      && (reply.ServiceFailure? ==> r == Failure(500, GenerationFailed))
      && (reply.Unparseable? ==> r == Failure(500, ParseFailed))
      && (reply.NotAnArray? ==> r == Failure(500, InvalidFormat))
      && (reply.Elements? && |reply.items| != QuestionCount ==> r == Failure(500, InvalidFormat))
      && (r.Success? <==> reply.Elements? && |reply.items| == QuestionCount)
      && (r.Success? ==> r.questions == reply.items)
    // success echoes the five questions and the normalised data
    ensures r.Success? ==>
      && |r.questions| == QuestionCount
      && r.userData == Normalize(body).0 && r.jobData == Normalize(body).1
  {
    var (user, job) := Normalize(body);
    if !UserValid(user) then Failure(400, UserDataRequired)
    else if !JobValid(job) then Failure(400, JobDataRequired)
    else
      match ai(BuildPrompt(user, job))
      case ServiceFailure => Failure(500, GenerationFailed)
      case Unparseable => Failure(500, ParseFailed)
      case NotAnArray => Failure(500, InvalidFormat)
      case Elements(items) =>
        if |items| != QuestionCount then Failure(500, InvalidFormat)
        else Success(items, user, job)
  }

  /**
   * The whole endpoint: a body that `request.json()` cannot parse (`None`)
   * ends in the handler's catch-all 500; a parsed body goes through `Handle`.
   */
  function HandleRequest(body: Option<RequestBody>, ai: Prompt -> Reply): (r: GenerateResponse)
    ensures body.None? ==> r == Failure(500, GenerationFailed)
    ensures body.Some? ==> r == Handle(body.value, ai)
  {
    match body
    case None => Failure(500, GenerationFailed)
    case Some(b) => Handle(b, ai)
  }

  /** A rejected request does not depend on the model at all. */
  lemma RejectedBeforeModelCall(body: RequestBody, ai1: Prompt -> Reply, ai2: Prompt -> Reply)
    requires !UserValid(Normalize(body).0) || !JobValid(Normalize(body).1)
    ensures Handle(body, ai1) == Handle(body, ai2)
  {
  }

  /** In the flat form a lone nested `userData` object is ignored: its fields never reach validation. */
  lemma LoneNestedUserDataIgnored(body: RequestBody)
    requires body.userData.Some? && body.jobData.None?
    requires !Truthy(body.firstName)
    ensures forall ai :: Handle(body, ai) == Failure(400, UserDataRequired)
  {
  }
}
