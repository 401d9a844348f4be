/** Values shared by the client screens and the question endpoint. */
module Domain {

  /** The applicant's form data, as the welcome form submits it and the cookie stores it. */
  datatype UserData = UserData(firstName: string, lastName: string, email: string, jobPosition: string)

  datatype QuestionKind = Technical | Behavioral | Situational | Motivation

  /** One generated interview question. */
  datatype Question = Question(id: int, question: string, kind: QuestionKind, expectedDuration: int)
}
