/**
 * The top-level screen flow: which screen is drawn for the current state, and
 * the two transitions, welcome-form submit and continue-to-interview (which
 * fetches the questions).
 */
module AppShell {
  import opened Wrappers
  import opened Domain
  import opened AppStateHook

  /** What `renderCurrentScreen` draws, with the props that matter. */
  datatype View =
    | WelcomeView
    | ExplanationView(userData: UserData, isGenerating: bool, questionError: Option<string>)
    | InterviewView(userData: UserData, questions: seq<Question>)

  /**
   * The explanation screen needs applicant data, the interview screen needs
   * applicant data and at least one question; otherwise the welcome form shows.
   */
  function RenderScreen(
    screen: Screen, userData: Option<UserData>, questions: seq<Question>,
    isGenerating: bool, questionError: Option<string>): (v: View)
    ensures v.ExplanationView? <==> screen == Explanation && userData.Some?
    ensures v.InterviewView? <==> screen == Interview && userData.Some? && |questions| > 0
    ensures v.ExplanationView? ==> v == ExplanationView(userData.value, isGenerating, questionError)
    ensures v.InterviewView? ==> v == InterviewView(userData.value, questions)
  {
    match screen
    case Welcome => WelcomeView
    case Explanation =>
      if userData.Some? then ExplanationView(userData.value, isGenerating, questionError) else WelcomeView
    case Interview =>
      if userData.Some? && |questions| > 0 then InterviewView(userData.value, questions) else WelcomeView
  }

  /** A value thrown by the question request: an `Error` with its message, or anything else. */
  datatype Thrown = ErrorObject(message: string) | OtherValue

  datatype GenerationOutcome = Generated(questions: seq<Question>) | Threw(thrown: Thrown)

  const DefaultGenerationError := "Failed to generate interview questions"

  /** The error text shown for a failed request. */
  function ErrorText(t: Thrown): (s: string)
    ensures t.ErrorObject? ==> s == t.message
    ensures t.OtherValue? ==> s == DefaultGenerationError
  {
    match t
    case ErrorObject(m) => m
    case OtherValue => DefaultGenerationError
  }

  class AppController {
    const state: AppState
    var interviewQuestions: seq<Question>
    var isGenerating: bool
    var questionError: Option<string>

    function Render(): View
      reads this, state
    {
      RenderScreen(state.currentScreen, state.userData, interviewQuestions, isGenerating, questionError)
    }

    constructor (cookie: Option<StoredCookie>)
      ensures fresh(state)
      ensures state.currentScreen == Welcome && state.userData == None && state.cookie == cookie
      ensures interviewQuestions == [] && !isGenerating && questionError == None
      ensures Render() == WelcomeView
    {
      state := new AppState(cookie);
      interviewQuestions := [];
      isGenerating := false;
      questionError := None;
    }

    /** Save the form data, then go to the explanation screen, which can now be drawn. */
    method HandleWelcomeSubmit(data: UserData)
      modifies state
      ensures state.userData == Some(data) && state.cookie == Some(UserDataJson(data))
      ensures state.currentScreen == Explanation
      ensures Render() == ExplanationView(data, isGenerating, questionError)
    {
      state.SaveUserData(data);
      state.NavigateToScreen(Explanation);
    }

    /** The part before the request: the spinner on, the previous error cleared. */
    method StartGeneration()
      modifies this
      ensures isGenerating && questionError == None
      ensures interviewQuestions == old(interviewQuestions)
      ensures state.currentScreen == Explanation && state.userData.Some? ==>
        Render() == ExplanationView(state.userData.value, true, None)
    {
      isGenerating := true;
      questionError := None;
    }

    /** The part after the request: store and move on, or record the error; the spinner off either way. */
    method FinishGeneration(outcome: GenerationOutcome)
      modifies this, state
      ensures !isGenerating
      ensures state.userData == old(state.userData) && state.cookie == old(state.cookie)
      ensures outcome.Generated? ==>
        && interviewQuestions == outcome.questions && state.currentScreen == Interview
        && questionError == old(questionError)
      ensures outcome.Threw? ==>
        && questionError == Some(ErrorText(outcome.thrown))
        && interviewQuestions == old(interviewQuestions) && state.currentScreen == old(state.currentScreen)
    {
      match outcome {
        case Generated(questions) =>
          interviewQuestions := questions;
          state.NavigateToScreen(Interview);
        case Threw(thrown) =>
          questionError := Some(ErrorText(thrown));
      }
      isGenerating := false;
    }

    /** `handleExplanationContinue`, with the request's outcome as a parameter. */
    method HandleExplanationContinue(outcome: GenerationOutcome)
      modifies this, state
      ensures !isGenerating
      ensures state.userData == old(state.userData) && state.cookie == old(state.cookie)
      ensures outcome.Generated? ==>
        && interviewQuestions == outcome.questions && state.currentScreen == Interview
        && questionError == None
        && (state.userData.Some? && |outcome.questions| > 0 ==>
              Render() == InterviewView(state.userData.value, outcome.questions))
      ensures outcome.Threw? ==>
        && questionError == Some(ErrorText(outcome.thrown))
        && interviewQuestions == old(interviewQuestions) && state.currentScreen == old(state.currentScreen)
    {
      StartGeneration();
      FinishGeneration(outcome);
    }
  }
}
