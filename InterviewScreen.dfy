/**
 * The interview screen's answer stepper: the text box `message`, the index of
 * the question on screen, and the array of answers. Sending stores the message
 * in the current slot, clears the box and moves to the next question, except
 * on the last question, where the index stays and a later send overwrites.
 */
module InterviewScreen {
  import opened Wrappers
  import opened JsText
  import opened Domain

  /**
   * A JavaScript array of strings; `None` is a hole, which the array gets
   * when a slot past its end is assigned.
   */
  type Responses = seq<Option<string>>

  /** `a[i] = v` on a JavaScript array. */
  function JsAssign(a: Responses, i: nat, v: string): (r: Responses)
    ensures |r| == if i < |a| then |a| else i + 1
    ensures r[i] == Some(v)
    ensures forall k :: 0 <= k < |a| && k != i ==> r[k] == a[k]
    ensures forall k :: |a| <= k < i ==> r[k] == None
  {
    if i < |a| then a[i := Some(v)] else a + seq(i - |a|, _ => None) + [Some(v)]
  }

  /** No holes: the answers were filled one slot after another. */
  predicate Dense(a: Responses) {
    forall k :: 0 <= k < |a| ==> a[k].Some?
  }

  /** `questions[currentQuestionIndex] || null`. */
  function CurrentQuestion(questions: seq<Question>, index: nat): (q: Option<Question>)
    ensures q.None? <==> index >= |questions|
    ensures q.Some? ==> q.value == questions[index]
  {
    if index < |questions| then Some(questions[index]) else None
  }

  datatype Stepper = Stepper(index: nat, responses: Responses, message: string)

  /** The state when the screen mounts. */
  const Initial := Stepper(0, [], "")

  /**
   * The state the handlers keep, for `n` questions: the index stays on a
   * question, the answers have no holes and reach the current slot or one
   * past it, and never outnumber the questions.
   */
  predicate Inv(s: Stepper, n: nat) {
    && (n == 0 ==> s.index == 0 && s.responses == [])
    && (n > 0 ==> s.index <= n - 1)
    && (|s.responses| == s.index || |s.responses| == s.index + 1)
    && |s.responses| <= n
    && Dense(s.responses)
  }

  /** The message box would be sent: non-blank text and a question on screen. */
  predicate CanSend(s: Stepper, n: nat) {
    Trim(s.message) != "" && s.index < n
  }

  /** `handleSendMessage` for `n` questions. */
  function Send(s: Stepper, n: nat): (r: Stepper)
    ensures !CanSend(s, n) ==> r == s
    ensures CanSend(s, n) ==>
      && r.message == ""
      && |r.responses| == (if s.index < |s.responses| then |s.responses| else s.index + 1)
      && r.responses[s.index] == Some(s.message)
      && (forall k :: 0 <= k < |s.responses| && k != s.index ==> r.responses[k] == s.responses[k])
      && (r.index == s.index + 1 <==> s.index < n - 1)
      && (r.index == s.index <==> s.index == n - 1)
    ensures Inv(s, n) ==> Inv(r, n)
  {
    if CanSend(s, n) then
      Stepper(if s.index < n - 1 then s.index + 1 else s.index, JsAssign(s.responses, s.index, s.message), "")
    else s
  }

  /** The textarea's `onChange`: only the message changes. */
  function Type(s: Stepper, text: string): Stepper {
    s.(message := text)
  }

  /** Typing each answer in turn and sending it. */
  function Answer(s: Stepper, answers: seq<string>, n: nat): Stepper
    decreases |answers|
  {
    if answers == [] then s
    else Send(Type(Answer(s, answers[..|answers| - 1], n), answers[|answers| - 1]), n)
  }

  function Min(a: int, b: int): int {
    if a < b then a else b
  }

  /** A blank message is never sent, whatever is on screen. */
  lemma BlankMessageIgnored(s: Stepper, n: nat)
    requires Blank(s.message)
    ensures Send(s, n) == s
  {
  }

  /**
   * Answering `k` non-blank messages from the start with `n > 0` questions
   * leaves the index at `min(k, n - 1)` and `min(k, n)` answers: answer `i`
   * in slot `i` below the last question, and in the last slot the latest
   * message once the last question has been reached.
   */
  lemma {:induction false} AnswersFromStart(answers: seq<string>, n: nat)
    requires n > 0
    requires forall i :: 0 <= i < |answers| ==> !Blank(answers[i])
    ensures var s := Answer(Initial, answers, n);
      && Inv(s, n)
      && s.index == Min(|answers|, n - 1)
      && |s.responses| == Min(|answers|, n)
      && (forall i :: 0 <= i < Min(|answers|, n - 1) ==> s.responses[i] == Some(answers[i]))
      && (|answers| >= n ==> s.responses[n - 1] == Some(answers[|answers| - 1]))
      && s.message == ""
    decreases |answers|
  {
    if answers != [] {
      var prefix := answers[..|answers| - 1];
      var last := answers[|answers| - 1];
      AnswersFromStart(prefix, n);
      var p := Answer(Initial, prefix, n);
      var t := Type(p, last);
      assert CanSend(t, n);
      forall i | 0 <= i < Min(|answers|, n - 1)
        ensures Answer(Initial, answers, n).responses[i] == Some(answers[i])
      {
        if i < |prefix| && i != p.index { assert answers[i] == prefix[i]; }
      }
    }
  }

  /** A second send on the last question replaces the stored answer and leaves the rest. */
  lemma LastAnswerOverwritten(s: Stepper, n: nat, again: string)
    requires Inv(s, n) && n > 0 && s.index == n - 1 && |s.responses| == n
    requires !Blank(again)
    ensures var r := Send(Type(s, again), n);
      && r.index == n - 1 && |r.responses| == n
      && r.responses[n - 1] == Some(again)
      && r.responses[..n - 1] == s.responses[..n - 1]
  {
  }

  /** With at least one question, a reachable state always has a question on screen. */
  lemma QuestionAlwaysShown(questions: seq<Question>, s: Stepper)
    requires |questions| > 0 && Inv(s, |questions|)
    ensures CurrentQuestion(questions, s.index) == Some(questions[s.index])
  {
  }

  /** The screen component's state. */
  class InterviewSession {
    const questions: seq<Question>
    var currentIndex: nat
    var responses: Responses
    var message: string

    function State(): Stepper
      reads this
    {
      Stepper(currentIndex, responses, message)
    }

    constructor (questions: seq<Question>)
      ensures this.questions == questions
      ensures State() == Initial && Inv(State(), |questions|)
    {
      this.questions := questions;
      currentIndex := 0;
      responses := [];
      message := "";
    }

    /** The textarea's `onChange`. */
    method SetMessage(text: string)
      modifies this
      ensures State() == Type(old(State()), text)
    {
      message := text;
    }

    method HandleSendMessage()
      modifies this
      ensures State() == Send(old(State()), |questions|)
    {
      if Trim(message) != "" && CurrentQuestion(questions, currentIndex).Some? {
        var newResponses := JsAssign(responses, currentIndex, message);
        responses := newResponses;
        if currentIndex < |questions| - 1 {
          currentIndex := currentIndex + 1;
        }
        message := "";
      }
    }

    /** Enter without Shift sends (and suppresses the newline); any other key does nothing here. */
    method HandleKeyPress(key: string, shiftKey: bool) returns (preventDefault: bool)
      modifies this
      ensures preventDefault <==> key == "Enter" && !shiftKey
      ensures State() == if preventDefault then Send(old(State()), |questions|) else old(State())
    {
      preventDefault := key == "Enter" && !shiftKey;
      if preventDefault {
        HandleSendMessage();
      }
    }
  }
}
