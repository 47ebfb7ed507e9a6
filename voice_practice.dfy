/** The voice practice component (src/voicepractice.jsx): the recognised
    transcript replaces the response, which is then compared with the
    expected answer. */
module VoicePractice {
  import opened Wrappers
  import opened PracticeQuestion

  class VoiceQuestion {
    const question: Question
    var userResponse: string

    constructor (q: Question)
      ensures question == q && userResponse == ""
    {
      question := q;
      userResponse := "";
    }

    /** `handleListen`. Without `webkitSpeechRecognition` nothing changes;
        otherwise a recognition result (`None` when none arrives) replaces
        the response. */
    method Listen(supported: bool, transcript: Option<string>)
      modifies this
      ensures userResponse == if supported && transcript.Some? then transcript.value else old(userResponse)
    {
      if !supported {
        return;
      }
      if transcript.Some? {
        userResponse := transcript.value;
      }
    }

    /** The Submit button: disabled while the response is empty; otherwise
        `onSubmit` with the case-insensitive comparison, or nothing when
        the question has no expected answer and `toLowerCase` throws. */
    method Submit() returns (submitted: Option<bool>)
      ensures userResponse == "" ==> submitted == None
      ensures userResponse != "" ==> submitted == AnswerMatches(userResponse, question.expectedAnswer)
    {
      if userResponse == "" {
        return None;
      }
      submitted := AnswerMatches(userResponse, question.expectedAnswer);
    }
  }

  /** Two recognitions in a row: the second transcript is the response, the
      first is not kept. */
  method ListenTwice(q: Question, first: string, second: string) returns (response: string)
    ensures response == second
  {
    var v := new VoiceQuestion(q);
    v.Listen(true, Some(first));
    v.Listen(true, Some(second));
    response := v.userResponse;
  }
}
