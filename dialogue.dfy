/**
  The conversation history of app.py and the two request handlers that append
  to it. The history is one global list of turns, seeded with a system turn and
  only ever appended to. The chat model and the speech service are oracles
  passed in as functions: `generate` answers a conversation with a text or
  fails, `synthesize` turns a text into audio and speech marks or fails.
 */
module Dialogue {
  import opened Wrappers
  import opened Text
  import opened Aligner
  import opened Interpreter

  datatype Role = System | User | Assistant

  datatype Turn = Turn(role: Role, content: string)

  const SystemPrompt := "You are a helpful assistant. After each response, you will receive a list of terms the user didn't understand. Please explain these terms in simpler language. If there are no such terms, you can continue the conversation normally."

  const SystemTurn := Turn(System, SystemPrompt)

  /** What `text_to_speech` returns: the base64 audio (None when the service
      returned no audio stream) and the word speech marks. */
  datatype Speech = Speech(audio: Option<string>, marks: seq<SpeechMark>)

  /** The global `conversation_history`. */
  class ConversationHistory {
    var turns: seq<Turn>

    /** The seeded system turn is always first. */
    predicate Valid()
      reads this
    {
      |turns| >= 1 && turns[0] == SystemTurn
    }

    constructor()
      ensures turns == [SystemTurn]
      ensures Valid()
    {
      turns := [SystemTurn];
    }

    /** `conversation_history.append(turn)`. */
    method Append(t: Turn)
      requires Valid()
      modifies this
      ensures turns == old(turns) + [t]
      ensures Valid()
    {
      turns := turns + [t];
    }
  }

  // ---------------------------------------------------------------------------
  // What each handler returns, and the history it leaves, as functions of the
  // history before the call.

  /** A handler's result together with the history after it. */
  datatype Step<R> = Step(result: R, turns: seq<Turn>)

  /** The JSON body of `get_response`: the annotated reply and its audio, or an
      error (sent with status 500). */
  datatype Reply = Responded(chatgptResponse: string, audioData: Option<string>) | ServerError(error: string)

  const GenerationError := "Failed to get response from ChatGPT"
  const SynthesisError := "Failed to convert text to speech"

  /** `get_response`: the user turn is appended before the model is asked, the
      model's answer before speech is synthesized. */
  function PrimaryTurn(before: seq<Turn>, userInput: string,
                       generate: seq<Turn> -> Option<string>,
                       synthesize: string -> Option<Speech>): Step<Reply>
  {
    var withUser := before + [Turn(User, userInput)];
    match generate(withUser)
    case None => Step(ServerError(GenerationError), withUser)
    case Some(response) =>
      var withAnswer := withUser + [Turn(Assistant, response)];
      match synthesize(response)
      case None => Step(ServerError(SynthesisError), withAnswer)
      case Some(speech) => Step(Responded(Annotate(response, speech.marks), speech.audio), withAnswer)
  }

  /** The dictionary `process_comprehension_feedback` returns when it explains. */
  datatype Explanation = Explanation(explanation: string, audioData: Option<string>)

  /** `process_comprehension_feedback`: None for unparsable scores, a length
      mismatch, no low-scored word, or a failed explanation; a failed synthesis
      still explains, without audio and without timestamps. */
  function FeedbackTurn(before: seq<Turn>, raw: seq<Option<int>>, assistantResponse: string,
                        generate: seq<Turn> -> Option<string>,
                        synthesize: string -> Option<Speech>): Step<Option<Explanation>>
  {
    match Interpret(raw, assistantResponse)
    case Failure(_) => Step(None, before)
    case Success(terms) =>
      if terms == [] then Step(None, before)
      else
        var withRequest := before + [Turn(User, FeedbackMessage(terms))];
        match generate(withRequest)
        case None => Step(None, withRequest)
        case Some(explanation) =>
          var withAnswer := withRequest + [Turn(Assistant, explanation)];
          match synthesize(explanation)
          case None => Step(Some(Explanation(Annotate(explanation, []), None)), withAnswer)
          case Some(speech) => Step(Some(Explanation(Annotate(explanation, speech.marks), speech.audio)), withAnswer)
  }

  /** The JSON body of `submit_comprehension_feedback`. */
  datatype FeedbackReply = FeedbackReply(status: string, explanation: Option<string>, audioData: Option<string>)

  /** Folds "no explanation" into null fields; the status is always "success". */
  function FeedbackResponse(result: Option<Explanation>): (reply: FeedbackReply)
    ensures reply.status == "success"
    ensures reply.explanation.Some? <==> result.Some?
    ensures result.None? ==> reply.audioData.None?
    ensures result.Some? ==> reply.explanation.value == result.value.explanation && reply.audioData == result.value.audioData
  {
    match result
    case None => FeedbackReply("success", None, None)
    case Some(e) => FeedbackReply("success", Some(e.explanation), e.audioData)
  }

  // ---------------------------------------------------------------------------
  // The handlers, against the global history.

  method GetResponse(h: ConversationHistory, userInput: string,
                     generate: seq<Turn> -> Option<string>,
                     synthesize: string -> Option<Speech>) returns (reply: Reply)
    requires h.Valid()
    modifies h
    ensures h.Valid()
    ensures Step(reply, h.turns) == PrimaryTurn(old(h.turns), userInput, generate, synthesize)
  {
    h.Append(Turn(User, userInput));
    var chatgptResponse := generate(h.turns);
    if chatgptResponse.None? {
      return ServerError(GenerationError);
    }
    h.Append(Turn(Assistant, chatgptResponse.value));
    var speech := synthesize(chatgptResponse.value);
    if speech.None? {
      return ServerError(SynthesisError);
    }
    var responseWithTimestamps := AddTimestampsToText(chatgptResponse.value, speech.value.marks);
    reply := Responded(responseWithTimestamps, speech.value.audio);
  }

  method ProcessComprehensionFeedback(h: ConversationHistory, wordComprehension: seq<Option<int>>,
                                      assistantResponse: string,
                                      generate: seq<Turn> -> Option<string>,
                                      synthesize: string -> Option<Speech>) returns (result: Option<Explanation>)
    requires h.Valid()
    modifies h
    ensures h.Valid()
    ensures Step(result, h.turns) == FeedbackTurn(old(h.turns), wordComprehension, assistantResponse, generate, synthesize)
  {
    var scores := CoerceScores(wordComprehension);
    if scores.None? {
      return None;
    }
    var words := RemoveTimestamps(assistantResponse);
    if |scores.value| != |words| {
      return None;
    }
    var problematicWords := SelectBelow(words, scores.value);
    if problematicWords == [] {
      return None;
    }
    h.Append(Turn(User, FeedbackMessage(problematicWords)));
    var explanationResponse := generate(h.turns);
    if explanationResponse.None? {
      return None;
    }
    h.Append(Turn(Assistant, explanationResponse.value));
    var speech := synthesize(explanationResponse.value);
    var audioBase64: Option<string> := None;
    var speechMarks: seq<SpeechMark> := [];
    if speech.Some? {
      audioBase64, speechMarks := speech.value.audio, speech.value.marks;
    }
    var explanationWithTimestamps := AddTimestampsToText(explanationResponse.value, speechMarks);
    result := Some(Explanation(explanationWithTimestamps, audioBase64));
  }

  method SubmitComprehensionFeedback(h: ConversationHistory, wordComprehension: seq<Option<int>>,
                                     assistantResponse: string,
                                     generate: seq<Turn> -> Option<string>,
                                     synthesize: string -> Option<Speech>) returns (reply: FeedbackReply)
    requires h.Valid()
    modifies h
    ensures h.Valid()
    ensures var step := FeedbackTurn(old(h.turns), wordComprehension, assistantResponse, generate, synthesize);
      reply == FeedbackResponse(step.result) && h.turns == step.turns
  {
    var result := ProcessComprehensionFeedback(h, wordComprehension, assistantResponse, generate, synthesize);
    reply := FeedbackResponse(result);
  }

  // ---------------------------------------------------------------------------
  // How the history grows.

  /** The primary turn appends the user turn and, when the model answers, the
      answer; the user turn stays when the model fails, and both stay when only
      the speech synthesis fails. */
  lemma PrimaryGrowth(before: seq<Turn>, userInput: string,
                      generate: seq<Turn> -> Option<string>, synthesize: string -> Option<Speech>)
    ensures var step, withUser := PrimaryTurn(before, userInput, generate, synthesize), before + [Turn(User, userInput)];
      && step.turns[..|withUser|] == withUser
      && (generate(withUser).None? ==> step.turns == withUser)
      && (generate(withUser).Some? ==> step.turns == withUser + [Turn(Assistant, generate(withUser).value)])
  {
  }

  /** Each error of the primary turn is reported exactly when its service fails. */
  lemma PrimaryErrors(before: seq<Turn>, userInput: string,
                      generate: seq<Turn> -> Option<string>, synthesize: string -> Option<Speech>)
    ensures var step, withUser := PrimaryTurn(before, userInput, generate, synthesize), before + [Turn(User, userInput)];
      && (step.result == ServerError(GenerationError) <==> generate(withUser).None?)
      && (step.result == ServerError(SynthesisError) <==>
            generate(withUser).Some? && synthesize(generate(withUser).value).None?)
      && (step.result.Responded? <==> |step.turns| == |before| + 2 && synthesize(step.turns[|before| + 1].content).Some?)
  {
  }

  /**
    The reply and the history agree: when no bare word of the answer looks
    timestamped, stripping the reply's timestamps gives back exactly the words
    of the answer now stored as the last turn.
   */
  lemma PrimaryReplyRoundTrip(before: seq<Turn>, userInput: string,
                              generate: seq<Turn> -> Option<string>, synthesize: string -> Option<Speech>)
    requires PrimaryTurn(before, userInput, generate, synthesize).result.Responded?
    requires var answer := generate(before + [Turn(User, userInput)]).value;
      var marks := synthesize(answer).value.marks;
      && (forall k :: 0 <= k < |marks| ==> marks[k].time >= 0)
      && (forall i :: |marks| <= i < |Split(answer)| ==> !HasTimestamp(Split(answer)[i]))
    ensures var step := PrimaryTurn(before, userInput, generate, synthesize);
      && step.turns[|step.turns| - 1].role == Assistant
      && RecoveredWords(step.result.chatgptResponse) == Split(step.turns[|step.turns| - 1].content)
  {
    var answer := generate(before + [Turn(User, userInput)]).value;
    RoundTrip(answer, synthesize(answer).value.marks);
  }

  /** The feedback turn leaves the history as it was exactly when the scores
      do not parse, their count is wrong, or no word scored below the
      threshold; it then explains nothing. */
  lemma FeedbackUnchangedIff(before: seq<Turn>, raw: seq<Option<int>>, assistantResponse: string,
                             generate: seq<Turn> -> Option<string>, synthesize: string -> Option<Speech>)
    ensures var step, selection := FeedbackTurn(before, raw, assistantResponse, generate, synthesize), Interpret(raw, assistantResponse);
      && (step.turns == before <==> selection.Failure? || selection.value == [])
      && (step.turns == before ==> step.result.None?)
  {
  }

  /**
    With words to explain, the history gains exactly one user turn asking about
    them, then the explanation if the model gives one; an explanation is
    returned exactly when the model answers.
   */
  lemma FeedbackGrowth(before: seq<Turn>, raw: seq<Option<int>>, assistantResponse: string,
                       generate: seq<Turn> -> Option<string>, synthesize: string -> Option<Speech>)
    requires Interpret(raw, assistantResponse).Success? && Interpret(raw, assistantResponse).value != []
    ensures var step, terms := FeedbackTurn(before, raw, assistantResponse, generate, synthesize), Interpret(raw, assistantResponse).value;
      var withRequest := before + [Turn(User, FeedbackMessage(terms))];
      && step.turns[..|withRequest|] == withRequest
      && (generate(withRequest).None? ==> step.turns == withRequest && step.result.None?)
      && (generate(withRequest).Some? ==>
            step.turns == withRequest + [Turn(Assistant, generate(withRequest).value)] && step.result.Some?)
  {
  }

  /**
    The request the feedback turn adds names the low-scored words of the
    annotated reply, each once per low score and in the reply's order.
   */
  lemma FeedbackRequestNamesTerms(before: seq<Turn>, raw: seq<Option<int>>, assistantResponse: string,
                                  generate: seq<Turn> -> Option<string>, synthesize: string -> Option<Speech>)
    requires Interpret(raw, assistantResponse).Success? && Interpret(raw, assistantResponse).value != []
    ensures var step, terms := FeedbackTurn(before, raw, assistantResponse, generate, synthesize), Interpret(raw, assistantResponse).value;
      && |step.turns| > |before|
      && step.turns[|before|].role == User
      && Split(step.turns[|before|].content) ==
           Split(FeedbackPrefix) + Punctuated(terms) + Split(FeedbackSuffix[1..])
  {
    var terms := Interpret(raw, assistantResponse).value;
    var step := FeedbackTurn(before, raw, assistantResponse, generate, synthesize);
    FeedbackGrowth(before, raw, assistantResponse, generate, synthesize);
    assert step.turns[|before|] == Turn(User, FeedbackMessage(terms));
    SelectedTermsAreWords(raw, assistantResponse);
    FeedbackMessageWords(terms);
  }

  /**
    The explanation returned is the annotation of the answer stored as the last
    turn; when synthesis fails it carries no audio and every word is bare.
   */
  lemma FeedbackExplanation(before: seq<Turn>, raw: seq<Option<int>>, assistantResponse: string,
                            generate: seq<Turn> -> Option<string>, synthesize: string -> Option<Speech>)
    requires FeedbackTurn(before, raw, assistantResponse, generate, synthesize).result.Some?
    ensures var step := FeedbackTurn(before, raw, assistantResponse, generate, synthesize);
      var answer := step.turns[|step.turns| - 1];
      && answer.role == Assistant
      && (synthesize(answer.content).Some? ==>
            step.result.value == Explanation(Annotate(answer.content, synthesize(answer.content).value.marks),
                                             synthesize(answer.content).value.audio))
      && (synthesize(answer.content).None? ==>
            step.result.value == Explanation(JoinWith(" ", Split(answer.content)), None))
  {
    var step := FeedbackTurn(before, raw, assistantResponse, generate, synthesize);
    AnnotateWithoutMarks(step.turns[|step.turns| - 1].content);
  }

  // ---------------------------------------------------------------------------
  // A sequence of requests.

  datatype Request = Chat(userInput: string) | Feedback(wordComprehension: seq<Option<int>>, assistantResponse: string)

  /** The history after serving `requests` one after another. */
  function Serve(turns: seq<Turn>, requests: seq<Request>,
                 generate: seq<Turn> -> Option<string>, synthesize: string -> Option<Speech>): seq<Turn>
    decreases |requests|
  {
    if requests == [] then turns
    else
      var next := match requests[0]
        case Chat(u) => PrimaryTurn(turns, u, generate, synthesize).turns
        case Feedback(raw, a) => FeedbackTurn(turns, raw, a, generate, synthesize).turns;
      Serve(next, requests[1..], generate, synthesize)
  }

  /** One request appends at most two turns and changes none. */
  lemma RequestAppends(turns: seq<Turn>, r: Request,
                       generate: seq<Turn> -> Option<string>, synthesize: string -> Option<Speech>)
    ensures var after := Serve(turns, [r], generate, synthesize);
      |turns| <= |after| <= |turns| + 2 && after[..|turns|] == turns
  {
  }

  /**
    The history is append-only: whatever requests are served, the earlier turns
    stay in place, in order, and the seeded system turn stays first.
   */
  lemma {:induction false} ServeAppendOnly(turns: seq<Turn>, requests: seq<Request>,
                                           generate: seq<Turn> -> Option<string>, synthesize: string -> Option<Speech>)
    ensures var after := Serve(turns, requests, generate, synthesize);
      && |turns| <= |after| <= |turns| + 2 * |requests|
      && after[..|turns|] == turns
      && (|turns| >= 1 && turns[0] == SystemTurn ==> after[0] == SystemTurn)
    decreases |requests|
  {
    if requests != [] {
      var next := Serve(turns, [requests[0]], generate, synthesize);
      RequestAppends(turns, requests[0], generate, synthesize);
      assert Serve(turns, requests, generate, synthesize) == Serve(next, requests[1..], generate, synthesize);
      ServeAppendOnly(next, requests[1..], generate, synthesize);
      var after := Serve(next, requests[1..], generate, synthesize);
      assert after[..|turns|] == after[..|next|][..|turns|];
    }
  }
}
