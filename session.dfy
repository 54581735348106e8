/**
 * The tutor's session state (`st.session_state`, app.py lines 23-36) and the
 * actions that change it: generate a lesson (109-154), record the quiz
 * answers (167-177), submit (188-191), ask the tutor (215-243), play the
 * pending audio (245-247), clear the chat (249-252) and try another topic
 * (255-260).
 *
 * A `Session` value is a snapshot of the seven keys; the functions `After...`
 * give the snapshot each action leaves, and the class `SessionState` performs
 * the same actions by updating its fields in the order the script does.
 * The generative model is a function from prompt to reply, `None` standing
 * for a call that raised; `json.loads` and text-to-speech are functions too.
 */
module TutorSession {
  import opened Wrappers
  import opened PyStr
  import opened QuizReply
  import opened Grading
  import opened Prompts

  /** The keys of `st.session_state` the script uses. */
  datatype Key = ExplanationKey | McqsKey | SubmittedKey | UserAnswersKey | CurrentTopicKey | ChatHistoryKey | AudioAutoplayKey

  /** A snapshot of the session; `None` is Python's `None`. */
  datatype Session = Session(
    explanation: Option<string>,
    mcqs: Option<seq<Question>>,
    submitted: Option<bool>,
    userAnswers: Option<map<int, int>>,
    chatHistory: Option<seq<Message>>,
    currentTopic: Option<string>,
    audioAutoplay: Option<string>)

  /** Which branch the action took: it went through, it was refused with a
      warning, or a call it made raised. */
  datatype Outcome = Succeeded | Warned | Errored

  /** The state every key receives the first time the script runs. */
  function Initial(): Session {
    Session(None, None, Some(false), Some(map[]), Some([]), None, None)
  }

  /** What the actions keep true of the session: the explanation and the topic
      are present together, and once a quiz is present so are the flag, the
      answers (all of them for questions of that quiz) and the chat history. */
  predicate Consistent(s: Session) {
    && (s.explanation.Some? <==> s.currentTopic.Some?)
    && (s.mcqs.Some? ==>
          && s.explanation.Some? && s.submitted.Some? && s.userAnswers.Some? && s.chatHistory.Some?
          && AnswerKeysValid(s.mcqs.value, s.userAnswers.value))
  }

  /** The quiz and chat sections appear when `mcqs` is a non-empty list. */
  predicate QuizShown(s: Session) {
    s.mcqs.Some? && |s.mcqs.value| > 0
  }

  /** The submit button appears while the quiz is shown and not submitted. */
  predicate SubmitOffered(s: Session) {
    QuizShown(s) && s.submitted != Some(true)
  }

  /** The run gets past the quiz section (lines 164-195): once submitted, the
      verdict of line 183 raises `IndexError` for a wrongly answered question
      whose `correct_answer` does not index its options, and nothing after it
      is drawn. */
  predicate QuizSectionCompletes(s: Session) {
    QuizShown(s) && s.submitted == Some(true) && s.userAnswers.Some? ==>
      VerdictsRender(s.mcqs.value, s.userAnswers.value)
  }

  /** The score appears once the shown quiz is submitted, if the verdicts
      before it could all be drawn. */
  predicate ScoreShown(s: Session) {
    QuizShown(s) && s.submitted == Some(true) && QuizSectionCompletes(s)
  }

  /** The chat section (lines 199-252) is drawn below a shown quiz whose
      section completed. */
  predicate ChatShown(s: Session) {
    QuizShown(s) && QuizSectionCompletes(s)
  }

  /** The clear-chat button appears when the chat section shows a non-empty history. */
  predicate ClearChatOffered(s: Session) {
    ChatShown(s) && s.chatHistory.Some? && |s.chatHistory.value| > 0
  }

  /** The reset button appears, at the end of a run that got that far, when
      there is a non-empty explanation. */
  predicate ResetOffered(s: Session) {
    QuizSectionCompletes(s) && s.explanation.Some? && s.explanation.value != ""
  }

  lemma InitialIsConsistent()
    ensures Consistent(Initial()) && !QuizShown(Initial()) && !ResetOffered(Initial())
  {
  }

  // ---------------------------------------------------------------- generate

  /** Generate a lesson for `topic` (lines 109-154). Only the empty topic is
      refused. The explanation and topic are stored before the quiz is asked
      for, so a failure afterwards leaves them overwritten. */
  function AfterGenerate(s: Session, topic: string, model: string -> Option<string>,
                         decode: string -> Option<seq<Question>>): (Session, Outcome)
  {
    if topic == "" then (s, Warned)
    else
      match model(ExplanationPrompt(topic))
      case None => (s, Errored)
      case Some(text) =>
        var s1 := s.(explanation := Some(text), currentTopic := Some(topic));
        match model(QuizPrompt(topic))
        case None => (s1, Errored)
        case Some(reply) =>
          match decode(CleanQuizReply(reply))
          case None => (s1, Errored)
          case Some(quiz) =>
            (s1.(mcqs := Some(quiz), submitted := Some(false), userAnswers := Some(map[]), chatHistory := Some([])),
             Succeeded)
  }

  /** Only the empty topic is refused, and it changes nothing; a topic of
      blanks goes to the model. */
  lemma GenerateRefusesOnlyEmptyTopic(s: Session, topic: string, model: string -> Option<string>,
                                      decode: string -> Option<seq<Question>>)
    ensures AfterGenerate(s, topic, model, decode).1 == Warned <==> topic == ""
    ensures topic == "" ==> AfterGenerate(s, topic, model, decode).0 == s
  {
  }

  /** A successful generation stores the topic, the explanation and the decoded
      cleaned quiz reply, and starts a fresh quiz with no answers and no chat. */
  lemma GenerateSuccess(s: Session, topic: string, model: string -> Option<string>,
                        decode: string -> Option<seq<Question>>)
    ensures var (r, outcome) := AfterGenerate(s, topic, model, decode);
            outcome == Succeeded <==>
              && topic != ""
              && model(ExplanationPrompt(topic)).Some?
              && model(QuizPrompt(topic)).Some?
              && decode(CleanQuizReply(model(QuizPrompt(topic)).value)).Some?
    ensures var (r, outcome) := AfterGenerate(s, topic, model, decode);
            outcome == Succeeded ==>
              && r.currentTopic == Some(topic)
              && r.explanation == model(ExplanationPrompt(topic))
              && r.mcqs == decode(CleanQuizReply(model(QuizPrompt(topic)).value))
              && r.submitted == Some(false)
              && r.userAnswers == Some(map[])
              && r.chatHistory == Some([])
              && r.audioAutoplay == s.audioAutoplay
  {
  }

  /** Generation is not atomic: when it fails, the quiz, the flag, the answers,
      the chat and the audio keep their old values, but if the explanation
      call had succeeded the explanation and topic are already the new ones. */
  lemma GenerateFailureIsPartial(s: Session, topic: string, model: string -> Option<string>,
                                 decode: string -> Option<seq<Question>>)
    ensures var (r, outcome) := AfterGenerate(s, topic, model, decode);
            outcome == Errored ==>
              && r.mcqs == s.mcqs && r.submitted == s.submitted && r.userAnswers == s.userAnswers
              && r.chatHistory == s.chatHistory && r.audioAutoplay == s.audioAutoplay
              && (if model(ExplanationPrompt(topic)).None?
                  then r.explanation == s.explanation && r.currentTopic == s.currentTopic
                  else r.explanation == model(ExplanationPrompt(topic)) && r.currentTopic == Some(topic))
  {
  }

  /** A quiz call that fails after a new explanation arrived still changes
      the session: there is no rollback. */
  lemma FailedQuizKeepsNewExplanation(s: Session, topic: string, model: string -> Option<string>,
                                      decode: string -> Option<seq<Question>>)
    requires topic != "" && model(ExplanationPrompt(topic)).Some? && model(QuizPrompt(topic)).None?
    requires s.explanation != model(ExplanationPrompt(topic))
    ensures AfterGenerate(s, topic, model, decode).1 == Errored
    ensures AfterGenerate(s, topic, model, decode).0 != s
  {
  }

  /** Generation, successful or not, keeps the session consistent. */
  lemma GenerateKeepsConsistent(s: Session, topic: string, model: string -> Option<string>,
                                decode: string -> Option<seq<Question>>)
    requires Consistent(s)
    ensures Consistent(AfterGenerate(s, topic, model, decode).0)
  {
  }

  // ------------------------------------------------------------ quiz answers

  /** The answers chosen on the radio buttons of the first `n` questions. */
  function Chosen(choices: seq<int>, n: nat): (m: map<int, int>)
    requires n <= |choices|
    ensures forall i :: i in m <==> 0 <= i < n
  {
    map i | 0 <= i < n :: choices[i]
  }

  /** Record the selected option of every question (lines 167-177). */
  function AfterRecord(s: Session, choices: seq<int>): Session
    requires s.userAnswers.Some?
  {
    s.(userAnswers := Some(s.userAnswers.value + Chosen(choices, |choices|)))
  }

  /** After recording, the answers are exactly the current choices, one per
      question: every earlier key is overwritten because it names a question. */
  lemma RecordReplacesAnswers(s: Session, choices: seq<int>)
    requires Consistent(s) && QuizShown(s) && |choices| == |s.mcqs.value|
    ensures AfterRecord(s, choices).userAnswers == Some(Chosen(choices, |choices|))
    ensures Consistent(AfterRecord(s, choices))
  {
    var old_ := s.userAnswers.value;
    var chosen := Chosen(choices, |choices|);
    assert old_ + chosen == chosen by {
      assert (old_ + chosen).Keys == chosen.Keys;
    }
  }

  // ------------------------------------------------------------ submit/score

  /** Submit the quiz (lines 188-191). */
  function AfterSubmit(s: Session): Session {
    s.(submitted := Some(true))
  }

  /** Submitting is offered once and nothing but the flag changes. The score
      is shown afterwards exactly when every wrongly answered question's key
      indexes its options; otherwise the run stops at line 183, and neither the
      chat nor the reset button is drawn. */
  lemma SubmitShowsScore(s: Session)
    requires Consistent(s) && SubmitOffered(s)
    ensures !SubmitOffered(AfterSubmit(s))
    ensures ScoreShown(AfterSubmit(s)) <==> VerdictsRender(s.mcqs.value, s.userAnswers.value)
    ensures !VerdictsRender(s.mcqs.value, s.userAnswers.value) ==>
              !ChatShown(AfterSubmit(s)) && !ClearChatOffered(AfterSubmit(s)) && !ResetOffered(AfterSubmit(s))
    ensures AfterSubmit(s).(submitted := s.submitted) == s
    ensures Consistent(AfterSubmit(s))
  {
  }

  /** The score shown after submission (lines 193-195): a number of correct
      answers that never exceeds the number of questions. */
  function ShownScore(s: Session): (score: nat)
    requires Consistent(s) && ScoreShown(s)
    ensures score <= |s.mcqs.value|
    ensures score == CountTrue(Marks(s.mcqs.value, s.userAnswers.value))
  {
    Score(s.mcqs.value, s.userAnswers.value)
  }

  /** A one-question quiz with four options whose key is 7, answered with
      option 0 and submitted: line 183 evaluates `options[7]`, so the run
      shows no score, no chat and no reset button. */
  lemma OutOfRangeKeyStopsRun()
    ensures var q := Question("q", ["a", "b", "c", "d"], 7, "e");
            var s := Session(Some("x"), Some([q]), Some(false), Some(map[0 := 0]), Some([]), Some("t"), None);
            && Consistent(s) && SubmitOffered(s)
            && !ScoreShown(AfterSubmit(s)) && !ChatShown(AfterSubmit(s)) && !ResetOffered(AfterSubmit(s))
  {
    var q := Question("q", ["a", "b", "c", "d"], 7, "e");
    var s := Session(Some("x"), Some([q]), Some(false), Some(map[0 := 0]), Some([]), Some("t"), None);
    assert !VerdictsRender(AfterSubmit(s).mcqs.value, AfterSubmit(s).userAnswers.value) by {
      assert 0 !in map[0 := 0] || map[0 := 0][0] != q.correctAnswer;
      assert !(-|q.options| <= q.correctAnswer < |q.options|);
    }
  }

  // -------------------------------------------------------------------- chat

  /** The question text: recognised speech, when there is any, replaces what
      was typed (lines 215-219). */
  function ResolveQuestion(typed: string, recognised: Option<string>): (question: string)
    ensures question == typed || (recognised.Some? && question == recognised.value)
    ensures recognised.Some? && recognised.value != "" ==> question == recognised.value
    ensures question == "" ==> typed == ""
  {
    if recognised.Some? && recognised.value != "" then recognised.value else typed
  }

  /** A turn starts on the ask button, or on the voice button when it leaves
      some question text (line 221). */
  predicate AskTriggered(askClicked: bool, voiceClicked: bool, text: string) {
    askClicked || (voiceClicked && text != "")
  }

  /** A voice click that recognises nothing still starts a turn with the
      typed text, and one that recognises something starts a turn with it. */
  lemma SpeechOverridesTyping(typed: string, recognised: Option<string>)
    ensures recognised.Some? && recognised.value != "" ==> AskTriggered(false, true, ResolveQuestion(typed, recognised))
    ensures recognised.None? && typed != "" ==> AskTriggered(false, true, ResolveQuestion(typed, recognised))
  {
  }

  /** One chat turn for question text `text` (lines 221-243): the stripped
      question is appended before the model is called; on success the answer
      is appended too and its speech becomes the pending audio. */
  function AfterAsk(s: Session, text: string, model: string -> Option<string>,
                    speak: string -> Option<string>): (Session, Outcome)
    requires s.chatHistory.Some?
  {
    var question := Strip(text);
    if question == "" then (s, Warned)
    else
      var history := s.chatHistory.value + [Message(User, question)];
      match model(ChatPrompt(s.currentTopic, s.explanation, history, question))
      case None => (s.(chatHistory := Some(history)), Errored)
      case Some(answer) =>
        (s.(chatHistory := Some(history + [Message(Assistant, answer)]), audioAutoplay := speak(answer)),
         Succeeded)
  }

  /** A blank question only shows a warning. */
  lemma AskBlankIsNoOp(s: Session, text: string, model: string -> Option<string>,
                       speak: string -> Option<string>)
    requires s.chatHistory.Some?
    ensures AfterAsk(s, text, model, speak).1 == Warned <==> Strip(text) == ""
    ensures Strip(text) == "" ==> AfterAsk(s, text, model, speak).0 == s
  {
  }

  /** A turn with a real question: the model sees the header, the last (at
      most five) earlier entries in order and the question; the question stays
      in the history whether or not the model answers, and an answer makes the
      history grow by exactly two entries. */
  lemma AskTurn(s: Session, text: string, model: string -> Option<string>,
                speak: string -> Option<string>)
    requires s.chatHistory.Some? && Strip(text) != ""
    ensures var prior, q := s.chatHistory.value, Strip(text);
            var prompt := ContextHeader(s.currentTopic, s.explanation)
                          + Transcript(prior[Max(|prior| - 5, 0)..]) + QuestionTrailer(q);
            var (r, outcome) := AfterAsk(s, text, model, speak);
            && (outcome == Succeeded <==> model(prompt).Some?)
            && (outcome == Errored <==> model(prompt).None?)
            && r.chatHistory == Some(prior + [Message(User, q)]
                                     + (if model(prompt).Some? then [Message(Assistant, model(prompt).value)] else []))
            && (model(prompt).Some? ==> |r.chatHistory.value| == |prior| + 2 && r.audioAutoplay == speak(model(prompt).value))
            && (model(prompt).None? ==> |r.chatHistory.value| == |prior| + 1 && r.audioAutoplay == s.audioAutoplay)
            && r.(chatHistory := s.chatHistory, audioAutoplay := s.audioAutoplay) == s
  {
    var prior, q := s.chatHistory.value, Strip(text);
    var history := prior + [Message(User, q)];
    var prompt := ContextHeader(s.currentTopic, s.explanation)
                  + Transcript(prior[Max(|prior| - 5, 0)..]) + QuestionTrailer(q);
    PromptCarriesRecentTurns(s.currentTopic, s.explanation, prior, q);
    assert ChatPrompt(s.currentTopic, s.explanation, history, q) == prompt;
    match model(prompt)
    case None =>
      assert AfterAsk(s, text, model, speak) == (s.(chatHistory := Some(history)), Errored);
      assert history + [] == history;
    case Some(answer) =>
      assert AfterAsk(s, text, model, speak)
          == (s.(chatHistory := Some(history + [Message(Assistant, answer)]), audioAutoplay := speak(answer)), Succeeded);
  }

  /** A chat turn, answered or not, keeps the session consistent. */
  lemma AskKeepsConsistent(s: Session, text: string, model: string -> Option<string>,
                           speak: string -> Option<string>)
    requires Consistent(s) && s.chatHistory.Some?
    ensures Consistent(AfterAsk(s, text, model, speak).0)
  {
  }

  /** Playing the pending audio (lines 245-247) consumes it. */
  function AfterPlayAudio(s: Session): Session {
    if s.audioAutoplay.Some? && s.audioAutoplay.value != "" then s.(audioAutoplay := None) else s
  }

  /** Pending audio is played once: afterwards there is none, a second pass
      changes nothing, and no other key is touched. */
  lemma PlayAudioConsumes(s: Session)
    requires Consistent(s)
    ensures var r := AfterPlayAudio(s);
            && (r.audioAutoplay.None? || r.audioAutoplay == Some(""))
            && (r == s <==> s.audioAutoplay.None? || s.audioAutoplay == Some(""))
            && AfterPlayAudio(r) == r
            && r.(audioAutoplay := s.audioAutoplay) == s
            && Consistent(r)
  {
  }

  /** Clear the chat (lines 249-252). */
  function AfterClearChat(s: Session): Session {
    s.(chatHistory := Some([]))
  }

  /** Clearing the chat empties the history and leaves every other key alone;
      the button is then gone. */
  lemma ClearChatOnlyEmptiesHistory(s: Session)
    requires Consistent(s) && ClearChatOffered(s)
    ensures AfterClearChat(s).chatHistory == Some([]) && !ClearChatOffered(AfterClearChat(s))
    ensures AfterClearChat(s).(chatHistory := s.chatHistory) == s
    ensures Consistent(AfterClearChat(s))
  {
  }

  // ------------------------------------------------------------------- reset

  /** `st.session_state[key] = None`. */
  function ClearKey(s: Session, k: Key): Session {
    match k
    case ExplanationKey => s.(explanation := None)
    case McqsKey => s.(mcqs := None)
    case SubmittedKey => s.(submitted := None)
    case UserAnswersKey => s.(userAnswers := None)
    case CurrentTopicKey => s.(currentTopic := None)
    case ChatHistoryKey => s.(chatHistory := None)
    case AudioAutoplayKey => s.(audioAutoplay := None)
  }

  /** Setting each key of `keys` to `None`, in order. */
  function ClearKeys(s: Session, keys: seq<Key>): Session {
    if keys == [] then s else ClearKey(ClearKeys(s, keys[..|keys| - 1]), keys[|keys| - 1])
  }

  /** The keys "Try Another Topic" resets (line 258). */
  const ResetKeys: seq<Key> := [ExplanationKey, McqsKey, SubmittedKey, UserAnswersKey, CurrentTopicKey, ChatHistoryKey]

  /** "Try Another Topic" (lines 257-259): six keys become `None`; the pending
      audio is not among them. */
  function AfterReset(s: Session): (r: Session)
    ensures && r.explanation.None? && r.mcqs.None? && r.submitted.None?
            && r.userAnswers.None? && r.currentTopic.None? && r.chatHistory.None?
            && r.audioAutoplay == s.audioAutoplay
  {
    var r := ClearKeys(s, ResetKeys);
    ClearKeysSets(s, ResetKeys);
    assert IsNone(r, ExplanationKey) && IsNone(r, McqsKey) && IsNone(r, SubmittedKey);
    assert IsNone(r, UserAnswersKey) && IsNone(r, CurrentTopicKey) && IsNone(r, ChatHistoryKey);
    assert SameAt(r, s, AudioAutoplayKey);
    r
  }

  /** The value under key `k` is `None`. */
  predicate IsNone(s: Session, k: Key) {
    match k
    case ExplanationKey => s.explanation.None?
    case McqsKey => s.mcqs.None?
    case SubmittedKey => s.submitted.None?
    case UserAnswersKey => s.userAnswers.None?
    case CurrentTopicKey => s.currentTopic.None?
    case ChatHistoryKey => s.chatHistory.None?
    case AudioAutoplayKey => s.audioAutoplay.None?
  }

  /** The two sessions hold the same value under key `k`. */
  predicate SameAt(s: Session, t: Session, k: Key) {
    match k
    case ExplanationKey => s.explanation == t.explanation
    case McqsKey => s.mcqs == t.mcqs
    case SubmittedKey => s.submitted == t.submitted
    case UserAnswersKey => s.userAnswers == t.userAnswers
    case CurrentTopicKey => s.currentTopic == t.currentTopic
    case ChatHistoryKey => s.chatHistory == t.chatHistory
    case AudioAutoplayKey => s.audioAutoplay == t.audioAutoplay
  }

  /** Setting one key to `None` touches no other key. */
  lemma ClearKeyEffect(t: Session, k0: Key)
    ensures IsNone(ClearKey(t, k0), k0)
    ensures forall k :: k != k0 ==> SameAt(ClearKey(t, k0), t, k)
  {
  }

  /** After clearing `keys`, the listed keys are `None` and every other key
      keeps its old value. */
  lemma {:induction false} ClearKeysSets(s: Session, keys: seq<Key>)
    ensures forall k :: k in keys ==> IsNone(ClearKeys(s, keys), k)
    ensures forall k :: k !in keys ==> SameAt(ClearKeys(s, keys), s, k)
    decreases |keys|
  {
    if keys != [] {
      var init, last := keys[..|keys| - 1], keys[|keys| - 1];
      var mid := ClearKeys(s, init);
      ClearKeysSets(s, init);
      ClearKeyEffect(mid, last);
      forall k | k in keys
        ensures IsNone(ClearKeys(s, keys), k)
      {
        if k != last {
          assert k in init by { assert keys == init + [last]; }
        }
      }
      forall k | k !in keys
        ensures SameAt(ClearKeys(s, keys), s, k)
      {
        assert k !in init && k != last by { assert keys == init + [last]; }
      }
    }
  }

  /** Reset writes `None` where the first run wrote `False`, `{}` and `[]`, so
      it does not return to the initial state; the result is consistent and
      shows neither the quiz nor the reset button. */
  lemma ResetClearsSixKeys(s: Session)
    ensures AfterReset(s) != Initial()
    ensures Consistent(AfterReset(s)) && !QuizShown(AfterReset(s)) && !ResetOffered(AfterReset(s))
  {
  }

  // ------------------------------------------------------------------ object

  /** `st.session_state`, updated in place by the script's actions. */
  class SessionState {
    var explanation: Option<string>
    var mcqs: Option<seq<Question>>
    var submitted: Option<bool>
    var userAnswers: Option<map<int, int>>
    var chatHistory: Option<seq<Message>>
    var currentTopic: Option<string>
    var audioAutoplay: Option<string>

    function State(): Session
      reads this
    {
      Session(explanation, mcqs, submitted, userAnswers, chatHistory, currentTopic, audioAutoplay)
    }

    ghost predicate Valid()
      reads this
    {
      Consistent(State())
    }

    /** The first run initialises every key (lines 23-36). */
    constructor ()
      ensures State() == Initial() && Valid()
    {
      explanation := None;
      mcqs := None;
      submitted := Some(false);
      userAnswers := Some(map[]);
      chatHistory := Some([]);
      currentTopic := None;
      audioAutoplay := None;
    }

    /** Lines 118-119: the explanation and the topic are stored. */
    method StoreExplanation(text: string, topic: string)
      modifies this
      ensures State() == old(State()).(explanation := Some(text), currentTopic := Some(topic))
    {
      explanation := Some(text);
      currentTopic := Some(topic);
    }

    /** Lines 143-146: the decoded quiz is stored and a fresh attempt begins. */
    method StartQuiz(quiz: seq<Question>)
      modifies this
      ensures State() == old(State()).(mcqs := Some(quiz), submitted := Some(false),
                                       userAnswers := Some(map[]), chatHistory := Some([]))
    {
      mcqs := Some(quiz);
      submitted := Some(false);
      userAnswers := Some(map[]);
      chatHistory := Some([]);
    }

    method GenerateLesson(topic: string, model: string -> Option<string>,
                          decode: string -> Option<seq<Question>>) returns (outcome: Outcome)
      requires Valid()
      modifies this
      ensures Valid()
      ensures State() == AfterGenerate(old(State()), topic, model, decode).0
      ensures outcome == AfterGenerate(old(State()), topic, model, decode).1
    {
      GenerateKeepsConsistent(State(), topic, model, decode);
      if topic == "" {
        return Warned;
      }
      var explanationReply := model(ExplanationPrompt(topic));
      if explanationReply.None? {
        return Errored;
      }
      StoreExplanation(explanationReply.value, topic);
      var quizReply := model(QuizPrompt(topic));
      if quizReply.None? {
        return Errored;
      }
      var parsed := decode(CleanQuizReply(quizReply.value));
      if parsed.None? {
        return Errored;
      }
      StartQuiz(parsed.value);
      return Succeeded;
    }

    method RecordAnswers(choices: seq<int>)
      requires Valid() && QuizShown(State()) && |choices| == |mcqs.value|
      modifies this
      ensures Valid()
      ensures State() == AfterRecord(old(State()), choices)
    {
      RecordReplacesAnswers(State(), choices);
      var quiz := mcqs.value;
      assert old(userAnswers).value + Chosen(choices, 0) == old(userAnswers).value;
      for idx := 0 to |quiz|
        invariant userAnswers.Some?
        invariant State() == old(State()).(userAnswers := Some(old(userAnswers).value + Chosen(choices, idx)))
      {
        userAnswers := Some(userAnswers.value[idx := choices[idx]]);
        assert old(userAnswers).value + Chosen(choices, idx + 1)
            == (old(userAnswers).value + Chosen(choices, idx))[idx := choices[idx]];
      }
    }

    method SubmitQuiz()
      requires Valid() && SubmitOffered(State())
      modifies this
      ensures Valid()
      ensures State() == AfterSubmit(old(State()))
    {
      SubmitShowsScore(State());
      submitted := Some(true);
    }

    method Ask(text: string, model: string -> Option<string>, speak: string -> Option<string>)
      returns (outcome: Outcome)
      requires Valid() && ChatShown(State())
      modifies this
      ensures Valid()
      ensures (State(), outcome) == AfterAsk(old(State()), text, model, speak)
    {
      AskKeepsConsistent(State(), text, model, speak);
      var question := Strip(text);
      if question == "" {
        return Warned;
      }
      chatHistory := Some(chatHistory.value + [Message(User, question)]);
      var prompt := BuildChatPrompt(currentTopic, explanation, chatHistory.value, question);
      var reply := model(prompt);
      if reply.None? {
        return Errored;
      }
      chatHistory := Some(chatHistory.value + [Message(Assistant, reply.value)]);
      audioAutoplay := speak(reply.value);
      return Succeeded;
    }

    method PlayAudio()
      requires Valid() && ChatShown(State())
      modifies this
      ensures Valid()
      ensures State() == AfterPlayAudio(old(State()))
    {
      if audioAutoplay.Some? && audioAutoplay.value != "" {
        audioAutoplay := None;
      }
    }

    method ClearChat()
      requires Valid() && ClearChatOffered(State())
      modifies this
      ensures Valid()
      ensures State() == AfterClearChat(old(State()))
    {
      ClearChatOnlyEmptiesHistory(State());
      chatHistory := Some([]);
    }

    method SetNone(k: Key)
      modifies this
      ensures State() == ClearKey(old(State()), k)
    {
      match k
      case ExplanationKey => explanation := None;
      case McqsKey => mcqs := None;
      case SubmittedKey => submitted := None;
      case UserAnswersKey => userAnswers := None;
      case CurrentTopicKey => currentTopic := None;
      case ChatHistoryKey => chatHistory := None;
      case AudioAutoplayKey => audioAutoplay := None;
    }

    method Reset()
      requires Valid() && ResetOffered(State())
      modifies this
      ensures Valid()
      ensures State() == AfterReset(old(State()))
    {
      ResetClearsSixKeys(State());
      for j := 0 to |ResetKeys|
        invariant State() == ClearKeys(old(State()), ResetKeys[..j])
      {
        assert ResetKeys[..j + 1][..j] == ResetKeys[..j];
        SetNone(ResetKeys[j]);
      }
      assert ResetKeys[..|ResetKeys|] == ResetKeys;
    }
  }
}
